/**
  `GenerateDefaultArgMethod(iFirstDefault)`: the overload that takes the
  first `iFirstDefault` parameters and forwards to the full method, passing
  defaults for the rest.
 */
module Forwarding {
  import opened Wrappers
  import opened PySyntax
  import opened CodeModel

  /** How many elements LINQ's `Take(n)` keeps of a list of length `len`. */
  function TakeCount(n: int, len: nat): (k: nat)
    ensures n < 0 ==> k == 0
    ensures 0 <= n < len ==> k == n
    ensures len <= n ==> k == len
  {
    if n < 0 then 0 else if n < len then n else len
  }

  /** The overload's parameter list: the first `iFirstDefault` source
      parameters, each typed `object`, with its name and vararg flag and
      without a default. */
  function ForwardParams(args: seq<Parameter>, iFirstDefault: int): (r: seq<ParamDecl>)
    ensures |r| == TakeCount(iFirstDefault, |args|)
    ensures forall i :: 0 <= i < |r| ==>
              r[i] == ParamDecl(ObjectType, args[i].name, args[i].vararg, None)
  {
    seq(TakeCount(iFirstDefault, |args|), i requires 0 <= i < |args| =>
      ParamDecl(ObjectType, args[i].name, args[i].vararg, None))
  }

  /** The argument passed at position `i` of the forwarded call. */
  function ForwardArg(args: seq<Parameter>, i: nat, iFirstDefault: int): CodeExpr
    requires i < |args|
  {
    if i < iFirstDefault || args[i].test.None? then VarRef(args[i].name)
    else Translated(args[i].test.value)
  }

  /** The forwarded call's arguments: one per source parameter, in source order. */
  function ForwardArgs(args: seq<Parameter>, iFirstDefault: int): (r: seq<CodeExpr>)
    ensures |r| == |args|
    ensures forall i :: 0 <= i < |args| ==>
              (r[i].VarRef? <==> (i < iFirstDefault || args[i].test.None?))
    ensures forall i :: 0 <= i < |args| && r[i].VarRef? ==> r[i].name == args[i].name
    ensures forall i :: 0 <= i < |args| && !r[i].VarRef? ==> r[i] == Translated(args[i].test.value)
  {
    seq(|args|, i requires 0 <= i < |args| => ForwardArg(args, i, iFirstDefault))
  }

  /** The overload's body: one statement returning the call of the full method. */
  function ForwardBody(fnName: string, args: seq<Parameter>, iFirstDefault: int): seq<Stmt>
  {
    [Return(Appl(VarRef(fnName), ForwardArgs(args, iFirstDefault)))]
  }

  /** References to the overload's own parameters, in order: what the
      overload hands on when called. */
  function ParamRefs(parms: seq<ParamDecl>): (r: seq<CodeExpr>)
    ensures |r| == |parms| && forall i :: 0 <= i < |parms| ==> r[i] == VarRef(parms[i].name)
  {
    seq(|parms|, i requires 0 <= i < |parms| => VarRef(parms[i].name))
  }

  /**
    Strict positional binding, as a reference: calling a function whose
    parameters are `params` with the positional arguments `actuals` binds
    each parameter to the argument at its position or, past the last one,
    to its default; a parameter left without either, or an argument left
    without a parameter, is an error (`None`). For plain parameters (no
    `*args`, no `**kwargs`) this is Python's positional binding; Python
    would bind an unmatched `*args` or `**kwargs` to an empty collection,
    which this binding treats as a missing argument.
   */
  function Bind(params: seq<Parameter>, actuals: seq<CodeExpr>): Option<seq<CodeExpr>>
    decreases params
  {
    if params == [] then (if actuals == [] then Some([]) else None)
    else
      var first: Option<CodeExpr> :=
        if actuals != [] then Some(actuals[0])
        else match params[0].test
             case Some(e) => Some(Translated(e))
             case None => None;
      var rest := Bind(params[1..], if actuals != [] then actuals[1..] else []);
      if first.Some? && rest.Some? then Some([first.value] + rest.value) else None
  }

  /** The binding succeeds exactly when every parameter past the given
      arguments has a default, and then binds positions as described. */
  lemma {:induction false} BindSpec(params: seq<Parameter>, actuals: seq<CodeExpr>)
    requires |actuals| <= |params|
    ensures Bind(params, actuals).Some?
        <==> forall i :: |actuals| <= i < |params| ==> params[i].test.Some?
    ensures Bind(params, actuals).Some? ==>
              var b := Bind(params, actuals).value;
              && |b| == |params|
              && (forall i :: 0 <= i < |actuals| ==> b[i] == actuals[i])
              && (forall i :: |actuals| <= i < |params| ==> b[i] == Translated(params[i].test.value))
    decreases params
  {
    if params != [] {
      var tail := if actuals != [] then actuals[1..] else [];
      BindSpec(params[1..], tail);
      if Bind(params, actuals).Some? {
        var b := Bind(params, actuals).value;
        var r := Bind(params[1..], tail).value;
        assert b == [b[0]] + r;
        forall i | 0 < i < |params|
          ensures b[i] == if i < |actuals| then actuals[i] else Translated(params[i].test.value)
        {
          assert b[i] == r[i - 1];
          assert params[1..][i - 1] == params[i];
        }
      }
      if forall i :: |actuals| <= i < |params| ==> params[i].test.Some? {
        assert forall i :: |tail| <= i < |params[1..]| ==> params[1..][i] == params[i + 1];
      } else {
        var i :| |actuals| <= i < |params| && params[i].test.None?;
        if i > 0 {
          assert params[1..][i - 1] == params[i];
        }
      }
    }
  }

  /**
    The forwarding overload's call lists, in source order, what a strict
    positional call with only its own arguments would bind: when every
    parameter past the overload's has a default, argument `i` of the call is
    exactly the value that binding gives `args[i]`. The full method declares
    its parameters in sort order, not source order, so these values reach the
    parameters they are meant for only when the sort keeps source order
    (`ForwardedArgumentsAlign` in the generator).
   */
  lemma ForwardingMatchesBinding(args: seq<Parameter>, iFirstDefault: int)
    requires forall i :: TakeCount(iFirstDefault, |args|) <= i < |args| ==> args[i].test.Some?
    ensures Bind(args, ParamRefs(ForwardParams(args, iFirstDefault))) == Some(ForwardArgs(args, iFirstDefault))
  {
    var refs := ParamRefs(ForwardParams(args, iFirstDefault));
    BindSpec(args, refs);
    var b := Bind(args, refs).value;
    var f := ForwardArgs(args, iFirstDefault);
    assert b == f;
  }

  /** Where a parameter at or past `iFirstDefault` has no default, strict
      binding rejects the overload's call (as Python does when that parameter
      is plain), yet the overload is generated and passes a reference to that
      parameter's name, which is none of the overload's parameters when the
      source names are distinct: nothing checks that the defaults form a
      trailing run. */
  lemma DanglingReference(args: seq<Parameter>, iFirstDefault: int, i: nat)
    requires forall s, t :: 0 <= s < t < |args| ==> args[s].name != args[t].name
    requires 0 <= iFirstDefault <= i < |args| && args[i].test.None?
    ensures Bind(args, ParamRefs(ForwardParams(args, iFirstDefault))).None?
    ensures ForwardArgs(args, iFirstDefault)[i] == VarRef(args[i].name)
    ensures forall t :: 0 <= t < |ForwardParams(args, iFirstDefault)| ==>
              ForwardParams(args, iFirstDefault)[t].name != args[i].name
  {
    BindSpec(args, ParamRefs(ForwardParams(args, iFirstDefault)));
  }

  /** The common `*args` case: for `def f(a, b=1, *args)` and
      `iFirstDefault = 1`, the only parameter past the overload's without a
      default is `*args`, which Python would bind to `()`, so `f(a)` is a
      valid Python call; yet the overload declares only `a` and its call
      passes a reference to `args`. */
  lemma VarargOverloadDangles()
    ensures var args := [Parameter("a", None, NoTuple, false, false),
                         Parameter("b", Some(Exp("1")), NoTuple, false, false),
                         Parameter("args", None, NoTuple, true, false)];
            && (forall i :: 1 <= i < |args| && args[i].test.None? ==> args[i].vararg)
            && ForwardParams(args, 1) == [ParamDecl(ObjectType, "a", false, None)]
            && ForwardArgs(args, 1) == [VarRef("a"), Translated(Exp("1")), VarRef("args")]
  {
  }
}
