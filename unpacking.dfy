/**
  `GenerateTupleParameterUnpackers`: for each tuple parameter, one `object`
  local per named top-level component, read from `ItemN` of the parameter's
  placeholder. The declarations are listed here in the order they are made;
  each is inserted at the front of the method body, so the body ends up
  with them reversed.
 */
module Unpacking {
  import opened PySyntax
  import opened CodeModel

  /** The declaration made for component `p` read from position `i` (1-based)
      of `path`: none for a discarded component. */
  function UnpackOne(p: Parameter, i: nat, path: CodeExpr): seq<Stmt>
  {
    if p.name == Discard then [] else [VarDecl(ObjectType, p.name, TupleItem(path, i))]
  }

  /** The declarations made for the first `n` components of one tuple
      parameter, in the order they are made; component `k` (0-based) is read
      from `Item(k+1)`. */
  function UnpackComponents(comps: seq<Parameter>, path: CodeExpr, n: nat): seq<Stmt>
    requires n <= |comps|
  {
    if n == 0 then [] else UnpackComponents(comps, path, n - 1) + UnpackOne(comps[n - 1], n, path)
  }

  /** The number of components among the first `n` that are not discarded. */
  function NamedCount(comps: seq<Parameter>, n: nat): nat
    requires n <= |comps|
  {
    if n == 0 then 0 else NamedCount(comps, n - 1) + (if comps[n - 1].name == Discard then 0 else 1)
  }

  /** The lookup table holds every tuple parameter. */
  ghost predicate CoversTuples(args: seq<Parameter>, table: map<nat, ParamDecl>)
  {
    forall j :: 0 <= j < |args| && args[j].tuple.TupleOf? ==> j in table
  }

  /** The declarations made by the source parameter at index `j`: those of
      its components when it is a tuple, read from its placeholder. */
  function UnpackParameter(args: seq<Parameter>, table: map<nat, ParamDecl>, j: nat): seq<Stmt>
    requires CoversTuples(args, table) && j < |args|
  {
    match args[j].tuple
    case TupleOf(comps) => UnpackComponents(comps, VarRef(table[j].name), |comps|)
    case NoTuple => []
  }

  /** The body after the declarations for the first `n` components were
      inserted one by one at its front: the last one made comes first. */
  function InsertComponents(comps: seq<Parameter>, path: CodeExpr, n: nat, body: seq<Stmt>): seq<Stmt>
    requires n <= |comps|
  {
    if n == 0 then body else UnpackOne(comps[n - 1], n, path) + InsertComponents(comps, path, n - 1, body)
  }

  /** The body after the declarations for the source parameter at index `j`
      were inserted at its front. */
  function InsertParameter(args: seq<Parameter>, table: map<nat, ParamDecl>, j: nat, body: seq<Stmt>): seq<Stmt>
    requires CoversTuples(args, table) && j < |args|
  {
    match args[j].tuple
    case TupleOf(comps) => InsertComponents(comps, VarRef(table[j].name), |comps|, body)
    case NoTuple => body
  }

  /** The body after the declarations for the first `n` source parameters
      were inserted, parameter after parameter. */
  function InsertAll(args: seq<Parameter>, table: map<nat, ParamDecl>, n: nat, body: seq<Stmt>): seq<Stmt>
    requires CoversTuples(args, table) && n <= |args|
  {
    if n == 0 then body else InsertParameter(args, table, n - 1, InsertAll(args, table, n - 1, body))
  }

  /** Parts joined in order: the first `n` of them, first part first. */
  function Flatten<T>(parts: seq<seq<T>>, n: nat): seq<T>
    requires n <= |parts|
  {
    if n == 0 then [] else Flatten(parts, n - 1) + parts[n - 1]
  }

  /** The declarations of each source parameter, by index. */
  function UnpackParts(args: seq<Parameter>, table: map<nat, ParamDecl>): (r: seq<seq<Stmt>>)
    requires CoversTuples(args, table)
    ensures |r| == |args|
  {
    seq(|args|, j requires 0 <= j < |args| => UnpackParameter(args, table, j))
  }

  /** The declarations for all tuple parameters, in the order they are made:
      source order, and component order within a tuple. */
  function UnpackAll(args: seq<Parameter>, table: map<nat, ParamDecl>): seq<Stmt>
    requires CoversTuples(args, table)
  {
    Flatten(UnpackParts(args, table), |args|)
  }

  /** The declaration of component `k` of tuple parameter `j`. */
  function ComponentDecl(args: seq<Parameter>, table: map<nat, ParamDecl>, j: nat, k: nat): Stmt
    requires j < |args| && j in table && args[j].tuple.TupleOf? && k < |args[j].tuple.components|
  {
    VarDecl(ObjectType, args[j].tuple.components[k].name, TupleItem(VarRef(table[j].name), k + 1))
  }

  /** `s` back to front. */
  function Reversed<T>(s: seq<T>): (r: seq<T>)
    ensures |r| == |s|
  {
    seq(|s|, k requires 0 <= k < |s| => s[|s| - 1 - k])
  }

  /** One declaration per component whose name is not `_`. */
  lemma {:induction false} UnpackComponentsCount(comps: seq<Parameter>, path: CodeExpr, n: nat)
    requires n <= |comps|
    ensures |UnpackComponents(comps, path, n)| == NamedCount(comps, n)
  {
    if n > 0 {
      UnpackComponentsCount(comps, path, n - 1);
    }
  }

  /** The named component `k` is declared from `Item(k+1)`, after the named
      components before it, so discarded components still use up a position. */
  lemma {:induction false} UnpackComponentsAt(comps: seq<Parameter>, path: CodeExpr, n: nat, k: nat)
    requires n <= |comps| && k < n && comps[k].name != Discard
    ensures NamedCount(comps, k) < |UnpackComponents(comps, path, n)|
    ensures UnpackComponents(comps, path, n)[NamedCount(comps, k)]
         == VarDecl(ObjectType, comps[k].name, TupleItem(path, k + 1))
  {
    UnpackComponentsCount(comps, path, n - 1);
    if k < n - 1 {
      UnpackComponentsAt(comps, path, n - 1, k);
    }
  }

  /** Every declaration made for a tuple is that of one of its named components. */
  lemma {:induction false} UnpackComponentsOnly(comps: seq<Parameter>, path: CodeExpr, n: nat, d: Stmt)
    requires n <= |comps| && d in UnpackComponents(comps, path, n)
    ensures exists k :: 0 <= k < n && comps[k].name != Discard
              && d == VarDecl(ObjectType, comps[k].name, TupleItem(path, k + 1))
  {
    if d in UnpackComponents(comps, path, n - 1) {
      UnpackComponentsOnly(comps, path, n - 1, d);
    } else {
      assert d in UnpackOne(comps[n - 1], n, path);
    }
  }

  /** Each element of a part is in the joined parts. */
  lemma {:induction false} FlattenIncludes<T>(parts: seq<seq<T>>, n: nat, j: nat, x: T)
    requires j < n <= |parts| && x in parts[j]
    ensures x in Flatten(parts, n)
  {
    if j != n - 1 {
      FlattenIncludes(parts, n - 1, j, x);
    }
  }

  /** Each element of the joined parts comes from one of them. */
  lemma {:induction false} FlattenOnly<T>(parts: seq<seq<T>>, n: nat, x: T)
    requires n <= |parts| && x in Flatten(parts, n)
    ensures exists j :: 0 <= j < n && x in parts[j]
  {
    if x !in parts[n - 1] {
      FlattenOnly(parts, n - 1, x);
    }
  }

  /** Every named component of a tuple parameter is among its declarations. */
  lemma UnpackParameterContains(args: seq<Parameter>, table: map<nat, ParamDecl>, j: nat, k: nat)
    requires CoversTuples(args, table)
    requires j < |args| && args[j].tuple.TupleOf? && k < |args[j].tuple.components|
    requires args[j].tuple.components[k].name != Discard
    ensures ComponentDecl(args, table, j, k) in UnpackParameter(args, table, j)
  {
    var comps := args[j].tuple.components;
    UnpackComponentsAt(comps, VarRef(table[j].name), |comps|, k);
  }

  /** Every named top-level component of every tuple parameter is declared. */
  lemma UnpackAllContains(args: seq<Parameter>, table: map<nat, ParamDecl>, j: nat, k: nat)
    requires CoversTuples(args, table)
    requires j < |args| && args[j].tuple.TupleOf? && k < |args[j].tuple.components|
    requires args[j].tuple.components[k].name != Discard
    ensures ComponentDecl(args, table, j, k) in UnpackAll(args, table)
  {
    UnpackParameterContains(args, table, j, k);
    FlattenIncludes(UnpackParts(args, table), |args|, j, ComponentDecl(args, table, j, k));
  }

  /** Nothing else is declared: only tuple parameters contribute, and each
      declaration is that of a named top-level component. */
  lemma UnpackAllOnly(args: seq<Parameter>, table: map<nat, ParamDecl>, d: Stmt)
    requires CoversTuples(args, table) && d in UnpackAll(args, table)
    ensures exists j, k :: 0 <= j < |args| && args[j].tuple.TupleOf? && 0 <= k < |args[j].tuple.components|
              && args[j].tuple.components[k].name != Discard && d == ComponentDecl(args, table, j, k)
  {
    FlattenOnly(UnpackParts(args, table), |args|, d);
    var j :| 0 <= j < |args| && d in UnpackParts(args, table)[j];
    var comps := args[j].tuple.components;
    UnpackComponentsOnly(comps, VarRef(table[j].name), |comps|, d);
    var k :| 0 <= k < |comps| && comps[k].name != Discard
            && d == VarDecl(ObjectType, comps[k].name, TupleItem(VarRef(table[j].name), k + 1));
    assert d == ComponentDecl(args, table, j, k);
  }

  /** A run of at most one element reads the same both ways. */
  lemma ReversedShort<T>(s: seq<T>)
    requires |s| <= 1
    ensures Reversed(s) == s
  {
  }

  /** Putting the reverse of `u2` in front of a body that already starts
      with the reverse of `u1` gives the reverse of `u1 + u2` in front. */
  lemma ReversedOnto<T>(rest: seq<T>, u1: seq<T>, u2: seq<T>, body: seq<T>)
    requires rest == Reversed(u1) + body
    ensures Reversed(u2) + rest == Reversed(u1 + u2) + body
  {
  }

  /** Inserting the declarations of one tuple parameter at the front one by
      one leaves them in reverse order of making, before the old body. */
  lemma {:induction false} InsertComponentsReversed(comps: seq<Parameter>, path: CodeExpr, n: nat, body: seq<Stmt>)
    requires n <= |comps|
    ensures InsertComponents(comps, path, n, body) == Reversed(UnpackComponents(comps, path, n)) + body
  {
    if n > 0 {
      var one := UnpackOne(comps[n - 1], n, path);
      InsertComponentsReversed(comps, path, n - 1, body);
      ReversedShort(one);
      ReversedOnto(InsertComponents(comps, path, n - 1, body), UnpackComponents(comps, path, n - 1), one, body);
    } else {
      assert UnpackComponents(comps, path, 0) == [];
    }
  }

  /** The same for the declarations of the source parameter at index `j`. */
  lemma InsertParameterReversed(args: seq<Parameter>, table: map<nat, ParamDecl>, j: nat, body: seq<Stmt>)
    requires CoversTuples(args, table) && j < |args|
    ensures InsertParameter(args, table, j, body) == Reversed(UnpackParameter(args, table, j)) + body
  {
    match args[j].tuple
    case TupleOf(comps) =>
      InsertComponentsReversed(comps, VarRef(table[j].name), |comps|, body);
    case NoTuple =>
      assert Reversed<Stmt>([]) + body == body;
  }

  /** After the first `n` source parameters, the body starts with all their
      declarations in reverse order of making. */
  lemma {:induction false} InsertAllReversed(args: seq<Parameter>, table: map<nat, ParamDecl>, n: nat, body: seq<Stmt>)
    requires CoversTuples(args, table) && n <= |args|
    ensures InsertAll(args, table, n, body) == Reversed(Flatten(UnpackParts(args, table), n)) + body
  {
    if n > 0 {
      var rest := InsertAll(args, table, n - 1, body);
      InsertAllReversed(args, table, n - 1, body);
      InsertParameterReversed(args, table, n - 1, rest);
      ReversedOnto(rest, Flatten(UnpackParts(args, table), n - 1), UnpackParameter(args, table, n - 1), body);
    } else {
      assert Reversed<Stmt>([]) + body == body;
    }
  }

  /** What the unpackers leave: every declaration, in reverse order of
      making, in front of the old body. */
  lemma InsertAllIsReversed(args: seq<Parameter>, table: map<nat, ParamDecl>, body: seq<Stmt>)
    requires CoversTuples(args, table)
    ensures InsertAll(args, table, |args|, body) == Reversed(UnpackAll(args, table)) + body
  {
    InsertAllReversed(args, table, |args|, body);
  }
}
