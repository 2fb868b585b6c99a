/**
  The method generator for one Python function definition: it converts the
  parameter list, builds the method through the code-generation facade,
  prepends the tuple-unpacking declarations and can build the forwarding
  overload for default arguments.
 */
module Generator {
  import opened Wrappers
  import opened PySyntax
  import opened CodeModel
  import opened ParameterOrder
  import opened Conversion
  import opened Unpacking
  import opened Forwarding

  /** `ToDictionary` over the first `n` pairs: each visited source index
      mapped to the declaration made at the same position. */
  function Dictionary(order: seq<nat>, parms: seq<ParamDecl>, n: nat): map<nat, ParamDecl>
    requires n <= |order| && n <= |parms|
  {
    if n == 0 then map[] else Dictionary(order, parms, n - 1)[order[n - 1] := parms[n - 1]]
  }

  /** The dictionary holds only visited source indices. */
  lemma {:induction false} DictionaryKeys(order: seq<nat>, parms: seq<ParamDecl>, n: nat)
    requires n <= |order| && n <= |parms|
    ensures forall j :: j in Dictionary(order, parms, n) ==> exists t :: 0 <= t < n && order[t] == j
  {
    if n > 0 {
      DictionaryKeys(order, parms, n - 1);
    }
  }

  /** Over an order that visits each index once, the dictionary holds every
      visited source index and maps it to exactly its own declaration. */
  lemma {:induction false} DictionaryLookup(order: seq<nat>, parms: seq<ParamDecl>, n: nat)
    requires n <= |order| && n <= |parms|
    requires forall s, t :: 0 <= s < t < |order| ==> order[s] != order[t]
    ensures forall t :: 0 <= t < n ==> order[t] in Dictionary(order, parms, n)
                                       && Dictionary(order, parms, n)[order[t]] == parms[t]
  {
    if n > 0 {
      DictionaryLookup(order, parms, n - 1);
    }
  }

  /** Over a permutation of the source indices, the dictionary holds exactly
      the source indices, each mapped to the declaration made at its position. */
  lemma DictionaryOfPermutation(args: seq<Parameter>, order: seq<nat>, parms: seq<ParamDecl>)
    requires IsPermutation(args, order) && |parms| == |order|
    ensures forall j: nat :: j in Dictionary(order, parms, |order|) <==> j < |args|
    ensures forall t :: 0 <= t < |order| ==> Dictionary(order, parms, |order|)[order[t]] == parms[t]
  {
    DictionaryKeys(order, parms, |order|);
    DictionaryLookup(order, parms, |order|);
    forall j: nat | j < |args|
      ensures j in Dictionary(order, parms, |order|)
    {
      assert j in order;
      var t :| 0 <= t < |order| && order[t] == j;
    }
  }

  /** The declaration made at position `t` has the kind of the parameter
      visited there, keeps its name unless it is a tuple, and is `params`
      only for a vararg parameter. */
  lemma ConvertedKeepsKind(args: seq<Parameter>, order: seq<nat>, start: nat, names: (string, nat) -> string, t: nat)
    requires InRange(args, order) && t < |order|
    ensures DeclKind(Converted(args, order, |order|, start, names)[t]) == SourceKind(args[order[t]])
    ensures args[order[t]].tuple.NoTuple? ==> Converted(args, order, |order|, start, names)[t].name == args[order[t]].name
    ensures Converted(args, order, |order|, start, names)[t].isVarargs ==> args[order[t]].vararg
  {
    ConvertedAt(args, order, |order|, start, names, t);
  }

  /** Looked up through the table, each source parameter's declaration has
      the source parameter's kind, and a parameter that is not a tuple keeps
      its name. */
  lemma TableKeepsKinds(args: seq<Parameter>, start: nat, names: (string, nat) -> string)
    ensures var order := SortedOrder(args);
            var table := Dictionary(order, Converted(args, order, |order|, start, names), |order|);
            forall j :: 0 <= j < |args| ==>
              && j in table && DeclKind(table[j]) == SourceKind(args[j])
              && (args[j].tuple.NoTuple? ==> table[j].name == args[j].name)
  {
    var order := SortedOrder(args);
    var parms := Converted(args, order, |order|, start, names);
    SortedOrderIsStableSort(args);
    DictionaryOfPermutation(args, order, parms);
    forall j | 0 <= j < |args|
      ensures j in Dictionary(order, parms, |order|)
      ensures DeclKind(Dictionary(order, parms, |order|)[j]) == SourceKind(args[j])
      ensures args[j].tuple.NoTuple? ==> Dictionary(order, parms, |order|)[j].name == args[j].name
    {
      assert j in order;
      var t :| 0 <= t < |order| && order[t] == j;
      ConvertedKeepsKind(args, order, start, names, t);
    }
  }

  /** In the generated parameter list, a `params` declaration is followed
      only by declarations made for vararg parameters. */
  lemma VarargsDeclaredLast(args: seq<Parameter>, start: nat, names: (string, nat) -> string)
    ensures var order := SortedOrder(args);
            var parms := Converted(args, order, |order|, start, names);
            forall s, t :: 0 <= s < t < |parms| && parms[s].isVarargs ==> args[order[t]].vararg
  {
    var order := SortedOrder(args);
    var parms := Converted(args, order, |order|, start, names);
    SortedOrderIsStableSort(args);
    forall s, t | 0 <= s < t < |parms| && parms[s].isVarargs
      ensures args[order[t]].vararg
    {
      ConvertedKeepsKind(args, order, start, names, s);
    }
  }

  /** The sort puts every parameter back at its own position exactly when no
      vararg parameter is declared before a non-vararg one. */
  lemma SortKeepsPositions(args: seq<Parameter>)
    ensures |SortedOrder(args)| == |args|
    ensures (forall t :: 0 <= t < |args| ==> SortedOrder(args)[t] == t)
        <==> forall s, t :: 0 <= s < t < |args| && args[s].vararg ==> args[t].vararg
  {
    PositionsCount(args);
    SortedOrderIsSourceOrder(args);
    if forall t :: 0 <= t < |args| ==> SortedOrder(args)[t] == t {
      assert SortedOrder(args) == SourceOrder(|args|);
    }
  }

  /**
    The forwarding overload passes its arguments in source order (argument
    `t` is meant for `args[t]`), while the full method declares its
    parameters in sort order (parameter `t` is the one made for
    `args[SortedOrder(args)[t]]`). The two line up at every position
    exactly when no vararg parameter is declared before a non-vararg one.
   */
  lemma ForwardedArgumentsAlign(args: seq<Parameter>, iFirstDefault: int, start: nat, names: (string, nat) -> string)
    ensures var order := SortedOrder(args);
            var full := Converted(args, order, |order|, start, names);
            && |ForwardArgs(args, iFirstDefault)| == |full| == |args|
            && (forall t :: 0 <= t < |args| ==>
                  && DeclKind(full[t]) == SourceKind(args[order[t]])
                  && (args[order[t]].tuple.NoTuple? ==> full[t].name == args[order[t]].name))
            && ((forall t :: 0 <= t < |args| ==> order[t] == t)
                <==> forall s, t :: 0 <= s < t < |args| && args[s].vararg ==> args[t].vararg)
  {
    var order := SortedOrder(args);
    SortKeepsPositions(args);
    forall t | 0 <= t < |args|
      ensures DeclKind(Converted(args, order, |order|, start, names)[t]) == SourceKind(args[order[t]])
      ensures args[order[t]].tuple.NoTuple? ==> Converted(args, order, |order|, start, names)[t].name == args[order[t]].name
    {
      ConvertedKeepsKind(args, order, start, names, t);
    }
  }

  /** The parameter list of `def f(a, *args, **kw)`. */
  const VarargKeywordArgs := [Parameter("a", None, NoTuple, false, false),
                              Parameter("args", None, NoTuple, true, false),
                              Parameter("kw", None, NoTuple, false, true)]

  /** The sort moves `*args` behind `**kw`. */
  lemma VarargKeywordOrder()
    ensures SortedOrder(VarargKeywordArgs) == [0, 2, 1]
  {
    var args := VarargKeywordArgs;
    var s1, s2 := args[..1], args[..2];
    assert s1[..0] == [] && s2[..1] == s1;
    assert Positions(s1, false) == [0] && Positions(s1, true) == [];
    assert Positions(s2, false) == [0] && Positions(s2, true) == [1];
  }

  /** For `def f(a, *args, **kw)` and `iFirstDefault = 3`, the overload
      passes `a, args, kw` in that order, but the full method declares
      `a, kw, args`: `kw` receives the positional tuple and `args` the
      keyword table. */
  lemma VarargKeywordSwap(start: nat, names: (string, nat) -> string)
    ensures SortedOrder(VarargKeywordArgs) == [0, 2, 1]
    ensures ForwardArgs(VarargKeywordArgs, 3) == [VarRef("a"), VarRef("args"), VarRef("kw")]
    ensures Converted(VarargKeywordArgs, [0, 2, 1], 3, start, names)[1] == ParamDecl(HashtableType, "kw", false, None)
    ensures Converted(VarargKeywordArgs, [0, 2, 1], 3, start, names)[2] == ParamDecl(ObjectType, "args", true, None)
  {
    var args := VarargKeywordArgs;
    VarargKeywordOrder();
    ConvertedAt(args, [0, 2, 1], 3, start, names, 1);
    ConvertedAt(args, [0, 2, 1], 3, start, names, 2);
    var f := ForwardArgs(args, 3);
    assert f[0] == VarRef("a") && f[1] == VarRef("args") && f[2] == VarRef("kw");
  }

  class MethodGenerator {
    const fnName: string
    const args: seq<Parameter>
    const isStatic: bool
    /** The statements the statement translator emits for the function body. */
    const body: seq<Stmt>
    const gen: CodeGenerator
    const gensym: SymbolGenerator
    /** Source parameter (by index in `args`) to its generated declaration. */
    var mpPyParamToCs: map<nat, ParamDecl>

    constructor (fnName: string, args: seq<Parameter>, isStatic: bool, body: seq<Stmt>,
                 gen: CodeGenerator, names: (string, nat) -> string)
      ensures this.fnName == fnName && this.args == args && this.isStatic == isStatic
      ensures this.body == body && this.gen == gen
      ensures fresh(gensym) && gensym.names == names && gensym.next == 0
      ensures mpPyParamToCs == map[]
    {
      this.fnName := fnName;
      this.args := args;
      this.isStatic := isStatic;
      this.body := body;
      this.gen := gen;
      this.gensym := new SymbolGenerator(names);
      mpPyParamToCs := map[];
    }

    /** `Generate()`: convert the parameters, then build the method. */
    method Generate() returns (m: CodeMemberMethod)
      modifies this, gen, gensym
      ensures fresh(m)
      ensures m.name == fnName && m.isStatic == isStatic
      ensures m.parameters == Converted(args, SortedOrder(args), |SortedOrder(args)|, old(gensym.next), gensym.names)
      ensures forall j: nat :: j in mpPyParamToCs <==> j < |args|
      ensures forall t :: 0 <= t < |m.parameters| ==>
                SortedOrder(args)[t] in mpPyParamToCs && mpPyParamToCs[SortedOrder(args)[t]] == m.parameters[t]
      ensures CoversTuples(args, mpPyParamToCs)
      ensures m.statements == Reversed(UnpackAll(args, mpPyParamToCs)) + body
      ensures gen.members == old(gen.members) + [m]
      ensures gen.imports == ImportsFor(args, SortedOrder(args), |SortedOrder(args)|, old(gen.imports))
      ensures gensym.next == old(gensym.next) + TupleCount(args, SortedOrder(args), |SortedOrder(args)|)
    {
      var parms := CreateFunctionParameters(args);
      m := GenerateFrom(parms);
    }

    /** `Generate(parms)`: build the method around the translated body, then
        insert the tuple-unpacking declarations in front of it. */
    method GenerateFrom(parms: seq<ParamDecl>) returns (m: CodeMemberMethod)
      requires CoversTuples(args, mpPyParamToCs)
      modifies gen
      ensures fresh(m)
      ensures m.name == fnName && m.isStatic == isStatic && m.parameters == parms
      ensures m.statements == Reversed(UnpackAll(args, mpPyParamToCs)) + body
      ensures gen.members == old(gen.members) + [m] && gen.imports == old(gen.imports)
    {
      if isStatic {
        m := gen.StaticMethod(fnName, parms, body);
      } else {
        m := gen.Method(fnName, parms, body);
      }
      GenerateTupleParameterUnpackers(m);
      InsertAllIsReversed(args, mpPyParamToCs, body);
    }

    /** `GenerateTupleParameterUnpackers`: for each tuple parameter in source
        order, the declarations of its components. */
    method GenerateTupleParameterUnpackers(m: CodeMemberMethod)
      requires CoversTuples(args, mpPyParamToCs)
      modifies m
      ensures m.statements == InsertAll(args, mpPyParamToCs, |args|, old(m.statements))
    {
      var table := mpPyParamToCs;
      var j := 0;
      while j < |args|
        invariant 0 <= j <= |args|
        invariant m.statements == InsertAll(args, table, j, old(m.statements))
      {
        var parameter := args[j];
        if parameter.tuple.TupleOf? {
          var csTupleParam := table[j];
          var tuplePath := VarRef(csTupleParam.name);
          GenerateComponentUnpackers(parameter.tuple.components, tuplePath, m);
        }
        j := j + 1;
      }
    }

    /** The inner loop of `GenerateTupleParameterUnpackers`: the components of
        one tuple parameter, numbered from 1, read from `tuplePath`. */
    method GenerateComponentUnpackers(comps: seq<Parameter>, tuplePath: CodeExpr, m: CodeMemberMethod)
      modifies m
      ensures m.statements == InsertComponents(comps, tuplePath, |comps|, old(m.statements))
    {
      var i := 0;
      while i < |comps|
        invariant 0 <= i <= |comps|
        invariant m.statements == InsertComponents(comps, tuplePath, i, old(m.statements))
      {
        GenerateTupleParameterUnpacker(comps[i], i + 1, tuplePath, m);
        i := i + 1;
      }
    }

    /** `GenerateTupleParameterUnpacker`: declare component `p` from
        `Item(i)` of `tuplePath`, at index 0 of the body, unless it is `_`. */
    method GenerateTupleParameterUnpacker(p: Parameter, i: nat, tuplePath: CodeExpr, m: CodeMemberMethod)
      modifies m
      ensures m.statements == UnpackOne(p, i, tuplePath) + old(m.statements)
    {
      if p.name == Discard {
        return;
      }
      m.InsertFirst(VarDecl(ObjectType, p.name, TupleItem(tuplePath, i)));
    }

    /** `CreateFunctionParameters`: convert the parameters in the order of
        `OrderBy(ta => ta.vararg)` and remember which source parameter
        became which declaration. */
    method CreateFunctionParameters(parameters: seq<Parameter>) returns (parms: seq<ParamDecl>)
      modifies this, gen, gensym
      ensures parms == Converted(parameters, SortedOrder(parameters), |SortedOrder(parameters)|, old(gensym.next), gensym.names)
      ensures gensym.next == old(gensym.next) + TupleCount(parameters, SortedOrder(parameters), |SortedOrder(parameters)|)
      ensures gen.imports == ImportsFor(parameters, SortedOrder(parameters), |SortedOrder(parameters)|, old(gen.imports))
      ensures gen.members == old(gen.members)
      ensures forall j: nat :: j in mpPyParamToCs <==> j < |parameters|
      ensures forall t :: 0 <= t < |parms| ==> mpPyParamToCs[SortedOrder(parameters)[t]] == parms[t]
    {
      var order := SortedOrder(parameters);
      SortedOrderIsStableSort(parameters);
      parms := ConvertInOrder(parameters, order);
      mpPyParamToCs := Dictionary(order, parms, |order|);
      DictionaryOfPermutation(parameters, order, parms);
    }

    /** `Select(ta => GenerateFunctionParameter(ta))` over the parameters in
        the given order, one call after another. */
    method ConvertInOrder(parameters: seq<Parameter>, order: seq<nat>) returns (parms: seq<ParamDecl>)
      requires InRange(parameters, order)
      modifies gen, gensym
      ensures parms == Converted(parameters, order, |order|, old(gensym.next), gensym.names)
      ensures gensym.next == old(gensym.next) + TupleCount(parameters, order, |order|)
      ensures gen.imports == ImportsFor(parameters, order, |order|, old(gen.imports))
      ensures gen.members == old(gen.members)
    {
      ghost var start, names := gensym.next, gensym.names;
      parms := [];
      var k := 0;
      while k < |order|
        invariant 0 <= k <= |order|
        invariant parms == Converted(parameters, order, k, start, names)
        invariant gensym.next == start + TupleCount(parameters, order, k)
        invariant gen.imports == ImportsFor(parameters, order, k, old(gen.imports))
        invariant gen.members == old(gen.members)
      {
        var d := GenerateFunctionParameter(parameters[order[k]]);
        parms := parms + [d];
        k := k + 1;
      }
    }

    /** `GenerateFunctionParameter`: the declaration for one parameter; a
        tuple parameter takes the next name from the symbol generator and a
        keyword-collecting one asks for the `System.Collections` import. */
    method GenerateFunctionParameter(ta: Parameter) returns (d: ParamDecl)
      modifies gen, gensym
      ensures d == ConvertParameter(ta, gensym.names(TupPrefix, old(gensym.next)))
      ensures gensym.next == old(gensym.next) + (if ta.tuple.TupleOf? then 1 else 0)
      ensures gen.imports == old(gen.imports) + ImportsOf(ta)
      ensures gen.members == old(gen.members)
    {
      var parameterType: TypeRef;
      if ta.tuple.TupleOf? {
        parameterType := TupleType(ta.tuple.components);
        var name := gensym.GenSymParameter(TupPrefix);
        return ParamDecl(parameterType, name, false, None);
      } else if ta.keyarg {
        parameterType := HashtableType;
        gen.EnsureImport(CollectionsNamespace);
      } else {
        parameterType := ObjectType;
      }
      var defaultValue := if ta.test.Some? then Some(Translated(ta.test.value)) else None;
      d := ParamDecl(parameterType, ta.name, ta.vararg, defaultValue);
    }

    /** `GenerateDefaultArgMethod(iFirstDefault)`: the overload taking the
        first `iFirstDefault` parameters and forwarding to the full method. */
    method GenerateDefaultArgMethod(iFirstDefault: int)
      modifies gen
      ensures |gen.members| == |old(gen.members)| + 1
      ensures gen.members[..|old(gen.members)|] == old(gen.members)
      ensures fresh(gen.members[|old(gen.members)|])
      ensures gen.members[|old(gen.members)|].name == fnName
      ensures gen.members[|old(gen.members)|].isStatic == isStatic
      ensures gen.members[|old(gen.members)|].parameters == ForwardParams(args, iFirstDefault)
      ensures gen.members[|old(gen.members)|].statements == ForwardBody(fnName, args, iFirstDefault)
      ensures gen.imports == old(gen.imports)
    {
      var argList := ForwardParams(args, iFirstDefault);
      var paramList: seq<CodeExpr> := [];
      for i := 0 to |args|
        invariant |paramList| == i
        invariant forall t :: 0 <= t < i ==> paramList[t] == ForwardArg(args, t, iFirstDefault)
      {
        var arg := if i < iFirstDefault || args[i].test.None? then VarRef(args[i].name)
                   else Translated(args[i].test.value);
        paramList := paramList + [arg];
      }
      assert paramList == ForwardArgs(args, iFirstDefault);
      EmitDefaultArgMethod(argList, paramList);
    }

    /** `GenerateDefaultArgMethod(argList, paramList)`: a method with the given
        parameters whose body returns the call of `fnName` on `paramList`. */
    method EmitDefaultArgMethod(argList: seq<ParamDecl>, paramList: seq<CodeExpr>)
      modifies gen
      ensures |gen.members| == |old(gen.members)| + 1
      ensures gen.members[..|old(gen.members)|] == old(gen.members)
      ensures fresh(gen.members[|old(gen.members)|])
      ensures gen.members[|old(gen.members)|].name == fnName
      ensures gen.members[|old(gen.members)|].isStatic == isStatic
      ensures gen.members[|old(gen.members)|].parameters == argList
      ensures gen.members[|old(gen.members)|].statements == [Return(Appl(VarRef(fnName), paramList))]
      ensures gen.imports == old(gen.imports)
    {
      var m: CodeMemberMethod;
      if isStatic {
        m := gen.StaticMethod(fnName, argList, [Return(Appl(VarRef(fnName), paramList))]);
      } else {
        m := gen.Method(fnName, argList, [Return(Appl(VarRef(fnName), paramList))]);
      }
    }
  }
}
