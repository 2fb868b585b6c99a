/**
  `GenerateFunctionParameter` and `GenerateTupleParameterType`: the C#
  parameter made for each Python parameter, and the sequence of them made
  in sort order, with the symbol generator's counter threaded through.
 */
module Conversion {
  import opened Wrappers
  import opened PySyntax
  import opened CodeModel

  /** The prefix of the placeholder names of tuple parameters. */
  const TupPrefix := "_tup_"
  /** The namespace of `Hashtable`. */
  const CollectionsNamespace := "System.Collections"

  /** `GenerateTupleParameterType(list)`: `Tuple` with one type argument per
      component, in component order. */
  function TupleType(list: seq<Parameter>): (t: TypeRef)
    ensures t.name == TupleName && |t.typeArgs| == |list|
    ensures forall k :: 0 <= k < |list| ==> t.typeArgs[k] == ComponentType(list[k])
  {
    TypeRef(TupleName, seq(|list|, k requires 0 <= k < |list| => ComponentType(list[k])))
  }

  /** The type argument for one component: a nested `Tuple` (the recursive
      call of `GenerateTupleParameterType`) for a tuple component, `object`
      for any other. */
  function ComponentType(p: Parameter): (t: TypeRef)
    ensures p.tuple.NoTuple? ==> t == ObjectType
    ensures p.tuple.TupleOf? ==> t.name == TupleName && |t.typeArgs| == |p.tuple.components|
    decreases p
  {
    match p.tuple
    case NoTuple => ObjectType
    case TupleOf(list) =>
      TypeRef(TupleName, seq(|list|, k requires 0 <= k < |list| => ComponentType(list[k])))
  }

  /** The nesting structure of a tuple pattern, without names, defaults or flags. */
  datatype Shape = Leaf | Nested(parts: seq<Shape>)

  function ShapeOf(p: Parameter): Shape
    decreases p
  {
    match p.tuple
    case NoTuple => Leaf
    case TupleOf(list) => Nested(seq(|list|, k requires 0 <= k < |list| => ShapeOf(list[k])))
  }

  /** A component's type records exactly its nesting structure: two
      components get the same type if and only if they nest alike. */
  lemma {:induction false} ComponentTypeIsShape(p: Parameter, q: Parameter)
    ensures ComponentType(p) == ComponentType(q) <==> ShapeOf(p) == ShapeOf(q)
    decreases p
  {
    match (p.tuple, q.tuple)
    case (TupleOf(ps), TupleOf(qs)) =>
      if |ps| == |qs| {
        forall k | 0 <= k < |ps|
          ensures ComponentType(ps[k]) == ComponentType(qs[k]) <==> ShapeOf(ps[k]) == ShapeOf(qs[k])
        {
          ComponentTypeIsShape(ps[k], qs[k]);
        }
        if ComponentType(p) == ComponentType(q) {
          forall k | 0 <= k < |ps|
            ensures ShapeOf(p).parts[k] == ShapeOf(q).parts[k]
          {
            assert ComponentType(p).typeArgs[k] == ComponentType(ps[k]);
            assert ComponentType(q).typeArgs[k] == ComponentType(qs[k]);
          }
        }
        if ShapeOf(p) == ShapeOf(q) {
          forall k | 0 <= k < |ps|
            ensures ComponentType(p).typeArgs[k] == ComponentType(q).typeArgs[k]
          {
            assert ShapeOf(p).parts[k] == ShapeOf(ps[k]);
            assert ShapeOf(q).parts[k] == ShapeOf(qs[k]);
          }
        }
      } else {
        assert |ShapeOf(p).parts| != |ShapeOf(q).parts|;
      }
    case (NoTuple, NoTuple) =>
    case (TupleOf(_), NoTuple) =>
    case (NoTuple, TupleOf(_)) =>
  }

  /** The four ways a Python parameter is converted. */
  datatype Kind = TupleKind | KeywordKind | VarargKind | PlainKind

  /** The kind of a source parameter, in the order the conversion tests them. */
  function SourceKind(ta: Parameter): Kind
  {
    if ta.tuple.TupleOf? then TupleKind
    else if ta.keyarg then KeywordKind
    else if ta.vararg then VarargKind
    else PlainKind
  }

  /** The kind read back from a generated declaration alone. */
  function DeclKind(d: ParamDecl): Kind
  {
    if d.ptype.name == TupleName then TupleKind
    else if d.ptype == HashtableType then KeywordKind
    else if d.isVarargs then VarargKind
    else PlainKind
  }

  /** The value part of `GenerateFunctionParameter(ta)`; `placeholder` is the
      name the symbol generator would hand out next. The declaration keeps
      the parameter's kind; a tuple parameter becomes a `Tuple` of its
      components under the placeholder name, with no default; any other keeps
      its name, its `params` flag and its default, typed `Hashtable` when it
      collects keywords and `object` otherwise. */
  function ConvertParameter(ta: Parameter, placeholder: string): (d: ParamDecl)
    ensures DeclKind(d) == SourceKind(ta)
    ensures ta.tuple.TupleOf? ==>
              && d.ptype == TupleType(ta.tuple.components) && d.name == placeholder
              && !d.isVarargs && d.default.None?
    ensures ta.tuple.NoTuple? ==>
              && d.ptype == (if ta.keyarg then HashtableType else ObjectType)
              && d.name == ta.name && d.isVarargs == ta.vararg
              && (d.default.Some? <==> ta.test.Some?)
              && (ta.test.Some? ==> d.default == Some(Translated(ta.test.value)))
  {
    match ta.tuple
    case TupleOf(list) =>
      ParamDecl(TupleType(list), placeholder, false, None)
    case NoTuple =>
      ParamDecl(
        if ta.keyarg then HashtableType else ObjectType,
        ta.name,
        ta.vararg,
        match ta.test
        case Some(e) => Some(Translated(e))
        case None => None)
  }

  /** The imports `GenerateFunctionParameter(ta)` asks for. */
  function ImportsOf(ta: Parameter): set<string>
  {
    if ta.tuple.NoTuple? && ta.keyarg then {CollectionsNamespace} else {}
  }

  ghost predicate InRange(args: seq<Parameter>, order: seq<nat>)
  {
    forall t :: 0 <= t < |order| ==> order[t] < |args|
  }

  /** How many of the first `n` parameters visited in `order` are tuple
      parameters, i.e. how many names the symbol generator hands out for them. */
  function TupleCount(args: seq<Parameter>, order: seq<nat>, n: nat): nat
    requires InRange(args, order) && n <= |order|
  {
    if n == 0 then 0
    else TupleCount(args, order, n - 1) + (if args[order[n - 1]].tuple.TupleOf? then 1 else 0)
  }

  /** The imports of a generator that held `imports` after it converted the
      first `n` parameters visited in `order`. */
  function ImportsFor(args: seq<Parameter>, order: seq<nat>, n: nat, imports: set<string>): set<string>
    requires InRange(args, order) && n <= |order|
  {
    if n == 0 then imports else ImportsFor(args, order, n - 1, imports) + ImportsOf(args[order[n - 1]])
  }

  /** The declarations made for the first `n` parameters visited in `order`,
      when the symbol generator's counter starts at `start`. */
  function Converted(args: seq<Parameter>, order: seq<nat>, n: nat, start: nat, names: (string, nat) -> string): (r: seq<ParamDecl>)
    requires InRange(args, order) && n <= |order|
    ensures |r| == n
  {
    if n == 0 then []
    else
      Converted(args, order, n - 1, start, names)
        + [ConvertParameter(args[order[n - 1]], names(TupPrefix, start + TupleCount(args, order, n - 1)))]
  }

  /** The t-th declaration converts the t-th visited parameter, and a tuple
      parameter gets the name the symbol generator makes after the tuple
      parameters visited before it. */
  lemma {:induction false} ConvertedAt(args: seq<Parameter>, order: seq<nat>, n: nat, start: nat, names: (string, nat) -> string, t: nat)
    requires InRange(args, order) && t < n <= |order|
    ensures Converted(args, order, n, start, names)[t]
         == ConvertParameter(args[order[t]], names(TupPrefix, start + TupleCount(args, order, t)))
  {
    if t < n - 1 {
      ConvertedAt(args, order, n - 1, start, names, t);
    }
  }

  /** Counting tuple parameters over a longer prefix never gives less, and
      passing a tuple parameter gives one more. */
  lemma {:induction false} TupleCountGrows(args: seq<Parameter>, order: seq<nat>, s: nat, t: nat)
    requires InRange(args, order) && s < t <= |order|
    ensures TupleCount(args, order, s) + (if args[order[s]].tuple.TupleOf? then 1 else 0)
         <= TupleCount(args, order, t)
    decreases t - s
  {
    if s + 1 < t {
      TupleCountGrows(args, order, s + 1, t);
    }
  }

  /** Distinct tuple parameters get distinct placeholder names, provided the
      symbol generator never repeats a name. */
  lemma PlaceholdersDistinct(args: seq<Parameter>, order: seq<nat>, start: nat, names: (string, nat) -> string)
    requires InRange(args, order)
    requires forall i, j :: i != j ==> names(TupPrefix, i) != names(TupPrefix, j)
    ensures forall s, t :: 0 <= s < t < |order| && args[order[s]].tuple.TupleOf? && args[order[t]].tuple.TupleOf?
              ==> Converted(args, order, |order|, start, names)[s].name != Converted(args, order, |order|, start, names)[t].name
  {
    forall s, t | 0 <= s < t < |order| && args[order[s]].tuple.TupleOf? && args[order[t]].tuple.TupleOf?
      ensures Converted(args, order, |order|, start, names)[s].name != Converted(args, order, |order|, start, names)[t].name
    {
      ConvertedAt(args, order, |order|, start, names, s);
      ConvertedAt(args, order, |order|, start, names, t);
      TupleCountGrows(args, order, s, t);
    }
  }

  /** Converting adds `System.Collections` to the imports exactly when some
      visited parameter is a keyword-collecting, non-tuple one, and adds
      nothing else. */
  lemma {:induction false} ImportsForKeywords(args: seq<Parameter>, order: seq<nat>, n: nat, imports: set<string>)
    requires InRange(args, order) && n <= |order|
    ensures ImportsFor(args, order, n, imports)
         == imports + if exists t :: 0 <= t < n && args[order[t]].tuple.NoTuple? && args[order[t]].keyarg
                      then {CollectionsNamespace} else {}
  {
    if n > 0 {
      ImportsForKeywords(args, order, n - 1, imports);
    }
  }
}
