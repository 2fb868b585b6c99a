/**
  `parameters.OrderBy(ta => ta.vararg)`: a stable sort on a boolean key, so
  the parameters without the vararg flag come first and those with it last,
  each group in source order. The order is given as the sequence of source
  indices it visits.
 */
module ParameterOrder {
  import opened PySyntax

  /** The source indices whose vararg flag is `flag`, ascending. */
  function Positions(args: seq<Parameter>, flag: bool): (r: seq<nat>)
    ensures forall t :: 0 <= t < |r| ==> r[t] < |args| && args[r[t]].vararg == flag
    ensures forall s, t :: 0 <= s < t < |r| ==> r[s] < r[t]
  {
    if args == [] then []
    else
      var n := |args| - 1;
      Positions(args[..n], flag) + (if args[n].vararg == flag then [n] else [])
  }

  /** The visiting order of `OrderBy(ta => ta.vararg)`: `false` sorts before `true`. */
  function SortedOrder(args: seq<Parameter>): seq<nat>
  {
    Positions(args, false) + Positions(args, true)
  }

  /** `o` lists every source index exactly once. */
  ghost predicate IsPermutation(args: seq<Parameter>, o: seq<nat>)
  {
    && |o| == |args|
    && (forall j :: 0 <= j < |args| ==> j in o)
    && (forall t :: 0 <= t < |o| ==> o[t] < |args|)
    && (forall s, t :: 0 <= s < t < |o| ==> o[s] != o[t])
  }

  /** `o` is what a stable sort on the vararg flag yields: a permutation in
      which no vararg parameter precedes a non-vararg one and parameters with
      equal flags keep their source order. */
  ghost predicate IsStableVarargSort(args: seq<Parameter>, o: seq<nat>)
  {
    && IsPermutation(args, o)
    && (forall s, t :: 0 <= s < t < |o| && args[o[s]].vararg ==> args[o[t]].vararg)
    && (forall s, t :: 0 <= s < t < |o| && args[o[s]].vararg == args[o[t]].vararg ==> o[s] < o[t])
  }

  /** Every index with the given flag is listed by `Positions`. */
  lemma {:induction false} PositionsComplete(args: seq<Parameter>, flag: bool, j: nat)
    requires j < |args| && args[j].vararg == flag
    ensures j in Positions(args, flag)
    decreases |args|
  {
    var n := |args| - 1;
    if j < n {
      PositionsComplete(args[..n], flag, j);
    }
  }

  /** The two groups together have as many entries as there are parameters. */
  lemma {:induction false} PositionsCount(args: seq<Parameter>)
    ensures |Positions(args, false)| + |Positions(args, true)| == |args|
    decreases |args|
  {
    if args != [] {
      PositionsCount(args[..|args| - 1]);
    }
  }

  /** The sort's order is a stable sort on the vararg flag. */
  lemma SortedOrderIsStableSort(args: seq<Parameter>)
    ensures IsStableVarargSort(args, SortedOrder(args))
  {
    var f, v := Positions(args, false), Positions(args, true);
    var o := SortedOrder(args);
    PositionsCount(args);
    forall j | 0 <= j < |args|
      ensures j in o
    {
      PositionsComplete(args, args[j].vararg, j);
    }
    forall s, t | 0 <= s < t < |o|
      ensures o[s] != o[t]
    {
      if s < |f| <= t {
        assert args[o[s]].vararg != args[o[t]].vararg;
      }
    }
  }

  /** The sort key of `OrderBy(ta => ta.vararg)`, with the source index
      breaking ties as a stable sort does. */
  ghost predicate KeyLess(args: seq<Parameter>, x: nat, y: nat)
    requires x < |args| && y < |args|
  {
    (!args[x].vararg && args[y].vararg) || (args[x].vararg == args[y].vararg && x < y)
  }

  ghost predicate KeyIncreasing(args: seq<Parameter>, o: seq<nat>)
  {
    && (forall t :: 0 <= t < |o| ==> o[t] < |args|)
    && (forall s, t :: 0 <= s < t < |o| ==> KeyLess(args, o[s], o[t]))
  }

  /** Two key-increasing sequences with the same elements are equal. */
  lemma {:induction false} KeyIncreasingUnique(args: seq<Parameter>, a: seq<nat>, b: seq<nat>)
    requires KeyIncreasing(args, a) && KeyIncreasing(args, b)
    requires forall x :: x in a <==> x in b
    ensures a == b
    decreases |a|
  {
    assert a != [] ==> a[0] in b;
    assert b != [] ==> b[0] in a;
    if a != [] {
      var k :| 0 <= k < |b| && b[k] == a[0];
      var l :| 0 <= l < |a| && a[l] == b[0];
      assert a[0] == b[0];
      forall x
        ensures x in a[1..] <==> x in b[1..]
      {
        if x in a[1..] {
          var i :| 1 <= i < |a| && a[i] == x;
          assert KeyLess(args, a[0], a[i]);
          assert x in b;
        }
        if x in b[1..] {
          var i :| 1 <= i < |b| && b[i] == x;
          assert KeyLess(args, b[0], b[i]);
          assert x in a;
        }
      }
      KeyIncreasingUnique(args, a[1..], b[1..]);
      assert a == [a[0]] + a[1..];
      assert b == [b[0]] + b[1..];
    }
  }

  /** A stable sort on the vararg flag has exactly one result, so any order
      with the properties of `OrderBy(ta => ta.vararg)` is `SortedOrder`. */
  lemma StableSortIsUnique(args: seq<Parameter>, o: seq<nat>)
    requires IsStableVarargSort(args, o)
    ensures o == SortedOrder(args)
  {
    SortedOrderIsStableSort(args);
    var r := SortedOrder(args);
    forall s, t | 0 <= s < t < |o|
      ensures KeyLess(args, o[s], o[t])
    {
    }
    forall s, t | 0 <= s < t < |r|
      ensures KeyLess(args, r[s], r[t])
    {
    }
    forall x
      ensures x in o <==> x in r
    {
      if x in o {
        var i :| 0 <= i < |o| && o[i] == x;
        assert x in r;
      }
      if x in r {
        var i :| 0 <= i < |r| && r[i] == x;
        assert x in o;
      }
    }
    KeyIncreasingUnique(args, o, r);
  }

  /** The indices of a list of length `n`, in order. */
  function SourceOrder(n: nat): (r: seq<nat>)
    ensures |r| == n && forall i :: 0 <= i < n ==> r[i] == i
  {
    seq(n, i requires 0 <= i < n => i)
  }

  /** The sort leaves the parameters in source order exactly when no vararg
      parameter is declared before a non-vararg one. */
  lemma SortedOrderIsSourceOrder(args: seq<Parameter>)
    ensures SortedOrder(args) == SourceOrder(|args|)
        <==> forall s, t :: 0 <= s < t < |args| && args[s].vararg ==> args[t].vararg
  {
    var id := SourceOrder(|args|);
    SortedOrderIsStableSort(args);
    if SortedOrder(args) == id {
      forall s, t | 0 <= s < t < |args| && args[s].vararg
        ensures args[t].vararg
      {
        assert id[s] == s && id[t] == t;
      }
    }
    if forall s, t :: 0 <= s < t < |args| && args[s].vararg ==> args[t].vararg {
      forall j | 0 <= j < |args|
        ensures j in id
      {
        assert id[j] == j;
      }
      StableSortIsUnique(args, id);
    }
  }
}
