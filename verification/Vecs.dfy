/** The fixed-capacity vector operations the firmware's queues use, and sums over them. */
module Vecs {
  import opened Bytes

  /** Remove element `i` by moving the last element into its place. */
  function SwapRemove<T>(s: seq<T>, i: nat): (r: seq<T>)
    requires i < |s|
    ensures |r| == |s| - 1
  {
    if i == |s| - 1 then s[..i] else s[..|s| - 1][i := s[|s| - 1]]
  }

  function Retain<T>(s: seq<T>, keep: T -> bool): (r: seq<T>)
    ensures |r| <= |s|
    ensures forall x :: x in r ==> x in s && keep(x)
    ensures forall x :: x in s && keep(x) ==> x in r
  {
    if s == [] then [] else (if keep(s[0]) then [s[0]] else []) + Retain(s[1..], keep)
  }

  /** As long as before is the same as before. */
  lemma {:induction false} RetainsAllIff<T>(s: seq<T>, keep: T -> bool)
    ensures |Retain(s, keep)| == |s| <==> forall x :: x in s ==> keep(x)
    ensures |Retain(s, keep)| == |s| <==> Retain(s, keep) == s
  {
    if s != [] {
      assert |Retain(s[1..], keep)| <= |s[1..]| && s[0] in s;
      assert forall x :: x in s ==> x == s[0] || x in s[1..];
      RetainsAllIff(s[1..], keep);
    }
  }

  /** What `Retain` leaves out, in order. */
  function Dropped<T>(s: seq<T>, keep: T -> bool): (r: seq<T>)
    ensures forall x :: x in r ==> x in s && !keep(x)
  {
    if s == [] then [] else (if keep(s[0]) then [] else [s[0]]) + Dropped(s[1..], keep)
  }

  /** Index of the first element satisfying `p`, or the length when none does. */
  function Position<T>(s: seq<T>, p: T -> bool): (i: nat)
    ensures i <= |s|
    ensures i < |s| ==> p(s[i])
    ensures forall k :: 0 <= k < i ==> !p(s[k])
  {
    if s == [] || p(s[0]) then 0 else 1 + Position(s[1..], p)
  }

  /** Index of the first element with the least key. */
  function MinBy<T>(s: seq<T>, key: T -> nat): (i: nat)
    requires s != []
    ensures i < |s|
    ensures forall k :: 0 <= k < |s| ==> key(s[i]) <= key(s[k])
    ensures forall k :: 0 <= k < i ==> key(s[i]) < key(s[k])
  {
    if |s| == 1 then 0
    else
      var j := MinBy(s[1..], key);
      assert s[1..][j] == s[j + 1];
      assert forall k :: 1 <= k < |s| ==> s[k] == s[1..][k - 1];
      if key(s[0]) <= key(s[j + 1]) then 0 else j + 1
  }

  function Sum<T>(s: seq<T>, f: T -> nat): nat {
    if s == [] then 0 else f(s[0]) + Sum(s[1..], f)
  }

  lemma {:induction false} SumConcat<T>(a: seq<T>, b: seq<T>, f: T -> nat)
    ensures Sum(a + b, f) == Sum(a, f) + Sum(b, f)
  {
    if a == [] {
      assert a + b == b;
    } else {
      assert (a + b)[1..] == a[1..] + b;
      SumConcat(a[1..], b, f);
    }
  }

  lemma SumOne<T>(x: T, f: T -> nat)
    ensures Sum([x], f) == f(x)
  {
    assert [x][1..] == [];
  }

  lemma SumCons<T>(x: T, s: seq<T>, f: T -> nat)
    ensures Sum([x] + s, f) == f(x) + Sum(s, f)
  {
    SumConcat([x], s, f);
    SumOne(x, f);
  }

  lemma SumSplit<T>(s: seq<T>, i: nat, f: T -> nat)
    requires i < |s|
    ensures Sum(s, f) == Sum(s[..i], f) + f(s[i]) + Sum(s[i + 1..], f)
  {
    assert s == s[..i] + [s[i]] + s[i + 1..];
    SumConcat(s[..i] + [s[i]], s[i + 1..], f);
    SumConcat(s[..i], [s[i]], f);
    SumOne(s[i], f);
  }

  lemma SumUpdate<T>(s: seq<T>, i: nat, x: T, f: T -> nat)
    requires i < |s|
    ensures Sum(s[i := x], f) + f(s[i]) == Sum(s, f) + f(x)
  {
    SumSplit(s, i, f);
    SumSplit(s[i := x], i, f);
    assert s[i := x][..i] == s[..i] && s[i := x][i + 1..] == s[i + 1..];
  }

  lemma SumAppend<T>(s: seq<T>, x: T, f: T -> nat)
    ensures Sum(s + [x], f) == Sum(s, f) + f(x)
  {
    SumConcat(s, [x], f);
    SumOne(x, f);
  }

  lemma SumDropLast<T>(s: seq<T>, f: T -> nat)
    requires s != []
    ensures Sum(s, f) == Sum(s[..|s| - 1], f) + f(s[|s| - 1])
  {
    assert s == s[..|s| - 1] + [s[|s| - 1]];
    SumAppend(s[..|s| - 1], s[|s| - 1], f);
  }

  /** Taking an element out by swapping takes out exactly its own share. */
  lemma SumSwapRemove<T>(s: seq<T>, i: nat, f: T -> nat)
    requires i < |s|
    ensures Sum(s, f) == Sum(SwapRemove(s, i), f) + f(s[i])
  {
    SumDropLast(s, f);
    if i < |s| - 1 {
      SumUpdate(s[..|s| - 1], i, s[|s| - 1], f);
    }
  }

  /** Every element is either kept or dropped. */
  lemma {:induction false} SumRetain<T>(s: seq<T>, keep: T -> bool, f: T -> nat)
    ensures Sum(s, f) == Sum(Retain(s, keep), f) + Sum(Dropped(s, keep), f)
  {
    if s != [] {
      SumRetain(s[1..], keep, f);
      if keep(s[0]) {
        SumCons(s[0], Retain(s[1..], keep), f);
        assert Dropped(s, keep) == Dropped(s[1..], keep);
      } else {
        SumCons(s[0], Dropped(s[1..], keep), f);
        assert Retain(s, keep) == Retain(s[1..], keep);
      }
    }
  }

  lemma {:induction false} SumAtLeast<T>(s: seq<T>, i: nat, f: T -> nat)
    requires i < |s|
    ensures f(s[i]) <= Sum(s, f)
  {
    SumSplit(s, i, f);
  }

  lemma {:induction false} SumZero<T>(s: seq<T>, f: T -> nat)
    requires forall x :: x in s ==> f(x) == 0
    ensures Sum(s, f) == 0
  {
    if s != [] {
      SumZero(s[1..], f);
    }
  }

  lemma {:induction false} SumBounded<T>(s: seq<T>, f: T -> nat, b: nat)
    requires forall x :: x in s ==> f(x) <= b
    ensures Sum(s, f) <= |s| * b
  {
    if s != [] {
      assert forall x :: x in s[1..] ==> x in s;
      SumBounded(s[1..], f, b);
      OneFewer(|s|, b);
    }
  }

  lemma OneFewer(n: int, b: int)
    ensures n * b == b + (n - 1) * b
  {}

  lemma SwapRemoveMembers<T>(s: seq<T>, i: nat)
    requires i < |s|
    ensures forall x :: x in SwapRemove(s, i) ==> x in s
  {}
}
