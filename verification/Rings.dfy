/** Fixed-size rings read in order of age, and the bounded log they stand for. */
module Rings {
  import opened Bytes

  /** The last `n` elements, or all of them when there are fewer. */
  function LastN<T>(s: seq<T>, n: nat): (r: seq<T>)
    ensures |r| == Min(|s|, n)
  {
    if |s| <= n then s else s[|s| - n..]
  }

  /** Append to a window of at most `cap` elements, dropping the oldest when it is full. */
  function PushBounded<T>(s: seq<T>, x: T, cap: nat): (r: seq<T>)
    requires 0 < cap
    ensures |s| <= cap ==> |r| <= cap
  {
    if |s| < cap then s + [x] else s[1..] + [x]
  }

  lemma PushIsLastN<T>(log: seq<T>, x: T, cap: nat)
    requires 0 < cap
    ensures PushBounded(LastN(log, cap), x, cap) == LastN(log + [x], cap)
  {}

  /** What stands before the first gap. */
  function Leading<T>(w: seq<Option<T>>): (r: seq<T>)
    ensures |r| <= |w| && forall k :: 0 <= k < |r| ==> w[k] == Some(r[k])
    ensures |r| < |w| ==> w[|r|] == None
  {
    if w == [] || w[0].None? then [] else [w[0].value] + Leading(w[1..])
  }

  ghost predicate RingOk<T>(s: seq<T>, head: nat, count: nat) {
    count <= |s| && head < |s| && (count < |s| ==> head == count)
  }

  /** The ring's live slots, oldest first. */
  function Unroll<T>(s: seq<T>, head: nat, count: nat): (r: seq<T>)
    requires count <= |s| && head < |s|
    ensures |r| == count
  {
    if count < |s| then s[..count] else s[head..] + s[..head]
  }

  /** Where slot `i` stands in age order. */
  function Age<T>(s: seq<T>, head: nat, count: nat, i: nat): (a: nat)
    requires RingOk(s, head, count) && i < count
    ensures a < count && Unroll(s, head, count)[a] == s[i]
  {
    if count < |s| then i else if i >= head then i - head else i + |s| - head
  }

  lemma UnrollPush<T>(s: seq<T>, head: nat, count: nat, x: T)
    requires RingOk(s, head, count)
    ensures var s', head', count' := s[head := x], (head + 1) % |s|, Min(count + 1, |s|);
            RingOk(s', head', count') && Unroll(s', head', count') == PushBounded(Unroll(s, head, count), x, |s|)
  {
    NextSlot(head, |s|);
    UnrollStep(s, head, count, x, if head + 1 < |s| then head + 1 else 0);
  }

  lemma NextSlot(i: nat, n: nat)
    requires i < n
    ensures (i + 1) % n == if i + 1 < n then i + 1 else 0
  {}

  lemma UnrollStep<T>(s: seq<T>, head: nat, count: nat, x: T, next: nat)
    requires RingOk(s, head, count) && next == if head + 1 < |s| then head + 1 else 0
    ensures var s', count' := s[head := x], Min(count + 1, |s|);
            RingOk(s', next, count') && Unroll(s', next, count') == PushBounded(Unroll(s, head, count), x, |s|)
  {
    var s', count' := s[head := x], Min(count + 1, |s|);
    var was, now := PushBounded(Unroll(s, head, count), x, |s|), Unroll(s', next, count');
    assert |was| == |now|;
    assert forall k :: 0 <= k < |now| ==> now[k] == was[k];
  }

  lemma UnrollUpdate<T>(s: seq<T>, head: nat, count: nat, i: nat, x: T)
    requires RingOk(s, head, count) && i < count
    ensures RingOk(s[i := x], head, count)
    ensures Unroll(s[i := x], head, count) == Unroll(s, head, count)[Age(s, head, count, i) := x]
  {}

  lemma UnrollMembers<T>(s: seq<T>, head: nat, count: nat)
    requires RingOk(s, head, count)
    ensures forall x :: x in Unroll(s, head, count) <==> x in s[..count]
  {
    if count == |s| {
      assert s[..count] == s[..head] + s[head..];
    }
  }
}
