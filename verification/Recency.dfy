/** What the node table knows of when a node was heard. The one field that says so in seconds is never
    set but to zero, so pruning drops nobody and a snapshot keeps whom the sort happens to put first. */
module Recency {
  import opened Bytes
  import opened Vecs
  import opened NodeDb
  import opened Packet
  import opened Mesh
  import opened Snapshot
  import opened Tables

  // ---- A table in which nothing is dated ----

  /** Every last_heard is zero. */
  predicate AllUndated(nodes: seq<NodeEntry>) { forall e :: e in nodes ==> e.lastHeard == 0 }

  function Undated(): Db -> bool { (d: Db) => AllUndated(d.nodes) }

  lemma UndatedUpdate(nodes: seq<NodeEntry>, i: nat, e: NodeEntry)
    requires AllUndated(nodes) && i < |nodes| && e.lastHeard == 0
    ensures AllUndated(nodes[i := e])
  {
    assert forall x :: x in nodes[i := e] ==> x == e || x in nodes;
  }

  lemma CreatingKeepsUndated(d: Db, num: u32, f: NodeEntry -> NodeEntry)
    requires AllUndated(d.nodes) && forall e: NodeEntry :: e.lastHeard == 0 ==> f(e).lastHeard == 0
    ensures AllUndated(AmendOrCreate(d, num, f).nodes)
  {
    var (c, i) := GetOrCreate(d, num);
    assert forall x :: x in c.nodes ==> x == Stub(num) || x in d.nodes;
    if i.Some? && i.value < |c.nodes| {
      assert c.nodes[i.value] in c.nodes;
      UndatedUpdate(c.nodes, i.value, f(c.nodes[i.value]));
    }
  }

  lemma TouchKeepsUndated(d: Db, num: u32, snr: Option<i8>, nowMs: u64)
    requires AllUndated(d.nodes)
    ensures AllUndated(Touch(d, num, 0, snr, nowMs).nodes)
  {
    hide AmendOrCreate;
    CreatingKeepsUndated(d, num, Heard(0, snr, nowMs));
    CreatingKeepsUndated(PruneStale(d, 0, STALE_AGE_SECS), num, Heard(0, snr, nowMs));
  }

  lemma AmendKeepsUndated(d: Db, num: u32, f: NodeEntry -> NodeEntry)
    requires AllUndated(d.nodes) && forall e: NodeEntry :: e.lastHeard == 0 ==> f(e).lastHeard == 0
    ensures AllUndated(Amend(d, num, f).nodes)
  {
    var i := IndexOf(d.nodes, num);
    if i < |d.nodes| {
      assert d.nodes[i] in d.nodes;
      UndatedUpdate(d.nodes, i, f(d.nodes[i]));
    }
  }

  lemma LearningKeepsUndated(d: Db, num: u32, relay: u8)
    requires AllUndated(d.nodes)
    ensures AllUndated(LearnRoute(d, num, relay).0.nodes)
  {
    var (c, i) := GetOrCreate(d, num);
    assert forall x :: x in c.nodes ==> x == Stub(num) || x in d.nodes;
    if i.Some? && i.value < |c.nodes| {
      assert c.nodes[i.value] in c.nodes;
      UndatedUpdate(c.nodes, i.value, c.nodes[i.value].(nextHop := if relay != 0 then relay else num % 0x100));
    }
  }

  lemma OperationsKeepUndated()
    ensures OperationsKeep(Undated())
  {
    hide Touch, Amend, LearnRoute, AllUndated;
    forall d, num, snr, nowMs | Undated()(d)
      ensures Undated()(Touch(d, num, 0, snr, nowMs))
    {
      TouchKeepsUndated(d, num, snr, nowMs);
    }
    forall d, num, hops | Undated()(d)
      ensures Undated()(Amend(d, num, WithHops(hops)))
    {
      AmendKeepsUndated(d, num, WithHops(hops));
    }
    forall d, num | Undated()(d)
      ensures Undated()(Amend(d, num, NodeDb.WithNextHop(NO_NEXT_HOP)))
    {
      AmendKeepsUndated(d, num, NodeDb.WithNextHop(NO_NEXT_HOP));
    }
    forall d, num, relay | Undated()(d)
      ensures Undated()(LearnRoute(d, num, relay).0)
    {
      LearningKeepsUndated(d, num, relay);
    }
  }

  /** Over every run in which the handlers, too, only hear with time zero, every last_heard stays
      zero: the field never says when a node was heard. */
  lemma NothingIsEverDated(env: Env, n: Node, es: seq<Event>)
    requires HandlersKeep(env, Undated()) && AllUndated(n.db.nodes)
    ensures AllUndated(Run(env, n, es).0.db.nodes)
  {
    hide Run, OperationsKeep, HandlersKeep, AllUndated;
    OperationsKeepUndated();
    RunKeeps(env, n, es, Undated());
  }

  // ---- Room for newcomers ----

  lemma NothingIsStaleAtTimeZero(db: Db)
    ensures PruneStale(db, 0, STALE_AGE_SECS) == db
  {
    RetainsAllIff(db.nodes, Fresh(db.our, 0, STALE_AGE_SECS));
  }

  /** A node not yet known is recorded when it is heard if and only if the table has room: at time
      zero nothing counts as stale, so a full table sheds nobody and stays exactly as it is. */
  lemma NewcomerIsRecordedIffThereIsRoom(db: Db, num: u32, snr: Option<i8>, nowMs: u64)
    requires ValidNodes(db.nodes) && !Reserved(num) && Get(db, num).None?
    ensures var d := Touch(db, num, 0, snr, nowMs);
            && (Get(d, num).Some? <==> |db.nodes| < MAX_NODES)
            && (Get(d, num).Some? ==> Get(d, num).value.lastSeenMs == nowMs)
            && (|db.nodes| == MAX_NODES ==> d == db)
  {
    hide ValidNodes;
    NothingIsStaleAtTimeZero(db);
    TouchRecords(db, num, 0, snr, nowMs);
    TableBound(db);
    if |db.nodes| < MAX_NODES {
      AmendRecords(db, num, Heard(0, snr, nowMs));
    }
  }

  lemma TableBound(db: Db)
    requires ValidNodes(db.nodes)
    ensures |db.nodes| <= MAX_NODES
  {}

  // ---- Whom a snapshot keeps ----

  /** Nothing left out has a later lastSeenMs than anything kept. That is the moment a node was last
      heard, in milliseconds since boot: of this boot, of an earlier one for a restored entry, or zero
      for a node only known from a neighbour's report. */
  ghost predicate KeepsTheLatest(nodes: seq<NodeEntry>, order: seq<nat>) {
    forall i, j :: i in Selected(order) && i < |nodes| && 0 <= j < |nodes| && j !in Selected(order) ==>
      nodes[j].lastSeenMs <= nodes[i].lastSeenMs
  }

  /** Every order that a sort by last_heard may return keeps the latest. */
  ghost predicate SnapshotsKeepTheLatest(nodes: seq<NodeEntry>) {
    forall order :: Permutes(order, |nodes|) && NewestFirst(nodes, order) ==> KeepsTheLatest(nodes, order)
  }

  ghost predicate AllHeardAtOnce(nodes: seq<NodeEntry>) {
    forall i, j :: 0 <= i < |nodes| && 0 <= j < |nodes| ==> nodes[i].lastSeenMs == nodes[j].lastSeenMs
  }

  /** An order with `lo` first and `hi` last. */
  lemma {:induction false} OrderBetween(n: nat, lo: nat, hi: nat) returns (order: seq<nat>)
    requires lo != hi
    ensures Permutes(order, n)
    ensures lo < n ==> order[0] == lo
    ensures hi < n ==> order[n - 1] == hi
  {
    if n == 0 {
      order := [];
    } else {
      var rest := OrderBetween(n - 1, lo, hi);
      var p := if n - 1 == hi then n - 1 else if lo < n - 1 then 1 else 0;
      InsertPermutes(rest, n - 1, p);
      order := rest[..p] + [n - 1] + rest[p..];
    }
  }

  lemma LastIsLeftOut(order: seq<nat>, n: nat)
    requires Permutes(order, n) && n > MAX_PERSISTED_NODES
    ensures order[0] in Selected(order) && order[n - 1] !in Selected(order)
  {
    var sel := Selected(order);
    assert sel[0] == order[0] && forall k :: 0 <= k < |sel| ==> sel[k] == order[k];
  }

  lemma NothingIsLeftOut(order: seq<nat>, n: nat)
    requires Permutes(order, n) && n <= MAX_PERSISTED_NODES
    ensures Selected(order) == order && forall j: nat :: j < n ==> j in Selected(order)
  {}

  /** A snapshot of a table in which nothing is dated is sure to keep the nodes with the latest
      lastSeenMs if and only if it has room for all of them, or none is later than another. */
  lemma SnapshotsKeepTheLatestIff(nodes: seq<NodeEntry>)
    requires AllUndated(nodes)
    ensures SnapshotsKeepTheLatest(nodes) <==> |nodes| <= MAX_PERSISTED_NODES || AllHeardAtOnce(nodes)
  {
    hide Permutes, Selected;
    if |nodes| <= MAX_PERSISTED_NODES {
      forall order | Permutes(order, |nodes|) && NewestFirst(nodes, order)
        ensures KeepsTheLatest(nodes, order)
      {
        NothingIsLeftOut(order, |nodes|);
      }
    } else if !AllHeardAtOnce(nodes) {
      var i, j :| 0 <= i < |nodes| && 0 <= j < |nodes| && nodes[i].lastSeenMs != nodes[j].lastSeenMs;
      var lo, hi := i, j;
      if nodes[j].lastSeenMs < nodes[i].lastSeenMs {
        lo, hi := j, i;
      }
      var order := OrderBetween(|nodes|, lo, hi);
      AnyOrderIsNewestFirst(nodes, order);
      LastIsLeftOut(order, |nodes|);
      assert !KeepsTheLatest(nodes, order);
    }
  }

  lemma AnyOrderIsNewestFirst(nodes: seq<NodeEntry>, order: seq<nat>)
    requires AllUndated(nodes) && Permutes(order, |nodes|)
    ensures NewestFirst(nodes, order)
  {
    assert forall k :: 0 <= k < |order| ==> nodes[order[k]] in nodes;
  }

  /** 43 nodes, each heard a millisecond after the one before. */
  function Newcomers(): (nodes: seq<NodeEntry>)
    ensures |nodes| == 43
    ensures forall i :: 0 <= i < 43 ==> nodes[i].nodeNum == i + 1 && nodes[i].lastSeenMs == i
  {
    seq(43, i requires 0 <= i < 43 => Stub(i + 1).(lastSeenMs := i))
  }

  /** Of these a snapshot may leave out precisely the one with the latest lastSeenMs. */
  lemma TheNewestMayBeLeftOut() returns (order: seq<nat>)
    ensures ValidNodes(Newcomers()) && AllUndated(Newcomers())
    ensures Permutes(order, 43) && NewestFirst(Newcomers(), order) && 42 !in Selected(order)
    ensures forall i :: 0 <= i < 42 ==> Newcomers()[i].lastSeenMs < Newcomers()[42].lastSeenMs
  {
    order := OrderBetween(43, 0, 42);
    AnyOrderIsNewestFirst(Newcomers(), order);
    LastIsLeftOut(order, 43);
  }

  lemma {:induction false} RestoredAreUndated(nodes: seq<NodeEntry>, sel: seq<nat>, our: u32)
    requires AllUndated(nodes) && InRange(sel, |nodes|)
    ensures AllUndated(RestoredOf(nodes, sel, our))
  {
    if sel != [] {
      RestoredAreUndated(nodes, sel[..|sel| - 1], our);
      assert nodes[sel[|sel| - 1]] in nodes;
    }
  }

  /** A reboot dates nothing either: a table restored from such a snapshot is again undated. */
  lemma RestoringDatesNothing(nodes: seq<NodeEntry>, order: seq<nat>, db: Db)
    requires ValidNodes(nodes) && AllUndated(nodes) && Permutes(order, |nodes|)
    requires ValidNodes(db.nodes) && AllUndated(db.nodes)
    ensures AllUndated(RestoreSnapshot(db, SnapshotOf(nodes, order)).0.nodes)
  {
    hide RestoreSnapshot, SnapshotOf, RestoredOf, Truncated;
    RestoreBringsBackTheSelection(nodes, order, db);
    RestoredAreUndated(nodes, Selected(order), db.our);
  }
}
