/** Packets awaiting a mesh ACK: tracking, clearing and retransmitting them. */
module Retransmit {
  import opened Bytes
  import opened Vecs
  import opened Packet
  import opened NodeDb

  const MAX_PENDING: nat := 8
  const NUM_RELIABLE_RETX: u8 := 3
  const WANT_ACK_TIMEOUT_MS: nat := 5_000
  const RETX_AIRTIME_EXTENSION_MS: nat := 100

  /** `serial` names the entry across steps; no code reads it. */
  datatype PendingPacket = PendingPacket(
    frame: RadioFrame,
    packetId: u32,
    dest: u32,
    sender: u32,
    deadline: nat,
    retriesLeft: u8,
    isOurPacket: bool,
    bleNotify: Option<u32>,
    serial: nat)

  /** What the retransmission tick reports about one entry. */
  datatype Resend = Resend(serial: nat, frame: RadioFrame)
  datatype GiveUp = GiveUp(serial: nat, notify: Option<u32>, packetId: u32)

  datatype TickResult = TickResult(pending: seq<PendingPacket>, toSend: seq<Resend>, gaveUp: seq<GiveUp>, db: Db)

  function ExtendDeadlines(p: seq<PendingPacket>, ms: nat): (r: seq<PendingPacket>)
    ensures |r| == |p| && forall i :: 0 <= i < |p| ==> r[i] == p[i].(deadline := p[i].deadline + ms)
  {
    seq(|p|, i requires 0 <= i < |p| => p[i].(deadline := p[i].deadline + ms))
  }

  /** The frame a retry sends: the last one asks for flooding. */
  function RetryFrame(e: PendingPacket): RadioFrame {
    if e.retriesLeft == 1 then e.frame.WithNextHop(NO_NEXT_HOP) else e.frame
  }

  function Retried(e: PendingPacket, now: nat): PendingPacket
    requires e.retriesLeft > 0
  {
    e.(frame := RetryFrame(e), deadline := now + WANT_ACK_TIMEOUT_MS, retriesLeft := e.retriesLeft - 1)
  }

  /** The tick from index `i` on, as the loop runs it: swapping the last entry into the place
      of one given up, and looking at that place again. */
  function TickFrom(p: seq<PendingPacket>, i: nat, now: nat, db: Db): (r: TickResult)
    requires i <= |p|
    ensures |r.pending| <= |p| && |r.toSend| + |r.gaveUp| <= |p| - i
    decreases |p| - i
  {
    if i == |p| then
      TickResult(p, [], [], db)
    else if now < p[i].deadline then
      TickFrom(p, i + 1, now, db)
    else if p[i].retriesLeft > 0 then
      var e := Retried(p[i], now);
      var d := if e.retriesLeft == 0 then Amend(db, e.dest, WithNextHop(NO_NEXT_HOP)) else db;
      var r := TickFrom(p[i := e], i + 1, now, d);
      r.(toSend := [Resend(e.serial, e.frame)] + r.toSend)
    else
      var r := TickFrom(SwapRemove(p, i), i, now, db);
      r.(gaveUp := [GiveUp(p[i].serial, p[i].bleNotify, p[i].packetId)] + r.gaveUp)
  }

  // ---- The simple form: each entry looked at once, in order ----

  function Survives(e: PendingPacket, now: nat): seq<PendingPacket> {
    if now < e.deadline then [e] else if e.retriesLeft > 0 then [Retried(e, now)] else []
  }

  function Resends(e: PendingPacket, now: nat): seq<Resend> {
    if now < e.deadline || e.retriesLeft == 0 then [] else [Resend(e.serial, RetryFrame(e))]
  }

  function GivesUp(e: PendingPacket, now: nat): seq<GiveUp> {
    if now < e.deadline || e.retriesLeft > 0 then [] else [GiveUp(e.serial, e.bleNotify, e.packetId)]
  }

  function Survivors(p: seq<PendingPacket>, now: nat): seq<PendingPacket> {
    if p == [] then [] else Survives(p[0], now) + Survivors(p[1..], now)
  }

  function AllResends(p: seq<PendingPacket>, now: nat): seq<Resend> {
    if p == [] then [] else Resends(p[0], now) + AllResends(p[1..], now)
  }

  function AllGiveUps(p: seq<PendingPacket>, now: nat): seq<GiveUp> {
    if p == [] then [] else GivesUp(p[0], now) + AllGiveUps(p[1..], now)
  }

  lemma {:induction false} SurvivorsConcat(a: seq<PendingPacket>, b: seq<PendingPacket>, now: nat)
    ensures Survivors(a + b, now) == Survivors(a, now) + Survivors(b, now)
  {
    hide Survives, Resends, GivesUp;
    if a == [] {
      assert a + b == b;
    } else {
      assert (a + b)[1..] == a[1..] + b;
      SurvivorsConcat(a[1..], b, now);
    }
  }

  lemma {:induction false} ResendsConcat(a: seq<PendingPacket>, b: seq<PendingPacket>, now: nat)
    ensures AllResends(a + b, now) == AllResends(a, now) + AllResends(b, now)
  {
    hide Survives, Resends, GivesUp;
    if a == [] {
      assert a + b == b;
    } else {
      assert (a + b)[1..] == a[1..] + b;
      ResendsConcat(a[1..], b, now);
    }
  }

  lemma {:induction false} GiveUpsConcat(a: seq<PendingPacket>, b: seq<PendingPacket>, now: nat)
    ensures AllGiveUps(a + b, now) == AllGiveUps(a, now) + AllGiveUps(b, now)
  {
    hide Survives, Resends, GivesUp;
    if a == [] {
      assert a + b == b;
    } else {
      assert (a + b)[1..] == a[1..] + b;
      GiveUpsConcat(a[1..], b, now);
    }
  }

  lemma SimpleConcat(a: seq<PendingPacket>, b: seq<PendingPacket>, now: nat)
    ensures Survivors(a + b, now) == Survivors(a, now) + Survivors(b, now)
    ensures AllResends(a + b, now) == AllResends(a, now) + AllResends(b, now)
    ensures AllGiveUps(a + b, now) == AllGiveUps(a, now) + AllGiveUps(b, now)
  {
    SurvivorsConcat(a, b, now);
    ResendsConcat(a, b, now);
    GiveUpsConcat(a, b, now);
  }

  /** The part not yet seen after its first entry is given up: the last entry comes first. */
  function LastFirst(rest: seq<PendingPacket>): seq<PendingPacket>
    requires rest != []
  {
    if |rest| == 1 then [] else [rest[|rest| - 1]] + rest[1..|rest| - 1]
  }

  lemma Commute<T>(a: seq<T>, b: seq<T>)
    ensures multiset(a + b) == multiset(b + a)
  {
    assert multiset(a + b) == multiset(a) + multiset(b);
  }

  lemma LastFirstReordersOnly(rest: seq<PendingPacket>, now: nat)
    requires rest != []
    ensures multiset(Survivors(LastFirst(rest), now)) == multiset(Survivors(rest[1..], now))
    ensures multiset(AllResends(LastFirst(rest), now)) == multiset(AllResends(rest[1..], now))
    ensures multiset(AllGiveUps(LastFirst(rest), now)) == multiset(AllGiveUps(rest[1..], now))
  {
    if |rest| > 1 {
      var mid, last := rest[1..|rest| - 1], [rest[|rest| - 1]];
      assert rest[1..] == mid + last;
      SimpleConcat(last, mid, now);
      SimpleConcat(mid, last, now);
      Commute(Survivors(last, now), Survivors(mid, now));
      Commute(AllResends(last, now), AllResends(mid, now));
      Commute(AllGiveUps(last, now), AllGiveUps(mid, now));
    }
  }

  /** `r` keeps `done` and does to `rest` exactly what the simple form does. */
  ghost predicate HandlesOnce(r: TickResult, done: seq<PendingPacket>, rest: seq<PendingPacket>, now: nat) {
    && multiset(r.pending) == multiset(done) + multiset(Survivors(rest, now))
    && multiset(r.toSend) == multiset(AllResends(rest, now))
    && multiset(r.gaveUp) == multiset(AllGiveUps(rest, now))
  }

  lemma HandleOneMore(r: TickResult, done: seq<PendingPacket>, rest: seq<PendingPacket>, now: nat)
    requires rest != [] && HandlesOnce(r, done + Survives(rest[0], now), rest[1..], now)
    ensures HandlesOnce(r.(toSend := Resends(rest[0], now) + r.toSend, gaveUp := GivesUp(rest[0], now) + r.gaveUp),
                        done, rest, now)
  {
    assert multiset(done + Survives(rest[0], now)) == multiset(done) + multiset(Survives(rest[0], now));
  }

  lemma HandlesReordered(r: TickResult, done: seq<PendingPacket>, rest: seq<PendingPacket>,
          other: seq<PendingPacket>, now: nat)
    requires HandlesOnce(r, done, rest, now)
    requires multiset(Survivors(rest, now)) == multiset(Survivors(other, now))
    requires multiset(AllResends(rest, now)) == multiset(AllResends(other, now))
    requires multiset(AllGiveUps(rest, now)) == multiset(AllGiveUps(other, now))
    ensures HandlesOnce(r, done, other, now)
  {}

  /** The rest of the loop once it has dealt with the entry at index |done|. */
  function Onward(done: seq<PendingPacket>, rest: seq<PendingPacket>, now: nat, db: Db): TickResult
    requires rest != []
  {
    var e := rest[0];
    if e.deadline <= now && e.retriesLeft == 0 then
      TickFrom(done + LastFirst(rest), |done|, now, db)
    else
      var clear := e.deadline <= now && e.retriesLeft == 1;
      TickFrom(done + Survives(e, now) + rest[1..], |done| + 1, now,
               if clear then Amend(db, e.dest, WithNextHop(NO_NEXT_HOP)) else db)
  }

  lemma WaitingUnfolds(done: seq<PendingPacket>, rest: seq<PendingPacket>, now: nat, db: Db)
    requires rest != [] && now < rest[0].deadline
    ensures TickFrom(done + rest, |done|, now, db) == Onward(done, rest, now, db)
  {
    assert done + [rest[0]] + rest[1..] == done + rest;
  }

  lemma RetryUnfolds(done: seq<PendingPacket>, rest: seq<PendingPacket>, now: nat, db: Db)
    requires rest != [] && rest[0].deadline <= now && rest[0].retriesLeft > 0
    ensures var r := Onward(done, rest, now, db);
            TickFrom(done + rest, |done|, now, db) == r.(toSend := Resends(rest[0], now) + r.toSend)
  {
    var e := rest[0];
    assert (done + rest)[|done| := Retried(e, now)] == done + [Retried(e, now)] + rest[1..];
  }

  lemma GiveUpUnfolds(done: seq<PendingPacket>, rest: seq<PendingPacket>, now: nat, db: Db)
    requires rest != [] && rest[0].deadline <= now && rest[0].retriesLeft == 0
    ensures var r := Onward(done, rest, now, db);
            TickFrom(done + rest, |done|, now, db) == r.(gaveUp := GivesUp(rest[0], now) + r.gaveUp)
  {
    hide Amend, Retried;
    assert SwapRemove(done + rest, |done|) == done + LastFirst(rest);
  }

  lemma TickUnfolds(done: seq<PendingPacket>, rest: seq<PendingPacket>, now: nat, db: Db)
    requires rest != []
    ensures var r := Onward(done, rest, now, db);
            TickFrom(done + rest, |done|, now, db)
            == r.(toSend := Resends(rest[0], now) + r.toSend, gaveUp := GivesUp(rest[0], now) + r.gaveUp)
  {
    var r := Onward(done, rest, now, db);
    assert [] + r.toSend == r.toSend && [] + r.gaveUp == r.gaveUp;
    if now < rest[0].deadline {
      WaitingUnfolds(done, rest, now, db);
    } else if rest[0].retriesLeft > 0 {
      RetryUnfolds(done, rest, now, db);
    } else {
      GiveUpUnfolds(done, rest, now, db);
    }
  }

  /** However the swapping reorders things, from any point on each expired entry is handled
      exactly once and every other one is left alone. */
  lemma {:induction false} TickFromHandlesEachOnce(done: seq<PendingPacket>, rest: seq<PendingPacket>, now: nat, db: Db)
    ensures HandlesOnce(TickFrom(done + rest, |done|, now, db), done, rest, now)
    decreases |rest|, 1
  {
    if rest == [] {
      assert done + rest == done;
    } else {
      OnwardHandlesEachOnce(done, rest, now, db);
      TickUnfolds(done, rest, now, db);
      HandleOneMore(Onward(done, rest, now, db), done, rest, now);
    }
  }

  lemma {:induction false} OnwardHandlesEachOnce(done: seq<PendingPacket>, rest: seq<PendingPacket>, now: nat, db: Db)
    requires rest != []
    ensures HandlesOnce(Onward(done, rest, now, db), done + Survives(rest[0], now), rest[1..], now)
    decreases |rest|, 0
  {
    var e := rest[0];
    if e.deadline <= now && e.retriesLeft == 0 {
      TickFromHandlesEachOnce(done, LastFirst(rest), now, db);
      AfterGivingUp(Onward(done, rest, now, db), done, rest, now);
    } else {
      var clear := e.deadline <= now && e.retriesLeft == 1;
      TickFromHandlesEachOnce(done + Survives(e, now), rest[1..], now,
                              if clear then Amend(db, e.dest, WithNextHop(NO_NEXT_HOP)) else db);
    }
  }

  lemma AfterGivingUp(r: TickResult, done: seq<PendingPacket>, rest: seq<PendingPacket>, now: nat)
    requires rest != [] && rest[0].deadline <= now && rest[0].retriesLeft == 0
    requires HandlesOnce(r, done, LastFirst(rest), now)
    ensures HandlesOnce(r, done + Survives(rest[0], now), rest[1..], now)
  {
    LastFirstReordersOnly(rest, now);
    HandlesReordered(r, done, LastFirst(rest), rest[1..], now);
    assert done + Survives(rest[0], now) == done;
  }

  // ---- What the tick does to the node table ----

  function ExhaustsNow(e: PendingPacket, now: nat): bool { e.deadline <= now && e.retriesLeft == 1 }

  /** The destinations whose packets make their last retry. */
  function LastDests(p: seq<PendingPacket>, now: nat): set<u32> {
    set e | e in p && ExhaustsNow(e, now) :: e.dest
  }

  /** The table with the next hop cleared in the first entry of each number in `ds`. */
  function Flooded(db: Db, ds: set<u32>): (r: Db)
    ensures |r.nodes| == |db.nodes| && r.our == db.our && r.dirty == db.dirty
    ensures forall i :: 0 <= i < |db.nodes| ==>
              r.nodes[i] == if db.nodes[i].nodeNum in ds && IndexOf(db.nodes, db.nodes[i].nodeNum) == i
                            then db.nodes[i].(nextHop := NO_NEXT_HOP) else db.nodes[i]
  {
    db.(nodes := seq(|db.nodes|, i requires 0 <= i < |db.nodes| =>
      if db.nodes[i].nodeNum in ds && IndexOf(db.nodes, db.nodes[i].nodeNum) == i
      then db.nodes[i].(nextHop := NO_NEXT_HOP) else db.nodes[i]))
  }

  lemma SameNumbersSameIndex(a: seq<NodeEntry>, b: seq<NodeEntry>, num: u32)
    requires |a| == |b| && forall i :: 0 <= i < |a| ==> a[i].nodeNum == b[i].nodeNum
    ensures IndexOf(a, num) == IndexOf(b, num)
  {
    var i, j := IndexOf(a, num), IndexOf(b, num);
    assert i == |a| || b[i].nodeNum == num;
    assert j == |b| || a[j].nodeNum == num;
  }

  /** Clearing one route first changes nothing but which routes are left to clear. */
  lemma FloodOneMore(db: Db, d: u32, ds: set<u32>)
    ensures Flooded(Amend(db, d, WithNextHop(NO_NEXT_HOP)), ds) == Flooded(db, ds + {d})
  {
    hide IndexOf;
    var a := Amend(db, d, WithNextHop(NO_NEXT_HOP));
    assert |a.nodes| == |db.nodes| && forall i :: 0 <= i < |db.nodes| ==> a.nodes[i].nodeNum == db.nodes[i].nodeNum;
    forall i | 0 <= i < |db.nodes|
      ensures Flooded(a, ds).nodes[i] == Flooded(db, ds + {d}).nodes[i]
    {
      SameNumbersSameIndex(a.nodes, db.nodes, db.nodes[i].nodeNum);
    }
  }

  lemma FloodNone(db: Db)
    ensures Flooded(db, {}) == db
  {}

  lemma LastDestsSplit(rest: seq<PendingPacket>, now: nat)
    requires rest != []
    ensures LastDests(rest, now) == LastDests(rest[1..], now) + if ExhaustsNow(rest[0], now) then {rest[0].dest} else {}
  {
    assert rest == [rest[0]] + rest[1..];
  }

  lemma LastFirstSameDests(rest: seq<PendingPacket>, now: nat)
    requires rest != []
    ensures LastDests(LastFirst(rest), now) == LastDests(rest[1..], now)
  {
    assert forall e :: e in LastFirst(rest) <==> e in rest[1..] by {
      if |rest| > 1 {
        assert rest[1..] == rest[1..|rest| - 1] + [rest[|rest| - 1]];
      }
    }
  }

  /** However the swapping reorders things, from any point on exactly the routes of the last
      retries still to come are cleared. */
  lemma {:induction false} TickFromClearsRoutes(done: seq<PendingPacket>, rest: seq<PendingPacket>, now: nat, db: Db)
    ensures TickFrom(done + rest, |done|, now, db).db == Flooded(db, LastDests(rest, now))
    decreases |rest|, 1
  {
    hide Amend, Flooded, LastDests, TickFrom, Onward;
    if rest == [] {
      assert done + rest == done;
      NothingLeft(done, now, db);
    } else {
      TickUnfolds(done, rest, now, db);
      OnwardClearsRoutes(done, rest, now, db);
    }
  }

  lemma NothingLeft(done: seq<PendingPacket>, now: nat, db: Db)
    ensures TickFrom(done, |done|, now, db).db == Flooded(db, LastDests([], now))
  {
    assert LastDests([], now) == {};
    FloodNone(db);
  }

  lemma {:induction false} OnwardClearsRoutes(done: seq<PendingPacket>, rest: seq<PendingPacket>, now: nat, db: Db)
    requires rest != []
    ensures Onward(done, rest, now, db).db == Flooded(db, LastDests(rest, now))
    decreases |rest|, 0
  {
    hide Amend, Flooded, LastDests, TickFrom;
    var e := rest[0];
    LastDestsSplit(rest, now);
    if e.deadline <= now && e.retriesLeft == 0 {
      TickFromClearsRoutes(done, LastFirst(rest), now, db);
      LastFirstSameDests(rest, now);
    } else if e.deadline <= now && e.retriesLeft == 1 {
      TickFromClearsRoutes(done + Survives(e, now), rest[1..], now, Amend(db, e.dest, WithNextHop(NO_NEXT_HOP)));
      FloodOneMore(db, e.dest, LastDests(rest[1..], now));
    } else {
      TickFromClearsRoutes(done + Survives(e, now), rest[1..], now, db);
    }
  }

  /** The whole tick against its simple form: entries, frames, give-ups and the node table. */
  lemma TickHandlesEachExpiredEntryOnce(p: seq<PendingPacket>, now: nat, db: Db)
    ensures var r := TickFrom(p, 0, now, db);
            && multiset(r.pending) == multiset(Survivors(p, now))
            && multiset(r.toSend) == multiset(AllResends(p, now))
            && multiset(r.gaveUp) == multiset(AllGiveUps(p, now))
            && |r.toSend| + |r.gaveUp| <= |p|
            && r.db == Flooded(db, LastDests(p, now))
  {
    hide TickFrom;
    TickFromHandlesEachOnce([], p, now, db);
    TickFromClearsRoutes([], p, now, db);
    assert [] + p == p;
  }

  /** The tick clears the next hop of an entry if and only if it is the first one of the
      destination of an expired packet on its last retry, and changes nothing else in the table. */
  lemma LastRetriesClearExactlyTheirRoutes(p: seq<PendingPacket>, now: nat, db: Db)
    ensures var d := TickFrom(p, 0, now, db).db;
            && |d.nodes| == |db.nodes| && d.our == db.our && d.dirty == db.dirty
            && forall i :: 0 <= i < |db.nodes| ==>
                 && (d.nodes[i] == db.nodes[i] || d.nodes[i] == db.nodes[i].(nextHop := NO_NEXT_HOP))
                 && (d.nodes[i].nextHop == NO_NEXT_HOP <==>
                       db.nodes[i].nextHop == NO_NEXT_HOP
                       || (IndexOf(db.nodes, db.nodes[i].nodeNum) == i
                           && exists e ::
                                e in p && e.deadline <= now && e.retriesLeft == 1 && e.dest == db.nodes[i].nodeNum))
  {
    hide TickFrom;
    TickFromClearsRoutes([], p, now, db);
    assert [] + p == p;
    forall i | 0 <= i < |db.nodes|
      ensures db.nodes[i].nodeNum in LastDests(p, now) <==>
                exists e :: e in p && e.deadline <= now && e.retriesLeft == 1 && e.dest == db.nodes[i].nodeNum
    {
    }
  }

  /** A well-formed table stays one through the tick, with the same nodes in the same places. */
  lemma TickKeepsDbValid(p: seq<PendingPacket>, now: nat, db: Db)
    requires ValidNodes(db.nodes)
    ensures var d := TickFrom(p, 0, now, db).db;
            && ValidNodes(d.nodes) && |d.nodes| == |db.nodes| && d.our == db.our
            && forall i :: 0 <= i < |db.nodes| ==> d.nodes[i].nodeNum == db.nodes[i].nodeNum
  {
    hide TickFrom;
    LastRetriesClearExactlyTheirRoutes(p, now, db);
    SameButRoutesValid(db.nodes, TickFrom(p, 0, now, db).db.nodes);
  }

  lemma SameButRoutesValid(a: seq<NodeEntry>, b: seq<NodeEntry>)
    requires ValidNodes(a) && |a| == |b|
    requires forall i :: 0 <= i < |a| ==> b[i] == a[i] || b[i] == a[i].(nextHop := NO_NEXT_HOP)
    ensures ValidNodes(b)
  {
    forall e | e in b
      ensures !Reserved(e.nodeNum) && (e.pubKey.Some? ==> |e.pubKey.value| == 32)
    {
      var i :| 0 <= i < |b| && b[i] == e;
      assert a[i] in a;
    }
  }

  /** Push every deadline back while the channel is busy. */
  method ExtendPendingDeadlines(p: seq<PendingPacket>, ms: nat) returns (r: seq<PendingPacket>)
    ensures r == ExtendDeadlines(p, ms)
  {
    r := p;
    for i := 0 to |p|
      invariant |r| == |p|
      invariant forall k :: 0 <= k < |p| ==> r[k] == if k < i then p[k].(deadline := p[k].deadline + ms) else p[k]
    {
      r := r[i := r[i].(deadline := r[i].deadline + ms)];
    }
  }

  /** The loop over the pending vector; the database is amended as it goes. */
  method TickRetransmissions(p: seq<PendingPacket>, now: nat, nodeDb: NodeDB)
    returns (pending: seq<PendingPacket>, toSend: seq<Resend>, gaveUp: seq<GiveUp>)
    requires nodeDb.Valid() && |p| <= MAX_PENDING
    modifies nodeDb
    ensures nodeDb.Valid() && TickResult(pending, toSend, gaveUp, nodeDb.View())
            == TickFrom(p, 0, now, old(nodeDb.View()))
    ensures |toSend| + |gaveUp| <= MAX_PENDING
  {
    pending, toSend, gaveUp := p, [], [];
    ghost var goal := TickFrom(p, 0, now, nodeDb.View());
    var i := 0;
    while i < |pending|
      invariant 0 <= i <= |pending| <= |p| && nodeDb.Valid()
      invariant var r := TickFrom(pending, i, now, nodeDb.View());
                TickResult(r.pending, toSend + r.toSend, gaveUp + r.gaveUp, r.db) == goal
      decreases |pending| - i
    {
      ghost var db := nodeDb.View();
      ghost var rest := TickFrom(pending, i, now, db);
      if now < pending[i].deadline {
        i := i + 1;
      } else if pending[i].retriesLeft > 0 {
        var left := pending[i].retriesLeft - 1;
        var frame := pending[i].frame;
        if left == 0 {
          nodeDb.SetNextHop(pending[i].dest, NO_NEXT_HOP);
          frame := frame.WithNextHop(NO_NEXT_HOP);
        }
        ghost var e := Retried(pending[i], now);
        ghost var after := TickFrom(pending[i := e], i + 1, now, nodeDb.View());
        assert rest.toSend == [Resend(e.serial, e.frame)] + after.toSend;
        assert toSend + rest.toSend == toSend + [Resend(e.serial, e.frame)] + after.toSend;
        pending := pending[i := pending[i].(frame := frame, deadline := now + WANT_ACK_TIMEOUT_MS,
                                            retriesLeft := left)];
        toSend := toSend + [Resend(pending[i].serial, frame)];
        i := i + 1;
      } else {
        var entry := pending[i];
        ghost var after := TickFrom(SwapRemove(pending, i), i, now, db);
        ghost var g := GiveUp(entry.serial, entry.bleNotify, entry.packetId);
        assert rest.gaveUp == [g] + after.gaveUp;
        assert gaveUp + rest.gaveUp == gaveUp + [g] + after.gaveUp;
        pending := SwapRemove(pending, i);
        gaveUp := gaveUp + [GiveUp(entry.serial, entry.bleNotify, entry.packetId)];
      }
    }
    assert toSend + [] == toSend && gaveUp + [] == gaveUp;
  }
}
