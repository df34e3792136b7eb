/** At-least-once delivery: a log delivered with rewinds leaves the tables the log delivered once leaves. */
module Replay {
  import opened Types
  import opened Projection
  import W = World
  import I = Instance

  predicate Registers(l: Log, id: MasjidId) { l.event.MasjidRegistered? && l.event.id == id }

  predicate Proposes(l: Log, a: Address, n: nat) {
    && l.event.InstanceLog? && l.event.instance == a
    && l.event.event.CashOutProposed? && l.event.event.requestId == n
  }

  /** An update of a masjid that must already have a row. */
  predicate UpdatesMasjid(e: W.Event) {
    e.MasjidAttested? || e.MasjidRejected? || e.MasjidVerified? || e.MasjidStatusUpdated?
  }

  predicate Settles(e: W.Event) {
    e.InstanceLog? && (e.event.CashOutExecuted? || e.event.CashOutCanceled?)
  }

  /** The `q`-th log is an update of something created earlier in the log. */
  ghost predicate Grounded(log: seq<Log>, q: nat)
    requires q < |log|
  {
    var e := log[q].event;
    && (e.MasjidRegistered? ==> e.proposer == e.id.sender)
    && (UpdatesMasjid(e) ==> exists p :: 0 <= p < q && Registers(log[p], e.id))
    && (Settles(e) ==> exists p :: 0 <= p < q && Proposes(log[p], e.instance, e.event.requestId))
  }

  ghost predicate WellFormedLog(log: seq<Log>) { forall q :: 0 <= q < |log| ==> Grounded(log, q) }

  /** The last thing `log[lo..hi]` writes into cell `c`. */
  function LastIn(log: seq<Log>, lo: nat, hi: nat, c: Cell): Option<Content>
    requires lo <= hi <= |log|
  {
    if lo == hi then None
    else if Writes(log[hi - 1], c).Some? then Writes(log[hi - 1], c)
    else LastIn(log, lo, hi - 1, c)
  }

  lemma {:induction false} LastInSplits(log: seq<Log>, lo: nat, mid: nat, hi: nat, c: Cell)
    requires lo <= mid <= hi <= |log|
    ensures LastIn(log, lo, hi, c)
            == if LastIn(log, mid, hi, c).Some? then LastIn(log, mid, hi, c) else LastIn(log, lo, mid, c)
    decreases hi
  {
    hide Writes;
    if mid < hi && Writes(log[hi - 1], c).None? { LastInSplits(log, lo, mid, hi - 1, c); }
  }

  /** Delivering `log[at..]` to these tables would complete them: every row created before `at` is there,
      and every cell not written from `at` on already holds its final content. */
  ghost predicate Delivered(db: Db, log: seq<Log>, at: nat) {
    && at <= |log|
    && (forall p, id :: 0 <= p < at && Registers(log[p], id) ==> id in db.masjids)
    && (forall p, a, n: nat :: 0 <= p < at && Proposes(log[p], a, n) ==> (a, n) in db.requests)
    && (forall id :: id in db.masjids ==> db.masjids[id].terms.proposer == id.sender)
    && (forall c :: LastIn(log, at, |log|, c) == None ==> Read(db, c) == LastIn(log, 0, |log|, c))
  }

  lemma NothingDelivered(log: seq<Log>)
    ensures Delivered(EMPTY, log, 0)
  {
    hide Writes;
  }

  /** Going back loses nothing. */
  lemma Rewind(db: Db, log: seq<Log>, at: nat, back: nat)
    requires Delivered(db, log, at) && back <= at
    ensures Delivered(db, log, back)
  {
    hide Writes, Read, LastIn;
    forall c | LastIn(log, back, |log|, c) == None ensures Read(db, c) == LastIn(log, 0, |log|, c) {
      LastInSplits(log, back, at, |log|, c);
    }
  }

  lemma DeliveredIsReady(db: Db, log: seq<Log>, at: nat)
    requires Delivered(db, log, at) && at < |log| && Grounded(log, at)
    ensures Ready(db, log[at])
  {
    hide Writes, Read, LastIn;
  }

  lemma HandleKeepsRows(db: Db, l: Log)
    ensures db.masjids.Keys <= Handle(db, l).masjids.Keys && db.requests.Keys <= Handle(db, l).requests.Keys
    ensures forall id :: Registers(l, id) ==> id in Handle(db, l).masjids
    ensures forall a, n: nat :: Proposes(l, a, n) ==> (a, n) in Handle(db, l).requests
  {
    hide HandleInstance;
    if l.event.InstanceLog? { InstanceLogKeepsRows(db, l.event.instance, l.event.event, l.timestamp); }
  }

  lemma InstanceLogKeepsRows(db: Db, a: Address, e: I.Event, timestamp: int)
    ensures var db' := HandleInstance(db, a, e, timestamp);
            && db'.masjids == db.masjids && db.requests.Keys <= db'.requests.Keys
            && (e.CashOutProposed? ==> (a, e.requestId) in db'.requests)
  {
  }

  lemma HandleKeepsProposers(db: Db, l: Log)
    requires forall id :: id in db.masjids ==> db.masjids[id].terms.proposer == id.sender
    requires l.event.MasjidRegistered? ==> l.event.proposer == l.event.id.sender
    ensures forall id :: id in Handle(db, l).masjids ==> Handle(db, l).masjids[id].terms.proposer == id.sender
  {
    hide HandleInstance;
    if l.event.InstanceLog? { InstanceLogsKeepMasjids(db, l.event.instance, l.event.event, l.timestamp); }
  }

  lemma InstanceLogsKeepMasjids(db: Db, a: Address, e: I.Event, timestamp: int)
    ensures HandleInstance(db, a, e, timestamp).masjids == db.masjids
    ensures HandleInstance(db, a, e, timestamp).attests == db.attests
  {
  }

  lemma DeliverOne(db: Db, log: seq<Log>, at: nat)
    requires WellFormedLog(log) && Delivered(db, log, at) && at < |log|
    ensures Delivered(Handle(db, log[at]), log, at + 1)
  {
    hide Writes, Read, Handle;
    var db' := Handle(db, log[at]);
    assert Grounded(log, at);
    DeliveredIsReady(db, log, at);
    HandleKeepsRows(db, log[at]);
    HandleKeepsProposers(db, log[at]);
    forall c | LastIn(log, at + 1, |log|, c) == None ensures Read(db', c) == LastIn(log, 0, |log|, c) {
      HandleWrites(db, log[at], c);
      LastInSplits(log, at, at + 1, |log|, c);
      LastInSplits(log, 0, at + 1, |log|, c);
    }
  }

  /** Handles `log[i..j]`, one log after the other. */
  function ApplyRange(db: Db, log: seq<Log>, i: nat, j: nat): Db
    requires i <= j <= |log|
    decreases j - i
  {
    if i == j then db else ApplyRange(Handle(db, log[i]), log, i + 1, j)
  }

  lemma {:induction false} DeliverRange(db: Db, log: seq<Log>, i: nat, j: nat)
    requires WellFormedLog(log) && Delivered(db, log, i) && i <= j <= |log|
    ensures Delivered(ApplyRange(db, log, i, j), log, j)
    decreases j - i
  {
    hide WellFormedLog, Delivered, Handle;
    if i == j {
    } else {
      DeliverOne(db, log, i);
      DeliverRange(Handle(db, log[i]), log, i + 1, j);
    }
  }

  lemma CompleteIsUnique(db: Db, db': Db, log: seq<Log>)
    requires Delivered(db, log, |log|) && Delivered(db', log, |log|)
    ensures db == db'
  {
    hide Writes, Read;
    forall c ensures Read(db, c) == Read(db', c) { assert LastIn(log, |log|, |log|, c) == None; }
    CellsDetermine(db, db');
  }

  /** One pass of the indexer: logs `first` to `past`, not including `past`. */
  datatype Segment = Segment(first: nat, past: nat)

  /** Each pass starts no later than the one before it stopped; the last one reaches `end`. */
  predicate Schedule(segments: seq<Segment>, at: nat, end: nat)
    decreases |segments|
  {
    if segments == [] then at == end
    else
      && segments[0].first <= at && segments[0].first <= segments[0].past <= end
      && Schedule(segments[1..], segments[0].past, end)
  }

  function Deliver(db: Db, log: seq<Log>, segments: seq<Segment>, at: nat): Db
    requires Schedule(segments, at, |log|)
    decreases |segments|
  {
    if segments == [] then db
    else Deliver(ApplyRange(db, log, segments[0].first, segments[0].past), log, segments[1..], segments[0].past)
  }

  lemma {:induction false} DeliverCompletes(db: Db, log: seq<Log>, segments: seq<Segment>, at: nat)
    requires WellFormedLog(log) && Delivered(db, log, at) && Schedule(segments, at, |log|)
    ensures Delivered(Deliver(db, log, segments, at), log, |log|)
    decreases |segments|
  {
    hide WellFormedLog, Delivered, ApplyRange;
    if segments == [] {
    } else {
      var s := segments[0];
      Rewind(db, log, at, s.first);
      DeliverRange(db, log, s.first, s.past);
      DeliverCompletes(ApplyRange(db, log, s.first, s.past), log, segments[1..], s.past);
    }
  }

  /** However often the indexer goes back, once it has reached the end of the log its tables are those of
      handling the log once, although a replayed registration or proposal first resets its row. */
  lemma AtLeastOnceIsExactlyOnce(log: seq<Log>, segments: seq<Segment>)
    requires WellFormedLog(log) && Schedule(segments, 0, |log|)
    ensures Deliver(EMPTY, log, segments, 0) == Apply(EMPTY, log)
  {
    hide WellFormedLog, Delivered, ApplyRange, Schedule;
    NothingDelivered(log);
    DeliverCompletes(EMPTY, log, segments, 0);
    DeliverRange(EMPTY, log, 0, |log|);
    CompleteIsUnique(Deliver(EMPTY, log, segments, 0), ApplyRange(EMPTY, log, 0, |log|), log);
    PrefixIsRange(log, |log|);
    assert log[..|log|] == log;
  }

  /** Handling `log[..j]` and then `log[i..]`, for any i <= j, is handling `log`. */
  lemma ReplayIsIdempotent(log: seq<Log>, i: nat, j: nat)
    requires WellFormedLog(log) && i <= j <= |log|
    ensures ApplyRange(Apply(EMPTY, log[..j]), log, i, |log|) == Apply(EMPTY, log)
  {
    hide WellFormedLog, Delivered, ApplyRange;
    NothingDelivered(log);
    DeliverRange(EMPTY, log, 0, j);
    PrefixIsRange(log, j);
    Rewind(Apply(EMPTY, log[..j]), log, j, i);
    DeliverRange(Apply(EMPTY, log[..j]), log, i, |log|);
    DeliverRange(EMPTY, log, 0, |log|);
    CompleteIsUnique(ApplyRange(Apply(EMPTY, log[..j]), log, i, |log|), ApplyRange(EMPTY, log, 0, |log|), log);
    PrefixIsRange(log, |log|);
    assert log[..|log|] == log;
  }

  lemma {:induction false} RangeAppends(db: Db, log: seq<Log>, i: nat, j: nat)
    requires i <= j < |log|
    ensures ApplyRange(db, log, i, j + 1) == Handle(ApplyRange(db, log, i, j), log[j])
    decreases j - i
  {
    hide Handle;
    if i == j {
    } else {
      RangeAppends(Handle(db, log[i]), log, i + 1, j);
    }
  }

  lemma {:induction false} PrefixIsRange(log: seq<Log>, j: nat)
    requires j <= |log|
    ensures ApplyRange(EMPTY, log, 0, j) == Apply(EMPTY, log[..j])
  {
    hide Handle;
    if j == 0 {
    } else {
      PrefixIsRange(log, j - 1);
      RangeAppends(EMPTY, log, 0, j - 1);
      assert log[..j][..j - 1] == log[..j - 1];
    }
  }

  // ---- Replays that stop half way -----------------------------------------------------------

  /** Everything the log ever creates has its row. */
  ghost predicate HasAllRows(db: Db, log: seq<Log>) {
    && (forall p, id :: 0 <= p < |log| && Registers(log[p], id) ==> id in db.masjids)
    && (forall p, a, n: nat :: 0 <= p < |log| && Proposes(log[p], a, n) ==> (a, n) in db.requests)
    && (forall id :: id in db.masjids ==> db.masjids[id].terms.proposer == id.sender)
  }

  lemma AllRowsAreReady(db: Db, log: seq<Log>, q: nat)
    requires HasAllRows(db, log) && q < |log| && Grounded(log, q)
    ensures Ready(db, log[q])
  {
  }

  lemma {:induction false} RangeWrites(db: Db, log: seq<Log>, i: nat, j: nat, c: Cell)
    requires WellFormedLog(log) && HasAllRows(db, log) && i <= j <= |log|
    ensures var db' := ApplyRange(db, log, i, j);
            && HasAllRows(db', log)
            && Read(db', c) == if LastIn(log, i, j, c).Some? then LastIn(log, i, j, c) else Read(db, c)
    decreases j - i
  {
    hide Writes, Read, Handle;
    if i == j {
    } else {
      RangeWrites(db, log, i, j - 1, c);
      RangeAppends(db, log, i, j - 1);
      var before := ApplyRange(db, log, i, j - 1);
      assert Grounded(log, j - 1);
      AllRowsAreReady(before, log, j - 1);
      HandleWrites(before, log[j - 1], c);
      HandleKeepsRows(before, log[j - 1]);
      HandleKeepsProposers(before, log[j - 1]);
    }
  }

  /** What `log[i..j]` leaves in a cell is what the whole log leaves there. */
  predicate IsFinal(log: seq<Log>, i: nat, j: nat, c: Cell)
    requires i <= j <= |log|
  {
    LastIn(log, i, j, c).Some? ==> LastIn(log, i, j, c) == LastIn(log, 0, |log|, c)
  }

  /** On tables that hold the whole log, handling `log[i..j]` again and stopping there does no harm exactly
      when the last thing it writes to each cell is the last thing the whole log writes to it. */
  lemma InterruptedReplayIsHarmlessExactlyWhen(log: seq<Log>, i: nat, j: nat)
    requires WellFormedLog(log) && i <= j <= |log|
    ensures ApplyRange(Apply(EMPTY, log), log, i, j) == Apply(EMPTY, log) <==> forall c :: IsFinal(log, i, j, c)
  {
    hide Writes, Read, WellFormedLog, ApplyRange, LastIn;
    var db, db' := Apply(EMPTY, log), ApplyRange(Apply(EMPTY, log), log, i, j);
    NothingDelivered(log);
    DeliverRange(EMPTY, log, 0, |log|);
    PrefixIsRange(log, |log|);
    assert log[..|log|] == log;
    assert Delivered(db, log, |log|);
    assert forall c :: LastIn(log, |log|, |log|, c) == None ==> Read(db, c) == LastIn(log, 0, |log|, c);
    forall c
      ensures Read(db, c) == LastIn(log, 0, |log|, c)
      ensures Read(db', c) == if LastIn(log, i, j, c).Some? then LastIn(log, i, j, c) else Read(db, c)
    {
      NothingInNothing(log, c);
      RangeWrites(db, log, i, j, c);
    }
    if forall c :: IsFinal(log, i, j, c) {
      forall c ensures Read(db, c) == Read(db', c) { assert IsFinal(log, i, j, c); }
      CellsDetermine(db, db');
    }
    if db == db' {
      forall c ensures IsFinal(log, i, j, c) {
        assert Read(db, c) == Read(db', c);
      }
    }
  }

  lemma NothingInNothing(log: seq<Log>, c: Cell)
    ensures LastIn(log, |log|, |log|, c) == None
  {
  }
}
