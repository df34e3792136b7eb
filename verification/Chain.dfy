/** What the indexer asks a node for, and what fetching it in pieces delivers to the tables. */
module Chain {
  import opened Types
  import opened Projection
  import opened Replay
  import opened Facts
  import W = World
  import I = Instance

  // ---- Blocks -------------------------------------------------------------------------------

  /** All logs in chain order, and the block of each. */
  datatype Node = Node(log: seq<Log>, blockOf: seq<nat>) {
    ghost predicate Ordered() {
      && |log| == |blockOf|
      && forall p, q :: 0 <= p <= q < |log| ==> blockOf[p] <= blockOf[q]
    }

    /** How many logs are in blocks before `b`. */
    function Before(b: nat): nat { CountBefore(blockOf, b) }

    /** The logs of blocks `first` to `last` that a query matches, in chain order. */
    function Logs(first: nat, last: nat, q: Query): seq<Log>
      requires |log| == |blockOf|
    {
      InBlocks(log, blockOf, first, last, q)
    }
  }

  function CountBefore(blockOf: seq<nat>, b: nat): (n: nat)
    ensures n <= |blockOf|
  {
    if blockOf == [] then 0
    else if blockOf[|blockOf| - 1] < b then |blockOf|
    else CountBefore(blockOf[..|blockOf| - 1], b)
  }

  /** An eth_getLogs filter: the protocol's address and its five topics, or a list of instances. */
  datatype Query = OfProtocol | OfInstances(addresses: set<Address>)

  predicate Matches(q: Query, e: W.Event) {
    match q
    case OfProtocol => e.MasjidRegistered? || UpdatesMasjid(e)
    case OfInstances(addresses) => e.InstanceLog? && e.instance in addresses
  }

  function InBlocks(log: seq<Log>, blockOf: seq<nat>, first: nat, last: nat, q: Query): seq<Log>
    requires |log| == |blockOf|
  {
    if log == [] then []
    else
      var n := |log| - 1;
      var rest := InBlocks(log[..n], blockOf[..n], first, last, q);
      if first <= blockOf[n] <= last && Matches(q, log[n].event) then rest + [log[n]] else rest
  }

  /** The logs a query matches. */
  function Filter(log: seq<Log>, q: Query): seq<Log> {
    if log == [] then []
    else
      var n := |log| - 1;
      if Matches(q, log[n].event) then Filter(log[..n], q) + [log[n]] else Filter(log[..n], q)
  }

  /** In block order, the logs before block `b` are a prefix. */
  lemma {:induction false} BeforeSplits(blockOf: seq<nat>, b: nat)
    requires forall p, q :: 0 <= p <= q < |blockOf| ==> blockOf[p] <= blockOf[q]
    ensures forall p :: 0 <= p < |blockOf| ==> (p < CountBefore(blockOf, b) <==> blockOf[p] < b)
  {
    if blockOf == [] {
    } else {
      var init := blockOf[..|blockOf| - 1];
      if blockOf[|blockOf| - 1] >= b {
        BeforeSplits(init, b);
        forall p | 0 <= p < |blockOf| ensures p < CountBefore(blockOf, b) <==> blockOf[p] < b {
          if p < |init| { assert init[p] == blockOf[p]; }
        }
      }
    }
  }

  lemma BeforeIsMonotone(node: Node, b: nat, c: nat)
    requires node.Ordered() && b <= c
    ensures node.Before(b) <= node.Before(c) <= |node.log|
  {
    BeforeSplits(node.blockOf, b);
    BeforeSplits(node.blockOf, c);
    if node.Before(c) < |node.log| { assert node.blockOf[node.Before(c)] >= c; }
  }

  lemma {:induction false} FilterSplits(a: seq<Log>, b: seq<Log>, q: Query)
    ensures Filter(a + b, q) == Filter(a, q) + Filter(b, q)
    decreases |b|
  {
    hide Matches;
    if b == [] {
      assert a + b == a;
    } else {
      assert (a + b)[..|a + b| - 1] == a + b[..|b| - 1];
      FilterSplits(a, b[..|b| - 1], q);
    }
  }

  /** A block range is one stretch of the log. */
  lemma {:induction false} BlocksAreARange(log: seq<Log>, blockOf: seq<nat>, lo: nat, hi: nat, first: nat, last: nat,
                                           q: Query)
    requires |log| == |blockOf| && lo <= hi <= |log|
    requires forall p :: 0 <= p < |log| ==> (lo <= p < hi <==> first <= blockOf[p] <= last)
    ensures InBlocks(log, blockOf, first, last, q) == Filter(log[lo..hi], q)
  {
    hide Matches;
    if log == [] {
      assert log[lo..hi] == [];
    } else {
      var n := |log| - 1;
      var init, lo', hi' := log[..n], if lo > n then n else lo, if hi > n then n else hi;
      BlocksAreARange(init, blockOf[..n], lo', hi', first, last, q);
      if lo <= n < hi {
        assert log[lo..hi] == init[lo'..hi'] + [log[n]];
        FilterAppends(init[lo'..hi'], log[n], q);
      } else if lo <= n {
        assert log[lo..hi] == init[lo..hi];
      } else {
        assert log[lo..hi] == [] == init[lo'..hi'];
      }
    }
  }

  lemma FilterAppends(log: seq<Log>, l: Log, q: Query)
    ensures Filter(log + [l], q) == if Matches(q, l.event) then Filter(log, q) + [l] else Filter(log, q)
  {
  }

  lemma FetchIsARange(node: Node, first: nat, last: nat, q: Query)
    requires node.Ordered() && first <= last + 1
    ensures node.Before(first) <= node.Before(last + 1) <= |node.log|
    ensures node.Logs(first, last, q) == Filter(node.log[node.Before(first)..node.Before(last + 1)], q)
  {
    BeforeSplits(node.blockOf, first);
    BeforeSplits(node.blockOf, last + 1);
    BeforeIsMonotone(node, first, last + 1);
    BlocksAreARange(node.log, node.blockOf, node.Before(first), node.Before(last + 1), first, last, q);
  }

  // ---- Chunks -------------------------------------------------------------------------------

  const CHUNK_SIZE := 500

  datatype Range = Range(first: nat, last: nat)

  /** The block ranges one pass asks for. */
  function Chunks(from: nat, head: nat): seq<Range>
    decreases head + 1 - from
  {
    if from > head then []
    else
      var to := if from + CHUNK_SIZE - 1 > head then head else from + CHUNK_SIZE - 1;
      [Range(from, to)] + Chunks(to + 1, head)
  }

  /** Each chunk has 1 to 500 blocks and starts where the one before it ended; together they run from
      `from` to `head`. */
  lemma {:induction false} ChunksTile(from: nat, head: nat)
    ensures var cs := Chunks(from, head);
            && (cs == [] <==> from > head)
            && (forall i :: 0 <= i < |cs| ==> cs[i].first <= cs[i].last < cs[i].first + CHUNK_SIZE)
            && (forall i :: 0 < i < |cs| ==> cs[i].first == cs[i - 1].last + 1)
            && (cs != [] ==> cs[0].first == from && cs[|cs| - 1].last == head)
    decreases head + 1 - from
  {
    if from <= head {
      var cs := Chunks(from, head);
      var rest := Chunks(cs[0].last + 1, head);
      ChunksTile(cs[0].last + 1, head);
      assert forall i :: 0 < i < |cs| ==> cs[i] == rest[i - 1];
    }
  }

  predicate Holds(r: Range, b: nat) { r.first <= b <= r.last }

  ghost predicate Covers(cs: seq<Range>, b: nat) { exists i :: 0 <= i < |cs| && Holds(cs[i], b) }

  ghost predicate CoversOnce(cs: seq<Range>, b: nat) {
    Covers(cs, b) && forall i, j :: 0 <= i < j < |cs| ==> !(Holds(cs[i], b) && Holds(cs[j], b))
  }

  lemma CoversCons(r: Range, rest: seq<Range>, b: nat)
    ensures Covers([r] + rest, b) <==> Holds(r, b) || Covers(rest, b)
    ensures CoversOnce([r] + rest, b) <==> if Holds(r, b) then !Covers(rest, b) else CoversOnce(rest, b)
  {
    hide Holds;
    var cs := [r] + rest;
    assert cs[0] == r && forall i :: 0 <= i < |rest| ==> rest[i] == cs[i + 1];
    if Covers(rest, b) {
      var i :| 0 <= i < |rest| && Holds(rest[i], b);
      assert Holds(cs[i + 1], b);
    }
    if CoversOnce(cs, b) && !Holds(r, b) {
      forall i, j | 0 <= i < j < |rest| ensures !(Holds(rest[i], b) && Holds(rest[j], b)) {
        assert !(Holds(cs[i + 1], b) && Holds(cs[j + 1], b));
      }
    }
  }

  /** Every block from `from` to `head` is in exactly one chunk, and no other block is in any. */
  lemma {:induction false} EachBlockInOneChunk(from: nat, head: nat, b: nat)
    ensures if from <= b <= head then CoversOnce(Chunks(from, head), b) else !Covers(Chunks(from, head), b)
    decreases head + 1 - from
  {
    if from <= head {
      var cs := Chunks(from, head);
      EachBlockInOneChunk(cs[0].last + 1, head, b);
      CoversCons(cs[0], Chunks(cs[0].last + 1, head), b);
    }
  }

  // ---- The two halves of the tables ---------------------------------------------------------

  predicate SameMasjids(db: Db, db': Db) { db.masjids == db'.masjids && db.attests == db'.attests }

  predicate SameRequests(db: Db, db': Db) { db.requests == db'.requests && db.votes == db'.votes }

  /** The masjid half of the tables is that of tables to which `log[..at]` was delivered. */
  ghost predicate MasjidsDelivered(db: Db, log: seq<Log>, at: nat) {
    exists whole :: Delivered(whole, log, at) && SameMasjids(whole, db)
  }

  /** And likewise for the request half. */
  ghost predicate RequestsDelivered(db: Db, log: seq<Log>, at: nat) {
    exists whole :: Delivered(whole, log, at) && SameRequests(whole, db)
  }

  lemma NothingYet(log: seq<Log>)
    ensures MasjidsDelivered(EMPTY, log, 0) && RequestsDelivered(EMPTY, log, 0)
  {
    hide Delivered;
    NothingDelivered(log);
  }

  lemma RewindMasjids(db: Db, log: seq<Log>, at: nat, back: nat)
    requires MasjidsDelivered(db, log, at) && back <= at
    ensures MasjidsDelivered(db, log, back)
  {
    hide Delivered;
    var whole :| Delivered(whole, log, at) && SameMasjids(whole, db);
    Rewind(whole, log, at, back);
  }

  lemma RewindRequests(db: Db, log: seq<Log>, at: nat, back: nat)
    requires RequestsDelivered(db, log, at) && back <= at
    ensures RequestsDelivered(db, log, back)
  {
    hide Delivered;
    var whole :| Delivered(whole, log, at) && SameRequests(whole, db);
    Rewind(whole, log, at, back);
  }

  lemma ProtocolLogOnMasjids(db: Db, db': Db, l: Log)
    requires SameMasjids(db, db')
    ensures SameMasjids(Handle(db, l), Handle(db', l))
    ensures !Matches(OfProtocol, l.event) ==> SameMasjids(Handle(db, l), db)
    ensures Matches(OfProtocol, l.event) ==> SameRequests(Handle(db, l), db)
  {
    hide UpsertMasjid, UpdateStatus, UpdateVerified, UpdateAttestCounts, HandleInstance;
    if l.event.InstanceLog? {
      InstanceLogHalves(db, db, l.event.instance, l.event.event, l.timestamp);
      InstanceLogHalves(db', db', l.event.instance, l.event.event, l.timestamp);
    }
  }

  lemma InstanceLogOnRequests(db: Db, db': Db, l: Log)
    requires SameRequests(db, db')
    ensures SameRequests(Handle(db, l), Handle(db', l))
    ensures !l.event.InstanceLog? ==> SameRequests(Handle(db, l), db)
    ensures l.event.InstanceLog? ==> SameMasjids(Handle(db, l), db)
  {
    hide UpsertMasjid, UpdateStatus, UpdateVerified, UpdateAttestCounts, HandleInstance;
    if l.event.InstanceLog? { InstanceLogHalves(db, db', l.event.instance, l.event.event, l.timestamp); }
  }

  lemma InstanceLogHalves(db: Db, db': Db, a: Address, e: I.Event, timestamp: int)
    requires SameRequests(db, db')
    ensures SameRequests(HandleInstance(db, a, e, timestamp), HandleInstance(db', a, e, timestamp))
    ensures SameMasjids(HandleInstance(db, a, e, timestamp), db)
  {
  }

  lemma {:induction false} ProtocolLogsAlone(db: Db, whole: Db, log: seq<Log>)
    requires SameMasjids(db, whole)
    ensures SameMasjids(Apply(db, Filter(log, OfProtocol)), Apply(whole, log))
    ensures SameRequests(Apply(db, Filter(log, OfProtocol)), db)
    decreases |log|
  {
    hide Handle, SameMasjids, SameRequests;
    if log == [] {
      assert Apply(db, Filter(log, OfProtocol)) == db && Apply(whole, log) == whole;
      SameIsReflexive(db);
    } else {
      var init, last := log[..|log| - 1], log[|log| - 1];
      var fetched := Filter(init, OfProtocol);
      ProtocolLogsAlone(db, whole, init);
      var a, b := Apply(db, fetched), Apply(whole, init);
      ProtocolLogOnMasjids(a, b, last);
      if Matches(OfProtocol, last.event) {
        assert (fetched + [last])[..|fetched|] == fetched;
        SameRequestsChains(Handle(a, last), a, db);
      } else {
        SameMasjidsChains(a, Handle(a, last), Handle(b, last));
      }
    }
  }

  /** Every instance that tells something in `log[i..j]` is in the list. */
  ghost predicate TellersListed(log: seq<Log>, i: nat, j: nat, addresses: set<Address>)
    requires i <= j <= |log|
  {
    forall p :: i <= p < j && Tells(log[p]).Some? ==> log[p].event.instance in addresses
  }

  lemma {:induction false} InstanceLogsAlone(db: Db, whole: Db, log: seq<Log>, addresses: set<Address>)
    requires SameRequests(db, whole) && TellersListed(log, 0, |log|, addresses)
    ensures SameRequests(Apply(db, Filter(log, OfInstances(addresses))), Apply(whole, log))
    decreases |log|
  {
    hide Handle, Tells, SameMasjids, SameRequests;
    if log == [] {
      assert Apply(db, Filter(log, OfInstances(addresses))) == db && Apply(whole, log) == whole;
    } else {
      var init, last := log[..|log| - 1], log[|log| - 1];
      var fetched := Filter(init, OfInstances(addresses));
      InstanceLogsAlone(db, whole, init, addresses);
      var a, b := Apply(db, fetched), Apply(whole, init);
      InstanceLogOnRequests(a, b, last);
      if Matches(OfInstances(addresses), last.event) {
        assert (fetched + [last])[..|fetched|] == fetched;
      } else {
        assert Tells(log[|log| - 1]).None? || !last.event.InstanceLog?;
        QuietLogOnRequests(a, last);
        SameRequestsChains(a, Handle(a, last), Handle(b, last));
      }
    }
  }

  /** A log that tells nothing leaves the request half alone. */
  lemma QuietLogOnRequests(db: Db, l: Log)
    requires l.event.InstanceLog? ==> Tells(l).None?
    ensures SameRequests(Handle(db, l), db)
  {
    hide UpsertMasjid, UpdateStatus, UpdateVerified, UpdateAttestCounts;
  }

  lemma SameIsReflexive(db: Db)
    ensures SameMasjids(db, db) && SameRequests(db, db)
  {
  }

  lemma SameMasjidsChains(a: Db, b: Db, c: Db)
    requires (SameMasjids(a, b) || SameMasjids(b, a)) && SameMasjids(b, c)
    ensures SameMasjids(a, c)
  {
  }

  lemma SameRequestsChains(a: Db, b: Db, c: Db)
    requires (SameRequests(a, b) || SameRequests(b, a)) && SameRequests(b, c)
    ensures SameRequests(a, c)
  {
  }

  lemma {:induction false} RangeIsApply(db: Db, log: seq<Log>, i: nat, j: nat)
    requires i <= j <= |log|
    ensures ApplyRange(db, log, i, j) == Apply(db, log[i..j])
  {
    hide Handle;
    if i < j {
      RangeIsApply(db, log, i, j - 1);
      RangeAppends(db, log, i, j - 1);
      assert log[i..j][..j - 1 - i] == log[i..j - 1];
    } else {
      assert log[i..j] == [];
    }
  }

  /** Handling the protocol's logs of a stretch of the chain moves the masjid half past that stretch. */
  lemma AdvanceMasjids(db: Db, log: seq<Log>, i: nat, j: nat)
    requires WellFormedLog(log) && MasjidsDelivered(db, log, i) && i <= j <= |log|
    ensures MasjidsDelivered(Apply(db, Filter(log[i..j], OfProtocol)), log, j)
  {
    hide Delivered, WellFormedLog, ApplyRange, Apply, SameMasjids;
    var whole :| Delivered(whole, log, i) && SameMasjids(whole, db);
    SameIsReflexive(db);
    SameMasjidsChains(db, whole, whole) by { SameIsReflexive(whole); }
    ProtocolLogsAlone(db, whole, log[i..j]);
    DeliverRange(whole, log, i, j);
    RangeIsApply(whole, log, i, j);
    var after := Apply(db, Filter(log[i..j], OfProtocol));
    SameIsReflexive(after);
    SameMasjidsChains(Apply(whole, log[i..j]), after, after);
  }

  /** Handling the logs of every instance that tells something in a stretch of the chain moves the request
      half past that stretch. */
  lemma AdvanceRequests(db: Db, log: seq<Log>, i: nat, j: nat, addresses: set<Address>)
    requires WellFormedLog(log) && RequestsDelivered(db, log, i) && i <= j <= |log|
    requires TellersListed(log, i, j, addresses)
    ensures RequestsDelivered(Apply(db, Filter(log[i..j], OfInstances(addresses))), log, j)
  {
    hide Delivered, WellFormedLog, ApplyRange, Apply, SameRequests, Tells;
    var whole :| Delivered(whole, log, i) && SameRequests(whole, db);
    SameIsReflexive(whole);
    SameRequestsChains(db, whole, whole);
    assert TellersListed(log[i..j], 0, j - i, addresses);
    InstanceLogsAlone(db, whole, log[i..j], addresses);
    DeliverRange(whole, log, i, j);
    RangeIsApply(whole, log, i, j);
    var after := Apply(db, Filter(log[i..j], OfInstances(addresses)));
    SameIsReflexive(after);
    SameRequestsChains(Apply(whole, log[i..j]), after, after);
  }

  /** Both halves delivered to the end are the tables of handling the whole log once. */
  lemma HalvesMakeTheWhole(db: Db, log: seq<Log>)
    requires WellFormedLog(log) && MasjidsDelivered(db, log, |log|) && RequestsDelivered(db, log, |log|)
    ensures db == Apply(EMPTY, log)
  {
    hide Delivered, WellFormedLog, ApplyRange;
    var a :| Delivered(a, log, |log|) && SameMasjids(a, db);
    var b :| Delivered(b, log, |log|) && SameRequests(b, db);
    NothingDelivered(log);
    DeliverRange(EMPTY, log, 0, |log|);
    RangeIsApply(EMPTY, log, 0, |log|);
    assert log[0..|log|] == log;
    CompleteIsUnique(a, Apply(EMPTY, log), log);
    CompleteIsUnique(b, Apply(EMPTY, log), log);
  }

  // ---- The instance list --------------------------------------------------------------------

  /** The rows whose instance_addr is not null. */
  function InstanceAddresses(rows: map<MasjidId, MasjidRow>): set<Address> {
    set id | id in rows && rows[id].instanceAddr.Some? :: rows[id].instanceAddr.value
  }

  /** `log[..at]` names instance `a` as that of masjid `id`, and no later log says otherwise. */
  ghost predicate Names(log: seq<Log>, at: nat, id: MasjidId, a: Address)
    requires at <= |log|
  {
    && LastIn(log, 0, at, InstanceOf(id)) == Some(InstanceIs(Some(a)))
    && LastIn(log, at, |log|, InstanceOf(id)) == None
  }

  /** The instances that emit anything in `log[..at]` are all in the list. */
  ghost predicate Complete(addresses: set<Address>, log: seq<Log>, at: nat)
    requires at <= |log|
  {
    forall p :: 0 <= p < at && log[p].event.InstanceLog? ==> log[p].event.instance in addresses
  }

  /** By the end of a block the protocol has named every instance that emitted a log in it or before. */
  ghost predicate Disclosed(log: seq<Log>, at: nat)
    requires at <= |log|
  {
    forall p :: 0 <= p < at && log[p].event.InstanceLog? ==> exists id :: Names(log, at, id, log[p].event.instance)
  }

  ghost predicate Sound(node: Node) {
    && node.Ordered()
    && WellFormedLog(node.log) && TellsNews(node.log)
    && forall b: nat :: node.Before(b) <= |node.log| && Disclosed(node.log, node.Before(b))
  }

  /** Once the protocol's logs up to a block are handled, the masjid table lists every instance that has
      emitted anything up to that block, those deployed in that very block included. */
  lemma ListIsComplete(db: Db, node: Node, b: nat)
    requires Sound(node) && MasjidsDelivered(db, node.log, node.Before(b))
    ensures Complete(InstanceAddresses(db.masjids), node.log, node.Before(b))
  {
    hide WellFormedLog, LastIn, Writes;
    var log, at := node.log, node.Before(b);
    assert Disclosed(log, at);
    var whole :| Delivered(whole, log, at) && SameMasjids(whole, db);
    forall p | 0 <= p < at && log[p].event.InstanceLog? ensures log[p].event.instance in InstanceAddresses(db.masjids) {
      var a := log[p].event.instance;
      var id :| Names(log, at, id, a);
      LastInSplits(log, 0, at, |log|, InstanceOf(id));
      assert Read(whole, InstanceOf(id)) == Some(InstanceIs(Some(a)));
      assert db.masjids[id].instanceAddr == Some(a);
    }
  }

  /** Every instance that emits anything in `log[i..j]` is in the list. */
  ghost predicate EmittersListed(log: seq<Log>, i: nat, j: nat, addresses: set<Address>)
    requires i <= j <= |log|
  {
    forall p :: i <= p < j && log[p].event.InstanceLog? ==> log[p].event.instance in addresses
  }

  lemma EmittersTell(log: seq<Log>, i: nat, j: nat, addresses: set<Address>)
    requires i <= j <= |log| && EmittersListed(log, i, j, addresses)
    ensures TellersListed(log, i, j, addresses)
  {
  }

  // ---- What a list that lacks an instance loses ----------------------------------------------

  lemma {:induction false} FilterMatches(logs: seq<Log>, q: Query)
    ensures forall p | 0 <= p < |Filter(logs, q)| ::
              Matches(q, Filter(logs, q)[p].event) && Filter(logs, q)[p] in logs
    decreases |logs|
  {
    if logs == [] {
    } else {
      FilterMatches(logs[..|logs| - 1], q);
    }
  }

  lemma {:induction false} UnlistedStaysUnknown(db: Db, logs: seq<Log>, addresses: set<Address>, f: Fact)
    requires f.a !in addresses
    ensures Knows(Apply(db, Filter(logs, OfInstances(addresses))), f) == Knows(db, f)
    decreases |logs|
  {
    hide Handle, Knows;
    if logs != [] {
      var init, last := logs[..|logs| - 1], logs[|logs| - 1];
      var fetched := Filter(init, OfInstances(addresses));
      UnlistedStaysUnknown(db, init, addresses, f);
      if Matches(OfInstances(addresses), last.event) {
        assert (fetched + [last])[..|fetched|] == fetched;
        OtherInstancesTeachNothing(Apply(db, fetched), last, f);
      }
    } else {
      assert Apply(db, Filter(logs, OfInstances(addresses))) == db;
    }
  }

  lemma SameRequestsKnowTheSame(db: Db, db': Db, f: Fact)
    requires SameRequests(db, db')
    ensures Knows(db, f) == Knows(db', f)
  {
  }

  /** On tables that hold exactly what `log[..i]` says, handling the fetched logs of `log[i..j]` gives what
      `log[..j]` says if and only if every instance that tells something in `log[i..j]` is in the list. */
  lemma FetchIsLosslessExactlyWhen(db: Db, log: seq<Log>, i: nat, j: nat, listed: set<Address>)
    requires WellFormedLog(log) && TellsNews(log) && i <= j <= |log| && SameRequests(db, Apply(EMPTY, log[..i]))
    ensures SameRequests(Apply(db, Filter(log[i..j], OfInstances(listed))), Apply(EMPTY, log[..j]))
            <==> TellersListed(log, i, j, listed)
  {
    hide WellFormedLog, TellsNews, SameRequests, Knows, Apply, Filter, Tells;
    var before, fetched := Apply(EMPTY, log[..i]), Apply(db, Filter(log[i..j], OfInstances(listed)));
    if TellersListed(log, i, j, listed) {
      assert TellersListed(log[i..j], 0, j - i, listed);
      InstanceLogsAlone(db, before, log[i..j], listed);
      ApplyAppends(EMPTY, log[..i], log[i..j]);
      assert log[..i] + log[i..j] == log[..j];
    } else {
      var p :| i <= p < j && Tells(log[p]).Some? && log[p].event.instance !in listed;
      var f := Tells(log[p]).value;
      UnlistedStaysUnknown(db, log[i..j], listed, f);
      SameRequestsKnowTheSame(db, before, f);
      KnownBeforeIsNotNews(log, i, p);
      LearnedAt(log, p);
      NeverForgotten(log, p + 1, j, f);
      if SameRequests(fetched, Apply(EMPTY, log[..j])) {
        SameRequestsKnowTheSame(fetched, Apply(EMPTY, log[..j]), f);
        assert false;
      }
    }
  }

  lemma KnownBeforeIsNotNews(log: seq<Log>, i: nat, p: nat)
    requires WellFormedLog(log) && TellsNews(log) && i <= p < |log| && Tells(log[p]).Some?
    ensures !Knows(Apply(EMPTY, log[..i]), Tells(log[p]).value)
  {
    hide WellFormedLog, Knows, Apply, Tells;
    if Knows(Apply(EMPTY, log[..i]), Tells(log[p]).value) { NeverForgotten(log, i, p, Tells(log[p]).value); }
  }

  /** What an unlisted instance told in the fetched logs is lost for good: whatever is listed later, handling
      the logs that follow does not bring it back. */
  lemma UnlistedInstanceIsLost(db: Db, log: seq<Log>, i: nat, j: nat, k: nat, listed: set<Address>,
                               later: set<Address>, p: nat)
    requires WellFormedLog(log) && TellsNews(log) && i <= p < j <= k <= |log|
    requires SameRequests(db, Apply(EMPTY, log[..i])) && Tells(log[p]).Some? && log[p].event.instance !in listed
    ensures var fetched := Apply(db, Filter(log[i..j], OfInstances(listed)));
            && Knows(Apply(EMPTY, log[..k]), Tells(log[p]).value)
            && !Knows(Apply(fetched, Filter(log[j..k], OfInstances(later))), Tells(log[p]).value)
  {
    hide WellFormedLog, TellsNews, SameRequests, Knows, Apply, Filter, Tells;
    var f, fetched := Tells(log[p]).value, Apply(db, Filter(log[i..j], OfInstances(listed)));
    KnownBeforeIsNotNews(log, i, p);
    SameRequestsKnowTheSame(db, Apply(EMPTY, log[..i]), f);
    UnlistedStaysUnknown(db, log[i..j], listed, f);
    LearnedAt(log, p);
    NeverForgotten(log, p + 1, k, f);
    FilterMatches(log[j..k], OfInstances(later));
    forall l | l in log[j..k] ensures Tells(l) != Some(f) {
      var x :| 0 <= x < k - j && log[j..k][x] == l;
      ToldOnce(log, p, j + x);
    }
    UntoldStaysUnknown(fetched, Filter(log[j..k], OfInstances(later)), f);
  }

  /** An instance is listed only if the log that names it as a masjid's was handled. */
  lemma {:induction false} ListedWasNamed(logs: seq<Log>, a: Address)
    requires a in InstanceAddresses(Apply(EMPTY, logs).masjids)
    ensures exists q :: 0 <= q < |logs| && NamesInstance(logs[q], a)
    decreases |logs|
  {
    hide Handle;
    if logs == [] {
    } else {
      var init, last := logs[..|logs| - 1], logs[|logs| - 1];
      if a in InstanceAddresses(Apply(EMPTY, init).masjids) {
        ListedWasNamed(init, a);
        var q :| 0 <= q < |init| && NamesInstance(init[q], a);
        assert NamesInstance(logs[q], a);
      } else {
        NewlyListed(Apply(EMPTY, init), last, a);
        assert NamesInstance(logs[|logs| - 1], a);
      }
    }
  }

  predicate NamesInstance(l: Log, a: Address) { l.event.MasjidVerified? && l.event.instance == a }

  lemma NewlyListed(db: Db, l: Log, a: Address)
    requires a in InstanceAddresses(Handle(db, l).masjids) && a !in InstanceAddresses(db.masjids)
    ensures NamesInstance(l, a)
  {
    hide HandleInstance;
    if l.event.InstanceLog? {
      InstanceLogHalves(db, db, l.event.instance, l.event.event, l.timestamp);
    }
  }
}
