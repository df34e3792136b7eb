/** The polling indexer: passes over the chain in chunks, with checkpoints that may fail to be read or
    written, an RPC node that may fail to answer, and a database that may fail under any handler. */
module Indexing {
  import opened Types
  import opened Projection
  import opened Replay
  import opened Facts
  import opened Chain
  import opened Events
  import W = World

  const PROTOCOL := "MasjidProtocol"
  const INSTANCES := "MasjidInstance"

  lemma DistinctNames()
    ensures PROTOCOL != INSTANCES
  {
  }

  class CheckpointRepository {
    var lastBlock: map<string, nat>
    ghost var faults: nat

    constructor ()
      ensures lastBlock == map[] && faults == 0
    {
      lastBlock := map[];
      faults := 0;
    }

    method Fails() returns (err: bool)
      modifies this`faults
      ensures faults == old(faults) + if err then 1 else 0
    {
      err := *;
      if err { faults := faults + 1; }
    }

    method Get(name: string) returns (block: nat, found: bool, err: bool)
      modifies this`faults
      ensures faults == old(faults) + if err then 1 else 0
      ensures err ==> !found
      ensures !err ==> found == (name in lastBlock)
      ensures found ==> name in lastBlock && block == lastBlock[name]
    {
      err := Fails();
      found := !err && name in lastBlock;
      block := if found then lastBlock[name] else 0;
    }

    /** Saving a row whose id was not read first is an insert, which the unique name refuses. */
    method Upsert(name: string, block: nat, idRead: bool) returns (err: bool)
      modifies this
      ensures lastBlock == if err then old(lastBlock) else old(lastBlock)[name := block]
      ensures old(faults) <= faults
      ensures err <==> old(faults) < faults || (!idRead && name in old(lastBlock))
    {
      err := Fails();
      if !idRead && name in lastBlock { err := true; }
      if !err { lastBlock := lastBlock[name := block]; }
    }
  }

  /** One successful eth_getLogs. */
  datatype Fetch = Fetch(query: Query, range: Range)

  function Fetches(q: Query, ranges: seq<Range>): seq<Fetch> {
    seq(|ranges|, i requires 0 <= i < |ranges| => Fetch(q, ranges[i]))
  }

  predicate FetchHolds(f: Fetch, protocol: bool, b: nat) { f.query.OfProtocol? == protocol && Holds(f.range, b) }

  ghost predicate WasFetched(fetches: seq<Fetch>, protocol: bool, b: nat) {
    exists k :: 0 <= k < |fetches| && FetchHolds(fetches[k], protocol, b)
  }

  /** Every block from `lo` up to, not including, `hi` was fetched by the pass. */
  ghost predicate Covered(fetches: seq<Fetch>, protocol: bool, lo: nat, hi: nat) {
    forall b: nat :: lo <= b < hi ==> WasFetched(fetches, protocol, b)
  }

  lemma FetchAdds(fetches: seq<Fetch>, more: Fetch, protocol: bool, b: nat)
    requires WasFetched(fetches, protocol, b) || FetchHolds(more, protocol, b)
    ensures WasFetched(fetches + [more], protocol, b)
  {
    var all := fetches + [more];
    if FetchHolds(more, protocol, b) {
      assert FetchHolds(all[|fetches|], protocol, b);
    } else {
      var k :| 0 <= k < |fetches| && FetchHolds(fetches[k], protocol, b);
      assert FetchHolds(all[k], protocol, b);
    }
  }

  lemma CoveredGrows(fetches: seq<Fetch>, protocol: bool, lo: nat, hi: nat, more: Fetch)
    requires Covered(fetches, protocol, lo, hi)
    ensures Covered(fetches + [more], protocol, lo, hi)
    ensures more.query.OfProtocol? == protocol && more.range.first <= hi ==>
                Covered(fetches + [more], protocol, lo, more.range.last + 1)
  {
    hide WasFetched;
    forall b: nat | lo <= b && (b < hi || FetchHolds(more, protocol, b))
      ensures WasFetched(fetches + [more], protocol, b)
    {
      FetchAdds(fetches, more, protocol, b);
    }
  }

  lemma CoveredPrefix(fetches: seq<Fetch>, protocol: bool, lo: nat, mid: nat, hi: nat)
    requires Covered(fetches, protocol, lo, hi) && mid <= hi
    ensures Covered(fetches, protocol, lo, mid)
  {
  }

  lemma FirstChunk(from: nat, head: nat)
    requires from <= head
    ensures var to := if from + CHUNK_SIZE - 1 > head then head else from + CHUNK_SIZE - 1;
            Chunks(from, head) == [Range(from, to)] + Chunks(to + 1, head)
  {
  }

  lemma FetchedSoFar(q: Query, from: nat, head: nat)
    requires from <= head
    ensures var to := if from + CHUNK_SIZE - 1 > head then head else from + CHUNK_SIZE - 1;
            Fetches(q, Chunks(from, head)) == [Fetch(q, Range(from, to))] + Fetches(q, Chunks(to + 1, head))
  {
  }

  lemma FetchesAppend(q: Query, ranges: seq<Range>, r: Range)
    ensures Fetches(q, ranges + [r]) == Fetches(q, ranges) + [Fetch(q, r)]
    ensures Fetches(q, []) == []
  {
  }

  lemma {:induction false} NothingMatchesNobody(logs: seq<Log>)
    ensures Filter(logs, OfInstances({})) == []
    decreases |logs|
  {
    if logs == [] {
    } else {
      NothingMatchesNobody(logs[..|logs| - 1]);
    }
  }

  lemma NothingToApply(db: Db)
    ensures Apply(db, []) == db
  {
  }

  /** A fetch of instance logs asked for every instance that emitted anything in its blocks. */
  ghost predicate ListsEmitters(node: Node, f: Fetch) {
    f.query.OfInstances? ==>
      && node.Before(f.range.first) <= node.Before(f.range.last + 1) <= |node.log|
      && EmittersListed(node.log, node.Before(f.range.first), node.Before(f.range.last + 1), f.query.addresses)
  }

  ghost predicate AllList(node: Node, fetches: seq<Fetch>) {
    forall k :: 0 <= k < |fetches| ==> ListsEmitters(node, fetches[k])
  }

  lemma AllListGrows(node: Node, fetches: seq<Fetch>, more: Fetch)
    ensures AllList(node, fetches + [more]) <==> AllList(node, fetches) && ListsEmitters(node, more)
  {
    hide ListsEmitters;
    var all := fetches + [more];
    assert all[|fetches|] == more && forall k :: 0 <= k < |fetches| ==> all[k] == fetches[k];
  }

  /** The log at `p` came back with some fetch of instance logs. */
  ghost predicate CameBack(node: Node, fetches: seq<Fetch>, p: nat)
    requires p < |node.log| == |node.blockOf| && node.log[p].event.InstanceLog?
  {
    exists k :: 0 <= k < |fetches| && FetchHolds(fetches[k], false, node.blockOf[p])
                && node.log[p].event.instance in fetches[k].query.addresses
  }

  /** When every fetch of instance logs asked for all emitters, none of the covered logs was missed. */
  lemma NoneMissed(node: Node, fetches: seq<Fetch>, lo: nat, hi: nat, p: nat)
    requires node.Ordered() && AllList(node, fetches) && Covered(fetches, false, lo, hi)
    requires p < |node.log| && node.log[p].event.InstanceLog? && lo <= node.blockOf[p] < hi
    ensures CameBack(node, fetches, p)
  {
    var b := node.blockOf[p];
    assert WasFetched(fetches, false, b);
    var k :| 0 <= k < |fetches| && FetchHolds(fetches[k], false, b);
    var f := fetches[k];
    assert ListsEmitters(node, f);
    BeforeSplits(node.blockOf, f.range.first);
    BeforeSplits(node.blockOf, f.range.last + 1);
  }

  lemma SameMasjidsTurns(db: Db, db': Db)
    requires SameMasjids(db', db)
    ensures SameMasjids(db, db')
  {
  }

  lemma MasjidsFrame(db: Db, db': Db, log: seq<Log>, at: nat)
    requires MasjidsDelivered(db, log, at) && SameMasjids(db, db')
    ensures MasjidsDelivered(db', log, at)
  {
    hide Delivered;
  }

  lemma RequestsFrame(db: Db, db': Db, log: seq<Log>, at: nat)
    requires RequestsDelivered(db, log, at) && SameRequests(db, db')
    ensures RequestsDelivered(db', log, at)
  {
    hide Delivered;
  }

  /** The pass that starts at `start` has fetched `ranges` and goes on at `from`. */
  ghost predicate Progress(q: Query, before: seq<Fetch>, now: seq<Fetch>, ranges: seq<Range>, start: nat, head: nat,
                           from: nat) {
    now == before + Fetches(q, ranges) && Chunks(start, head) == ranges + Chunks(from, head)
  }

  lemma ProgressStarts(q: Query, before: seq<Fetch>, start: nat, head: nat)
    ensures Progress(q, before, before, [], start, head, start)
  {
    hide Chunks;
  }

  lemma ProgressGoesOn(q: Query, before: seq<Fetch>, now: seq<Fetch>, ranges: seq<Range>, start: nat, head: nat,
                       from: nat, to: nat)
    requires Progress(q, before, now, ranges, start, head, from) && from <= head
    requires to == if from + CHUNK_SIZE - 1 > head then head else from + CHUNK_SIZE - 1
    ensures Progress(q, before, now + [Fetch(q, Range(from, to))], ranges + [Range(from, to)], start, head, to + 1)
  {
    hide Chunks, Fetches;
    FirstChunk(from, head);
    FetchesAppend(q, ranges, Range(from, to));
  }

  lemma ProgressMeans(q: Query, before: seq<Fetch>, now: seq<Fetch>, ranges: seq<Range>, start: nat, head: nat,
                      from: nat)
    requires Progress(q, before, now, ranges, start, head, from)
    ensures now == before + Fetches(q, ranges) && ranges <= Chunks(start, head)
    ensures from > head ==> ranges == Chunks(start, head)
  {
    hide Chunks, Fetches;
    ChunksTile(from, head);
  }

  /** A fetch of blocks before `head`, and of the instances on the list if it is one of instance logs. */
  predicate FetchedFor(f: Fetch, head: nat, listed: set<Address>) {
    f.range.last < head && (f.query.OfInstances? ==> f.query.addresses == listed)
  }

  /** How a poll went: not at all, or with or without an error in either pass, and whether the instance pass
      found an instance to ask for. */
  datatype Poll = Poll(asleep: bool, protocolErr: bool, instancesErr: bool, listed: bool)

  function Max(m: nat, n: nat): nat { if m < n then n else m }

  function Awake(polls: seq<Poll>): seq<bool> { seq(|polls|, i requires 0 <= i < |polls| => !polls[i].asleep) }

  function Listing(polls: seq<Poll>): seq<bool> {
    seq(|polls|, i requires 0 <= i < |polls| => !polls[i].asleep && polls[i].listed)
  }

  /** The furthest of `next` and the heads of the polls that count. */
  function Furthest(next: nat, answers: seq<Option<nat>>, counts: seq<bool>): nat
    requires |answers| == |counts|
  {
    if answers == [] then next
    else
      var n := |answers| - 1;
      var before := Furthest(next, answers[..n], counts[..n]);
      if counts[n] && answers[n].Some? then Max(before, answers[n].value) else before
  }

  lemma FurthestOneMore(next: nat, answers: seq<Option<nat>>, i: nat, counts: seq<bool>, count: bool)
    requires i < |answers| && |counts| == i
    ensures var before := Furthest(next, answers[..i], counts);
            Furthest(next, answers[..i + 1], counts + [count])
            == if count && answers[i].Some? then Max(before, answers[i].value) else before
  {
    assert answers[..i + 1][..i] == answers[..i] && (counts + [count])[..i] == counts;
  }

  /** What a poll says went wrong did: a protocol pass fails by one refused fetch, an instance pass by one of its own
      or by a failed database call, and nothing else is refused. */
  predicate Answers(poll: Poll, refused: int, faulted: bool) {
    var before := if poll.protocolErr then 1 else 0;
    && before <= refused <= before + (if poll.instancesErr then 1 else 0)
    && (poll.instancesErr ==> before < refused || faulted)
  }

  /** Each table is the old one or the handled one. */
  predicate SlipOrHandle(db: Db, l: Log, db': Db) {
    var handled := Handle(db, l);
    && (db'.masjids == db.masjids || db'.masjids == handled.masjids)
    && (db'.attests == db.attests || db'.attests == handled.attests)
    && ((db'.requests, db'.votes) == (db.requests, db.votes)
        || (db'.requests, db'.votes) == (handled.requests, handled.votes))
  }

  /** The tables between the logs: after each log they are handled, or each of them is left. */
  predicate Trace(dbs: seq<Db>, logs: seq<Log>, first: Db, last: Db) {
    && |dbs| == |logs| + 1 && dbs[0] == first && dbs[|logs|] == last
    && forall i :: 0 <= i < |logs| ==> SlipOrHandle(dbs[i], logs[i], dbs[i + 1])
  }

  /** How many logs were not handled to the end. */
  function Slips(dbs: seq<Db>, logs: seq<Log>): nat
    requires |dbs| == |logs| + 1
  {
    if logs == [] then 0
    else
      var n := |logs| - 1;
      Slips(dbs[..n + 1], logs[..n]) + if dbs[n + 1] == Handle(dbs[n], logs[n]) then 0 else 1
  }

  lemma TraceStarts(db: Db)
    ensures Trace([db], [], db, db) && Slips([db], []) == 0
  {
  }

  lemma SlippedOrHandled(db: Db, l: Log, db': Db)
    requires db'.masjids == db.masjids || db'.masjids == Handle(db, l).masjids
    requires db'.attests == db.attests || db'.attests == Handle(db, l).attests
    requires (db'.requests, db'.votes) == (db.requests, db.votes) || db' == Handle(db, l)
    ensures SlipOrHandle(db, l, db')
  {
  }

  lemma TraceGrows(dbs: seq<Db>, logs: seq<Log>, i: nat, first: Db, before: Db, after: Db)
    requires i < |logs| && Trace(dbs, logs[..i], first, before) && SlipOrHandle(before, logs[i], after)
    ensures Trace(dbs + [after], logs[..i + 1], first, after)
    ensures Slips(dbs + [after], logs[..i + 1])
            == Slips(dbs, logs[..i]) + if after == Handle(before, logs[i]) then 0 else 1
  {
    hide SlipOrHandle, Handle;
    assert logs[..i + 1][..i] == logs[..i] && (dbs + [after])[..i + 1] == dbs;
  }

  /** Exactly the polls without a safe head sleep. */
  predicate AsAnswered(polls: seq<Poll>, answers: seq<Option<nat>>) {
    && |polls| == |answers|
    && forall i :: 0 <= i < |polls| ==> (polls[i].asleep <==> answers[i].None? || answers[i].value < 2)
  }

  predicate NoProtocolErr(polls: seq<Poll>) { forall i :: 0 <= i < |polls| ==> !polls[i].protocolErr }

  lemma NoPollsYet()
    ensures NoProtocolErr([]) && AsAnswered([], [])
  {
  }

  lemma OneMorePoll(polls: seq<Poll>, poll: Poll, answers: seq<Option<nat>>)
    requires |polls| < |answers| && AsAnswered(polls, answers[..|polls|])
    requires poll.asleep <==> answers[|polls|].None? || answers[|polls|].value < 2
    ensures AsAnswered(polls + [poll], answers[..|polls| + 1])
    ensures NoProtocolErr(polls + [poll]) <==> NoProtocolErr(polls) && !poll.protocolErr
    ensures Awake(polls + [poll]) == Awake(polls) + [!poll.asleep]
    ensures Listing(polls + [poll]) == Listing(polls) + [!poll.asleep && poll.listed]
  {
    var all := polls + [poll];
    assert all[|polls|] == poll && forall i :: 0 <= i < |polls| ==> all[i] == polls[i];
  }

  /** Handling one more stretch of what a query matches. */
  lemma HandledFurther(db: Db, log: seq<Log>, i: nat, j: nat, k: nat, addresses: set<Address>)
    requires i <= j <= k <= |log|
    ensures var q := OfInstances(addresses);
            Apply(Apply(db, Filter(log[i..j], q)), Filter(log[j..k], q)) == Apply(db, Filter(log[i..k], q))
  {
    hide Apply, Filter;
    var q := OfInstances(addresses);
    assert log[i..j] + log[j..k] == log[i..k];
    FilterSplits(log[i..j], log[j..k], q);
    ApplyAppends(db, Filter(log[i..j], q), Filter(log[j..k], q));
  }

  lemma ChunkIsInside(from: nat, head: nat, i: nat)
    requires i < |Chunks(from, head)|
    ensures Chunks(from, head)[i].first <= Chunks(from, head)[i].last <= head
  {
    var cs := Chunks(from, head);
    ChunksTile(from, head);
    ChunkOrder(cs, i, |cs| - 1);
  }

  lemma {:induction false} ChunksAfter(from: nat, head: nat, i: nat)
    requires i < |Chunks(from, head)|
    ensures from <= Chunks(from, head)[i].first <= Chunks(from, head)[i].last
  {
    var cs := Chunks(from, head);
    ChunksTile(from, head);
    ChunkOrder(cs, 0, i);
    if i > 0 { ChunkOrder(cs, 0, i - 1); }
  }

  lemma {:induction false} ChunkOrder(cs: seq<Range>, i: nat, j: nat)
    requires i <= j < |cs|
    requires forall k :: 0 <= k < |cs| ==> cs[k].first <= cs[k].last
    requires forall k :: 0 < k < |cs| ==> cs[k].first == cs[k - 1].last + 1
    ensures cs[i].last <= cs[j].last
    decreases j - i
  {
    if i == j {
    } else {
      ChunkOrder(cs, i, j - 1);
    }
  }

  class Indexer {
    const node: Node
    const startBlock: nat
    const checkpoint: CheckpointRepository
    const events: EventService

    ghost var fetches: seq<Fetch>
    /** The passes that have had a failed checkpoint read, a failed checkpoint write, a failed handler. */
    ghost var misread: set<string>
    ghost var unsaved: set<string>
    ghost var mishandled: set<string>
    /** How often the node has refused to answer. */
    ghost var refusals: nat

    constructor (node: Node, startBlock: nat, events: EventService)
      requires Sound(node) && forall p :: 0 <= p < |node.blockOf| ==> startBlock <= node.blockOf[p]
      requires events.Tables() == EMPTY
      ensures this.node == node && this.startBlock == startBlock && this.events == events
      ensures fresh(checkpoint)
      ensures Valid() && fetches == [] && misread == unsaved == mishandled == {} && refusals == 0
    {
      this.node, this.startBlock, this.events := node, startBlock, events;
      this.checkpoint := new CheckpointRepository();
      fetches, misread, unsaved, mishandled, refusals := [], {}, {}, {}, 0;
      new;
      NothingYet(node.log);
      BeforeSplits(node.blockOf, startBlock);
      assert |node.blockOf| > 0 ==> startBlock <= node.blockOf[0];
    }

    ghost function Tables(): Db
      reads events.masjid`rows, events.attest`rows, events.cashOut`requests, events.cashOut`votes
    {
      events.Tables()
    }

    /** The first block that no pass has recorded as done. */
    ghost function Next(name: string): nat
      reads checkpoint`lastBlock
    {
      if name in checkpoint.lastBlock then checkpoint.lastBlock[name] + 1 else startBlock
    }

    /** No handler has failed, and checkpoint reads and writes have not both failed. */
    ghost predicate Careful(name: string)
      reads this
    {
      name !in mishandled && !(name in misread && name in unsaved)
    }

    /** Every fetch of instance logs so far asked for all the instances that emitted in its blocks. */
    ghost predicate AllListed()
      reads this
    {
      AllList(node, fetches)
    }

    /** What has gone wrong is not forgotten. */
    twostate predicate Remembers()
      reads this, checkpoint`faults
      reads events.masjid`faults, events.attest`faults, events.cashOut`faults, events.user`faults
    {
      && old(refusals) <= refusals && old(checkpoint.faults) <= checkpoint.faults
      && old(events.Faults()) <= events.Faults()
      && old(misread) <= misread && old(unsaved) <= unsaved && old(mishandled) <= mishandled
      && old(fetches) <= fetches
    }

    ghost predicate CheckpointsValid()
      reads checkpoint`lastBlock
    {
      forall name :: name in checkpoint.lastBlock ==> startBlock <= checkpoint.lastBlock[name] < TWO_64 - CHUNK_SIZE
    }

    ghost predicate MasjidsUpTo(b: nat)
      reads events.masjid`rows, events.attest`rows, events.cashOut`requests, events.cashOut`votes
    {
      MasjidsDelivered(Tables(), node.log, node.Before(b))
    }

    ghost predicate RequestsUpTo(b: nat)
      reads events.masjid`rows, events.attest`rows, events.cashOut`requests, events.cashOut`votes
    {
      RequestsDelivered(Tables(), node.log, node.Before(b))
    }

    ghost predicate ProtocolValid()
      reads this, checkpoint`lastBlock
      reads events.masjid`rows, events.attest`rows, events.cashOut`requests, events.cashOut`votes
    {
      && Covered(fetches, true, startBlock, Next(PROTOCOL))
      && (Careful(PROTOCOL) ==> MasjidsUpTo(Next(PROTOCOL)))
    }

    ghost predicate InstancesValid()
      reads this, checkpoint`lastBlock
      reads events.masjid`rows, events.attest`rows, events.cashOut`requests, events.cashOut`votes
    {
      && Covered(fetches, false, startBlock, Next(INSTANCES))
      && (Careful(INSTANCES) && AllListed() ==> RequestsUpTo(Next(INSTANCES)))
    }

    /** Every block up to each checkpoint was fetched; and unless something named above went wrong, the
        tables hold everything the chain says up to the checkpoints. */
    ghost predicate Valid()
      reads this, checkpoint`lastBlock
      reads events.masjid`rows, events.attest`rows, events.cashOut`requests, events.cashOut`votes
    {
      && Sound(node)
      && CheckpointsValid()
      && ProtocolValid()
      && InstancesValid()
    }

    /** Only a fault puts a pass on record. */
    twostate predicate Innocent()
      reads this, checkpoint`faults
      reads events.masjid`faults, events.attest`faults, events.cashOut`faults, events.user`faults
    {
      && (checkpoint.faults == old(checkpoint.faults) ==> misread == old(misread) && unsaved == old(unsaved))
      && (events.Faults() == old(events.Faults()) ==> mishandled == old(mishandled))
    }

    /** The checkpoint is just after the last of the ranges, or where it was when there is none. */
    ghost predicate SavedUpTo(name: string, before: nat, ranges: seq<Range>)
      reads checkpoint`lastBlock
    {
      Next(name) == if ranges == [] then before else ranges[|ranges| - 1].last + 1
    }

    method FromBlock(name: string) returns (from: nat)
      requires Valid()
      modifies this`misread, checkpoint`faults
      ensures Valid() && Remembers()
      ensures startBlock <= from <= Next(name)
      ensures if checkpoint.faults == old(checkpoint.faults) then misread == old(misread) && from == Next(name)
              else misread == old(misread) + {name} && from == startBlock
    {
      hide Covered, MasjidsDelivered, RequestsDelivered, Sound;
      var block, found, err := checkpoint.Get(name);
      if err || !found {
        if err { misread := misread + {name}; }
        return startBlock;
      }
      var next := (block + 1) % TWO_64;
      if next < startBlock { return startBlock; }
      return next;
    }

    method SaveCheckpoint(name: string, block: nat)
      modifies checkpoint, this`unsaved
      ensures old(checkpoint.faults) <= checkpoint.faults
      ensures checkpoint.faults == old(checkpoint.faults) ==>
                checkpoint.lastBlock == old(checkpoint.lastBlock)[name := block] && unsaved == old(unsaved)
      ensures || (checkpoint.lastBlock == old(checkpoint.lastBlock)[name := block] && unsaved == old(unsaved))
              || (checkpoint.lastBlock == old(checkpoint.lastBlock) && unsaved == old(unsaved) + {name})
    {
      var _, found, readErr := checkpoint.Get(name);
      var err := checkpoint.Upsert(name, block, found);
      if err { unsaved := unsaved + {name}; }
    }

    method GetLogs(first: nat, last: nat, q: Query) returns (logs: seq<Log>, err: bool)
      requires node.Ordered()
      modifies this`fetches, this`refusals
      ensures refusals == old(refusals) + if err then 1 else 0
      ensures err ==> fetches == old(fetches)
      ensures !err ==> logs == node.Logs(first, last, q) && fetches == old(fetches) + [Fetch(q, Range(first, last))]
    {
      err := *;
      if err {
        refusals := refusals + 1;
        return [], true;
      }
      fetches := fetches + [Fetch(q, Range(first, last))];
      logs := node.Logs(first, last, q);
    }

    /** A handler that fails is logged and skipped, and the next one is called: `dbs` are the tables between the
        logs, and no more of them slip than database calls fail. */
    method HandleProtocolLogs(logs: seq<Log>) returns (ghost dbs: seq<Db>)
      requires forall i :: 0 <= i < |logs| ==> Matches(OfProtocol, logs[i].event)
      modifies events.masjid, events.attest, events.user`faults, this`mishandled
      ensures old(events.Faults()) <= events.Faults()
      ensures events.Faults() == old(events.Faults()) ==> mishandled == old(mishandled)
      ensures mishandled == old(mishandled) || mishandled == old(mishandled) + {PROTOCOL}
      ensures PROTOCOL !in mishandled ==> Tables() == Apply(old(Tables()), logs)
      ensures SameRequests(Tables(), old(Tables()))
      ensures |dbs| == |logs| + 1 && Trace(dbs, logs, old(Tables()), Tables())
      ensures Slips(dbs, logs) <= events.Faults() - old(events.Faults())
    {
      hide Handle, SlipOrHandle, Trace, Slips;
      dbs := [Tables()];
      TraceStarts(Tables());
      assert logs[..0] == [];
      for i := 0 to |logs|
        invariant old(events.Faults()) <= events.Faults()
        invariant events.Faults() == old(events.Faults()) ==> mishandled == old(mishandled)
        invariant mishandled == old(mishandled) || mishandled == old(mishandled) + {PROTOCOL}
        invariant PROTOCOL !in mishandled ==> Tables() == Apply(old(Tables()), logs[..i])
        invariant SameRequests(Tables(), old(Tables()))
        invariant |dbs| == i + 1 && Trace(dbs, logs[..i], old(Tables()), Tables())
        invariant Slips(dbs, logs[..i]) <= events.Faults() - old(events.Faults())
      {
        ghost var before := Tables();
        var err := events.HandleProtocolLog(logs[i]);
        if err { mishandled := mishandled + {PROTOCOL}; }
        SlippedOrHandled(before, logs[i], Tables());
        TraceGrows(dbs, logs, i, old(Tables()), before, Tables());
        dbs := dbs + [Tables()];
        assert logs[..i + 1][..i] == logs[..i];
      }
      assert logs[..|logs|] == logs;
    }

    /** Likewise, but a handler that fails changes nothing. */
    method HandleInstanceLogs(logs: seq<Log>) returns (ghost dbs: seq<Db>)
      requires forall i :: 0 <= i < |logs| ==> logs[i].event.InstanceLog?
      modifies events.cashOut, events.masjid`faults, this`mishandled
      ensures old(events.Faults()) <= events.Faults()
      ensures events.Faults() == old(events.Faults()) ==> mishandled == old(mishandled)
      ensures mishandled == old(mishandled) || mishandled == old(mishandled) + {INSTANCES}
      ensures INSTANCES !in mishandled ==> Tables() == Apply(old(Tables()), logs)
      ensures SameMasjids(Tables(), old(Tables()))
      ensures |dbs| == |logs| + 1 && Trace(dbs, logs, old(Tables()), Tables())
      ensures Slips(dbs, logs) <= events.Faults() - old(events.Faults())
    {
      hide HandleInstance, SlipOrHandle, Trace, Slips;
      dbs := [Tables()];
      TraceStarts(Tables());
      assert logs[..0] == [];
      for i := 0 to |logs|
        invariant old(events.Faults()) <= events.Faults()
        invariant events.Faults() == old(events.Faults()) ==> mishandled == old(mishandled)
        invariant mishandled == old(mishandled) || mishandled == old(mishandled) + {INSTANCES}
        invariant INSTANCES !in mishandled ==> Tables() == Apply(old(Tables()), logs[..i])
        invariant SameMasjids(Tables(), old(Tables()))
        invariant |dbs| == i + 1 && Trace(dbs, logs[..i], old(Tables()), Tables())
        invariant Slips(dbs, logs[..i]) <= events.Faults() - old(events.Faults())
      {
        ghost var before := Tables();
        var err := events.HandleInstanceLog(logs[i].event.instance, logs[i].event.event, logs[i].timestamp);
        if err { mishandled := mishandled + {INSTANCES}; }
        SlippedOrHandled(before, logs[i], Tables());
        TraceGrows(dbs, logs, i, old(Tables()), before, Tables());
        dbs := dbs + [Tables()];
        assert logs[..i + 1][..i] == logs[..i];
      }
      assert logs[..|logs|] == logs;
    }

    /** One chunk: fetch, handle, save. */
    method ProtocolChunk(from: nat, to: nat) returns (err: bool)
      requires Valid() && startBlock <= from <= to < TWO_64 - CHUNK_SIZE
      requires Covered(fetches, true, startBlock, from)
      requires Careful(PROTOCOL) ==> MasjidsUpTo(from)
      requires PROTOCOL in misread || Next(PROTOCOL) <= from
      modifies this`fetches, this`mishandled, this`unsaved, this`refusals, checkpoint
      modifies events.masjid, events.attest, events.user`faults
      ensures Valid() && Remembers() && Innocent()
      ensures refusals == old(refusals) + if err then 1 else 0
      ensures err ==> Next(PROTOCOL) == old(Next(PROTOCOL))
      ensures !err && checkpoint.faults == old(checkpoint.faults) ==> Next(PROTOCOL) == to + 1
      ensures err || PROTOCOL in unsaved || Next(PROTOCOL) == to + 1
      ensures SameRequests(Tables(), old(Tables())) && Next(INSTANCES) == old(Next(INSTANCES))
      ensures old(Careful(INSTANCES)) == Careful(INSTANCES) && old(AllListed()) == AllListed()
      ensures err ==> fetches == old(fetches)
      ensures !err ==> fetches == old(fetches) + [Fetch(OfProtocol, Range(from, to))]
      ensures !err ==> Covered(fetches, true, startBlock, to + 1)
      ensures !err && Careful(PROTOCOL) ==> MasjidsUpTo(to + 1)
      ensures !err && PROTOCOL !in misread ==> Next(PROTOCOL) <= to + 1
    {
      hide Covered, MasjidsDelivered, RequestsDelivered, Sound, AllList;
      hide Indexer.MasjidsUpTo, Indexer.RequestsUpTo;
      SoundNodesAreOrdered();
      var logs;
      logs, err := GetLogs(from, to, OfProtocol);
      if err { return; }
      var fetched := Fetch(OfProtocol, Range(from, to));
      CoveredGrows(old(fetches), true, startBlock, from, fetched);
      CoveredGrows(old(fetches), true, startBlock, Next(PROTOCOL), fetched);
      CoveredGrows(old(fetches), false, startBlock, Next(INSTANCES), fetched);
      AllListGrows(node, old(fetches), fetched);
      DeliverProtocol(from, to, logs);
      SaveProtocol(to);
    }

    lemma SoundNodesAreOrdered()
      requires Sound(node)
      ensures node.Ordered()
    {
    }

    /** Handling what was fetched moves the masjid half of the tables past it. */
    method DeliverProtocol(from: nat, to: nat, logs: seq<Log>)
      requires Sound(node) && InstancesValid() && from <= to && logs == node.Logs(from, to, OfProtocol)
      requires Careful(PROTOCOL) ==> MasjidsUpTo(from)
      modifies this`mishandled, events.masjid, events.attest, events.user`faults
      ensures mishandled == old(mishandled) || mishandled == old(mishandled) + {PROTOCOL}
      ensures old(events.Faults()) <= events.Faults()
      ensures events.Faults() == old(events.Faults()) ==> mishandled == old(mishandled)
      ensures SameRequests(Tables(), old(Tables())) && InstancesValid()
      ensures Careful(PROTOCOL) ==> MasjidsUpTo(to + 1)
    {
      hide Covered, MasjidsDelivered, RequestsDelivered, Apply, SameMasjids, WellFormedLog, Disclosed, CountBefore;
      hide Trace, Slips;
      hide InBlocks, AllList;
      FetchIsARange(node, from, to, OfProtocol);
      FilterMatches(node.log[node.Before(from)..node.Before(to + 1)], OfProtocol);
      ghost var _ := HandleProtocolLogs(logs);
      DistinctNames();
      if PROTOCOL !in mishandled && Careful(PROTOCOL) {
        AdvanceMasjids(old(Tables()), node.log, node.Before(from), node.Before(to + 1));
      }
      if Careful(INSTANCES) && AllListed() {
        RequestsFrame(old(Tables()), Tables(), node.log, node.Before(Next(INSTANCES)));
      }
    }

    method SaveProtocol(to: nat)
      requires Sound(node) && CheckpointsValid() && InstancesValid() && startBlock <= to < TWO_64 - CHUNK_SIZE
      requires Covered(fetches, true, startBlock, to + 1) && Covered(fetches, true, startBlock, Next(PROTOCOL))
      requires Careful(PROTOCOL) ==> MasjidsUpTo(to + 1)
      requires PROTOCOL in misread || Next(PROTOCOL) <= to + 1
      modifies this`unsaved, checkpoint
      ensures Valid() && Remembers() && Innocent()
      ensures checkpoint.faults == old(checkpoint.faults) ==> Next(PROTOCOL) == to + 1
      ensures PROTOCOL in unsaved || Next(PROTOCOL) == to + 1
      ensures Next(INSTANCES) == old(Next(INSTANCES)) && old(Careful(INSTANCES)) == Careful(INSTANCES)
      ensures Careful(PROTOCOL) ==> MasjidsUpTo(to + 1)
      ensures PROTOCOL in misread || Next(PROTOCOL) <= to + 1
    {
      hide Covered, MasjidsDelivered, RequestsDelivered, WellFormedLog, Disclosed, CountBefore;
      SaveCheckpoint(PROTOCOL, to);
      DistinctNames();
      if Careful(PROTOCOL) && Next(PROTOCOL) <= to + 1 {
        BeforeIsMonotone(node, Next(PROTOCOL), to + 1);
        RewindMasjids(Tables(), node.log, node.Before(to + 1), node.Before(Next(PROTOCOL)));
      }
    }

    /** The ranges fetched are the chunks from some start on, all of them unless the node fails. */
    method ProcessProtocol(head: nat) returns (err: bool, ghost start: nat, ghost ranges: seq<Range>)
      requires Valid() && head < TWO_64 - CHUNK_SIZE
      modifies this`fetches, this`mishandled, this`unsaved, this`misread, this`refusals, checkpoint
      modifies events.masjid, events.attest, events.user`faults
      ensures Valid() && Remembers() && Innocent()
      ensures refusals == old(refusals) + if err then 1 else 0
      ensures SameRequests(Tables(), old(Tables())) && Next(INSTANCES) == old(Next(INSTANCES))
      ensures old(Careful(INSTANCES)) == Careful(INSTANCES) && old(AllListed()) == AllListed()
      ensures startBlock <= start <= old(Next(PROTOCOL))
      ensures fetches == old(fetches) + Fetches(OfProtocol, ranges)
      ensures ranges <= Chunks(start, head) && (!err ==> ranges == Chunks(start, head))
      ensures checkpoint.faults == old(checkpoint.faults) ==>
                start == old(Next(PROTOCOL)) && SavedUpTo(PROTOCOL, old(Next(PROTOCOL)), ranges)
      ensures err || start > head || PROTOCOL in unsaved || Next(PROTOCOL) == head + 1
      ensures !err && Careful(PROTOCOL) ==> MasjidsUpTo(head + 1)
    {
      hide Covered, MasjidsDelivered, RequestsDelivered, SameMasjids, Sound, CountBefore, Chunks, Fetches;
      hide Indexer.MasjidsUpTo, Indexer.RequestsUpTo, Indexer.InstancesValid, Indexer.ProtocolValid;
      DistinctNames();
      var from := FromBlock(PROTOCOL);
      start, ranges, err := from, [], false;
      RewindMasjidsTo(from);
      FetchesAppend(OfProtocol, [], Range(0, 0));
      if from > head { RewindMasjidsTo(head + 1); ChunksTile(from, head); return; }
      err, ranges := FetchProtocol(from, head);
    }

    /** The chunk loop of the protocol pass. */
    method FetchProtocol(start: nat, head: nat) returns (err: bool, ghost ranges: seq<Range>)
      requires Valid() && startBlock <= start <= head < TWO_64 - CHUNK_SIZE
      requires Covered(fetches, true, startBlock, start)
      requires Careful(PROTOCOL) ==> MasjidsUpTo(start)
      requires PROTOCOL in misread || Next(PROTOCOL) <= start
      modifies this`fetches, this`mishandled, this`unsaved, this`refusals, checkpoint
      modifies events.masjid, events.attest, events.user`faults
      ensures Valid() && Remembers() && Innocent()
      ensures refusals == old(refusals) + if err then 1 else 0
      ensures SameRequests(Tables(), old(Tables())) && Next(INSTANCES) == old(Next(INSTANCES))
      ensures old(Careful(INSTANCES)) == Careful(INSTANCES) && old(AllListed()) == AllListed()
      ensures fetches == old(fetches) + Fetches(OfProtocol, ranges)
      ensures ranges <= Chunks(start, head) && (!err ==> ranges == Chunks(start, head))
      ensures checkpoint.faults == old(checkpoint.faults) ==> SavedUpTo(PROTOCOL, old(Next(PROTOCOL)), ranges)
      ensures err || PROTOCOL in unsaved || Next(PROTOCOL) == head + 1
      ensures !err && Careful(PROTOCOL) ==> MasjidsUpTo(head + 1)
    {
      hide Covered, MasjidsDelivered, RequestsDelivered, SameMasjids, Sound, CountBefore, Chunks, Fetches, Progress,
           AllList;
      hide Indexer.MasjidsUpTo, Indexer.RequestsUpTo, Indexer.InstancesValid, Indexer.ProtocolValid;
      ranges, err := [], false;
      var from := start;
      ProgressStarts(OfProtocol, fetches, start, head);
      while from <= head
        invariant Valid() && Remembers() && Innocent() && start <= from <= head + 1
        invariant refusals == old(refusals)
        invariant Covered(fetches, true, startBlock, from)
        invariant Careful(PROTOCOL) ==> MasjidsUpTo(from)
        invariant PROTOCOL in misread || Next(PROTOCOL) <= from
        invariant SameRequests(Tables(), old(Tables())) && Next(INSTANCES) == old(Next(INSTANCES))
        invariant old(Careful(INSTANCES)) == Careful(INSTANCES) && old(AllListed()) == AllListed()
        invariant Progress(OfProtocol, old(fetches), fetches, ranges, start, head, from)
        invariant checkpoint.faults == old(checkpoint.faults) ==> SavedUpTo(PROTOCOL, old(Next(PROTOCOL)), ranges)
        invariant from == start || PROTOCOL in unsaved || Next(PROTOCOL) == from
        decreases head + 1 - from
      {
        var to := (from + CHUNK_SIZE - 1) % TWO_64;
        if to > head { to := head; }
        ProgressMeans(OfProtocol, old(fetches), fetches, ranges, start, head, from);
        ProgressGoesOn(OfProtocol, old(fetches), fetches, ranges, start, head, from, to);
        err := ProtocolChunk(from, to);
        if err { return; }
        ranges := ranges + [Range(from, to)];
        from := to + 1;
      }
      ProgressMeans(OfProtocol, old(fetches), fetches, ranges, start, head, from);
    }

    /** What is delivered stays delivered when a pass starts over from an earlier block. */
    lemma RewindMasjidsTo(b: nat)
      requires Valid() && b <= Next(PROTOCOL)
      ensures Careful(PROTOCOL) ==> MasjidsUpTo(b)
      ensures Covered(fetches, true, startBlock, b)
    {
      hide MasjidsDelivered, WellFormedLog, Disclosed, CountBefore, Covered;
      CoveredPrefix(fetches, true, startBlock, b, Next(PROTOCOL));
      BeforeIsMonotone(node, b, Next(PROTOCOL));
      if Careful(PROTOCOL) { RewindMasjids(Tables(), node.log, node.Before(Next(PROTOCOL)), node.Before(b)); }
    }

    method InstanceChunk(from: nat, to: nat, addresses: set<Address>) returns (err: bool)
      requires Valid() && startBlock <= from <= to < TWO_64 - CHUNK_SIZE
      requires Covered(fetches, false, startBlock, from)
      requires Careful(INSTANCES) && AllListed() ==> RequestsUpTo(from)
      requires INSTANCES in misread || Next(INSTANCES) <= from
      modifies this`fetches, this`mishandled, this`unsaved, this`refusals, checkpoint
      modifies events.cashOut, events.masjid`faults
      ensures Valid() && Remembers() && Innocent()
      ensures refusals == old(refusals) + if err then 1 else 0
      ensures err ==> Next(INSTANCES) == old(Next(INSTANCES))
      ensures !err && checkpoint.faults == old(checkpoint.faults) ==> Next(INSTANCES) == to + 1
      ensures err || INSTANCES in unsaved || Next(INSTANCES) == to + 1
      ensures SameMasjids(Tables(), old(Tables())) && Next(PROTOCOL) == old(Next(PROTOCOL))
      ensures old(Careful(PROTOCOL)) == Careful(PROTOCOL)
      ensures err ==> fetches == old(fetches)
      ensures !err ==> fetches == old(fetches) + [Fetch(OfInstances(addresses), Range(from, to))]
      ensures !err ==> Covered(fetches, false, startBlock, to + 1)
      ensures !err && Careful(INSTANCES) && AllListed() ==> RequestsUpTo(to + 1)
      ensures !err && INSTANCES !in misread ==> Next(INSTANCES) <= to + 1
      ensures node.Before(from) <= node.Before(to + 1) <= |node.log|
      ensures !err && INSTANCES !in mishandled ==>
                Tables() == Apply(old(Tables()),
                                  Filter(node.log[node.Before(from)..node.Before(to + 1)], OfInstances(addresses)))
    {
      hide Covered, MasjidsDelivered, RequestsDelivered, Sound, AllList, Apply, Filter;
      hide Indexer.MasjidsUpTo, Indexer.RequestsUpTo;
      SoundNodesAreOrdered();
      BeforeGrows(from, to + 1);
      var logs;
      logs, err := GetLogs(from, to, OfInstances(addresses));
      if err { return; }
      var fetched := Fetch(OfInstances(addresses), Range(from, to));
      CoveredGrows(old(fetches), false, startBlock, from, fetched);
      CoveredGrows(old(fetches), false, startBlock, Next(INSTANCES), fetched);
      CoveredGrows(old(fetches), true, startBlock, Next(PROTOCOL), fetched);
      AllListGrows(node, old(fetches), fetched);
      DeliverInstances(from, to, addresses, logs);
      SaveInstances(to);
    }

    /** Handling what was fetched of all emitters moves the request half of the tables past it. */
    method DeliverInstances(from: nat, to: nat, addresses: set<Address>, logs: seq<Log>)
      requires Sound(node) && ProtocolValid() && from <= to && logs == node.Logs(from, to, OfInstances(addresses))
      requires AllListed() ==> ListsEmitters(node, Fetch(OfInstances(addresses), Range(from, to)))
      requires Careful(INSTANCES) && AllListed() ==> RequestsUpTo(from)
      modifies this`mishandled, events.cashOut, events.masjid`faults
      ensures mishandled == old(mishandled) || mishandled == old(mishandled) + {INSTANCES}
      ensures old(events.Faults()) <= events.Faults()
      ensures events.Faults() == old(events.Faults()) ==> mishandled == old(mishandled)
      ensures SameMasjids(Tables(), old(Tables())) && ProtocolValid()
      ensures Careful(INSTANCES) && AllListed() ==> RequestsUpTo(to + 1)
      ensures node.Before(from) <= node.Before(to + 1) <= |node.log|
      ensures INSTANCES !in mishandled ==>
                Tables() == Apply(old(Tables()),
                                  Filter(node.log[node.Before(from)..node.Before(to + 1)], OfInstances(addresses)))
    {
      hide Covered, MasjidsDelivered, RequestsDelivered, Apply, SameRequests, WellFormedLog, Disclosed, CountBefore;
      hide Trace, Slips;
      hide EmittersListed, TellersListed, InBlocks, AllList;
      FetchIsARange(node, from, to, OfInstances(addresses));
      FilterMatches(node.log[node.Before(from)..node.Before(to + 1)], OfInstances(addresses));
      ghost var _ := HandleInstanceLogs(logs);
      DistinctNames();
      if INSTANCES !in mishandled && Careful(INSTANCES) && AllListed() {
        EmittersTell(node.log, node.Before(from), node.Before(to + 1), addresses);
        AdvanceRequests(old(Tables()), node.log, node.Before(from), node.Before(to + 1), addresses);
      }
      if Careful(PROTOCOL) { MasjidsFrame(old(Tables()), Tables(), node.log, node.Before(Next(PROTOCOL))); }
    }

    method SaveInstances(to: nat)
      requires Sound(node) && CheckpointsValid() && ProtocolValid() && startBlock <= to < TWO_64 - CHUNK_SIZE
      requires Covered(fetches, false, startBlock, to + 1) && Covered(fetches, false, startBlock, Next(INSTANCES))
      requires Careful(INSTANCES) && AllListed() ==> RequestsUpTo(to + 1)
      requires INSTANCES in misread || Next(INSTANCES) <= to + 1
      modifies this`unsaved, checkpoint
      ensures Valid() && Remembers() && Innocent()
      ensures checkpoint.faults == old(checkpoint.faults) ==> Next(INSTANCES) == to + 1
      ensures INSTANCES in unsaved || Next(INSTANCES) == to + 1
      ensures Next(PROTOCOL) == old(Next(PROTOCOL)) && old(Careful(PROTOCOL)) == Careful(PROTOCOL)
      ensures Careful(INSTANCES) && AllListed() ==> RequestsUpTo(to + 1)
      ensures INSTANCES in misread || Next(INSTANCES) <= to + 1
    {
      hide Covered, MasjidsDelivered, RequestsDelivered, WellFormedLog, Disclosed, CountBefore;
      SaveCheckpoint(INSTANCES, to);
      DistinctNames();
      if Careful(INSTANCES) && AllListed() && Next(INSTANCES) <= to + 1 {
        BeforeIsMonotone(node, Next(INSTANCES), to + 1);
        RewindRequests(Tables(), node.log, node.Before(to + 1), node.Before(Next(INSTANCES)));
      }
    }

    /** Nothing emitted a log before block `b` but what is on the list. */
    ghost predicate ListsAll(addresses: set<Address>, b: nat) {
      node.Before(b) <= |node.log| && Complete(addresses, node.log, node.Before(b))
    }

    /** The request tables hold exactly what the logs before block `b` say. */
    ghost predicate HoldsExactly(b: nat)
      reads events.masjid`rows, events.attest`rows, events.cashOut`requests, events.cashOut`votes
    {
      node.Before(b) <= |node.log| && SameRequests(Tables(), Apply(EMPTY, node.log[..node.Before(b)]))
    }

    /** Whoever tells something in the blocks from `first` up to, not including, `past` is on the list. */
    ghost predicate ListsTellers(addresses: set<Address>, first: nat, past: nat) {
      && node.Before(first) <= node.Before(past) <= |node.log|
      && TellersListed(node.log, node.Before(first), node.Before(past), addresses)
    }

    /** Every fetch of the pass asks for the instances that the masjid table lists when the pass starts. On
        tables that hold exactly what its first block finds, the pass loses nothing if and only if every
        instance that tells something in the blocks it fetched is listed. */
    method ProcessInstances(head: nat) returns (err: bool, listed: bool, ghost start: nat, ghost ranges: seq<Range>)
      requires Valid() && head < TWO_64 - CHUNK_SIZE
      modifies this`fetches, this`mishandled, this`unsaved, this`misread, this`refusals, checkpoint
      modifies events.cashOut, events.masjid`faults
      ensures Valid() && Remembers() && Innocent()
      ensures old(refusals) <= refusals <= old(refusals) + if err then 1 else 0
      ensures err ==> old(refusals) < refusals || old(events.Faults()) < events.Faults()
      ensures SameMasjids(Tables(), old(Tables())) && Next(PROTOCOL) == old(Next(PROTOCOL))
      ensures old(Careful(PROTOCOL)) == Careful(PROTOCOL)
      ensures var addresses := InstanceAddresses(old(events.masjid.rows));
              && fetches == old(fetches) + Fetches(OfInstances(addresses), ranges)
              && startBlock <= start <= old(Next(INSTANCES)) && ranges <= Chunks(start, head)
              && (!err && addresses != {} ==> ranges == Chunks(start, head))
              && (!err ==> (listed <==> addresses != {}))
              && (!listed ==> ranges == [] && Next(INSTANCES) == old(Next(INSTANCES)))
              && (checkpoint.faults == old(checkpoint.faults) ==> SavedUpTo(INSTANCES, old(Next(INSTANCES)), ranges))
              && (listed && checkpoint.faults == old(checkpoint.faults) ==> start == old(Next(INSTANCES)))
              && (err || addresses == {} || start > head || INSTANCES in unsaved || Next(INSTANCES) == head + 1)
              && (ListsAll(addresses, head + 1) && old(AllListed()) ==> AllListed())
              && (!err && (addresses != {} || ListsAll(addresses, head + 1)) && Careful(INSTANCES) && AllListed()
                  ==> RequestsUpTo(head + 1))
              && (!err && addresses != {} && start <= head && INSTANCES !in mishandled && old(HoldsExactly(start))
                  ==> (HoldsExactly(head + 1) <==> ListsTellers(addresses, start, head + 1)))
    {
      hide Covered, MasjidsDelivered, RequestsDelivered, SameRequests, Sound, CountBefore, Chunks, Complete, WasFetched;
      hide Fetches, InstanceAddresses, AllList, Apply, Filter;
      hide Indexer.ListsAll, Indexer.MasjidsUpTo, Indexer.RequestsUpTo, Indexer.ListsTellers;
      DistinctNames();
      start, ranges := startBlock, [];
      FetchesAppend(OfInstances(InstanceAddresses(events.masjid.rows)), [], Range(0, 0));
      var instances;
      instances, err := events.masjid.ListInstanceAddresses();
      listed := !err && |instances| > 0;
      if err || |instances| == 0 {
        if !err { NoInstances(head); }
        return;
      }
      err, start, ranges := FetchListed(head, instances);
    }

    /** The pass once there is a list to ask for. */
    method FetchListed(head: nat, addresses: set<Address>)
        returns (err: bool, ghost start: nat, ghost ranges: seq<Range>)
      requires Valid() && head < TWO_64 - CHUNK_SIZE
      modifies this`fetches, this`mishandled, this`unsaved, this`misread, this`refusals, checkpoint
      modifies events.cashOut, events.masjid`faults
      ensures Valid() && Remembers() && Innocent()
      ensures refusals == old(refusals) + if err then 1 else 0
      ensures SameMasjids(Tables(), old(Tables())) && Next(PROTOCOL) == old(Next(PROTOCOL))
      ensures old(Careful(PROTOCOL)) == Careful(PROTOCOL)
      ensures fetches == old(fetches) + Fetches(OfInstances(addresses), ranges)
      ensures startBlock <= start <= old(Next(INSTANCES)) && ranges <= Chunks(start, head)
      ensures !err ==> ranges == Chunks(start, head)
      ensures checkpoint.faults == old(checkpoint.faults) ==>
                SavedUpTo(INSTANCES, old(Next(INSTANCES)), ranges) && start == old(Next(INSTANCES))
      ensures err || start > head || INSTANCES in unsaved || Next(INSTANCES) == head + 1
      ensures ListsAll(addresses, head + 1) && old(AllListed()) ==> AllListed()
      ensures !err && Careful(INSTANCES) && AllListed() ==> RequestsUpTo(head + 1)
      ensures !err && start <= head && INSTANCES !in mishandled && old(HoldsExactly(start)) ==>
                (HoldsExactly(head + 1) <==> ListsTellers(addresses, start, head + 1))
    {
      hide Covered, MasjidsDelivered, RequestsDelivered, SameRequests, Sound, CountBefore, Chunks, Complete, WasFetched;
      hide Fetches, AllList, Apply, Filter;
      hide Indexer.ListsAll, Indexer.MasjidsUpTo, Indexer.RequestsUpTo, Indexer.ListsTellers;
      DistinctNames();
      err, ranges := false, [];
      FetchesAppend(OfInstances(addresses), [], Range(0, 0));
      var from := FromBlock(INSTANCES);
      start := from;
      RewindRequestsTo(from);
      if from > head { RewindRequestsTo(head + 1); ChunksTile(from, head); return; }
      ghost var before := Tables();
      err, ranges := FetchInstances(from, head, addresses);
      if ListsAll(addresses, head + 1) { CompletePassLists(old(fetches), addresses, ranges, from, head); }
      if !err && INSTANCES !in mishandled && old(HoldsExactly(start)) {
        PassIsLosslessExactlyWhen(before, from, head, addresses);
      }
    }

    /** The chunk loop of the instance pass. */
    method FetchInstances(start: nat, head: nat, addresses: set<Address>) returns (err: bool, ghost ranges: seq<Range>)
      requires Valid() && startBlock <= start <= head < TWO_64 - CHUNK_SIZE
      requires Covered(fetches, false, startBlock, start)
      requires Careful(INSTANCES) && AllListed() ==> RequestsUpTo(start)
      requires INSTANCES in misread || Next(INSTANCES) <= start
      modifies this`fetches, this`mishandled, this`unsaved, this`refusals, checkpoint
      modifies events.cashOut, events.masjid`faults
      ensures Valid() && Remembers() && Innocent()
      ensures refusals == old(refusals) + if err then 1 else 0
      ensures checkpoint.faults == old(checkpoint.faults) ==> SavedUpTo(INSTANCES, old(Next(INSTANCES)), ranges)
      ensures err || INSTANCES in unsaved || Next(INSTANCES) == head + 1
      ensures SameMasjids(Tables(), old(Tables())) && Next(PROTOCOL) == old(Next(PROTOCOL))
      ensures old(Careful(PROTOCOL)) == Careful(PROTOCOL)
      ensures fetches == old(fetches) + Fetches(OfInstances(addresses), ranges)
      ensures ranges <= Chunks(start, head) && (!err ==> ranges == Chunks(start, head))
      ensures !err && Careful(INSTANCES) && AllListed() ==> RequestsUpTo(head + 1)
      ensures node.Before(start) <= node.Before(head + 1) <= |node.log|
      ensures !err && INSTANCES !in mishandled ==>
                Tables() == Apply(old(Tables()),
                                  Filter(node.log[node.Before(start)..node.Before(head + 1)], OfInstances(addresses)))
    {
      hide Covered, MasjidsDelivered, RequestsDelivered, SameRequests, Sound, CountBefore;
      hide Chunks, Complete, WasFetched, Fetches, Progress, AllList, Apply, Filter;
      hide Indexer.ListsAll, Indexer.MasjidsUpTo, Indexer.RequestsUpTo, Indexer.InstancesValid, Indexer.ProtocolValid;
      ranges, err := [], false;
      NothingHandledYet(start, addresses);
      BeforeGrows(start, head + 1);
      var from := start;
      ProgressStarts(OfInstances(addresses), fetches, start, head);
      while from <= head
        invariant Valid() && Remembers() && Innocent() && start <= from <= head + 1
        invariant refusals == old(refusals)
        invariant checkpoint.faults == old(checkpoint.faults) ==> SavedUpTo(INSTANCES, old(Next(INSTANCES)), ranges)
        invariant from == start || INSTANCES in unsaved || Next(INSTANCES) == from
        invariant Covered(fetches, false, startBlock, from)
        invariant Careful(INSTANCES) && AllListed() ==> RequestsUpTo(from)
        invariant INSTANCES in misread || Next(INSTANCES) <= from
        invariant SameMasjids(Tables(), old(Tables())) && Next(PROTOCOL) == old(Next(PROTOCOL))
        invariant old(Careful(PROTOCOL)) == Careful(PROTOCOL)
        invariant Progress(OfInstances(addresses), old(fetches), fetches, ranges, start, head, from)
        invariant node.Before(start) <= node.Before(from) <= |node.log|
        invariant INSTANCES !in mishandled ==>
                    Tables() == Apply(old(Tables()),
                                      Filter(node.log[node.Before(start)..node.Before(from)], OfInstances(addresses)))
        decreases head + 1 - from
      {
        var to := (from + CHUNK_SIZE - 1) % TWO_64;
        if to > head { to := head; }
        ProgressMeans(OfInstances(addresses), old(fetches), fetches, ranges, start, head, from);
        ProgressGoesOn(OfInstances(addresses), old(fetches), fetches, ranges, start, head, from, to);
        err := InstanceChunk(from, to, addresses);
        if err { return; }
        HandledFurther(old(Tables()), node.log, node.Before(start), node.Before(from), node.Before(to + 1), addresses);
        ranges := ranges + [Range(from, to)];
        from := to + 1;
      }
      ProgressMeans(OfInstances(addresses), old(fetches), fetches, ranges, start, head, from);
    }

    lemma BeforeGrows(b: nat, c: nat)
      requires Sound(node) && b <= c
      ensures node.Before(b) <= node.Before(c) <= |node.log|
    {
      hide WellFormedLog, TellsNews, Disclosed, CountBefore;
      BeforeIsMonotone(node, b, c);
    }

    lemma NothingHandledYet(b: nat, addresses: set<Address>)
      requires Sound(node)
      ensures node.Before(b) <= |node.log|
      ensures Tables() == Apply(Tables(), Filter(node.log[node.Before(b)..node.Before(b)], OfInstances(addresses)))
    {
      hide WellFormedLog, TellsNews, Disclosed, CountBefore;
      assert node.log[node.Before(b)..node.Before(b)] == [];
    }

    lemma RewindRequestsTo(b: nat)
      requires Valid() && b <= Next(INSTANCES)
      ensures Careful(INSTANCES) && AllListed() ==> RequestsUpTo(b)
      ensures Covered(fetches, false, startBlock, b)
    {
      hide RequestsDelivered, WellFormedLog, Disclosed, CountBefore, Covered;
      CoveredPrefix(fetches, false, startBlock, b, Next(INSTANCES));
      BeforeIsMonotone(node, b, Next(INSTANCES));
      if Careful(INSTANCES) && AllListed() {
        RewindRequests(Tables(), node.log, node.Before(Next(INSTANCES)), node.Before(b));
      }
    }

    /** The fetches of a pass whose list is complete up to its head all ask for every emitter. */
    lemma CompletePassLists(before: seq<Fetch>, addresses: set<Address>, ranges: seq<Range>, start: nat, head: nat)
      requires Sound(node) && ListsAll(addresses, head + 1) && ranges <= Chunks(start, head)
      requires fetches == before + Fetches(OfInstances(addresses), ranges)
      ensures AllList(node, before) ==> AllListed()
    {
      hide WellFormedLog, TellsNews, Disclosed, CountBefore, Chunks;
      forall k | |before| <= k < |fetches| ensures ListsEmitters(node, fetches[k]) {
        var i := k - |before|;
        assert fetches[k] == Fetch(OfInstances(addresses), ranges[i]);
        ChunkIsInside(start, head, i);
        BeforeIsMonotone(node, ranges[i].first, ranges[i].last + 1);
        BeforeIsMonotone(node, ranges[i].last + 1, head + 1);
      }
    }

    lemma PassIsLosslessExactlyWhen(before: Db, start: nat, head: nat, addresses: set<Address>)
      requires Sound(node) && start <= head + 1
      requires SameRequests(before, Apply(EMPTY, node.log[..node.Before(start)]))
      requires node.Before(start) <= node.Before(head + 1) <= |node.log|
      requires Tables() == Apply(before,
                                 Filter(node.log[node.Before(start)..node.Before(head + 1)], OfInstances(addresses)))
      ensures HoldsExactly(head + 1) <==> ListsTellers(addresses, start, head + 1)
    {
      hide WellFormedLog, TellsNews, Disclosed, CountBefore, SameRequests, Apply, Filter, TellersListed;
      FetchIsLosslessExactlyWhen(before, node.log, node.Before(start), node.Before(head + 1), addresses);
    }

    /** An empty list that lacks nothing: there is nothing to fetch. */
    lemma NoInstances(head: nat)
      requires Valid()
      ensures Careful(INSTANCES) && AllListed() && ListsAll({}, head + 1) ==> RequestsUpTo(head + 1)
    {
      hide RequestsDelivered, WellFormedLog, TellsNews, Disclosed, CountBefore, Covered, Apply, Filter, AllList;
      if Careful(INSTANCES) && AllListed() && ListsAll({}, head + 1) {
        if head + 1 <= Next(INSTANCES) {
          RewindRequestsTo(head + 1);
        } else {
          var i, j := node.Before(Next(INSTANCES)), node.Before(head + 1);
          BeforeIsMonotone(node, Next(INSTANCES), head + 1);
          EmittersTell(node.log, i, j, {});
          AdvanceRequests(Tables(), node.log, i, j, {});
          NothingMatchesNobody(node.log[i..j]);
          NothingToApply(Tables());
        }
      }
    }

    /** One poll. `answer` is what eth_blockNumber gave; the last block is left for the next poll. A pass fails
        only when something it asked failed, and then its checkpoint is still just after the last range it
        fetched; a pass that does not fail ends with its checkpoint at the safe head. */
    method Tick(answer: Option<nat>) returns (poll: Poll, ghost start: nat)
      requires Valid() && (answer.Some? ==> answer.value <= TWO_64 - CHUNK_SIZE)
      modifies this`fetches, this`mishandled, this`unsaved, this`misread, this`refusals, checkpoint
      modifies events.masjid, events.attest, events.cashOut, events.user`faults
      ensures Valid() && Remembers() && Innocent()
      ensures poll.asleep <==> answer.None? || answer.value < 2
      ensures poll.asleep ==> Tables() == old(Tables()) && fetches == old(fetches)
                              && checkpoint.lastBlock == old(checkpoint.lastBlock)
                              && !poll.protocolErr && !poll.instancesErr
      ensures Answers(poll, refusals - old(refusals), old(events.Faults()) < events.Faults())
      ensures !poll.protocolErr && Careful(PROTOCOL) && old(AllListed()) ==> AllListed()
      ensures !poll.asleep ==> Advanced(PROTOCOL, answer.value, poll.protocolErr)
      ensures !poll.asleep && poll.listed ==> Advanced(INSTANCES, answer.value, poll.instancesErr)
      ensures !poll.asleep && !poll.listed ==> Next(INSTANCES) == old(Next(INSTANCES))
      ensures !poll.asleep ==>
                var listed := InstanceAddresses(events.masjid.rows);
                && (!poll.instancesErr ==> (poll.listed <==> listed != {}))
                && (!poll.protocolErr && Careful(PROTOCOL) ==>
                      MasjidsUpTo(answer.value) && ListsAll(listed, answer.value))
                && (forall k | |old(fetches)| <= k < |fetches| ::
                      FetchedFor(fetches[k], answer.value, listed))
                && (!poll.protocolErr && !poll.instancesErr && Careful(PROTOCOL) && Careful(INSTANCES) && AllListed()
                    ==> RequestsUpTo(answer.value))
                && (!poll.instancesErr && listed != {} && INSTANCES !in mishandled
                    && start < answer.value && old(HoldsExactly(start))
                    ==> (HoldsExactly(answer.value) <==> ListsTellers(listed, start, answer.value)))
    {
      hide Covered, MasjidsDelivered, RequestsDelivered, Sound, CountBefore, InstanceAddresses, AllList;
      hide Indexer.ListsTellers, Indexer.ListsAll, Indexer.HoldsExactly, Indexer.ProtocolValid, Indexer.InstancesValid;
      poll, start := Poll(true, false, false, false), 0;
      if answer.None? { return; }
      if answer.value < 2 { return; }
      poll, start := BothPasses(answer.value);
    }

    method BothPasses(head: nat) returns (poll: Poll, ghost start: nat)
      requires Valid() && 2 <= head <= TWO_64 - CHUNK_SIZE
      modifies this`fetches, this`mishandled, this`unsaved, this`misread, this`refusals, checkpoint
      modifies events.masjid, events.attest, events.cashOut, events.user`faults
      ensures Valid() && Remembers() && Innocent() && !poll.asleep
      ensures Answers(poll, refusals - old(refusals), old(events.Faults()) < events.Faults())
      ensures !poll.protocolErr && Careful(PROTOCOL) && old(AllListed()) ==> AllListed()
      ensures Advanced(PROTOCOL, head, poll.protocolErr)
      ensures poll.listed ==> Advanced(INSTANCES, head, poll.instancesErr)
      ensures !poll.listed ==> Next(INSTANCES) == old(Next(INSTANCES))
      ensures var listed := InstanceAddresses(events.masjid.rows);
              && (!poll.instancesErr ==> (poll.listed <==> listed != {}))
              && (!poll.protocolErr && Careful(PROTOCOL) ==> MasjidsUpTo(head) && ListsAll(listed, head))
              && (forall k | |old(fetches)| <= k < |fetches| :: FetchedFor(fetches[k], head, listed))
              && (!poll.protocolErr && !poll.instancesErr && Careful(PROTOCOL) && Careful(INSTANCES) && AllListed()
                  ==> RequestsUpTo(head))
              && (!poll.instancesErr && listed != {} && INSTANCES !in mishandled
                  && start < head && old(HoldsExactly(start))
                  ==> (HoldsExactly(head) <==> ListsTellers(listed, start, head)))
    {
      hide Covered, RequestsDelivered, Sound, CountBefore, Chunks, Complete, InstanceAddresses, SameMasjids;
      hide AllList, Apply, Fetches, FetchedFor, WasFetched, SameRequests;
      hide Indexer.ListsTellers, Indexer.Valid, Indexer.ListsAll, Indexer.MasjidsUpTo, Indexer.RequestsUpTo;
      hide Indexer.HoldsExactly;
      var protocolErr := FirstPass(head);
      RequestsStay();
      label between:
      var instancesErr, listed;
      instancesErr, listed, start := SecondPass(head);
      SameMasjidTables@between();
      if !protocolErr && Careful(PROTOCOL) { MasjidsStay@between(head); }
      poll := Poll(false, protocolErr, instancesErr, listed);
    }

    method FirstPass(head: nat) returns (err: bool)
      requires Valid() && 2 <= head <= TWO_64 - CHUNK_SIZE
      modifies this`fetches, this`mishandled, this`unsaved, this`misread, this`refusals, checkpoint
      modifies events.masjid, events.attest, events.user`faults
      ensures Valid() && Remembers() && Innocent()
      ensures refusals == old(refusals) + if err then 1 else 0
      ensures SameRequests(Tables(), old(Tables())) && Next(INSTANCES) == old(Next(INSTANCES))
      ensures old(Careful(INSTANCES)) == Careful(INSTANCES) && old(AllListed()) == AllListed()
      ensures Advanced(PROTOCOL, head, err)
      ensures var listed := InstanceAddresses(events.masjid.rows);
              && (!err && Careful(PROTOCOL) ==> MasjidsUpTo(head) && ListsAll(listed, head))
              && (forall k | |old(fetches)| <= k < |fetches| :: FetchedFor(fetches[k], head, listed))
    {
      hide Covered, RequestsDelivered, Sound, CountBefore, Chunks, Complete, InstanceAddresses, SameMasjids;
      hide AllList, Apply, Fetches, FetchedFor, WasFetched, SameRequests;
      hide Indexer.Valid, Indexer.ListsAll, Indexer.MasjidsUpTo;
      ghost var start, ranges;
      err, start, ranges := ProcessProtocol(head - 1);
      if !err && Careful(PROTOCOL) { ListAfterPass(head); }
      RangesEnd(start, head - 1, ranges);
      FetchedBefore(OfProtocol, start, head, ranges, InstanceAddresses(events.masjid.rows));
    }

    method SecondPass(head: nat) returns (err: bool, any: bool, ghost start: nat)
      requires Valid() && 2 <= head <= TWO_64 - CHUNK_SIZE
      modifies this`fetches, this`mishandled, this`unsaved, this`misread, this`refusals, checkpoint
      modifies events.cashOut, events.masjid`faults
      ensures Valid() && Remembers() && Innocent()
      ensures old(refusals) <= refusals <= old(refusals) + if err then 1 else 0
      ensures err ==> old(refusals) < refusals || old(events.Faults()) < events.Faults()
      ensures SameMasjids(Tables(), old(Tables())) && Next(PROTOCOL) == old(Next(PROTOCOL))
      ensures old(Careful(PROTOCOL)) == Careful(PROTOCOL)
      ensures any ==> Advanced(INSTANCES, head, err)
      ensures !any ==> Next(INSTANCES) == old(Next(INSTANCES))
      ensures var listed := InstanceAddresses(old(events.masjid.rows));
              && (!err ==> (any <==> listed != {}))
              && (forall k | |old(fetches)| <= k < |fetches| :: FetchedFor(fetches[k], head, listed))
              && (ListsAll(listed, head) && old(AllListed()) ==> AllListed())
              && (!err && ListsAll(listed, head) && Careful(INSTANCES) && AllListed() ==> RequestsUpTo(head))
              && (!err && listed != {} && INSTANCES !in mishandled && start < head && old(HoldsExactly(start))
                  ==> (HoldsExactly(head) <==> ListsTellers(listed, start, head)))
    {
      hide Covered, RequestsDelivered, Sound, CountBefore, Chunks, Complete, InstanceAddresses, SameMasjids;
      hide AllList, Apply, Fetches, FetchedFor, WasFetched, SameRequests;
      hide Indexer.ListsTellers, Indexer.Valid, Indexer.ListsAll, Indexer.RequestsUpTo, Indexer.HoldsExactly;
      ghost var listed, ranges := InstanceAddresses(events.masjid.rows), [];
      err, any, start, ranges := ProcessInstances(head - 1);
      FetchedBefore(OfInstances(listed), start, head, ranges, listed);
      RangesEnd(start, head - 1, ranges);
    }

    /** A protocol pass that reached the head makes the list complete up to it. */
    lemma ListAfterPass(head: nat)
      requires Valid() && MasjidsUpTo(head)
      ensures ListsAll(InstanceAddresses(events.masjid.rows), head)
    {
      hide Covered, MasjidsDelivered, RequestsDelivered, Sound, CountBefore, Complete, InstanceAddresses, AllList;
      ListIsComplete(Tables(), node, head);
      CutIsInside(head);
    }

    twostate lemma SameMasjidTables()
      requires SameMasjids(Tables(), old(Tables()))
      ensures events.masjid.rows == old(events.masjid.rows)
    {
    }

    twostate lemma RequestsStay()
      requires SameRequests(Tables(), old(Tables()))
      ensures forall b: nat :: old(HoldsExactly(b)) <==> HoldsExactly(b)
    {
    }

    twostate lemma MasjidsStay(head: nat)
      requires SameMasjids(Tables(), old(Tables())) && old(MasjidsUpTo(head))
      ensures MasjidsUpTo(head)
    {
      hide SameMasjids, MasjidsDelivered, CountBefore;
      SameMasjidsTurns(old(Tables()), Tables());
      MasjidsFrame(old(Tables()), Tables(), node.log, node.Before(head));
    }

    /** Without a fault of the checkpoints, a pass leaves its checkpoint no earlier than it was and no later than
        the head or where it was; a pass that did not fail has it at the head. */
    twostate predicate Advanced(name: string, head: nat, failed: bool)
      reads this, checkpoint
    {
      checkpoint.faults == old(checkpoint.faults) ==>
        && old(Next(name)) <= Next(name) <= Max(old(Next(name)), head)
        && (!failed ==> Next(name) == Max(old(Next(name)), head))
    }

    lemma FetchedBefore(q: Query, start: nat, head: nat, ranges: seq<Range>, listed: set<Address>)
      requires 0 < head && ranges <= Chunks(start, head - 1) && (q.OfInstances? ==> q.addresses == listed)
      ensures forall i | 0 <= i < |Fetches(q, ranges)| :: FetchedFor(Fetches(q, ranges)[i], head, listed)
    {
      hide Chunks;
      forall i | 0 <= i < |ranges| ensures ranges[i].last < head { ChunkIsInside(start, head - 1, i); }
    }

    /** The last of the first ranges of a pass is within it, that of all of them is its head. */
    lemma RangesEnd(start: nat, head: nat, ranges: seq<Range>)
      requires ranges <= Chunks(start, head)
      ensures ranges != [] ==> start <= ranges[|ranges| - 1].last <= head
      ensures ranges == Chunks(start, head) && start <= head ==> ranges != [] && ranges[|ranges| - 1].last == head
      ensures start > head ==> ranges == []
    {
      hide Chunks;
      ChunksTile(start, head);
      if ranges != [] {
        ChunkIsInside(start, head, |ranges| - 1);
        ChunksAfter(start, head, |ranges| - 1);
      }
    }

    lemma CutIsInside(b: nat)
      requires Sound(node)
      ensures node.Before(b) <= |node.log|
    {
    }

    /** However the node, the checkpoints and the database fail from poll to poll, every block up to each
        checkpoint has been fetched. If besides no protocol pass failed and its handlers and checkpoints were
        careful, no log of any instance up to the checkpoint of the instance pass was missed; and if that pass
        was careful too, the tables hold everything the chain says up to the checkpoints. When nothing fails
        the checkpoints are at the furthest safe head, that of the instance pass at the furthest one at which
        an instance was listed. */
    method Run(answers: seq<Option<nat>>) returns (polls: seq<Poll>)
      requires Valid()
      requires forall i :: 0 <= i < |answers| && answers[i].Some? ==> answers[i].value <= TWO_64 - CHUNK_SIZE
      modifies this`fetches, this`mishandled, this`unsaved, this`misread, this`refusals, checkpoint
      modifies events.masjid, events.attest, events.cashOut, events.user`faults
      ensures Valid() && Remembers() && Innocent() && |polls| == |answers|
      ensures Covered(fetches, true, startBlock, Next(PROTOCOL)) && Covered(fetches, false, startBlock, Next(INSTANCES))
      ensures old(AllListed()) && NoProtocolErr(polls) && Careful(PROTOCOL) ==>
                && AllListed() && MasjidsUpTo(Next(PROTOCOL))
                && (forall p | RecordedAsDone(p) :: CameBack(node, fetches, p))
                && (Careful(INSTANCES) ==> RequestsUpTo(Next(INSTANCES)))
      ensures AsAnswered(polls, answers)
      ensures refusals == old(refusals) ==> NoProtocolErr(polls)
      ensures refusals == old(refusals) && checkpoint.faults == old(checkpoint.faults) ==>
                Next(PROTOCOL) == Furthest(old(Next(PROTOCOL)), answers, Awake(polls))
      ensures refusals == old(refusals) && checkpoint.faults == old(checkpoint.faults)
              && events.Faults() == old(events.Faults()) ==>
                Next(INSTANCES) == Furthest(old(Next(INSTANCES)), answers, Listing(polls))
    {
      hide Sound, Covered, MasjidsDelivered, RequestsDelivered, AllList, CameBack, NoProtocolErr, AsAnswered;
      polls := [];
      NoPollsYet();
      assert answers[..0] == [] && Awake([]) == [] && Listing([]) == [];
      for i := 0 to |answers|
        invariant Valid() && Remembers() && Innocent() && |polls| == i
        invariant old(AllListed()) && NoProtocolErr(polls) && Careful(PROTOCOL) ==> AllListed()
        invariant AsAnswered(polls, answers[..i])
        invariant refusals == old(refusals) ==> NoProtocolErr(polls)
        invariant refusals == old(refusals) && checkpoint.faults == old(checkpoint.faults) ==>
                    Next(PROTOCOL) == Furthest(old(Next(PROTOCOL)), answers[..i], Awake(polls))
        invariant refusals == old(refusals) && checkpoint.faults == old(checkpoint.faults)
                  && events.Faults() == old(events.Faults()) ==>
                    Next(INSTANCES) == Furthest(old(Next(INSTANCES)), answers[..i], Listing(polls))
      {
        var poll, _ := Tick(answers[i]);
        OneMorePoll(polls, poll, answers);
        FurthestOneMore(old(Next(PROTOCOL)), answers, i, Awake(polls), !poll.asleep);
        FurthestOneMore(old(Next(INSTANCES)), answers, i, Listing(polls), !poll.asleep && poll.listed);
        polls := polls + [poll];
      }
      assert answers[..|answers|] == answers;
      if AllListed() { NoneOfThemMissed(); }
    }

    /** The log at `p` is one of an instance, in a block that the instance pass has recorded as done. */
    ghost predicate RecordedAsDone(p: nat)
      reads checkpoint`lastBlock
    {
      && p < |node.log| == |node.blockOf| && node.log[p].event.InstanceLog?
      && startBlock <= node.blockOf[p] < Next(INSTANCES)
    }

    lemma NoneOfThemMissed()
      requires Valid() && AllListed()
      ensures forall p | RecordedAsDone(p) :: CameBack(node, fetches, p)
    {
      hide AllList, CameBack, Covered, RequestsDelivered, MasjidsDelivered;
      forall p | RecordedAsDone(p) ensures CameBack(node, fetches, p) {
        NoneMissed(node, fetches, startBlock, Next(INSTANCES), p);
      }
    }
  }
}
