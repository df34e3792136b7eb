/** What the logs of instances tell: that a request was made, approved, executed or canceled. The log of
    a run tells each fact once, so tables that handled a stretch of it know exactly what it told. */
module Facts {
  import opened Types
  import opened Projection
  import opened Replay
  import W = World
  import I = Instance

  datatype Fact =
    | Made(a: Address, n: nat)
    | Approved(a: Address, n: nat, account: Address)
    | Executed(a: Address, n: nat)
    | Canceled(a: Address, n: nat)

  function Tells(l: Log): (f: Option<Fact>)
    ensures f.Some? ==> l.event.InstanceLog? && l.event.instance == f.value.a
  {
    match l.event
    case InstanceLog(a, e) => (
      match e
      case CashOutProposed(n, _, _, _, _, _) => Some(Made(a, n))
      case CashOutApproved(n, account, _) => Some(Approved(a, n, account))
      case CashOutExecuted(n, _) => Some(Executed(a, n))
      case CashOutCanceled(n, _) => Some(Canceled(a, n))
      case _ => None)
    case _ => None
  }

  predicate Knows(db: Db, f: Fact) {
    match f
    case Made(a, n) => (a, n) in db.requests
    case Approved(a, n, account) => (a, n, account) in db.votes
    case Executed(a, n) => (a, n) in db.requests && db.requests[(a, n)].executed
    case Canceled(a, n) => (a, n) in db.requests && db.requests[(a, n)].canceled
  }

  /** No log tells what the logs before it have told already. */
  ghost predicate TellsNews(log: seq<Log>) {
    forall p :: 0 <= p < |log| && Tells(log[p]).Some? ==> !Knows(Apply(EMPTY, log[..p]), Tells(log[p]).value)
  }

  /** A handled log adds what it tells; a proposal also takes back what was known of its request. */
  lemma HandlingTeaches(db: Db, l: Log, f: Fact)
    requires Ready(db, l)
    ensures Tells(l) == Some(f) ==> Knows(Handle(db, l), f)
    ensures Tells(l) != Some(f) && Knows(Handle(db, l), f) ==> Knows(db, f)
    ensures Knows(db, f) && (Tells(l).Some? && Tells(l).value.Made? ==> !Knows(db, Tells(l).value)) ==>
                Knows(Handle(db, l), f)
  {
    hide UpsertMasjid, UpdateStatus, UpdateVerified, UpdateAttestCounts;
  }

  lemma PrefixIsReady(log: seq<Log>, p: nat)
    requires WellFormedLog(log) && p < |log|
    ensures Ready(Apply(EMPTY, log[..p]), log[p])
  {
    hide Delivered, WellFormedLog, ApplyRange, Ready, Grounded;
    NothingDelivered(log);
    DeliverRange(EMPTY, log, 0, p);
    PrefixIsRange(log, p);
    GroundedAt(log, p);
    DeliveredIsReady(Apply(EMPTY, log[..p]), log, p);
  }

  lemma GroundedAt(log: seq<Log>, p: nat)
    requires WellFormedLog(log) && p < |log|
    ensures Grounded(log, p)
  {
    hide Grounded;
  }

  lemma PrefixStep(log: seq<Log>, p: nat)
    requires p < |log|
    ensures Apply(EMPTY, log[..p + 1]) == Handle(Apply(EMPTY, log[..p]), log[p])
  {
    hide Handle;
    assert log[..p + 1][..p] == log[..p];
  }

  /** What a prefix of the log has told stays known. */
  lemma {:induction false} NeverForgotten(log: seq<Log>, i: nat, j: nat, f: Fact)
    requires WellFormedLog(log) && TellsNews(log) && i <= j <= |log| && Knows(Apply(EMPTY, log[..i]), f)
    ensures Knows(Apply(EMPTY, log[..j]), f)
    decreases j - i
  {
    hide WellFormedLog, Ready, Knows, Tells, Handle, Apply;
    if i == j {
    } else {
      NeverForgotten(log, i, j - 1, f);
      PrefixIsReady(log, j - 1);
      PrefixStep(log, j - 1);
      HandlingTeaches(Apply(EMPTY, log[..j - 1]), log[j - 1], f);
    }
  }

  lemma LearnedAt(log: seq<Log>, p: nat)
    requires WellFormedLog(log) && p < |log| && Tells(log[p]).Some?
    ensures Knows(Apply(EMPTY, log[..p + 1]), Tells(log[p]).value)
  {
    hide WellFormedLog, Ready, Knows, Tells, Handle, Apply;
    PrefixIsReady(log, p);
    PrefixStep(log, p);
    HandlingTeaches(Apply(EMPTY, log[..p]), log[p], Tells(log[p]).value);
  }

  /** The tables of a prefix know exactly what the logs in it tell. */
  lemma {:induction false} KnownExactlyWhenTold(log: seq<Log>, i: nat, f: Fact)
    requires WellFormedLog(log) && TellsNews(log) && i <= |log|
    ensures Knows(Apply(EMPTY, log[..i]), f) <==> exists p :: 0 <= p < i && Tells(log[p]) == Some(f)
  {
    hide WellFormedLog, TellsNews, Ready, Knows, Tells, Handle, Apply;
    if p :| 0 <= p < i && Tells(log[p]) == Some(f) {
      LearnedAt(log, p);
      NeverForgotten(log, p + 1, i, f);
    } else if i > 0 {
      KnownExactlyWhenTold(log, i - 1, f);
      PrefixIsReady(log, i - 1);
      PrefixStep(log, i - 1);
      HandlingTeaches(Apply(EMPTY, log[..i - 1]), log[i - 1], f);
    } else {
      NothingIsKnown(log, f);
    }
  }

  lemma ToldOnce(log: seq<Log>, p: nat, q: nat)
    requires WellFormedLog(log) && TellsNews(log) && p < q < |log| && Tells(log[p]).Some?
    ensures Tells(log[q]) != Tells(log[p])
  {
    hide WellFormedLog, Knows, Tells, Handle, Apply;
    LearnedAt(log, p);
    NeverForgotten(log, p + 1, q, Tells(log[p]).value);
  }

  /** Only a log that tells a fact teaches it, whatever the tables hold. */
  lemma {:induction false} UntoldStaysUnknown(db: Db, logs: seq<Log>, f: Fact)
    requires !Knows(db, f) && forall p :: 0 <= p < |logs| ==> Tells(logs[p]) != Some(f)
    ensures !Knows(Apply(db, logs), f)
    decreases |logs|
  {
    hide Knows, Handle, Tells;
    if logs == [] {
    } else {
      UntoldStaysUnknown(db, logs[..|logs| - 1], f);
      OtherLogsTeachNothing(Apply(db, logs[..|logs| - 1]), logs[|logs| - 1], f);
    }
  }

  lemma OtherLogsTeachNothing(db: Db, l: Log, f: Fact)
    requires Tells(l) != Some(f) && !Knows(db, f)
    ensures !Knows(Handle(db, l), f)
  {
    hide UpsertMasjid, UpdateStatus, UpdateVerified, UpdateAttestCounts;
  }

  lemma NothingIsKnown(log: seq<Log>, f: Fact)
    ensures !Knows(Apply(EMPTY, log[..0]), f)
  {
  }

  // ---- Halves of the tables -----------------------------------------------------------------

  lemma OtherInstancesTeachNothing(db: Db, l: Log, f: Fact)
    requires l.event.InstanceLog? && l.event.instance != f.a
    ensures Knows(Handle(db, l), f) == Knows(db, f)
  {
    hide UpsertMasjid, UpdateStatus, UpdateVerified, UpdateAttestCounts;
  }
}
