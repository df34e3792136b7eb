/** The indexer's tables as a projection of the event log: what each handler writes, and why delivering
    the log at least once, with any rewinds, gives the same tables as delivering it once. */
module Projection {
  import opened Types
  import W = World
  import I = Instance

  // ---- Tables -------------------------------------------------------------------------------

  datatype MasjidTerms = MasjidTerms(
    nameHash: NameHash, proposer: Address, masjidAdmin: Address, stablecoin: Address,
    masjidName: string, metadataUri: string, cashOutThreshold: nat, registeredAt: int)

  datatype MasjidRow = MasjidRow(
    terms: MasjidTerms, status: string, attestYes: nat, attestNo: nat,
    instanceAddr: Option<Address>, verifiedAt: Option<int>)

  datatype AttestRow = AttestRow(support: bool, yesCount: nat, noCount: nat, attestedAt: int)

  datatype RequestTerms = RequestTerms(
    to: Address, amount: nat, noteHash: nat, proposer: Address, expiresAt: int, proposedAt: int)

  datatype RequestRow = RequestRow(
    terms: RequestTerms, executed: bool, executor: Option<Address>,
    canceled: bool, canceledBy: Option<Address>, settledAt: Option<int>)

  datatype VoteRow = VoteRow(approvals: nat, approvedAt: int)

  datatype Db = Db(
    masjids: map<MasjidId, MasjidRow>, attests: map<(MasjidId, Address), AttestRow>,
    requests: map<(Address, nat), RequestRow>, votes: map<(Address, nat, Address), VoteRow>)

  const EMPTY := Db(map[], map[], map[], map[])

  /** A log as delivered to a handler, with the time of its block as an int64. */
  datatype Log = Log(event: W.Event, timestamp: int)

  function StatusStr(s: W.Status): string {
    match s
    case Pending => "pending"
    case Rejected => "rejected"
    case Verified => "verified"
    case Flagged => "flagged"
    case Revoked => "revoked"
    case NoStatus => "none"
  }

  // ---- Handlers -----------------------------------------------------------------------------

  /** ON CONFLICT (masjid_id) overwrites every column but the proposer. */
  function UpsertMasjid(rows: map<MasjidId, MasjidRow>, id: MasjidId, row: MasjidRow): map<MasjidId, MasjidRow> {
    if id in rows then rows[id := row.(terms := row.terms.(proposer := rows[id].terms.proposer))]
    else rows[id := row]
  }

  /** UPDATE ... WHERE masjid_id = id; verified_at is written only when a value is given. */
  function UpdateStatus(rows: map<MasjidId, MasjidRow>, id: MasjidId, status: string,
                        verifiedAt: Option<int>): map<MasjidId, MasjidRow> {
    if id !in rows then rows
    else rows[id := rows[id].(status := status,
                              verifiedAt := if verifiedAt.Some? then verifiedAt else rows[id].verifiedAt)]
  }

  function UpdateVerified(rows: map<MasjidId, MasjidRow>, id: MasjidId, instance: Address,
                          verifiedAt: int): map<MasjidId, MasjidRow> {
    if id !in rows then rows
    else rows[id := rows[id].(instanceAddr := Some(instance), status := "verified", verifiedAt := Some(verifiedAt))]
  }

  function UpdateAttestCounts(rows: map<MasjidId, MasjidRow>, id: MasjidId, yes: nat, no: nat): map<MasjidId,
                              MasjidRow> {
    if id !in rows then rows else rows[id := rows[id].(attestYes := yes, attestNo := no)]
  }

  function NewMasjid(e: W.Event, timestamp: int): MasjidRow
    requires e.MasjidRegistered?
  {
    MasjidRow(
      MasjidTerms(e.nameHash, e.proposer, e.proposer, e.stablecoin, e.masjidName, e.metadataUri,
                  |e.boardMembers| / 2 + 1, timestamp),
      "pending", 0, 0, None, None)
  }

  function NewRequest(e: I.Event, timestamp: int): RequestRow
    requires e.CashOutProposed?
  {
    RequestRow(RequestTerms(e.to, e.amount, e.noteHash, e.proposer, Wrap64(e.expiresAt), timestamp), false, None,
               false, None, None)
  }

  function HandleInstance(db: Db, a: Address, e: I.Event, timestamp: int): Db {
    match e
    case CashOutProposed(n, _, _, _, _, _) => db.(requests := db.requests[(a, n) := NewRequest(e, timestamp)])
    case CashOutApproved(n, approver, approvals) =>
      db.(votes := db.votes[(a, n, approver) := VoteRow(approvals, timestamp)])
    case CashOutExecuted(n, executor) =>
      if (a, n) !in db.requests then db
      else db.(requests := db.requests[(a, n) := db.requests[(a, n)].(
                                        executed := true, executor := Some(executor), settledAt := Some(timestamp))])
    case CashOutCanceled(n, canceler) =>
      if (a, n) !in db.requests then db
      else db.(requests := db.requests[(a, n) := db.requests[(a, n)].(
                                        canceled := true, canceledBy := Some(canceler), settledAt := Some(timestamp))])
    case _ => db
  }

  /** One log through its handler. Logs the indexer does not subscribe to change nothing. */
  function Handle(db: Db, l: Log): Db {
    match l.event
    case MasjidRegistered(id, _, _, _, _, _, _) =>
      db.(masjids := UpsertMasjid(db.masjids, id, NewMasjid(l.event, l.timestamp)))
    case MasjidAttested(id, verifier, support, yes, no) =>
      if id !in db.masjids then db
      else db.(attests := db.attests[(id, verifier) := AttestRow(support, yes, no, l.timestamp)],
               masjids := UpdateAttestCounts(db.masjids, id, yes, no))
    case MasjidRejected(id, _, _, _) => db.(masjids := UpdateStatus(db.masjids, id, "rejected", None))
    case MasjidVerified(id, instance, _, _, _) => db.(masjids := UpdateVerified(db.masjids, id, instance, l.timestamp))
    case MasjidStatusUpdated(id, _, status) =>
      db.(masjids := UpdateStatus(db.masjids, id, StatusStr(status),
                                  if status == W.Verified then Some(l.timestamp) else None))
    case InstanceLog(a, e) => HandleInstance(db, a, e, l.timestamp)
    case _ => db
  }

  function Apply(db: Db, logs: seq<Log>): Db
    decreases |logs|
  {
    if logs == [] then db else Handle(Apply(db, logs[..|logs| - 1]), logs[|logs| - 1])
  }

  lemma {:induction false} ApplyAppends(db: Db, a: seq<Log>, b: seq<Log>)
    ensures Apply(db, a + b) == Apply(Apply(db, a), b)
    decreases |b|
  {
    hide Handle;
    if b == [] {
      assert a + b == a;
    } else {
      assert (a + b)[..|a + b| - 1] == a + b[..|b| - 1];
      ApplyAppends(db, a, b[..|b| - 1]);
    }
  }

  // ---- Cells: the columns that handlers write together --------------------------------------

  datatype Cell =
    | TermsOf(id: MasjidId) | StatusOf(id: MasjidId) | CountsOf(id: MasjidId)
    | InstanceOf(id: MasjidId) | VerifiedAtOf(id: MasjidId)
    | AttestOf(id: MasjidId, verifier: Address)
    | RequestTermsOf(a: Address, n: nat) | ExecutionOf(a: Address, n: nat)
    | CancellationOf(a: Address, n: nat) | SettledAtOf(a: Address, n: nat)
    | VoteOf(a: Address, n: nat, approver: Address)

  datatype Content =
    | MasjidTermsIs(terms: MasjidTerms) | StatusIs(status: string) | CountsAre(yes: nat, no: nat)
    | InstanceIs(instance: Option<Address>) | TimeIs(at: Option<int>) | AttestIs(attest: AttestRow)
    | RequestTermsAre(request: RequestTerms) | FlagIs(flag: bool, account: Option<Address>) | VoteIs(vote: VoteRow)

  function ReadMasjid(r: MasjidRow, c: Cell): Option<Content> {
    match c
    case TermsOf(_) => Some(MasjidTermsIs(r.terms))
    case StatusOf(_) => Some(StatusIs(r.status))
    case CountsOf(_) => Some(CountsAre(r.attestYes, r.attestNo))
    case InstanceOf(_) => Some(InstanceIs(r.instanceAddr))
    case VerifiedAtOf(_) => Some(TimeIs(r.verifiedAt))
    case _ => None
  }

  function ReadRequest(r: RequestRow, c: Cell): Option<Content> {
    match c
    case RequestTermsOf(_, _) => Some(RequestTermsAre(r.terms))
    case ExecutionOf(_, _) => Some(FlagIs(r.executed, r.executor))
    case CancellationOf(_, _) => Some(FlagIs(r.canceled, r.canceledBy))
    case SettledAtOf(_, _) => Some(TimeIs(r.settledAt))
    case _ => None
  }

  /** What a table holds in a cell; None when there is no row. */
  function Read(db: Db, c: Cell): Option<Content> {
    match c
    case AttestOf(id, v) => if (id, v) in db.attests then Some(AttestIs(db.attests[(id, v)])) else None
    case VoteOf(a, n, v) => if (a, n, v) in db.votes then Some(VoteIs(db.votes[(a, n, v)])) else None
    case RequestTermsOf(a, n) => if (a, n) in db.requests then ReadRequest(db.requests[(a, n)], c) else None
    case ExecutionOf(a, n) => if (a, n) in db.requests then ReadRequest(db.requests[(a, n)], c) else None
    case CancellationOf(a, n) => if (a, n) in db.requests then ReadRequest(db.requests[(a, n)], c) else None
    case SettledAtOf(a, n) => if (a, n) in db.requests then ReadRequest(db.requests[(a, n)], c) else None
    case _ => if c.id in db.masjids then ReadMasjid(db.masjids[c.id], c) else None
  }

  /** What a log writes into a cell, whatever the tables hold; None when it leaves the cell alone. */
  function Writes(l: Log, c: Cell): Option<Content> {
    match l.event
    case MasjidRegistered(id, _, _, _, _, _, _) =>
      if (c.TermsOf? || c.StatusOf? || c.CountsOf? || c.InstanceOf? || c.VerifiedAtOf?) && c.id == id
      then ReadMasjid(NewMasjid(l.event, l.timestamp), c) else None
    case MasjidAttested(id, v, support, yes, no) =>
      if c == CountsOf(id) then Some(CountsAre(yes, no))
      else if c == AttestOf(id, v) then Some(AttestIs(AttestRow(support, yes, no, l.timestamp))) else None
    case MasjidRejected(id, _, _, _) => if c == StatusOf(id) then Some(StatusIs("rejected")) else None
    case MasjidVerified(id, instance, _, _, _) =>
      if c == StatusOf(id) then Some(StatusIs("verified"))
      else if c == InstanceOf(id) then Some(InstanceIs(Some(instance)))
      else if c == VerifiedAtOf(id) then Some(TimeIs(Some(l.timestamp))) else None
    case MasjidStatusUpdated(id, _, status) =>
      if c == StatusOf(id) then Some(StatusIs(StatusStr(status)))
      else if c == VerifiedAtOf(id) && status == W.Verified then Some(TimeIs(Some(l.timestamp))) else None
    case InstanceLog(a, e) => InstanceWrites(a, e, l.timestamp, c)
    case _ => None
  }

  function InstanceWrites(a: Address, e: I.Event, timestamp: int, c: Cell): Option<Content> {
    match e
    case CashOutProposed(n, _, _, _, _, _) =>
      if (c.RequestTermsOf? || c.ExecutionOf? || c.CancellationOf? || c.SettledAtOf?) && (c.a, c.n) == (a, n)
      then ReadRequest(NewRequest(e, timestamp), c) else None
    case CashOutApproved(n, v, approvals) =>
      if c == VoteOf(a, n, v) then Some(VoteIs(VoteRow(approvals, timestamp))) else None
    case CashOutExecuted(n, executor) =>
      if c == ExecutionOf(a, n) then Some(FlagIs(true, Some(executor)))
      else if c == SettledAtOf(a, n) then Some(TimeIs(Some(timestamp))) else None
    case CashOutCanceled(n, canceler) =>
      if c == CancellationOf(a, n) then Some(FlagIs(true, Some(canceler)))
      else if c == SettledAtOf(a, n) then Some(TimeIs(Some(timestamp))) else None
    case _ => None
  }

  /** The row an update is about is there, and a registration names the proposer its row already has. */
  ghost predicate Ready(db: Db, l: Log) {
    match l.event
    case MasjidRegistered(id, _, proposer, _, _, _, _) => id in db.masjids ==> db.masjids[id].terms.proposer == proposer
    case MasjidAttested(id, _, _, _, _) => id in db.masjids
    case MasjidRejected(id, _, _, _) => id in db.masjids
    case MasjidVerified(id, _, _, _, _) => id in db.masjids
    case MasjidStatusUpdated(id, _, _) => id in db.masjids
    case InstanceLog(a, e) => e.CashOutExecuted? || e.CashOutCanceled? ==> (a, e.requestId) in db.requests
    case _ => true
  }

  lemma InstanceHandlerWrites(db: Db, a: Address, e: I.Event, timestamp: int, c: Cell)
    requires e.CashOutExecuted? || e.CashOutCanceled? ==> (a, e.requestId) in db.requests
    ensures var written := InstanceWrites(a, e, timestamp, c);
            Read(HandleInstance(db, a, e, timestamp), c) == if written.Some? then written else Read(db, c)
  {
  }

  lemma RegistrationWrites(db: Db, l: Log, c: Cell)
    requires Ready(db, l) && l.event.MasjidRegistered?
    ensures Read(Handle(db, l), c) == if Writes(l, c).Some? then Writes(l, c) else Read(db, c)
  {
    hide HandleInstance, InstanceWrites, UpdateStatus, UpdateVerified, UpdateAttestCounts;
  }

  lemma AttestationWrites(db: Db, l: Log, c: Cell)
    requires Ready(db, l) && l.event.MasjidAttested?
    ensures Read(Handle(db, l), c) == if Writes(l, c).Some? then Writes(l, c) else Read(db, c)
  {
    hide HandleInstance, InstanceWrites, UpsertMasjid, UpdateStatus, UpdateVerified;
  }

  lemma StatusChangeWrites(db: Db, l: Log, c: Cell)
    requires Ready(db, l)
    requires l.event.MasjidRejected? || l.event.MasjidVerified? || l.event.MasjidStatusUpdated?
    ensures Read(Handle(db, l), c) == if Writes(l, c).Some? then Writes(l, c) else Read(db, c)
  {
    hide HandleInstance, InstanceWrites, UpsertMasjid, UpdateAttestCounts;
  }

  /** On tables that are ready for it, a handler overwrites exactly the cells `Writes` names. */
  lemma HandleWrites(db: Db, l: Log, c: Cell)
    requires Ready(db, l)
    ensures Read(Handle(db, l), c) == if Writes(l, c).Some? then Writes(l, c) else Read(db, c)
  {
    hide HandleInstance, InstanceWrites, Read;
    match l.event
    case MasjidRegistered(_, _, _, _, _, _, _) => RegistrationWrites(db, l, c);
    case MasjidAttested(_, _, _, _, _) => AttestationWrites(db, l, c);
    case MasjidRejected(_, _, _, _) => StatusChangeWrites(db, l, c);
    case MasjidVerified(_, _, _, _, _) => StatusChangeWrites(db, l, c);
    case MasjidStatusUpdated(_, _, _) => StatusChangeWrites(db, l, c);
    case InstanceLog(a, e) => InstanceHandlerWrites(db, a, e, l.timestamp, c);
    case _ =>
  }

  /** Tables with the same cells are the same tables. */
  lemma CellsDetermine(db: Db, db': Db)
    requires forall c :: Read(db, c) == Read(db', c)
    ensures db == db'
  {
    forall id ensures id in db.masjids <==> id in db'.masjids
      ensures id in db.masjids ==> db.masjids[id] == db'.masjids[id]
    {
      assert Read(db, TermsOf(id)) == Read(db', TermsOf(id));
      assert Read(db, StatusOf(id)) == Read(db', StatusOf(id));
      assert Read(db, CountsOf(id)) == Read(db', CountsOf(id));
      assert Read(db, InstanceOf(id)) == Read(db', InstanceOf(id));
      assert Read(db, VerifiedAtOf(id)) == Read(db', VerifiedAtOf(id));
    }
    forall k ensures k in db.requests <==> k in db'.requests
      ensures k in db.requests ==> db.requests[k] == db'.requests[k]
    {
      assert Read(db, RequestTermsOf(k.0, k.1)) == Read(db', RequestTermsOf(k.0, k.1));
      assert Read(db, ExecutionOf(k.0, k.1)) == Read(db', ExecutionOf(k.0, k.1));
      assert Read(db, CancellationOf(k.0, k.1)) == Read(db', CancellationOf(k.0, k.1));
      assert Read(db, SettledAtOf(k.0, k.1)) == Read(db', SettledAtOf(k.0, k.1));
    }
    forall k ensures k in db.attests <==> k in db'.attests
      ensures k in db.attests ==> db.attests[k] == db'.attests[k]
    {
      assert Read(db, AttestOf(k.0, k.1)) == Read(db', AttestOf(k.0, k.1));
    }
    forall k ensures k in db.votes <==> k in db'.votes
      ensures k in db.votes ==> db.votes[k] == db'.votes[k]
    {
      assert Read(db, VoteOf(k.0, k.1, k.2)) == Read(db', VoteOf(k.0, k.1, k.2));
    }
    assert db.masjids == db'.masjids && db.requests == db'.requests;
    assert db.attests == db'.attests && db.votes == db'.votes;
  }
}
