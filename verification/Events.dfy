/** The repositories and the event service: each handler changes rows step by step, and any database
    call may fail. A repository counts the faults of its database, so that a contract can say that a call
    fails only when its database does. */
module Events {
  import opened Types
  import opened Projection
  import opened Chain
  import W = World
  import I = Instance

  class MasjidRepository {
    var rows: map<MasjidId, MasjidRow>

    ghost var faults: nat

    constructor ()
      ensures rows == map[] && faults == 0
    {
      rows := map[];
      faults := 0;
    }

    /** One database call: whether it faults is not ours to decide, but it is counted. */
    method Fails() returns (err: bool)
      modifies this`faults
      ensures faults == old(faults) + if err then 1 else 0
    {
      err := *;
      if err { faults := faults + 1; }
    }

    method FindByID(id: MasjidId) returns (row: Option<MasjidRow>, err: bool)
      modifies this`faults
      ensures faults == old(faults) + if err then 1 else 0
      ensures !err ==> row == if id in rows then Some(rows[id]) else None
      ensures err ==> row == None
    {
      err := Fails();
      row := if !err && id in rows then Some(rows[id]) else None;
    }

    method FindByInstance(a: Address) returns (id: Option<MasjidId>, err: bool)
      modifies this`faults
      ensures faults == old(faults) + if err then 1 else 0
      ensures err ==> id == None
      ensures !err ==> (id == None <==> a !in InstanceAddresses(rows))
      ensures id.Some? ==> id.value in rows && rows[id.value].instanceAddr == Some(a)
    {
      err := Fails();
      if !err && a in InstanceAddresses(rows) {
        var found :| found in rows && rows[found].instanceAddr == Some(a);
        return Some(found), false;
      }
      id := None;
    }

    method Upsert(id: MasjidId, row: MasjidRow) returns (err: bool)
      modifies this
      ensures faults == old(faults) + if err then 1 else 0
      ensures rows == if err then old(rows) else UpsertMasjid(old(rows), id, row)
    {
      err := Fails();
      if err { return; }
      if id in rows {
        rows := rows[id := row.(terms := row.terms.(proposer := rows[id].terms.proposer))];
      } else {
        rows := rows[id := row];
      }
    }

    method SetStatus(id: MasjidId, status: string, verifiedAt: Option<int>) returns (err: bool)
      modifies this
      ensures faults == old(faults) + if err then 1 else 0
      ensures rows == if err then old(rows) else UpdateStatus(old(rows), id, status, verifiedAt)
    {
      err := Fails();
      if err || id !in rows { return; }
      rows := rows[id := rows[id].(status := status)];
      if verifiedAt.Some? { rows := rows[id := rows[id].(verifiedAt := verifiedAt)]; }
    }

    method SetVerified(id: MasjidId, instance: Address, verifiedAt: int) returns (err: bool)
      modifies this
      ensures faults == old(faults) + if err then 1 else 0
      ensures rows == if err then old(rows) else UpdateVerified(old(rows), id, instance, verifiedAt)
    {
      err := Fails();
      if err || id !in rows { return; }
      rows := rows[id := rows[id].(instanceAddr := Some(instance), status := "verified",
                                   verifiedAt := Some(verifiedAt))];
    }

    method SetAttestCounts(id: MasjidId, yes: nat, no: nat) returns (err: bool)
      modifies this
      ensures faults == old(faults) + if err then 1 else 0
      ensures rows == if err then old(rows) else UpdateAttestCounts(old(rows), id, yes, no)
    {
      err := Fails();
      if err || id !in rows { return; }
      rows := rows[id := rows[id].(attestYes := yes, attestNo := no)];
    }

    method ListInstanceAddresses() returns (addresses: set<Address>, err: bool)
      modifies this`faults
      ensures faults == old(faults) + if err then 1 else 0
      ensures !err ==> addresses == InstanceAddresses(rows)
      ensures err ==> addresses == {}
    {
      err := Fails();
      addresses := if err then {} else InstanceAddresses(rows);
    }
  }

  class VerifierAttestRepository {
    var rows: map<(MasjidId, Address), AttestRow>

    ghost var faults: nat

    constructor ()
      ensures rows == map[] && faults == 0
    {
      rows := map[];
      faults := 0;
    }

    /** One database call: whether it faults is not ours to decide, but it is counted. */
    method Fails() returns (err: bool)
      modifies this`faults
      ensures faults == old(faults) + if err then 1 else 0
    {
      err := *;
      if err { faults := faults + 1; }
    }

    method Upsert(id: MasjidId, verifier: Address, row: AttestRow) returns (err: bool)
      modifies this
      ensures faults == old(faults) + if err then 1 else 0
      ensures rows == if err then old(rows) else old(rows)[(id, verifier) := row]
    {
      err := Fails();
      if !err { rows := rows[(id, verifier) := row]; }
    }
  }

  class CashOutRepository {
    var requests: map<(Address, nat), RequestRow>
    var votes: map<(Address, nat, Address), VoteRow>

    ghost var faults: nat

    constructor ()
      ensures requests == map[] && votes == map[] && faults == 0
    {
      requests, votes := map[], map[];
      faults := 0;
    }

    /** One database call: whether it faults is not ours to decide, but it is counted. */
    method Fails() returns (err: bool)
      modifies this`faults
      ensures faults == old(faults) + if err then 1 else 0
    {
      err := *;
      if err { faults := faults + 1; }
    }

    method UpsertRequest(a: Address, n: nat, row: RequestRow) returns (err: bool)
      modifies this`requests, this`faults
      ensures faults == old(faults) + if err then 1 else 0
      ensures requests == if err then old(requests) else old(requests)[(a, n) := row]
    {
      err := Fails();
      if !err { requests := requests[(a, n) := row]; }
    }

    method UpsertVote(a: Address, n: nat, approver: Address, row: VoteRow) returns (err: bool)
      modifies this`votes, this`faults
      ensures faults == old(faults) + if err then 1 else 0
      ensures votes == if err then old(votes) else old(votes)[(a, n, approver) := row]
    {
      err := Fails();
      if !err { votes := votes[(a, n, approver) := row]; }
    }

    method MarkExecuted(a: Address, n: nat, executor: Address, settledAt: int) returns (err: bool)
      modifies this`requests, this`faults
      ensures faults == old(faults) + if err then 1 else 0
      ensures requests == if err || (a, n) !in old(requests) then old(requests)
                          else old(requests)[(a, n) := old(requests)[(a, n)].(
                                               executed := true, executor := Some(executor),
                                               settledAt := Some(settledAt))]
    {
      err := Fails();
      if err || (a, n) !in requests { return; }
      requests := requests[(a, n) := requests[(a, n)].(executed := true, executor := Some(executor),
                                                       settledAt := Some(settledAt))];
    }

    method MarkCanceled(a: Address, n: nat, canceledBy: Address, settledAt: int) returns (err: bool)
      modifies this`requests, this`faults
      ensures faults == old(faults) + if err then 1 else 0
      ensures requests == if err || (a, n) !in old(requests) then old(requests)
                          else old(requests)[(a, n) := old(requests)[(a, n)].(
                                               canceled := true, canceledBy := Some(canceledBy),
                                               settledAt := Some(settledAt))]
    {
      err := Fails();
      if err || (a, n) !in requests { return; }
      requests := requests[(a, n) := requests[(a, n)].(canceled := true, canceledBy := Some(canceledBy),
                                                       settledAt := Some(settledAt))];
    }
  }

  /** The users table is not part of this model; that writing it may fail is. */
  class UserRepository {
    ghost var faults: nat

    constructor ()
      ensures faults == 0
    {
      faults := 0;
    }

    method Upsert() returns (err: bool)
      modifies this`faults
      ensures faults == old(faults) + if err then 1 else 0
    {
      err := *;
      if err { faults := faults + 1; }
    }
  }

  /** The logs of an instance that write no request and no vote. */
  lemma OtherLogsWriteNothing(db: Db, a: Address, e: I.Event, timestamp: int)
    requires !e.CashOutProposed? && !e.CashOutApproved? && !e.CashOutExecuted? && !e.CashOutCanceled?
    ensures HandleInstance(db, a, e, timestamp) == db
  {
  }

  class EventService {
    const masjid: MasjidRepository
    const attest: VerifierAttestRepository
    const cashOut: CashOutRepository
    const user: UserRepository

    constructor (masjid: MasjidRepository, attest: VerifierAttestRepository, cashOut: CashOutRepository,
                 user: UserRepository)
      ensures this.masjid == masjid && this.attest == attest && this.cashOut == cashOut && this.user == user
    {
      this.masjid, this.attest, this.cashOut, this.user := masjid, attest, cashOut, user;
    }

    ghost function Tables(): Db
      reads masjid`rows, attest`rows, cashOut`requests, cashOut`votes
    {
      Db(masjid.rows, attest.rows, cashOut.requests, cashOut.votes)
    }

    /** How many database calls have faulted. */
    ghost function Faults(): nat
      reads masjid`faults, attest`faults, cashOut`faults, user`faults
    {
      masjid.faults + attest.faults + cashOut.faults + user.faults
    }

    method HandleMasjidRegistered(e: W.Event, timestamp: int) returns (err: bool)
      requires e.MasjidRegistered?
      modifies masjid
      ensures old(Faults()) <= Faults() && (err <==> old(Faults()) < Faults())
      ensures Tables() == if err then old(Tables()) else Handle(old(Tables()), Log(e, timestamp))
    {
      err := masjid.Upsert(e.id, NewMasjid(e, timestamp));
    }

    /** The attest row is written before the counts: a failure in between leaves only the row. */
    method HandleMasjidAttested(e: W.Event, timestamp: int) returns (err: bool)
      requires e.MasjidAttested?
      modifies masjid, attest
      ensures old(Faults()) <= Faults() && (err <==> old(Faults()) < Faults())
      ensures !err ==> Tables() == Handle(old(Tables()), Log(e, timestamp))
      ensures err ==> masjid.rows == old(masjid.rows)
                      && (attest.rows == old(attest.rows)
                          || attest.rows == Handle(old(Tables()), Log(e, timestamp)).attests)
    {
      var row;
      row, err := masjid.FindByID(e.id);
      if err || row.None? { return; }
      err := attest.Upsert(e.id, e.verifier, AttestRow(e.support, e.yesCount, e.noCount, timestamp));
      if err { return; }
      err := masjid.SetAttestCounts(e.id, e.yesCount, e.noCount);
    }

    method HandleMasjidRejected(e: W.Event, timestamp: int) returns (err: bool)
      requires e.MasjidRejected?
      modifies masjid
      ensures old(Faults()) <= Faults() && (err <==> old(Faults()) < Faults())
      ensures Tables() == if err then old(Tables()) else Handle(old(Tables()), Log(e, timestamp))
    {
      err := masjid.SetStatus(e.id, "rejected", None);
    }

    /** After the row is written its admin is looked up for the users table, which may still fail. */
    method HandleMasjidVerified(e: W.Event, timestamp: int) returns (err: bool)
      requires e.MasjidVerified?
      modifies masjid, user`faults
      ensures old(Faults()) <= Faults() && (err <==> old(Faults()) < Faults())
      ensures !err ==> Tables() == Handle(old(Tables()), Log(e, timestamp))
      ensures err ==> Tables() == old(Tables()) || Tables() == Handle(old(Tables()), Log(e, timestamp))
    {
      err := masjid.SetVerified(e.id, e.instance, timestamp);
      if err { return; }
      var row;
      row, err := masjid.FindByID(e.id);
      if err || row.None? { return; }
      err := user.Upsert();
    }

    method HandleStatus(e: W.Event, timestamp: int) returns (err: bool)
      requires e.MasjidStatusUpdated?
      modifies masjid
      ensures old(Faults()) <= Faults() && (err <==> old(Faults()) < Faults())
      ensures Tables() == if err then old(Tables()) else Handle(old(Tables()), Log(e, timestamp))
    {
      var status := StatusStr(e.newStatus);
      var verifiedAt: Option<int> := None;
      if status == "verified" { verifiedAt := Some(timestamp); }
      err := masjid.SetStatus(e.id, status, verifiedAt);
    }

    method HandleCashOutProposed(a: Address, e: I.Event, timestamp: int) returns (err: bool)
      requires e.CashOutProposed?
      modifies cashOut, masjid`faults
      ensures old(Faults()) <= Faults() && (err <==> old(Faults()) < Faults())
      ensures Tables() == if err then old(Tables()) else HandleInstance(old(Tables()), a, e, timestamp)
    {
      var _, failed := masjid.FindByInstance(a);
      if failed { return true; }
      err := cashOut.UpsertRequest(a, e.requestId, NewRequest(e, timestamp));
    }

    method HandleCashOutApproved(a: Address, e: I.Event, timestamp: int) returns (err: bool)
      requires e.CashOutApproved?
      modifies cashOut
      ensures old(Faults()) <= Faults() && (err <==> old(Faults()) < Faults())
      ensures Tables() == if err then old(Tables()) else HandleInstance(old(Tables()), a, e, timestamp)
    {
      err := cashOut.UpsertVote(a, e.requestId, e.approver, VoteRow(e.approvals, timestamp));
    }

    method HandleCashOutExecuted(a: Address, e: I.Event, timestamp: int) returns (err: bool)
      requires e.CashOutExecuted?
      modifies cashOut
      ensures old(Faults()) <= Faults() && (err <==> old(Faults()) < Faults())
      ensures Tables() == if err then old(Tables()) else HandleInstance(old(Tables()), a, e, timestamp)
    {
      err := cashOut.MarkExecuted(a, e.requestId, e.executor, timestamp);
    }

    method HandleCashOutCanceled(a: Address, e: I.Event, timestamp: int) returns (err: bool)
      requires e.CashOutCanceled?
      modifies cashOut
      ensures old(Faults()) <= Faults() && (err <==> old(Faults()) < Faults())
      ensures Tables() == if err then old(Tables()) else HandleInstance(old(Tables()), a, e, timestamp)
    {
      err := cashOut.MarkCanceled(a, e.requestId, e.canceledBy, timestamp);
    }

    /** The protocol pass's switch over the topic of a log. */
    method HandleProtocolLog(l: Log) returns (err: bool)
      modifies masjid, attest, user`faults
      ensures old(Faults()) <= Faults() && (err <==> old(Faults()) < Faults())
      ensures !err && !l.event.InstanceLog? ==> Tables() == Handle(old(Tables()), l)
      ensures l.event.InstanceLog? ==> Tables() == old(Tables())
      ensures err ==> masjid.rows == old(masjid.rows) || masjid.rows == Handle(old(Tables()), l).masjids
      ensures err ==> attest.rows == old(attest.rows) || attest.rows == Handle(old(Tables()), l).attests
      ensures cashOut.requests == old(cashOut.requests) && cashOut.votes == old(cashOut.votes)
    {
      err := false;
      match l.event {
        case MasjidRegistered(_, _, _, _, _, _, _) => err := HandleMasjidRegistered(l.event, l.timestamp);
        case MasjidAttested(_, _, _, _, _) => err := HandleMasjidAttested(l.event, l.timestamp);
        case MasjidRejected(_, _, _, _) => err := HandleMasjidRejected(l.event, l.timestamp);
        case MasjidVerified(_, _, _, _, _) => err := HandleMasjidVerified(l.event, l.timestamp);
        case MasjidStatusUpdated(_, _, _) => err := HandleStatus(l.event, l.timestamp);
        case _ =>
      }
    }

    /** The instance pass's switch over the topic of a log. */
    method HandleInstanceLog(a: Address, e: I.Event, timestamp: int) returns (err: bool)
      modifies cashOut, masjid`faults
      ensures old(Faults()) <= Faults() && (err <==> old(Faults()) < Faults())
      ensures Tables() == if err then old(Tables()) else HandleInstance(old(Tables()), a, e, timestamp)
    {
      hide HandleInstance;
      err := false;
      match e {
        case CashOutProposed(_, _, _, _, _, _) => err := HandleCashOutProposed(a, e, timestamp);
        case CashOutApproved(_, _, _) => err := HandleCashOutApproved(a, e, timestamp);
        case CashOutExecuted(_, _) => err := HandleCashOutExecuted(a, e, timestamp);
        case CashOutCanceled(_, _) => err := HandleCashOutCanceled(a, e, timestamp);
        case _ => OtherLogsWriteNothing(Tables(), a, e, timestamp);
      }
    }
  }
}
