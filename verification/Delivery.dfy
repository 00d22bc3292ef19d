/** The delivery lifecycle, driven by the status of the linked approval request. */
module Delivery {
  import opened Common
  import opened ApprovalModel
  import opened ApprovalTheorems
  import AQ = ApprovalQueues

  datatype DeliveryStatus = PREPARED | AWAITING_APPROVAL | APPROVED | REJECTED | HANDED_OFF

  /** `status` is the delivery's status before the event. */
  datatype DeliveryEvent = DeliveryEvent(eventType: string, status: DeliveryStatus, detail: string)

  /** `approvalId` is "" while no approval request is linked. */
  datatype DeliveryRecord = DeliveryRecord(bundleId: string, approvalId: string, status: DeliveryStatus,
                                           updatedAt: real, events: seq<DeliveryEvent>)

  function Mapped(s: Status): DeliveryStatus {
    match s
    case Executed => HANDED_OFF
    case Approved => APPROVED
    case Denied => REJECTED
    case Expired => REJECTED
    case Pending => AWAITING_APPROVAL
    case PartiallyApproved => AWAITING_APPROVAL
  }

  /** An event equal to the last one is not recorded again. */
  function AppendEvent(events: seq<DeliveryEvent>, e: DeliveryEvent): seq<DeliveryEvent> {
    if events != [] && events[|events| - 1] == e then events else events + [e]
  }

  function StatusEvent(current: DeliveryStatus, approvalStatus: string): DeliveryEvent {
    DeliveryEvent("approval_status", current, "Approval status is now " + approvalStatus)
  }

  /** Whether a refresh asks the approval queue at all. */
  predicate Asks(d: DeliveryRecord) { d.approvalId != "" && d.status != HANDED_OFF }

  function Refreshed(d: DeliveryRecord, found: Option<Request>, now: real): DeliveryRecord {
    if !Asks(d) || found.None? || Mapped(found.value.status) == d.status then d
    else d.(status := Mapped(found.value.status), updatedAt := now,
            events := AppendEvent(d.events, StatusEvent(d.status, AQ.StatusValue(found.value.status))))
  }

  /** What the delivery says once it has taken over the status of its request. */
  ghost predicate Tells(d: DeliveryStatus, s: Status) {
    && (d == HANDED_OFF <==> s == Executed) && (d == APPROVED <==> s == Approved)
    && (d == REJECTED <==> s in {Denied, Expired}) && (d == AWAITING_APPROVAL <==> s in {Pending, PartiallyApproved})
  }

  /** A record takes over the status of its request; when that changes it, one event says so, unless it is a repetition
      of the last. */
  ghost predicate TakesOver(d: DeliveryRecord, d': DeliveryRecord, s: Status, now: real) {
    && Tells(d'.status, s)
    && if d'.status == d.status then d' == d
       else
         var text := match s
                     case Executed => "executed"
                     case Approved => "approved"
                     case Denied => "denied"
                     case Expired => "expired"
                     case Pending => "pending"
                     case PartiallyApproved => "partially_approved";
         var event := DeliveryEvent("approval_status", d.status, "Approval status is now " + text);
         && d'.bundleId == d.bundleId && d'.approvalId == d.approvalId && d'.updatedAt == now
         && d'.events == if d.events != [] && d.events[|d.events| - 1] == event then d.events else d.events + [event]
  }

  /** A refresh leaves a record alone that has no request or is handed off, and one whose request nobody knows; any
      other takes over the status of its request. */
  lemma RefreshMeans(d: DeliveryRecord, found: Option<Request>, now: real)
    ensures var d' := Refreshed(d, found, now);
            if d.approvalId == "" || d.status == HANDED_OFF || found.None? then d' == d
            else TakesOver(d, d', found.value.status, now)
  {
  }

  // ---------------------------------------------------------------- runs with the approval queue

  /** A delivery and the calls made on the approval queue so far. */
  datatype System = System(trace: seq<Command>, record: DeliveryRecord)

  datatype Move = QueueCall(c: Command) | Refresh(now: real)

  /** The program a system belongs to: whether its queue has a table, and the queue's history bound. */
  datatype Setting = Setting(stored: bool, maxHistory: int)

  ghost predicate Reachable(s: System, e: Setting) { IsRun(s.trace, e.stored, e.maxHistory) }

  ghost function QueueOf(s: System, e: Setting): Queue
    requires Reachable(s, e)
  {
    Run(s.trace, e.stored, e.maxHistory)
  }

  ghost predicate Possible(s: System, e: Setting, move: Move)
    requires Reachable(s, e)
  {
    match move
    case QueueCall(c) => Enabled(QueueOf(s, e), c) && (s.trace != [] ==> s.trace[|s.trace| - 1].now <= c.now)
    case Refresh(now) => s.trace != [] ==> s.trace[|s.trace| - 1].now <= now
  }

  ghost function Next(s: System, e: Setting, move: Move): (s': System)
    requires Reachable(s, e) && Possible(s, e, move)
    ensures Reachable(s', e)
  {
    match move
    case QueueCall(c) =>
      RunSnoc(s.trace, c, e.stored, e.maxHistory);
      s.(trace := s.trace + [c])
    case Refresh(now) =>
      if !Asks(s.record) then s
      else
        RunSnoc(s.trace, DoExpireStale(now), e.stored, e.maxHistory);
        var trace := s.trace + [DoExpireStale(now)];
        System(trace, Refreshed(s.record, Find(Run(trace, e.stored, e.maxHistory), s.record.approvalId), now))
  }

  /** What the delivery status claims is true of the approval request. */
  ghost predicate Agrees(d: DeliveryStatus, s: Option<Status>) {
    match d
    case PREPARED => true
    case AWAITING_APPROVAL => true
    case APPROVED => s.Some? && s.value in {Approved, Executed}
    case REJECTED => s.Some? && s.value in {Denied, Expired}
    case HANDED_OFF => s == Some(Executed)
  }

  ghost function RequestStatus(q: Queue, id: string): Option<Status> {
    if id in q.ledger then Some(q.ledger[id].status) else None
  }

  ghost predicate DeliveryInv(s: System, e: Setting) {
    Reachable(s, e) && Agrees(s.record.status, RequestStatus(QueueOf(s, e), s.record.approvalId))
  }

  /** The delivery lifecycle: awaiting, approved, handed off; or awaiting, rejected.  Rejected and handed off are
      final. */
  predicate Forward(a: DeliveryStatus, b: DeliveryStatus) {
    || a == b
    || a == PREPARED
    || (a == AWAITING_APPROVAL && b != PREPARED)
    || (a == APPROVED && b == HANDED_OFF)
  }

  lemma AgreementSurvives(d: DeliveryStatus, q: Queue, c: Command, id: string)
    requires Inv(q) && Enabled(q, c) && Agrees(d, RequestStatus(q, id))
    ensures Agrees(d, RequestStatus(Step(q, c), id))
  {
    if id in q.ledger { StatusesAdvance(q, c, id); }
  }

  /** One queue call keeps the delivery truthful: what it rests on is not taken back. */
  lemma QueueCallKeepsAgreement(s: System, e: Setting, c: Command)
    requires DeliveryInv(s, e) && Possible(s, e, QueueCall(c))
    ensures DeliveryInv(Next(s, e, QueueCall(c)), e)
  {
    hide Inv, Step, Agrees, Enabled;
    RunKeepsInv(s.trace, e.stored, e.maxHistory);
    AgreementSurvives(s.record.status, QueueOf(s, e), c, s.record.approvalId);
    RunSnoc(s.trace, c, e.stored, e.maxHistory);
  }

  /** What a refresh does, seen from the queue before and after its lookup. */
  lemma RefreshLooksUp(s: System, e: Setting, now: real)
    requires Reachable(s, e) && Possible(s, e, Refresh(now)) && Asks(s.record)
    ensures var q, s' := QueueOf(s, e), Next(s, e, Refresh(now));
            && Inv(q) && QueueOf(s', e) == ExpireStale(q, now) && Inv(ExpireStale(q, now))
            && s'.record == Refreshed(s.record, Find(ExpireStale(q, now), s.record.approvalId), now)
  {
    RunKeepsInv(s.trace, e.stored, e.maxHistory);
    RunSnoc(s.trace, DoExpireStale(now), e.stored, e.maxHistory);
    RunKeepsInv(s.trace + [DoExpireStale(now)], e.stored, e.maxHistory);
    hide Inv, ExpireStale, Find;
  }

  /** One refresh makes the delivery say what the queue says, and moves it forward. */
  lemma RefreshKeepsAgreement(s: System, e: Setting, now: real)
    requires DeliveryInv(s, e) && Possible(s, e, Refresh(now)) && Asks(s.record)
    ensures var s' := Next(s, e, Refresh(now));
            DeliveryInv(s', e) && Forward(s.record.status, s'.record.status)
  {
    var q, id := QueueOf(s, e), s.record.approvalId;
    hide Inv, ExpireStale, Find, IsRun, Run, Refreshed, Agrees, RequestStatus;
    RefreshLooksUp(s, e, now);
    AgreementSurvives(s.record.status, q, DoExpireStale(now), id);
    FindIsLedger(ExpireStale(q, now), id);
    RefreshedAgrees(s.record, ExpireStale(q, now), Find(ExpireStale(q, now), id), now);
  }

  /** Taking over the status of the request as it is keeps a truthful delivery truthful, and moves it forward. */
  lemma RefreshedAgrees(d: DeliveryRecord, q: Queue, found: Option<Request>, now: real)
    requires Agrees(d.status, RequestStatus(q, d.approvalId))
    requires found.Some? ==> d.approvalId in q.ledger && found.value == q.ledger[d.approvalId]
    ensures var d' := Refreshed(d, found, now);
            && d'.approvalId == d.approvalId && Forward(d.status, d'.status)
            && Agrees(d'.status, RequestStatus(q, d'.approvalId))
  {
  }

  /** One queue call or one refresh keeps the delivery truthful and moves it only forward. */
  lemma MoveGoesForward(s: System, e: Setting, move: Move)
    requires DeliveryInv(s, e) && Possible(s, e, move)
    ensures DeliveryInv(Next(s, e, move), e)
    ensures Forward(s.record.status, Next(s, e, move).record.status)
    ensures Next(s, e, move).record.approvalId == s.record.approvalId
  {
    hide DeliveryInv, Find, ExpireStale, IsRun, Run;
    match move
    case QueueCall(c) => QueueCallKeepsAgreement(s, e, c);
    case Refresh(now) => if Asks(s.record) { RefreshKeepsAgreement(s, e, now); }
  }

  // ---------------------------------------------------------------- whole runs

  ghost predicate IsHistory(states: seq<System>, moves: seq<Move>, e: Setting) {
    && |states| == |moves| + 1
    && (forall i :: 0 <= i < |states| ==> Reachable(states[i], e))
    && (forall i :: 0 <= i < |moves| ==>
          Possible(states[i], e, moves[i]) && states[i + 1] == Next(states[i], e, moves[i]))
  }

  lemma ForwardTransitive(a: DeliveryStatus, b: DeliveryStatus, c: DeliveryStatus)
    requires Forward(a, b) && Forward(b, c)
    ensures Forward(a, c)
  {
  }

  /** Over any interleaving of queue calls and refreshes, from a prepared or awaiting delivery, the status only moves
      forward between any two moments. */
  lemma {:induction false} DeliveryFollowsApproval(states: seq<System>, moves: seq<Move>, e: Setting, i: nat, j: nat)
    requires IsHistory(states, moves, e) && i <= j < |states|
    requires states[0].record.status in {PREPARED, AWAITING_APPROVAL}
    ensures DeliveryInv(states[j], e)
    ensures Forward(states[i].record.status, states[j].record.status)
    decreases j
  {
    if j > 0 {
      DeliveryFollowsApproval(states, moves, e, if i < j then i else j - 1, j - 1);
      MoveGoesForward(states[j - 1], e, moves[j - 1]);
      if i < j {
        ForwardTransitive(states[i].record.status, states[j - 1].record.status, states[j].record.status);
      }
    }
  }

  /** A delivery shown as approved or handed off rests on a real quorum. */
  lemma ApprovedDeliveryHasQuorum(s: System, e: Setting)
    requires DeliveryInv(s, e) && s.record.status in {APPROVED, HANDED_OFF}
    ensures s.record.approvalId in QueueOf(s, e).ledger
    ensures RealQuorum(s.trace, QueueOf(s, e).ledger[s.record.approvalId])
  {
    ApprovedMeansQuorum(s.trace, e.stored, e.maxHistory, s.record.approvalId);
  }

  ghost predicate PendingButLate(q: Queue, id: string, now: real) {
    id in q.pending && q.pending[id].OutOfTime(now)
  }

  lemma OneExpiryAddsLate(q: Queue, id: string, now: real, r: Request)
    requires r in ExpireOne(q, id, now).history && (id in q.pending ==> q.pending[id].id == id)
    ensures r in q.history || (r.id == id && PendingButLate(q, id, now))
  {
  }

  lemma {:induction false} ExpiryOnlyAddsLate(q: Queue, ids: seq<string>, now: real, r: Request)
    requires (forall id :: id in q.pending ==> q.pending[id].id == id) && r in ExpireEach(q, ids, now).history
    ensures r in q.history || PendingButLate(q, r.id, now)
    decreases |ids|
  {
    if ids != [] {
      var q1 := ExpireOne(q, ids[0], now);
      ExpiryOnlyAddsLate(q1, ids[1..], now, r);
      if r in q1.history { OneExpiryAddsLate(q, ids[0], now, r); }
    }
  }

  /** A request that did not run out of time is found as before, or no longer found at all. */
  lemma FindAfterExpiry(q: Queue, id: string, now: real)
    requires Inv(q) && !PendingButLate(q, id, now)
    ensures Find(ExpireStale(q, now), id) == Find(q, id) || Find(ExpireStale(q, now), id).None?
  {
    hide ExpireStale, Find, Moves;
    var q' := ExpireStale(q, now);
    ExpireStaleStep(q, now);
    ExpireStaleLedger(q, now);
    FindIsLedger(q, id);
    FindIsLedger(q', id);
    UnfoundStays(q, id, now);
  }

  lemma UnfoundStays(q: Queue, id: string, now: real)
    requires Inv(q) && !PendingButLate(q, id, now)
    ensures Find(q, id).None? && !q.stored ==> Find(ExpireStale(q, now), id).None?
  {
    var q' := ExpireStale(q, now);
    ExpireStaleStep(q, now);
    hide Moves;
    if Find(q, id).None? && !q.stored && FindLast(q'.history, id).Some? {
      ExpiryOnlyAddsLate(q, q.order, now, FindLast(q'.history, id).value);
    }
  }

  lemma FindLate(q: Queue, id: string, now: real)
    requires Inv(q) && PendingButLate(q, id, now)
    ensures Find(q, id).Some? && Mapped(Find(q, id).value.status) == AWAITING_APPROVAL
    ensures Find(ExpireStale(q, now), id).Some? ==> Find(ExpireStale(q, now), id).value.status == Expired
    ensures q.stored ==> Find(ExpireStale(q, now), id).Some?
  {
    ExpireStaleStep(q, now);
    ExpireStaleLedger(q, now);
    FindIsLedger(ExpireStale(q, now), id);
    assert Mirrored(q, q.pending[id]);
  }

  /** A second refresh with no queue call in between changes nothing, unless the request's time ran out in between:
      it does change the record exactly when the request was still pending, is out of time at the second refresh, and
      is still known to the queue - which it always is when the queue has a table. */
  lemma SecondRefresh(s: System, e: Setting, t1: real, t2: real)
    requires Reachable(s, e) && Possible(s, e, Refresh(t1)) && t1 <= t2
    ensures var s1, id := Next(s, e, Refresh(t1)), s.record.approvalId;
            var q1 := QueueOf(s1, e);
            && Possible(s1, e, Refresh(t2))
            && (Next(s1, e, Refresh(t2)).record != s1.record
                <==> Asks(s1.record) && PendingButLate(q1, id, t2) && Find(ExpireStale(q1, t2), id).Some?)
            && (e.stored && PendingButLate(q1, id, t2) ==> Find(ExpireStale(q1, t2), id).Some?)
            && (t1 == t2 && Asks(s.record) ==> !PendingButLate(q1, id, t2))
  {
    hide Find, ExpireStale, Inv, IsRun, Run;
    var s1, id := Next(s, e, Refresh(t1)), s.record.approvalId;
    assert Possible(s1, e, Refresh(t2));
    assert Inv(QueueOf(s1, e)) && QueueOf(s1, e).stored == e.stored by {
      RunKeepsInv(s1.trace, e.stored, e.maxHistory);
    }
    var q1 := QueueOf(s1, e);
    if Asks(s.record) {
      RefreshLooksUp(s, e, t1);
      NothingLate(QueueOf(s, e), id, t1);
    }
    if Asks(s1.record) {
      RefreshLooksUp(s1, e, t2);
    }
    if PendingButLate(q1, id, t2) {
      FindLate(q1, id, t2);
    } else {
      FindAfterExpiry(q1, id, t2);
    }
  }

  /** An awaiting delivery whose request runs out of time between two refreshes is rejected by the second. */
  lemma LateBetweenRefreshes(s: System, e: Setting, t1: real, t2: real)
    requires Reachable(s, e) && Possible(s, e, Refresh(t1)) && t1 <= t2 && e.stored
    requires Asks(s.record) && s.record.status == AWAITING_APPROVAL && s.record.approvalId in QueueOf(s, e).pending
    requires var r := QueueOf(s, e).pending[s.record.approvalId]; !r.OutOfTime(t1) && r.OutOfTime(t2)
    ensures var s1 := Next(s, e, Refresh(t1));
            && s1.record == s.record && Possible(s1, e, Refresh(t2))
            && Next(s1, e, Refresh(t2)).record.status == REJECTED
  {
    var q, id := QueueOf(s, e), s.record.approvalId;
    RefreshLooksUp(s, e, t1);
    ExpireStaleStep(q, t1);
    StillAwaiting(q, ExpireStale(q, t1), id, t1);
    var s1 := Next(s, e, Refresh(t1));
    RefreshLooksUp(s1, e, t2);
    assert QueueOf(s1, e).stored by { RunKeepsInv(s1.trace, e.stored, e.maxHistory); }
    hide Inv, ExpireStale, Find, IsRun, Run;
    FindLate(ExpireStale(q, t1), id, t2);
  }

  /** The state machine has a run of that kind. */
  lemma SecondRefreshRejects(p: Proposal)
    ensures exists s, e :: Reachable(s, e) && Possible(s, e, Refresh(0.0)) && RejectsLate(s, e)
  {
    var c, e := DoPropose("a", p, 60, 1, 0.0), Setting(true, 500);
    var s := System([c], DeliveryRecord("b", "a", AWAITING_APPROVAL, 0.0, []));
    RunSnoc([], c, true, 500);
    assert [] + [c] == [c];
    assert QueueOf(s, e).pending["a"] == NewRequest("a", p, 60, 1, 0.0);
    LateBetweenRefreshes(s, e, 0.0, 60.0);
    assert RejectsLate(s, e);
  }

  ghost predicate RejectsLate(s: System, e: Setting)
    requires Reachable(s, e) && Possible(s, e, Refresh(0.0))
  {
    var s1 := Next(s, e, Refresh(0.0));
    && s1.record.status == AWAITING_APPROVAL
    && Possible(s1, e, Refresh(60.0)) && Next(s1, e, Refresh(60.0)).record.status == REJECTED
  }

  lemma StillAwaiting(q: Queue, q': Queue, id: string, now: real)
    requires Inv(q) && id in q.pending && !q.pending[id].OutOfTime(now)
    requires q'.pending == map k | k in q.pending && !q.pending[k].IsExpired(now) :: q.pending[k]
    ensures id in q'.pending && q'.pending[id] == q.pending[id]
    ensures Find(q', id) == Some(q.pending[id]) && Mapped(q.pending[id].status) == AWAITING_APPROVAL
  {
  }

  lemma NothingLate(q: Queue, id: string, now: real)
    requires Inv(q)
    ensures !PendingButLate(ExpireStale(q, now), id, now)
  {
    ExpireStaleStep(q, now);
    assert id in q.pending ==> q.pending[id].IsOpen();
  }

  // ---------------------------------------------------------------- the stored records

  ghost predicate AllTruthful(records: map<string, DeliveryRecord>, trace: seq<Command>, e: Setting) {
    forall id :: id in records ==> DeliveryInv(System(trace, records[id]), e)
  }

  /** Refreshing one stored record keeps every one of them truthful. */
  lemma RefreshKeepsTruth(records: map<string, DeliveryRecord>, trace: seq<Command>, e: Setting, id: string, now: real)
    requires id in records && AllTruthful(records, trace, e)
    requires Possible(System(trace, records[id]), e, Refresh(now))
    ensures var s' := Next(System(trace, records[id]), e, Refresh(now));
            AllTruthful(records[id := s'.record], s'.trace, e)
  {
    var s := System(trace, records[id]);
    assert Reachable(s, e);
    hide DeliveryInv, Refreshed, Find, Run;
    var s' := Next(s, e, Refresh(now));
    MoveGoesForward(s, e, Refresh(now));
    forall k | k in records && k != id
      ensures DeliveryInv(System(s'.trace, records[k]), e)
    {
      if Asks(s.record) { OthersStayTruthful(System(trace, records[k]), e, now); }
    }
  }

  lemma OthersStayTruthful(s: System, e: Setting, now: real)
    requires DeliveryInv(s, e) && Possible(s, e, Refresh(now))
    ensures DeliveryInv(System(s.trace + [DoExpireStale(now)], s.record), e)
  {
    assert Possible(s, e, QueueCall(DoExpireStale(now)));
    QueueCallKeepsAgreement(s, e, DoExpireStale(now));
    hide DeliveryInv;
  }

  class DeliveryRecords {
    var records: map<string, DeliveryRecord>

    constructor ()
      ensures records == map[]
    {
      records := map[];
    }

    /** Loads the record, asks the queue, and writes the record back when its status changed. */
    method RefreshDeliveryStatus(bundleId: string, approvals: AQ.ApprovalQueue?, now: real)
      returns (record: Option<DeliveryRecord>)
      requires approvals != null ==> approvals.Valid() && approvals.NotBefore(now)
      requires forall id :: id in records ==> records[id].bundleId == id
      modifies `records, if approvals == null then {} else {approvals, approvals.storage} + approvals.repr
      ensures approvals != null ==> approvals.Valid() && approvals.repr == old(approvals.repr)
      ensures record == if bundleId in records then Some(records[bundleId]) else None
      ensures bundleId !in old(records) || approvals == null ==> records == old(records)
      ensures bundleId in old(records) && approvals != null ==>
                var d := old(records)[bundleId];
                && records == old(records)[bundleId := Refreshed(d, Find(approvals.model, d.approvalId), now)]
                && approvals.trace == old(approvals.trace) + (if Asks(d) then [DoExpireStale(now)] else [])
      // a linked delivery that is not handed off yet takes over the status of its request, if the queue finds it
      ensures bundleId in old(records) && approvals != null ==>
                var d := old(records)[bundleId];
                var found := Find(approvals.model, d.approvalId);
                && records.Keys == old(records).Keys
                && (forall id :: id in records && id != bundleId ==> records[id] == old(records)[id])
                && if d.approvalId == "" || d.status == HANDED_OFF || found.None? then records[bundleId] == d
                   else TakesOver(d, records[bundleId], found.value.status, now)
      // so the record and the queue make one move of the system
      ensures bundleId in old(records) && approvals != null ==>
                var e := Setting(approvals.storage != null, approvals.firstMaxHistory);
                System(approvals.trace, records[bundleId])
                == Next(System(old(approvals.trace), old(records)[bundleId]), e, Refresh(now))
    {
      ghost var past, was := if approvals == null then [] else approvals.trace, records;
      record := RefreshRecord(bundleId, approvals, now);
      if approvals != null && bundleId in was {
        IsNext(System(past, was[bundleId]), approvals, records[bundleId], now);
        RefreshMeans(was[bundleId], Find(approvals.model, was[bundleId].approvalId), now);
      }
    }

    lemma IsNext(s: System, approvals: AQ.ApprovalQueue, d': DeliveryRecord, now: real)
      requires approvals.Valid()
      requires IsRun(s.trace, approvals.storage != null, approvals.firstMaxHistory)
      requires s.trace != [] ==> s.trace[|s.trace| - 1].now <= now
      requires approvals.trace == s.trace + (if Asks(s.record) then [DoExpireStale(now)] else [])
      requires d' == Refreshed(s.record, Find(approvals.model, s.record.approvalId), now)
      ensures System(approvals.trace, d')
           == Next(s, Setting(approvals.storage != null, approvals.firstMaxHistory), Refresh(now))
    {
      hide Refreshed, Find, AQ.ApprovalQueue.Tied;
      assert !Asks(s.record) ==> d' == s.record by {
        NotAsked(s.record, Find(approvals.model, s.record.approvalId), now);
      }
    }

    lemma NotAsked(d: DeliveryRecord, found: Option<Request>, now: real)
      ensures !Asks(d) ==> Refreshed(d, found, now) == d
    {
    }

    method RefreshRecord(bundleId: string, approvals: AQ.ApprovalQueue?, now: real)
      returns (record: Option<DeliveryRecord>)
      requires approvals != null ==> approvals.Valid() && approvals.NotBefore(now)
      requires forall id :: id in records ==> records[id].bundleId == id
      modifies `records, if approvals == null then {} else {approvals, approvals.storage} + approvals.repr
      ensures approvals != null ==> approvals.Valid() && approvals.repr == old(approvals.repr)
      ensures record == if bundleId in records then Some(records[bundleId]) else None
      ensures bundleId !in old(records) || approvals == null ==> records == old(records)
      ensures bundleId in old(records) && approvals != null ==>
                var d := old(records)[bundleId];
                && records == old(records)[bundleId := Refreshed(d, Find(approvals.model, d.approvalId), now)]
                && approvals.trace == old(approvals.trace) + (if Asks(d) then [DoExpireStale(now)] else [])
    {
      hide AQ.ApprovalQueue.Tied, AQ.ApprovalQueue.Reached, AQ.StatusValue, MappedText, FindLast;
      if bundleId !in records {
        return None;
      }
      var d := records[bundleId];
      record := Some(d);
      if d.approvalId == "" || approvals == null || d.status == HANDED_OFF {
        return;
      }
      var request := approvals.GetRequestDict(d.approvalId, now);
      if request.None? {
        return;
      }
      var mapped := MappedText(request.value.status, d.status);
      MappedTextIsMapped(Find(approvals.model, d.approvalId).value.status, d.status);
      if mapped != d.status {
        d := d.(events := AppendEvent(d.events, StatusEvent(d.status, request.value.status)), status := mapped,
                updatedAt := now);
        records := records[bundleId := d];
        record := Some(d);
      }
    }
  }

  /** The source compares status texts, and keeps the status when it knows none of them. */
  function MappedText(text: string, current: DeliveryStatus): DeliveryStatus {
    if text == "executed" then HANDED_OFF
    else if text == "approved" then APPROVED
    else if text == "denied" || text == "expired" then REJECTED
    else if text == "pending" || text == "partially_approved" then AWAITING_APPROVAL
    else current
  }

  lemma MappedTextIsMapped(s: Status, current: DeliveryStatus)
    ensures MappedText(AQ.StatusValue(s), current) == Mapped(s)
  {
    AQ.StatusRoundTrip(s);
  }
}
