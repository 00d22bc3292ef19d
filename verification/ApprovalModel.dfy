/** The approval queue as a state machine over values: what each operation does to the pending requests, the
    bounded history and the persisted rows.  The class in ApprovalQueue.dfy is proved to follow it step by step. */
module ApprovalModel {
  import opened Common
  import Table

  datatype Status = Pending | PartiallyApproved | Approved | Denied | Expired | Executed

  datatype Category = Finance | Tool | External | Host

  datatype Proposal = Proposal(category: Category, description: string, riskLevel: string, reason: string,
                               proposedBy: string, context: map<string, string>)

  datatype Request = Request(
    id: string, proposal: Proposal, status: Status, createdAt: real, decidedAt: real, decidedBy: string,
    denialReason: string, ttlSeconds: int, executedAt: real, requiredApprovals: int, approvalsReceived: seq<string>)
  {
    predicate IsOpen() { status.Pending? || status.PartiallyApproved? }

    predicate OutOfTime(now: real) { now - createdAt >= ttlSeconds as real }

    predicate IsExpired(now: real) { IsOpen() && OutOfTime(now) }

    predicate IsFullyApproved() { |approvalsReceived| >= requiredApprovals }
  }

  /** `order` is the insertion order of the `pending` dictionary.  `ledger` holds the last persisted value of every
      request ever proposed: it is the content of the database when the queue is `stored`, and only a history
      variable when it is not. */
  datatype Queue = Queue(pending: map<string, Request>, order: seq<string>, history: seq<Request>,
                         ledger: map<string, Request>, stored: bool, maxHistory: int)

  const RESTART_LIMIT: nat := 5000

  function Empty(stored: bool, maxHistory: int): Queue {
    Queue(map[], [], [], map[], stored, maxHistory)
  }

  // ---------------------------------------------------------------- operations

  function NewRequest(id: string, proposal: Proposal, ttl: int, required: int, now: real): Request {
    Request(id, proposal, Pending, now, 0.0, "", "", ttl, 0.0, Max(1, required), [])
  }

  function Persist(q: Queue, r: Request): Queue { q.(ledger := q.ledger[r.id := r]) }

  function Put(q: Queue, r: Request): Queue {
    Persist(q.(pending := q.pending[r.id := r], order := if r.id in q.pending then q.order else q.order + [r.id]), r)
  }

  function Remove(q: Queue, id: string): Queue {
    q.(pending := q.pending - {id}, order := Without(q.order, id))
  }

  /** The oldest decision is dropped when the history is over its bound; its row stays in the ledger. */
  function Archive(q: Queue, r: Request): Queue {
    var history := q.history + [r];
    Persist(q, r).(history := if |history| > q.maxHistory then history[1..] else history)
  }

  function WithApproval(r: Request, who: string): Request {
    if who in r.approvalsReceived then r else r.(approvalsReceived := r.approvalsReceived + [who])
  }

  function Approve(q: Queue, id: string, who: string, now: real): (Queue, Option<Request>) {
    if id !in q.pending then (q, None)
    else
      var r := q.pending[id];
      if r.IsExpired(now) then
        var r' := r.(status := Expired);
        (Archive(Remove(q, id), r'), Some(r'))
      else
        var r1 := WithApproval(r, who);
        if r1.IsFullyApproved() then
          var r' := r1.(status := Approved, decidedAt := now, decidedBy := who);
          (Archive(Remove(q, id), r'), Some(r'))
        else
          var r' := r1.(status := PartiallyApproved);
          (Put(q, r'), Some(r'))
  }

  function Deny(q: Queue, id: string, reason: string, who: string, now: real): (Queue, Option<Request>) {
    if id !in q.pending then (q, None)
    else
      var r' := q.pending[id].(status := Denied, decidedAt := now, decidedBy := who, denialReason := reason);
      (Archive(Remove(q, id), r'), Some(r'))
  }

  /** The first request of the history with this id that is still APPROVED. */
  function FindApproved(history: seq<Request>, id: string): (r: Option<nat>)
    ensures r.Some? ==> r.value < |history| && history[r.value].id == id && history[r.value].status == Approved
    ensures r.None? ==> forall i :: 0 <= i < |history| ==> history[i].id != id || history[i].status != Approved
  {
    if history == [] then None
    else if history[0].id == id && history[0].status == Approved then Some(0)
    else match FindApproved(history[1..], id)
      case None => None
      case Some(i) => Some(i + 1)
  }

  function MarkExecuted(q: Queue, id: string, now: real): (Queue, bool) {
    match FindApproved(q.history, id)
    case None => (q, false)
    case Some(i) =>
      var r' := q.history[i].(status := Executed, executedAt := now);
      (Persist(q.(history := q.history[i := r']), r'), true)
  }

  function ExpireOne(q: Queue, id: string, now: real): Queue {
    if id in q.pending && q.pending[id].IsExpired(now)
    then Archive(Remove(q, id), q.pending[id].(status := Expired))
    else q
  }

  function ExpireEach(q: Queue, ids: seq<string>, now: real): Queue
    decreases |ids|
  {
    if ids == [] then q else ExpireEach(ExpireOne(q, ids[0], now), ids[1..], now)
  }

  function ExpireStale(q: Queue, now: real): Queue { ExpireEach(q, q.order, now) }

  /** The latest entry of the history with this id. */
  function FindLast(history: seq<Request>, id: string): (r: Option<Request>)
    ensures r.Some? ==> r.value in history && r.value.id == id
    ensures r.None? ==> forall h :: h in history ==> h.id != id
  {
    if history == [] then None
    else
      var last := history[|history| - 1];
      if last.id == id then Some(last) else FindLast(history[..|history| - 1], id)
  }

  function Find(q: Queue, id: string): Option<Request> {
    if id in q.pending then Some(q.pending[id])
    else match FindLast(q.history, id)
      case Some(r) => Some(r)
      case None => if q.stored && id in q.ledger then Some(q.ledger[id]) else None
  }

  function GetRequest(q: Queue, id: string, now: real): (Queue, Option<Request>) {
    var q' := ExpireStale(q, now);
    (q', Find(q', id))
  }

  function LoadOne(q: Queue, r: Request): Queue {
    if r.IsOpen() then q.(pending := q.pending[r.id := r], order := q.order + [r.id])
    else q.(history := q.history + [r])
  }

  /** Loads a listing back to front, so that the oldest request comes first. */
  function Load(q: Queue, ids: seq<string>): Queue
    requires forall id :: id in ids ==> id in q.ledger
  {
    if ids == [] then q.(pending := map[], order := [], history := [])
    else LoadOne(Load(q, ids[1..]), q.ledger[ids[0]])
  }

  // ---------------------------------------------------------------- runs

  /** One call on the queue at time `now`.  Restart constructs a new queue over the same database. */
  datatype Command =
    | DoPropose(id: string, proposal: Proposal, ttl: int, required: int, now: real)
    | DoApprove(id: string, who: string, now: real)
    | DoDeny(id: string, reason: string, who: string, now: real)
    | DoMarkExecuted(id: string, now: real)
    | DoExpireStale(now: real)
    | Restart(listing: seq<string>, newMaxHistory: int, now: real)

  function CreatedAt(): Request -> real { (r: Request) => r.createdAt }

  /** Proposed ids are fresh; a restart sees what the database answers for `LIMIT 5000`. */
  ghost predicate Enabled(q: Queue, c: Command) {
    match c
    case DoPropose(id, _, _, _, _) => id !in q.ledger
    case Restart(listing, _, _) =>
      if q.stored then Table.IsListing(q.ledger, CreatedAt(), RESTART_LIMIT, listing) else listing == []
    case _ => true
  }

  ghost function Step(q: Queue, c: Command): Queue
    requires Enabled(q, c)
  {
    match c
    case DoPropose(id, p, ttl, required, now) => Put(q, NewRequest(id, p, ttl, required, now))
    case DoApprove(id, who, now) => Approve(q, id, who, now).0
    case DoDeny(id, reason, who, now) => Deny(q, id, reason, who, now).0
    case DoMarkExecuted(id, now) => MarkExecuted(q, id, now).0
    case DoExpireStale(now) => ExpireStale(q, now)
    case Restart(listing, m, _) => Load(q, listing).(maxHistory := m)
  }

  ghost predicate IsRun(cmds: seq<Command>, stored: bool, maxHistory: int)
    decreases |cmds|, 0
  {
    cmds != [] ==>
      var front, c := cmds[..|cmds| - 1], cmds[|cmds| - 1];
      && IsRun(front, stored, maxHistory)
      && (front != [] ==> front[|front| - 1].now <= c.now)
      && Enabled(Run(front, stored, maxHistory), c)
  }

  ghost function Run(cmds: seq<Command>, stored: bool, maxHistory: int): Queue
    requires IsRun(cmds, stored, maxHistory)
    decreases |cmds|, 1
  {
    if cmds == [] then Empty(stored, maxHistory)
    else Step(Run(cmds[..|cmds| - 1], stored, maxHistory), cmds[|cmds| - 1])
  }

  lemma RunSnoc(cmds: seq<Command>, c: Command, stored: bool, maxHistory: int)
    requires IsRun(cmds, stored, maxHistory) && Enabled(Run(cmds, stored, maxHistory), c)
    requires cmds != [] ==> cmds[|cmds| - 1].now <= c.now
    ensures IsRun(cmds + [c], stored, maxHistory)
    ensures Run(cmds + [c], stored, maxHistory) == Step(Run(cmds, stored, maxHistory), c)
  {
    assert (cmds + [c])[..|cmds|] == cmds;
  }

  // ---------------------------------------------------------------- the invariant

  /** What a request's status says about its quorum. */
  ghost predicate Sound(r: Request) {
    && r.requiredApprovals >= 1
    && Distinct(r.approvalsReceived)
    && match r.status
       case Pending => r.approvalsReceived == []
       case PartiallyApproved => 1 <= |r.approvalsReceived| < r.requiredApprovals
       case Approved => |r.approvalsReceived| == r.requiredApprovals
       case Executed => |r.approvalsReceived| == r.requiredApprovals
       case Denied => |r.approvalsReceived| < r.requiredApprovals
       case Expired => |r.approvalsReceived| < r.requiredApprovals
  }

  ghost predicate Mirrored(q: Queue, r: Request) { r.id in q.ledger && q.ledger[r.id] == r }

  ghost predicate PendingInv(q: Queue) {
    && Distinct(q.order)
    && (forall id :: id in q.order <==> id in q.pending)
    && (forall id :: id in q.pending ==> q.pending[id].id == id && q.pending[id].IsOpen() && Mirrored(q, q.pending[id]))
  }

  ghost predicate HistoryInv(q: Queue) {
    && (forall i :: 0 <= i < |q.history| ==> !q.history[i].IsOpen() && Mirrored(q, q.history[i]))
    && (forall i, j :: 0 <= i < j < |q.history| ==> q.history[i].id != q.history[j].id)
  }

  ghost predicate LedgerInv(q: Queue) {
    forall id :: id in q.ledger ==> q.ledger[id].id == id && Sound(q.ledger[id])
  }

  ghost predicate Inv(q: Queue) { PendingInv(q) && HistoryInv(q) && LedgerInv(q) }

  /** No open request has been lost from memory. */
  ghost predicate Complete(q: Queue) { forall id :: id in q.ledger && q.ledger[id].IsOpen() ==> id in q.pending }

  // ---------------------------------------------------------------- what one step does to one request

  /** Everything a single call may do to an existing request. */
  ghost predicate Moves(r: Request, r': Request, c: Command) {
    || r' == r
    || (r.IsOpen() && r.OutOfTime(c.now) && r' == r.(status := Expired))
    || (r.IsOpen() && c == DoDeny(r.id, r'.denialReason, r'.decidedBy, c.now)
        && r' == r.(status := Denied, decidedAt := c.now, decidedBy := c.who, denialReason := c.reason))
    || (r.IsOpen() && !r.OutOfTime(c.now) && c.DoApprove? && c.id == r.id && c.who !in r.approvalsReceived
        && var received := r.approvalsReceived + [c.who];
           r' == if |received| >= r.requiredApprovals
                 then r.(approvalsReceived := received, status := Approved, decidedAt := c.now, decidedBy := c.who)
                 else r.(approvalsReceived := received, status := PartiallyApproved))
    || (r.status == Approved && c == DoMarkExecuted(r.id, c.now)
        && r' == r.(status := Executed, executedAt := c.now))
  }

  /** The ledger gains the proposed id and loses nothing, and every request that was in it moved as `Moves` says. */
  ghost predicate LedgerMoves(q: Queue, q': Queue, c: Command) {
    && q'.stored == q.stored
    && q'.ledger.Keys == q.ledger.Keys + (if c.DoPropose? then {c.id} else {})
    && forall id :: id in q.ledger ==> Moves(q.ledger[id], q'.ledger[id], c)
  }

  lemma OneMove(q: Queue, q': Queue, c: Command, r': Request)
    requires r'.id in q.ledger && !c.DoPropose? && Moves(q.ledger[r'.id], r', c)
    requires q'.stored == q.stored && q'.ledger == q.ledger[r'.id := r']
    ensures LedgerMoves(q, q', c)
  {
    forall id | id in q.ledger
      ensures Moves(q.ledger[id], q'.ledger[id], c)
    {
      if id != r'.id { assert q'.ledger[id] == q.ledger[id]; }
    }
  }

  lemma SameLedger(q: Queue, q': Queue, c: Command)
    requires q'.stored == q.stored && q'.ledger == q.ledger && !c.DoPropose?
    ensures LedgerMoves(q, q', c)
  {
  }

  lemma ExpiryMovesCompose(q0: Queue, q1: Queue, q2: Queue, now: real)
    requires LedgerMoves(q0, q1, DoExpireStale(now)) && LedgerMoves(q1, q2, DoExpireStale(now))
    ensures LedgerMoves(q0, q2, DoExpireStale(now))
  {
    forall id | id in q0.ledger
      ensures Moves(q0.ledger[id], q2.ledger[id], DoExpireStale(now))
    {
      assert Moves(q0.ledger[id], q1.ledger[id], DoExpireStale(now));
      assert Moves(q1.ledger[id], q2.ledger[id], DoExpireStale(now));
    }
  }

  lemma MovesKeepSound(r: Request, r': Request, c: Command)
    requires Sound(r) && Moves(r, r', c)
    ensures Sound(r') && r'.id == r.id && r'.createdAt == r.createdAt && r'.ttlSeconds == r.ttlSeconds
  {
  }

  lemma IdsApart(q: Queue, id: string)
    requires Inv(q) && (id in q.ledger ==> id in q.pending)
    ensures forall i :: 0 <= i < |q.history| ==> q.history[i].id != id
  {
    forall i | 0 <= i < |q.history|
      ensures q.history[i].id != id
    {
      assert Mirrored(q, q.history[i]);
      assert id in q.pending ==> Mirrored(q, q.pending[id]);
    }
  }

  /** Replacing an open request by a decided one: the common part of approve, deny and expiry. */
  lemma ArchiveKeepsInv(q: Queue, id: string, r': Request)
    requires Inv(q) && id in q.pending
    requires r'.id == id && !r'.IsOpen() && Sound(r')
    ensures var q' := Archive(Remove(q, id), r');
            Inv(q') && q'.ledger == q.ledger[id := r'] && q'.pending == q.pending - {id}
    ensures Complete(q) ==> Complete(Archive(Remove(q, id), r'))
  {
    ArchiveKeepsHistory(q, id, r');
    ArchiveKeepsPending(q, id, r');
  }

  lemma ArchiveKeepsHistory(q: Queue, id: string, r': Request)
    requires Inv(q) && id in q.pending && r'.id == id && !r'.IsOpen()
    ensures HistoryInv(Archive(Remove(q, id), r'))
  {
    IdsApart(q, id);
    var q', all := Archive(Remove(q, id), r'), q.history + [r'];
    assert forall i :: 0 <= i < |all| ==> !all[i].IsOpen() && all[i].id in q'.ledger && q'.ledger[all[i].id] == all[i];
    assert forall i, j :: 0 <= i < j < |all| ==> all[i].id != all[j].id;
  }

  lemma ArchiveKeepsPending(q: Queue, id: string, r': Request)
    requires Inv(q) && id in q.pending && r'.id == id
    ensures PendingInv(Archive(Remove(q, id), r'))
  {
    WithoutDistinct(q.order, id);
    var q' := Archive(Remove(q, id), r');
    assert forall k :: k in q'.pending ==> k in q.pending && k != id && q'.pending[k] == q.pending[k];
  }

  lemma PutKeepsInv(q: Queue, r': Request)
    requires Inv(q) && r'.IsOpen() && Sound(r') && (r'.id in q.ledger ==> r'.id in q.pending)
    ensures Inv(Put(q, r')) && (Complete(q) ==> Complete(Put(q, r')))
  {
    PutKeepsPending(q, r');
    PutKeepsHistory(q, r');
  }

  lemma PutKeepsPending(q: Queue, r': Request)
    requires PendingInv(q) && r'.IsOpen()
    ensures PendingInv(Put(q, r'))
  {
    assert forall id :: id in q.pending ==> q.pending[id].id == id && Mirrored(q, q.pending[id]);
  }

  lemma PutKeepsHistory(q: Queue, r': Request)
    requires Inv(q) && (r'.id in q.ledger ==> r'.id in q.pending)
    ensures HistoryInv(Put(q, r'))
  {
    IdsApart(q, r'.id);
    assert forall i :: 0 <= i < |q.history| ==> Mirrored(q, q.history[i]);
  }

  lemma ApproveStep(q: Queue, id: string, who: string, now: real)
    requires Inv(q)
    ensures Inv(Approve(q, id, who, now).0) && (Complete(q) ==> Complete(Approve(q, id, who, now).0))
    ensures LedgerMoves(q, Approve(q, id, who, now).0, DoApprove(id, who, now))
  {
    if id in q.pending {
      var r, c := q.pending[id], DoApprove(id, who, now);
      var r' := Approve(q, id, who, now).1.value;
      assert Mirrored(q, r);
      assert Moves(r, r', c);
      MovesKeepSound(r, r', c);
      if r'.IsOpen() { PutKeepsInv(q, r'); } else { ArchiveKeepsInv(q, id, r'); }
      OneMove(q, Approve(q, id, who, now).0, c, r');
    }
  }

  lemma DenyStep(q: Queue, id: string, reason: string, who: string, now: real)
    requires Inv(q)
    ensures Inv(Deny(q, id, reason, who, now).0) && (Complete(q) ==> Complete(Deny(q, id, reason, who, now).0))
    ensures LedgerMoves(q, Deny(q, id, reason, who, now).0, DoDeny(id, reason, who, now))
    ensures var (q', answer) := Deny(q, id, reason, who, now);
            if id !in q.pending then q' == q && answer.None?
            else
              && answer == Some(q.pending[id].(status := Denied, decidedAt := now, decidedBy := who,
                                               denialReason := reason))
              && q'.ledger == q.ledger[id := answer.value] && q'.pending == q.pending - {id}
  {
    if id in q.pending {
      var r, r' := q.pending[id], Deny(q, id, reason, who, now).1.value;
      assert Mirrored(q, r);
      assert Moves(r, r', DoDeny(id, reason, who, now));
      ArchiveKeepsInv(q, id, r');
      OneMove(q, Deny(q, id, reason, who, now).0, DoDeny(id, reason, who, now), r');
    }
  }

  lemma MarkExecutedStep(q: Queue, id: string, now: real)
    requires Inv(q)
    ensures Inv(MarkExecuted(q, id, now).0) && (Complete(q) ==> Complete(MarkExecuted(q, id, now).0))
    ensures LedgerMoves(q, MarkExecuted(q, id, now).0, DoMarkExecuted(id, now))
  {
    var found := FindApproved(q.history, id);
    if found.Some? {
      var r' := q.history[found.value].(status := Executed, executedAt := now);
      ReplaceKeepsInv(q, found.value, r');
      assert Mirrored(q, q.history[found.value]);
      OneMove(q, MarkExecuted(q, id, now).0, DoMarkExecuted(id, now), r');
      hide Inv;
    } else {
      SameLedger(q, q, DoMarkExecuted(id, now));
    }
  }

  /** Replacing a decided request of the history by a later state of it. */
  lemma ReplaceKeepsInv(q: Queue, i: nat, r': Request)
    requires Inv(q) && i < |q.history| && r'.id == q.history[i].id && !r'.IsOpen() && Sound(r')
    ensures var q' := Persist(q.(history := q.history[i := r']), r');
            Inv(q') && (Complete(q) ==> Complete(q'))
  {
    var q' := Persist(q.(history := q.history[i := r']), r');
    assert Mirrored(q, q.history[i]);
    assert r'.id !in q.pending by { assert r'.id in q.pending ==> Mirrored(q, q.pending[r'.id]); }
    forall k | 0 <= k < |q'.history|
      ensures !q'.history[k].IsOpen() && Mirrored(q', q'.history[k])
    {
      if k != i { assert Mirrored(q, q.history[k]); }
    }
  }

  lemma ExpireOneStep(q: Queue, id: string, now: real)
    requires Inv(q)
    ensures var q' := ExpireOne(q, id, now);
            && Inv(q') && (Complete(q) ==> Complete(q')) && LedgerMoves(q, q', DoExpireStale(now))
            && q'.pending == if id in q.pending && q.pending[id].IsExpired(now) then q.pending - {id} else q.pending
  {
    if id in q.pending && q.pending[id].IsExpired(now) {
      var r' := q.pending[id].(status := Expired);
      assert Mirrored(q, q.pending[id]);
      ArchiveKeepsInv(q, id, r');
      OneMove(q, ExpireOne(q, id, now), DoExpireStale(now), r');
    }
  }

  lemma {:induction false} ExpireEachPending(q: Queue, ids: seq<string>, now: real)
    ensures ExpireEach(q, ids, now).pending
         == map id | id in q.pending && !(id in ids && q.pending[id].IsExpired(now)) :: q.pending[id]
    decreases |ids|
  {
    if ids != [] {
      ExpireEachPending(ExpireOne(q, ids[0], now), ids[1..], now);
      assert forall id :: id in ids <==> id == ids[0] || id in ids[1..];
    }
  }

  lemma {:induction false} ExpireEachStep(q: Queue, ids: seq<string>, now: real)
    requires Inv(q)
    ensures Inv(ExpireEach(q, ids, now)) && (Complete(q) ==> Complete(ExpireEach(q, ids, now)))
    ensures LedgerMoves(q, ExpireEach(q, ids, now), DoExpireStale(now))
    decreases |ids|
  {
    if ids == [] {
      SameLedger(q, q, DoExpireStale(now));
    } else {
      var q1 := ExpireOne(q, ids[0], now);
      ExpireOneStep(q, ids[0], now);
      ExpireEachStep(q1, ids[1..], now);
      ExpiryMovesCompose(q, q1, ExpireEach(q1, ids[1..], now), now);
    }
  }

  /** After expire_stale, what is pending is exactly what was pending and not yet out of time. */
  lemma ExpireStaleStep(q: Queue, now: real)
    requires Inv(q)
    ensures var q' := ExpireStale(q, now);
            && Inv(q') && (Complete(q) ==> Complete(q')) && LedgerMoves(q, q', DoExpireStale(now))
            && q'.pending == map id | id in q.pending && !q.pending[id].IsExpired(now) :: q.pending[id]
  {
    ExpireEachPending(q, q.order, now);
    ExpireEachStep(q, q.order, now);
  }

  ghost predicate WithinRestartLimit(q: Queue, c: Command) {
    c.Restart? ==> q.stored && |q.ledger| <= RESTART_LIMIT
  }

  lemma LoadOneStep(q: Queue, r: Request)
    requires Inv(q) && Mirrored(q, r) && r.id !in q.pending && (forall h :: h in q.history ==> h.id != r.id)
    ensures Inv(LoadOne(q, r))
  {
    var q' := LoadOne(q, r);
    assert r.id !in q.order;
    forall i | 0 <= i < |q.history|
      ensures q.history[i].id != r.id
    {
      assert q.history[i] in q.history;
    }
  }

  lemma {:induction false} LoadContents(q: Queue, ids: seq<string>)
    requires LedgerInv(q) && forall id :: id in ids ==> id in q.ledger
    ensures Load(q, ids).ledger == q.ledger && Load(q, ids).stored == q.stored
    ensures Load(q, ids).pending == map id | id in ids && q.ledger[id].IsOpen() :: q.ledger[id]
    ensures forall r :: r in Load(q, ids).history <==> r.id in ids && r == q.ledger[r.id] && !r.IsOpen()
  {
    if ids != [] {
      LoadContents(q, ids[1..]);
      LoadOneContents(Load(q, ids[1..]), q.ledger, ids);
    }
  }

  /** Loading one more row adds exactly that row, to the pending requests or to the history. */
  lemma LoadOneContents(q: Queue, ledger: map<string, Request>, ids: seq<string>)
    requires ids != [] && ids[0] in ledger && (forall id :: id in ledger ==> ledger[id].id == id)
    requires q.pending == map id | id in ids[1..] && id in ledger && ledger[id].IsOpen() :: ledger[id]
    requires forall r :: r in q.history <==> r.id in ids[1..] && r.id in ledger && r == ledger[r.id] && !r.IsOpen()
    ensures var q' := LoadOne(q, ledger[ids[0]]);
            && q'.ledger == q.ledger && q'.stored == q.stored
            && q'.pending == (map id | id in ids && id in ledger && ledger[id].IsOpen() :: ledger[id])
            && forall r :: r in q'.history <==> r.id in ids && r.id in ledger && r == ledger[r.id] && !r.IsOpen()
  {
    assert forall id :: id in ids <==> id == ids[0] || id in ids[1..];
  }

  lemma {:induction false} LoadStep(q: Queue, ids: seq<string>)
    requires LedgerInv(q) && Distinct(ids) && forall id :: id in ids ==> id in q.ledger
    ensures Inv(Load(q, ids))
  {
    if ids != [] {
      LoadStep(q, ids[1..]);
      LoadContents(q, ids[1..]);
      assert ids[0] !in ids[1..];
      LoadOneStep(Load(q, ids[1..]), q.ledger[ids[0]]);
    }
  }

  lemma BoundDoesNotMatter(q: Queue, maxHistory: int)
    requires Inv(q)
    ensures Inv(q.(maxHistory := maxHistory))
  {
    var q' := q.(maxHistory := maxHistory);
    assert q'.pending == q.pending && q'.history == q.history && q'.order == q.order && q'.ledger == q.ledger;
  }

  lemma RestartStep(q: Queue, c: Command)
    requires Inv(q) && c.Restart? && Enabled(q, c)
    ensures Inv(Step(q, c)) && Step(q, c).ledger == q.ledger && Step(q, c).stored == q.stored
    ensures WithinRestartLimit(q, c) ==> Complete(Step(q, c))
  {
    LoadStep(q, c.listing);
    LoadContents(q, c.listing);
    BoundDoesNotMatter(Load(q, c.listing), c.newMaxHistory);
    hide Inv, Load;
    if WithinRestartLimit(q, c) {
      Table.ListingIsComplete(q.ledger, CreatedAt(), RESTART_LIMIT, c.listing);
      assert forall id :: id in q.ledger ==> id in Elements(c.listing);
    }
  }

  // ---------------------------------------------------------------- the invariant over every run

  /** One call keeps the invariant, forgets no request, and moves each request only as its lifecycle allows. */
  lemma StepKeepsInv(q: Queue, c: Command)
    requires Inv(q) && Enabled(q, c)
    ensures Inv(Step(q, c))
    ensures Complete(q) && WithinRestartLimit(q, c) ==> Complete(Step(q, c))
    ensures LedgerMoves(q, Step(q, c), c)
  {
    match c
    case DoPropose(id, p, ttl, required, now) => PutKeepsInv(q, NewRequest(id, p, ttl, required, now));
    case DoApprove(id, who, now) => ApproveStep(q, id, who, now);
    case DoDeny(id, reason, who, now) => DenyStep(q, id, reason, who, now);
    case DoMarkExecuted(id, now) => MarkExecutedStep(q, id, now);
    case DoExpireStale(now) => ExpireStaleStep(q, now);
    case Restart(_, _, _) =>
      RestartStep(q, c);
      SameLedger(q, Step(q, c), c);
  }

  lemma {:induction false} RunKeepsInv(cmds: seq<Command>, stored: bool, maxHistory: int)
    requires IsRun(cmds, stored, maxHistory)
    ensures Inv(Run(cmds, stored, maxHistory)) && Run(cmds, stored, maxHistory).stored == stored
  {
    if cmds != [] {
      RunKeepsInv(cmds[..|cmds| - 1], stored, maxHistory);
      StepKeepsInv(Run(cmds[..|cmds| - 1], stored, maxHistory), cmds[|cmds| - 1]);
    }
  }
}
