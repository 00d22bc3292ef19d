/** The approval queue and its table as the program keeps them: request objects shared by a dictionary and a
    list, mutated in place, and written to a table of dictionaries after every change. */
module ApprovalQueues {
  import opened Common
  import opened ApprovalModel
  import AE = ApprovalEffects
  import Table

  // ---------------------------------------------------------------- the stored form

  function StatusValue(s: Status): string {
    match s
    case Pending => "pending"
    case PartiallyApproved => "partially_approved"
    case Approved => "approved"
    case Denied => "denied"
    case Expired => "expired"
    case Executed => "executed"
  }

  function ParseStatus(s: string): Option<Status> {
    if s == "pending" then Some(Pending)
    else if s == "partially_approved" then Some(PartiallyApproved)
    else if s == "approved" then Some(Approved)
    else if s == "denied" then Some(Denied)
    else if s == "expired" then Some(Expired)
    else if s == "executed" then Some(Executed)
    else None
  }

  function CategoryValue(c: Category): string {
    match c
    case Finance => "finance"
    case Tool => "tool"
    case External => "external"
    case Host => "host"
  }

  function ParseCategory(s: string): Option<Category> {
    if s == "finance" then Some(Finance)
    else if s == "tool" then Some(Tool)
    else if s == "external" then Some(External)
    else if s == "host" then Some(Host)
    else None
  }

  datatype Dict = Dict(
    id: string, category: string, description: string, riskLevel: string, reason: string, proposedBy: string,
    context: map<string, string>, status: string, createdAt: real, decidedAt: real, decidedBy: string,
    denialReason: string, ttlSeconds: int, executedAt: real, requiredApprovals: int, approvalsReceived: seq<string>)

  function ToDict(r: Request): Dict {
    Dict(r.id, CategoryValue(r.proposal.category), r.proposal.description, r.proposal.riskLevel, r.proposal.reason,
         r.proposal.proposedBy, r.proposal.context, StatusValue(r.status), r.createdAt, r.decidedAt, r.decidedBy,
         r.denialReason, r.ttlSeconds, r.executedAt, r.requiredApprovals, r.approvalsReceived)
  }

  /** None stands for the ValueError of an unknown status or category. */
  function FromDict(d: Dict): Option<Request> {
    match (ParseCategory(d.category), ParseStatus(d.status))
    case (Some(category), Some(status)) =>
      Some(Request(d.id, Proposal(category, d.description, d.riskLevel, d.reason, d.proposedBy, d.context), status,
                   d.createdAt, d.decidedAt, d.decidedBy, d.denialReason, d.ttlSeconds, d.executedAt,
                   d.requiredApprovals, d.approvalsReceived))
    case _ => None
  }

  lemma StatusRoundTrip(s: Status)
    ensures ParseStatus(StatusValue(s)) == Some(s)
  {
    assert |"approved"| == |"executed"| && "approved"[0] != "executed"[0];
    assert |"denied"| == 6 && |"expired"| == 7 && |"pending"| == 7 && "expired"[0] != "pending"[0];
  }

  lemma CategoryRoundTrip(c: Category)
    ensures ParseCategory(CategoryValue(c)) == Some(c)
  {
    assert |"tool"| == |"host"| && "tool"[0] != "host"[0];
  }

  /** What restart relies on: the stored dictionary gives the request back unchanged. */
  lemma DictRoundTrip(r: Request)
    ensures FromDict(ToDict(r)) == Some(r)
  {
    StatusRoundTrip(r.status);
    CategoryRoundTrip(r.proposal.category);
  }

  /** The table holds exactly the stored form of the ledger. */
  ghost predicate Mirrors(rows: map<string, Dict>, ledger: map<string, Request>) {
    rows.Keys == ledger.Keys && forall id :: id in ledger ==> rows[id] == ToDict(ledger[id])
  }

  function Matching(rows: map<string, Dict>, status: string): map<string, Dict> {
    map id | id in rows && (status == "" || rows[id].status == status) :: rows[id]
  }

  function RowCreatedAt(): Dict -> real { (d: Dict) => d.createdAt }

  // ---------------------------------------------------------------- objects

  class ApprovalRequest {
    const id: string
    const proposal: Proposal
    const createdAt: real
    const ttlSeconds: int
    const requiredApprovals: int
    var status: Status
    var decidedAt: real
    var decidedBy: string
    var denialReason: string
    var executedAt: real
    var approvalsReceived: seq<string>

    function Snapshot(): Request
      reads this
    {
      Request(id, proposal, status, createdAt, decidedAt, decidedBy, denialReason, ttlSeconds, executedAt,
              requiredApprovals, approvalsReceived)
    }

    constructor (r: Request)
      ensures Snapshot() == r
    {
      id, proposal, createdAt, ttlSeconds := r.id, r.proposal, r.createdAt, r.ttlSeconds;
      requiredApprovals, executedAt, approvalsReceived := r.requiredApprovals, r.executedAt, r.approvalsReceived;
      status, decidedAt, decidedBy, denialReason := r.status, r.decidedAt, r.decidedBy, r.denialReason;
    }

    predicate IsExpired(now: real)
      reads this
    {
      Snapshot().IsExpired(now)
    }

    predicate IsFullyApproved()
      reads this
    {
      Snapshot().IsFullyApproved()
    }
  }

  ghost predicate PendingTied(repr: set<ApprovalRequest>, objects: map<string, ApprovalRequest>,
                              values: map<string, Request>, changing: ApprovalRequest?)
    reads repr
  {
    && values.Keys == objects.Keys
    && forall id :: id in objects ==>
         objects[id] in repr && objects[id].id == id
         && (objects[id] != changing ==> objects[id].Snapshot() == values[id])
  }

  ghost predicate HistoryTied(repr: set<ApprovalRequest>, objects: seq<ApprovalRequest>, values: seq<Request>)
    reads repr
  {
    |values| == |objects| && forall i :: 0 <= i < |objects| ==> objects[i] in repr && objects[i].Snapshot() == values[i]
  }

  /** No two requests share an id, so no request object is in two places. */
  ghost predicate Separate(pending: map<string, ApprovalRequest>, history: seq<ApprovalRequest>) {
    && (forall i :: 0 <= i < |history| ==> history[i].id !in pending)
    && (forall i, j :: 0 <= i < j < |history| ==> history[i].id != history[j].id)
  }

  function Bounded<T>(h: seq<T>, bound: int): seq<T> { if |h| > bound && h != [] then h[1..] else h }

  lemma MoveSeparate(pending: map<string, ApprovalRequest>, history: seq<ApprovalRequest>, req: ApprovalRequest,
                     bound: int)
    requires Separate(pending, history) && req.id in pending
    ensures Separate(pending - {req.id}, Bounded(history + [req], bound))
  {
    var all := history + [req];
    assert forall i, j :: 0 <= i < j < |all| ==> all[i].id != all[j].id;
  }

  lemma MoveTied(repr: set<ApprovalRequest>, pending: map<string, ApprovalRequest>, history: seq<ApprovalRequest>,
                 q: Queue, req: ApprovalRequest)
    requires PendingTied(repr, pending, q.pending, req) && HistoryTied(repr, history, q.history)
    requires req.id in pending && pending[req.id] == req
    ensures var q' := Archive(Remove(q, req.id), req.Snapshot());
            && PendingTied(repr, pending - {req.id}, q'.pending, null)
            && HistoryTied(repr, Bounded(history + [req], q.maxHistory), q'.history)
  {
  }

  lemma AddTied(repr: set<ApprovalRequest>, pending: map<string, ApprovalRequest>, history: seq<ApprovalRequest>,
                q: Queue, req: ApprovalRequest)
    requires PendingTied(repr, pending, q.pending, null) && HistoryTied(repr, history, q.history)
    requires Separate(pending, history)
    requires req in repr && req.id !in pending && forall i :: 0 <= i < |history| ==> history[i].id != req.id
    ensures PendingTied(repr, pending[req.id := req], Put(q, req.Snapshot()).pending, null)
    ensures Separate(pending[req.id := req], history)
  {
  }

  lemma SaveMirrors(rows: map<string, Dict>, ledger: map<string, Request>, r: Request)
    requires Mirrors(rows, ledger)
    ensures Mirrors(rows[r.id := ToDict(r)], ledger[r.id := r])
  {
  }

  class ApprovalStorage {
    var rows: map<string, Dict>

    constructor ()
      ensures rows == map[]
    {
      rows := map[];
    }

    method SaveRequest(request: ApprovalRequest)
      modifies this
      ensures rows == old(rows)[request.id := ToDict(request.Snapshot())]
    {
      rows := rows[request.id := ToDict(request.Snapshot())];
    }

    method LoadRequest(id: string) returns (data: Option<Dict>)
      ensures data == if id in rows then Some(rows[id]) else None
    {
      data := if id in rows then Some(rows[id]) else None;
    }

    /** Newest first; `ids` are the keys of the returned rows. */
    method ListRequests(status: string, limit: nat) returns (data: seq<Dict>, ghost ids: seq<string>)
      ensures Table.IsListing(Matching(rows, status), RowCreatedAt(), limit, ids)
      ensures |data| == |ids| && forall i :: 0 <= i < |ids| ==> data[i] == Matching(rows, status)[ids[i]]
      ensures forall i :: 0 <= i < |data| ==> status == "" || data[i].status == status
      ensures forall i, j :: 0 <= i < j < |data| ==> data[i].createdAt >= data[j].createdAt
      ensures forall id, i ::
                0 <= i < |data| && id in rows && id !in ids && (status == "" || rows[id].status == status) ==>
                  data[i].createdAt >= rows[id].createdAt
    {
      var matching := Matching(rows, status);
      var keys := Table.Newest(matching, RowCreatedAt(), limit);
      ids := keys;
      data := seq(|keys|, i requires 0 <= i < |keys| => matching[keys[i]]);
    }
  }

  class ApprovalQueue {
    var pending: map<string, ApprovalRequest>
    var order: seq<string>
    var history: seq<ApprovalRequest>
    const maxHistory: int
    const storage: ApprovalStorage?

    /** The value of the queue, and every call made on it since it was created with `firstMaxHistory`. */
    ghost var model: Queue
    ghost var repr: set<ApprovalRequest>
    ghost var trace: seq<Command>
    ghost const firstMaxHistory: int

    /** The model is where the calls recorded in `trace` lead, and the objects and the table agree with it. */
    ghost predicate Valid()
      reads this, repr, storage
    {
      Reached() && Tied()
    }

    ghost predicate Reached()
      reads `model, `trace
    {
      IsRun(trace, storage != null, firstMaxHistory) && model == Run(trace, storage != null, firstMaxHistory)
    }

    ghost predicate Tied()
      reads `pending, `order, `history, `model, `repr, repr, storage
    {
      TiedBut(null)
    }

    /** Tied, except that the pending request `changing` has been written to since. */
    ghost predicate TiedBut(changing: ApprovalRequest?)
      reads `pending, `order, `history, `model, `repr, repr, storage
    {
      && model.order == order && model.maxHistory == maxHistory && model.stored == (storage != null) && TableTied()
      && PendingTied(repr, pending, model.pending, changing) && HistoryTied(repr, history, model.history)
      && Separate(pending, history)
    }

    ghost predicate TableTied()
      reads `model, storage
    {
      storage != null ==> Mirrors(storage.rows, model.ledger)
    }

    /** Calls come in time order. */
    ghost predicate NotBefore(now: real)
      reads `trace
    {
      trace != [] ==> trace[|trace| - 1].now <= now
    }

    constructor (maxHistory: int, persistent: bool)
      ensures Valid() && trace == [] && (storage != null <==> persistent)
      ensures storage != null ==> fresh(storage)
    {
      pending, order, history, this.maxHistory, firstMaxHistory := map[], [], [], maxHistory, maxHistory;
      trace, model, repr := [], Empty(persistent, maxHistory), {};
      if persistent {
        var table := new ApprovalStorage();
        storage := table;
      } else {
        storage := null;
      }
      new;
    }

    lemma ReachableInv()
      requires Reached()
      ensures Inv(model)
    {
      RunKeepsInv(trace, storage != null, firstMaxHistory);
    }

    /** Closes a call: the model took one step, so the run is one call longer. */
    ghost method Record(c: Command, before: Queue)
      requires IsRun(trace, storage != null, firstMaxHistory) && before == Run(trace, storage != null, firstMaxHistory)
      requires NotBefore(c.now) && Enabled(before, c) && model == Step(before, c)
      modifies `trace
      ensures Reached() && trace == old(trace) + [c]
    {
      RunSnoc(trace, c, storage != null, firstMaxHistory);
      trace := trace + [c];
    }

    // -------------------------------------------------------------- parts of the calls

    lemma TableUpdate(r: Request)
      requires TableTied()
      ensures storage != null ==> Mirrors(storage.rows[r.id := ToDict(r)], model.ledger[r.id := r])
    {
      if storage != null { SaveMirrors(storage.rows, model.ledger, r); }
    }

    method PersistRequest(req: ApprovalRequest)
      modifies storage
      ensures storage != null ==> storage.rows == old(storage.rows)[req.id := ToDict(req.Snapshot())]
    {
      if storage != null {
        storage.SaveRequest(req);
      }
    }

    method ArchiveRequest(req: ApprovalRequest)
      modifies `history, storage
      ensures history == Bounded(old(history) + [req], maxHistory)
      ensures storage != null ==> storage.rows == old(storage.rows)[req.id := ToDict(req.Snapshot())]
    {
      PersistRequest(req);
      history := history + [req];
      if |history| > maxHistory {
        history := history[1..];
      }
    }

    /** Moves a request, changed to what it is now, from the dictionary to the history. */
    method MoveToHistory(req: ApprovalRequest)
      requires req.id in pending && pending[req.id] == req && TiedBut(req)
      modifies `pending, `order, `model, `history, storage
      ensures Tied() && model == Archive(Remove(old(model), req.id), req.Snapshot())
      ensures pending == old(pending) - {req.id} && history == Bounded(old(history) + [req], maxHistory)
    {
      hide Mirrors, ToDict, Separate, Without, Bounded, PendingTied, HistoryTied;
      ghost var p, h, m := pending, history, model;
      TableUpdate(req.Snapshot());
      pending, order := pending - {req.id}, Without(order, req.id);
      ArchiveRequest(req);
      model := Archive(Remove(model, req.id), req.Snapshot());
      NowMoved(req, p, h, m);
    }

    lemma NowMoved(req: ApprovalRequest, p: map<string, ApprovalRequest>, h: seq<ApprovalRequest>, m: Queue)
      requires PendingTied(repr, p, m.pending, req) && HistoryTied(repr, h, m.history) && Separate(p, h)
      requires req.id in p && p[req.id] == req && m.maxHistory == maxHistory && m.stored == (storage != null)
      requires pending == p - {req.id} && order == Without(m.order, req.id) && history == Bounded(h + [req], maxHistory)
      requires model == Archive(Remove(m, req.id), req.Snapshot()) && TableTied()
      ensures Tied()
    {
      MoveSeparate(p, h, req, maxHistory);
      MoveTied(repr, p, h, m, req);
    }

    /** Writes a changed request that stays pending. */
    method KeepPending(req: ApprovalRequest)
      requires req.id in pending && pending[req.id] == req && TiedBut(req)
      modifies `model, storage
      ensures Tied() && model == Put(old(model), req.Snapshot())
    {
      ghost var m := model;
      TableUpdate(req.Snapshot());
      PersistRequest(req);
      model := Put(model, req.Snapshot());
      NowKept(req, m);
    }

    lemma NowKept(req: ApprovalRequest, m: Queue)
      requires PendingTied(repr, pending, m.pending, req) && HistoryTied(repr, history, m.history)
      requires Separate(pending, history)
      requires req.id in pending && pending[req.id] == req && m.maxHistory == maxHistory
      requires m.stored == (storage != null)
      requires order == m.order && model == Put(m, req.Snapshot()) && TableTied()
      ensures Tied()
    {
    }

    // -------------------------------------------------------------- calls

    /** The request has left the dictionary for the end of the history, whose oldest entry made room if need be. */
    ghost predicate MovedToHistory(p: map<string, ApprovalRequest>, h: seq<ApprovalRequest>, req: ApprovalRequest)
      reads `pending, `history
    {
      && pending == p - {req.id}
      && history == if |h| < maxHistory then h + [req] else (h + [req])[1..]
    }

    /** The request's row is its dictionary, under this status text. */
    ghost predicate Wrote(req: ApprovalRequest, status: string)
      reads storage, req
    {
      storage != null ==>
        && req.id in storage.rows && storage.rows[req.id] == ToDict(req.Snapshot())
        && storage.rows[req.id].status == status
    }

    method ProposeAction(id: string, proposal: Proposal, ttlSeconds: int, requiredApprovals: int, now: real)
      returns (req: ApprovalRequest)
      requires Valid() && NotBefore(now) && id !in model.ledger
      modifies this, storage
      ensures Valid() && trace == old(trace) + [DoPropose(id, proposal, ttlSeconds, requiredApprovals, now)]
      ensures fresh(req) && repr == old(repr) + {req}
      ensures req.id == id && req.proposal == proposal && req.createdAt == now && req.ttlSeconds == ttlSeconds
      ensures req.requiredApprovals == if requiredApprovals < 1 then 1 else requiredApprovals
      ensures req.status == Pending && req.approvalsReceived == [] && Wrote(req, "pending")
      ensures pending == old(pending)[id := req] && history == old(history)
    {
      hide PendingTied, HistoryTied, Separate, Mirrors, ToDict;
      ghost var before := model;
      UnknownId(id);
      req := CreatePending(NewRequest(id, proposal, ttlSeconds, requiredApprovals, now));
      RowOf(req);
      Record(DoPropose(id, proposal, ttlSeconds, requiredApprovals, now), before);
    }

    method CreatePending(r: Request) returns (req: ApprovalRequest)
      requires Tied() && r.id !in pending && forall i :: 0 <= i < |history| ==> history[i].id != r.id
      modifies `pending, `order, `model, `repr, storage
      ensures Tied() && model == Put(old(model), r)
      ensures fresh(req) && repr == old(repr) + {req} && req.Snapshot() == r && pending == old(pending)[r.id := req]
    {
      req := new ApprovalRequest(r);
      repr := repr + {req};
      AddPending(req);
    }

    method AddPending(req: ApprovalRequest)
      requires Tied() && req in repr && req.id !in pending && forall i :: 0 <= i < |history| ==> history[i].id != req.id
      modifies `pending, `order, `model, storage
      ensures Tied() && model == Put(old(model), req.Snapshot()) && pending == old(pending)[req.id := req]
    {
      ghost var p, o, m := pending, order, model;
      TableUpdate(req.Snapshot());
      pending, order := pending[req.id := req], order + [req.id];
      PersistRequest(req);
      model := Put(model, req.Snapshot());
      NowTied(req, p, o, m);
    }

    lemma NowTied(req: ApprovalRequest, p: map<string, ApprovalRequest>, o: seq<string>, m: Queue)
      requires PendingTied(repr, p, m.pending, null) && HistoryTied(repr, history, m.history) && Separate(p, history)
      requires req in repr && req.id !in p && forall i :: 0 <= i < |history| ==> history[i].id != req.id
      requires o == m.order && m.maxHistory == maxHistory && m.stored == (storage != null)
      requires pending == p[req.id := req] && order == o + [req.id] && model == Put(m, req.Snapshot()) && TableTied()
      ensures Tied()
    {
      AddTied(repr, p, history, m, req);
    }

    lemma UnknownId(id: string)
      requires Valid() && id !in model.ledger
      ensures id !in pending && forall i :: 0 <= i < |history| ==> history[i].id != id
    {
      ReachableInv();
      assert forall k :: k in pending ==> Mirrored(model, model.pending[k]) && model.pending[k].id == k;
      assert forall i :: 0 <= i < |history| ==> Mirrored(model, model.history[i]);
    }

    /** The objects in the dictionary are the model's pending requests. */
    lemma Known(id: string)
      requires Valid()
      ensures Inv(model) && (id in pending <==> id in model.pending)
      ensures id in pending ==> pending[id] in repr && pending[id].id == id
      ensures id in pending ==> pending[id].Snapshot() == model.pending[id]
      ensures id in pending ==> id in model.ledger && model.ledger[id] == model.pending[id]
    {
      ReachableInv();
      assert id in model.pending ==> Mirrored(model, model.pending[id]) && model.pending[id].id == id;
    }

    /** The row of a request whose persisted value is its present one. */
    lemma RowOf(req: ApprovalRequest)
      requires TableTied() && req.id in model.ledger && model.ledger[req.id] == req.Snapshot()
      ensures req.status == Denied ==> Wrote(req, "denied")
      ensures req.status == Expired ==> Wrote(req, "expired")
      ensures req.status == Approved ==> Wrote(req, "approved")
      ensures req.status == PartiallyApproved ==> Wrote(req, "partially_approved")
      ensures req.status == Pending ==> Wrote(req, "pending")
      ensures req.status == Executed ==> Wrote(req, "executed")
    {
    }

    lemma NotPending(q: Queue, id: string, who: string, reason: string, now: real)
      requires id !in q.pending
      ensures Approve(q, id, who, now) == (q, None) && Deny(q, id, reason, who, now) == (q, None)
    {
    }

    lemma ApprovedValue(q: Queue, id: string, who: string, now: real)
      requires Inv(q) && id in q.pending
      ensures var (q', answer) := Approve(q, id, who, now);
              && answer.Some? && answer.value.id == id && q'.stored == q.stored
              && id in q'.ledger && q'.ledger[id] == answer.value && id in q.ledger
              && AE.ApprovedAs(q.ledger[id], answer.value, who, now)
              && answer.value.status in {Expired, Approved, PartiallyApproved}
    {
      AE.ApproveEffect(q, id, who, now);
      assert Mirrored(q, q.pending[id]) && q.pending[id].id == id;
    }

    lemma DeniedValue(q: Queue, id: string, reason: string, who: string, now: real)
      requires Inv(q) && id in q.pending
      ensures var (q', answer) := Deny(q, id, reason, who, now);
              answer.Some? && id in q'.ledger && q'.ledger[id] == answer.value
    {
      AE.DenyEffect(q, id, reason, who, now);
      assert Mirrored(q, q.pending[id]) && q.pending[id].id == id;
    }

    method ApproveRequest(id: string, who: string, now: real) returns (req: ApprovalRequest?)
      requires Valid() && NotBefore(now)
      modifies this, repr, storage
      ensures Valid() && repr == old(repr) && trace == old(trace) + [DoApprove(id, who, now)]
      ensures (if req == null then None else Some(req.Snapshot())) == Approve(old(model), id, who, now).1
      // an unknown id changes nothing; a pending request is expired, approved or partially approved in place
      ensures req != null <==> id in old(pending)
      ensures req == null ==> pending == old(pending) && history == old(history)
      ensures req == null && storage != null ==> storage.rows == old(storage.rows)
      ensures req != null ==>
                req == old(pending)[id] && AE.ApprovedAs(old(pending[id].Snapshot()), req.Snapshot(), who, now)
      ensures req != null ==> if req.status == PartiallyApproved then pending == old(pending) && history == old(history)
                              else MovedToHistory(old(pending), old(history), req)
      ensures req != null ==> Wrote(req, if req.status == Expired then "expired"
                                         else if req.status == Approved then "approved" else "partially_approved")
    {
      hide Approve, PendingTied, HistoryTied, Separate, Mirrors, ToDict, AE.ApprovedAs, StatusValue;
      ghost var before := model;
      Known(id);
      if id !in pending {
        req := null;
        NotPending(before, id, who, "", now);
      } else {
        req := pending[id];
        DecideApproval(req, who, now);
        ApprovedValue(before, id, who, now);
        RowOf(req);
      }
      Record(DoApprove(id, who, now), before);
    }

    method DecideApproval(req: ApprovalRequest, who: string, now: real)
      requires Tied() && req.id in pending && pending[req.id] == req
      modifies `pending, `order, `model, `history, storage, req
      ensures Tied()
      ensures (model, Some(req.Snapshot())) == Approve(old(model), req.id, who, now)
      ensures if req.status == PartiallyApproved then pending == old(pending) && history == old(history)
              else MovedToHistory(old(pending), old(history), req)
    {
      assert req.id in model.pending && model.pending[req.id] == req.Snapshot();
      hide PendingTied, HistoryTied, Separate, Mirrors;
      if req.IsExpired(now) {
        Lapse(req);
        return;
      }
      AddApproval(req, who);
      if req.IsFullyApproved() {
        Grant(req, who, now);
      } else {
        KeepOpen(req);
      }
    }

    method AddApproval(req: ApprovalRequest, who: string)
      requires Tied() && req.id in pending && pending[req.id] == req
      modifies req
      ensures TiedBut(req) && req.Snapshot() == WithApproval(old(req.Snapshot()), who)
    {
      if who !in req.approvalsReceived {
        req.approvalsReceived := req.approvalsReceived + [who];
      }
    }

    method KeepOpen(req: ApprovalRequest)
      requires req.id in pending && pending[req.id] == req && TiedBut(req)
      modifies `model, storage, req
      ensures Tied() && model == Put(old(model), req.Snapshot())
      ensures req.Snapshot() == old(req.Snapshot()).(status := PartiallyApproved)
    {
      req.status := PartiallyApproved;
      KeepPending(req);
    }

    method Grant(req: ApprovalRequest, who: string, now: real)
      requires req.id in pending && pending[req.id] == req && TiedBut(req)
      modifies `pending, `order, `model, `history, storage, req
      ensures Tied()
      ensures req.Snapshot() == old(req.Snapshot()).(status := Approved, decidedAt := now, decidedBy := who)
      ensures model == Archive(Remove(old(model), req.id), req.Snapshot())
      ensures MovedToHistory(old(pending), old(history), req)
    {
      req.status, req.decidedAt, req.decidedBy := Approved, now, who;
      MoveToHistory(req);
    }

    method DenyRequest(id: string, reason: string, who: string, now: real) returns (req: ApprovalRequest?)
      requires Valid() && NotBefore(now)
      modifies this, repr, storage
      ensures Valid() && repr == old(repr) && trace == old(trace) + [DoDeny(id, reason, who, now)]
      ensures (if req == null then None else Some(req.Snapshot())) == Deny(old(model), id, reason, who, now).1
      // an unknown id changes nothing; a pending request is closed in place, and its row says so
      ensures req != null <==> id in old(pending)
      ensures req == null ==> pending == old(pending) && history == old(history)
      ensures req == null && storage != null ==> storage.rows == old(storage.rows)
      ensures req != null ==>
                && req == old(pending)[id] && req.status == Denied
                && req.decidedBy == who && req.decidedAt == now && req.denialReason == reason
                && req.approvalsReceived == old(pending[id].approvalsReceived)
                && MovedToHistory(old(pending), old(history), req) && Wrote(req, "denied")
    {
      hide Inv, Deny, PendingTied, HistoryTied, Separate, Mirrors, ToDict, StatusValue;
      ghost var before := model;
      Known(id);
      if id !in pending {
        req := null;
        NotPending(before, id, who, reason, now);
      } else {
        req := pending[id];
        DecideDenial(req, reason, who, now);
        DeniedValue(before, id, reason, who, now);
        RowOf(req);
      }
      Record(DoDeny(id, reason, who, now), before);
    }

    method DecideDenial(req: ApprovalRequest, reason: string, who: string, now: real)
      requires Tied() && req.id in pending && pending[req.id] == req
      modifies `pending, `order, `model, `history, storage, req
      ensures Tied() && (model, Some(req.Snapshot())) == Deny(old(model), req.id, reason, who, now)
      ensures req.status == Denied && req.decidedBy == who && req.decidedAt == now && req.denialReason == reason
      ensures req.approvalsReceived == old(req.approvalsReceived) && MovedToHistory(old(pending), old(history), req)
    {
      req.status, req.decidedAt, req.decidedBy, req.denialReason := Denied, now, who, reason;
      MoveToHistory(req);
    }

    method MarkRequestExecuted(id: string, now: real) returns (ok: bool)
      requires Valid() && NotBefore(now)
      modifies this, repr, storage
      ensures Valid() && repr == old(repr) && trace == old(trace) + [DoMarkExecuted(id, now)]
      ensures ok == MarkExecuted(old(model), id, now).1
      // the approved entry of the history is changed in place, and its row says so
      ensures pending == old(pending) && history == old(history)
      ensures ok <==> exists r :: r in old(history) && r.id == id && old(r.status) == Approved
      ensures ok ==> exists r :: r in history && r.id == id && r.status == Executed && r.executedAt == now
                                 && Wrote(r, "executed")
      ensures !ok && storage != null ==> storage.rows == old(storage.rows)
    {
      ghost var before := model;
      var i := FirstApproved(id);
      ok := i < |history|;
      if ok {
        SetExecuted(i, now);
      }
      Record(DoMarkExecuted(id, now), before);
    }

    /** The index of the first request that can be marked, or the length of the history. */
    method FirstApproved(id: string) returns (i: nat)
      requires Tied()
      ensures FindApproved(model.history, id) == if i < |history| then Some(i) else None
      ensures i <= |history|
      ensures i < |history| ==> history[i].id == id && history[i].status == Approved
      ensures i == |history| ==> forall r :: r in history ==> r.id != id || r.status != Approved
    {
      hide FindApproved, PendingTied, Separate, Mirrors;
      i := 0;
      assert model.history[0..] == model.history;
      while i < |history|
        invariant i <= |history| && forall k :: 0 <= k < i ==> history[k].id != id || history[k].status != Approved
        invariant FindApproved(model.history, id)
               == match FindApproved(model.history[i..], id) case None => None case Some(k) => Some(i + k)
      {
        FindApprovedStep(model.history, i, id);
        if history[i].id == id && history[i].status == Approved {
          return;
        }
        i := i + 1;
      }
    }

    lemma FindApprovedStep(h: seq<Request>, i: nat, id: string)
      requires i < |h|
      ensures FindApproved(h[i..], id)
           == if h[i].id == id && h[i].status == Approved then Some(0)
              else match FindApproved(h[i + 1..], id) case None => None case Some(k) => Some(k + 1)
      ensures FindApproved(h[|h|..], id) == None
    {
      assert h[i..][1..] == h[i + 1..];
    }

    /** Changes an entry of the history: no other place holds the same object. */
    method StampExecuted(i: nat, now: real)
      requires Tied() && i < |history|
      modifies history[i]
      ensures history[i].Snapshot() == old(model).history[i].(status := Executed, executedAt := now)
      ensures PendingTied(repr, pending, model.pending, null)
      ensures HistoryTied(repr, history, model.history[i := history[i].Snapshot()])
    {
      hide Mirrors;
      history[i].status, history[i].executedAt := Executed, now;
    }

    method SetExecuted(i: nat, now: real)
      requires Tied() && i < |history|
      modifies `model, storage, history[i]
      ensures Tied()
      ensures var r' := old(model).history[i].(status := Executed, executedAt := now);
              model == Persist(old(model).(history := old(model).history[i := r']), r')
      ensures history[i].status == Executed && history[i].executedAt == now && Wrote(history[i], "executed")
    {
      hide PendingTied, Separate, Mirrors;
      StampExecuted(i, now);
      PersistEntry(i, history[i]);
    }

    /** Writes an entry of the history that has changed. */
    method PersistEntry(i: nat, req: ApprovalRequest)
      requires TableTied() && model.order == order && model.maxHistory == maxHistory
      requires model.stored == (storage != null)
      requires i < |history| == |model.history| && history[i] == req && Separate(pending, history)
      requires PendingTied(repr, pending, model.pending, null)
      requires HistoryTied(repr, history, model.history[i := req.Snapshot()])
      modifies `model, storage
      ensures Tied() && (req.status == Executed ==> Wrote(req, "executed"))
      ensures model == Persist(old(model).(history := old(model).history[i := req.Snapshot()]), req.Snapshot())
    {
      hide PendingTied, HistoryTied, Separate, Mirrors, ToDict, StatusValue;
      TableUpdate(req.Snapshot());
      PersistRequest(req);
      model := Persist(model.(history := model.history[i := req.Snapshot()]), req.Snapshot());
      RowOf(req);
    }

    method ExpireIfStale(id: string, now: real) returns (expired: bool)
      requires Tied() && id in pending
      modifies `pending, `order, `model, `history, storage, pending[id]
      ensures Tied() && model == ExpireOne(old(model), id, now)
      ensures pending.Keys == if expired then old(pending).Keys - {id} else old(pending).Keys
      ensures |pending| == if expired then |old(pending)| - 1 else |old(pending)|
    {
      var req := pending[id];
      expired := req.IsExpired(now);
      if expired {
        Lapse(req);
      }
    }

    method Lapse(req: ApprovalRequest)
      requires req.id in pending && pending[req.id] == req && Tied()
      modifies `pending, `order, `model, `history, storage, req
      ensures Tied()
      ensures req.Snapshot() == old(req.Snapshot()).(status := Expired)
      ensures model == Archive(Remove(old(model), req.id), req.Snapshot())
      ensures pending == old(pending) - {req.id} && MovedToHistory(old(pending), old(history), req)
    {
      req.status := Expired;
      MoveToHistory(req);
    }

    method ExpireStaleRequests(now: real) returns (expired: nat)
      requires Valid() && NotBefore(now)
      modifies this, repr, storage
      ensures Valid() && repr == old(repr) && trace == old(trace) + [DoExpireStale(now)]
      ensures model == ExpireStale(old(model), now) && expired == |old(model).pending| - |model.pending|
    {
      ghost var before := model;
      ReachableInv();
      expired := ExpirePending(now);
      Record(DoExpireStale(now), before);
    }

    method ExpirePending(now: real) returns (expired: nat)
      requires Tied() && Distinct(order) && forall id :: id in order <==> id in pending
      modifies `pending, `order, `model, `history, storage, repr
      ensures Tied() && model == ExpireStale(old(model), now)
      ensures expired == |old(model).pending| - |model.pending|
    {
      expired := 0;
      var ids := order;
      var i := 0;
      while i < |ids|
        invariant i <= |ids| && Tied()
        invariant ExpireEach(model, ids[i..], now) == ExpireStale(old(model), now)
        invariant expired + |pending| == |old(model).pending|
        invariant forall k :: i <= k < |ids| ==> ids[k] in pending
      {
        assert ids[i..][0] == ids[i] && ids[i..][1..] == ids[i + 1..];
        var gone := ExpireIfStale(ids[i], now);
        if gone {
          expired := expired + 1;
        }
        i := i + 1;
      }
    }

    /** None stands for the source's None: an id nobody knows. */
    method GetRequestDict(id: string, now: real) returns (data: Option<Dict>)
      requires Valid() && NotBefore(now)
      modifies this, repr, storage
      ensures Valid() && repr == old(repr) && trace == old(trace) + [DoExpireStale(now)]
      ensures model == GetRequest(old(model), id, now).0
      ensures data == match Find(model, id) case Some(r) => Some(ToDict(r)) case None => None
    {
      var _ := ExpireStaleRequests(now);
      data := Lookup(id);
    }

    method Lookup(id: string) returns (data: Option<Dict>)
      requires Tied()
      ensures data == match Find(model, id) case Some(r) => Some(ToDict(r)) case None => None
    {
      if id in pending {
        return Some(ToDict(pending[id].Snapshot()));
      }
      hide FindLast, Separate;
      var i := |history|;
      assert model.history[..i] == model.history;
      while i > 0
        invariant 0 <= i <= |history| && FindLast(model.history, id) == FindLast(model.history[..i], id)
      {
        i := i - 1;
        FindLastStep(model.history, i, id);
        if history[i].id == id {
          return Some(ToDict(history[i].Snapshot()));
        }
      }
      if storage != null {
        data := storage.LoadRequest(id);
      } else {
        data := None;
      }
    }

    lemma FindLastStep(h: seq<Request>, i: nat, id: string)
      requires i < |h|
      ensures FindLast(h[..i + 1], id) == if h[i].id == id then Some(h[i]) else FindLast(h[..i], id)
    {
      assert h[..i + 1][..i] == h[..i];
    }

    // -------------------------------------------------------------- restart

    /** A queue constructed over the table an earlier queue left behind; `past` is what had been done until then. */
    constructor Reopen(storage: ApprovalStorage, maxHistory: int, now: real, ghost past: seq<Command>,
                       ghost firstMaxHistory: int)
      requires IsRun(past, true, firstMaxHistory) && Mirrors(storage.rows, Run(past, true, firstMaxHistory).ledger)
      requires past != [] ==> past[|past| - 1].now <= now
      ensures Valid() && this.storage == storage && fresh(repr)
      ensures exists listing :: trace == past + [Restart(listing, maxHistory, now)]
    {
      pending, order, history, repr := map[], [], [], {};
      this.storage, this.maxHistory, this.firstMaxHistory, trace := storage, maxHistory, firstMaxHistory, past;
      model := Load(Run(past, true, firstMaxHistory), []).(maxHistory := maxHistory);
      new;
      NothingLoaded(Run(past, true, firstMaxHistory));
      hide Run, IsRun, Load, Inv;
      RunKeepsInv(past, true, firstMaxHistory);
      Restore(now);
    }

    method Restore(now: real)
      requires storage != null && IsRun(trace, true, firstMaxHistory) && NotBefore(now) && Tied() && repr == {}
      requires model == Load(Run(trace, true, firstMaxHistory), []).(maxHistory := maxHistory)
      modifies `pending, `order, `history, `model, `repr, `trace
      ensures Valid() && fresh(repr)
      ensures exists listing :: trace == old(trace) + [Restart(listing, maxHistory, now)]
    {
      hide Run, IsRun, Load, Inv, TiedBut, Table.IsListing;
      RunKeepsInv(trace, true, firstMaxHistory);
      ghost var q := Run(trace, true, firstMaxHistory);
      var listing := LoadFromStorage(q);
      Record(Restart(listing, maxHistory, now), q);
    }

    lemma NothingLoaded(q: Queue)
      ensures Load(q, []) == q.(pending := map[], order := [], history := [])
    {
    }

    method LoadFromStorage(ghost q: Queue) returns (ghost listing: seq<string>)
      requires Inv(q) && q.stored && Tied() && storage != null && repr == {}
      requires model == Load(q, []).(maxHistory := maxHistory)
      modifies `pending, `order, `history, `model, `repr
      ensures Tied() && fresh(repr)
      ensures Enabled(q, Restart(listing, maxHistory, 0.0)) && model == Load(q, listing).(maxHistory := maxHistory)
    {
      hide Mirrors, ToDict, Inv, LoadOne;
      var data;
      data, listing := storage.ListRequests("", RESTART_LIMIT);
      MirroredListing(storage.rows, q.ledger, RESTART_LIMIT, listing);
      var i := |data|;
      while i > 0
        invariant 0 <= i <= |data| && Tied() && fresh(repr)
        invariant model == Load(q, listing[i..]).(maxHistory := maxHistory)
      {
        i := i - 1;
        LoadNext(q, listing, i, data[i]);
      }
      assert listing[0..] == listing;
    }

    method LoadNext(ghost q: Queue, ghost listing: seq<string>, ghost i: nat, d: Dict)
      requires Inv(q) && Tied() && Distinct(listing) && i < |listing| && (forall id :: id in listing ==> id in q.ledger)
      requires model == Load(q, listing[i + 1..]).(maxHistory := maxHistory) && d == ToDict(q.ledger[listing[i]])
      modifies `pending, `order, `history, `model, `repr
      ensures Tied() && fresh(repr - old(repr))
      ensures model == Load(q, listing[i..]).(maxHistory := maxHistory)
    {
      assert listing[i..][0] == listing[i] && listing[i..][1..] == listing[i + 1..];
      DictRoundTrip(q.ledger[listing[i]]);
      NotLoadedYet(q, listing, i);
      LoadRow(FromDict(d).value);
    }

    lemma NotLoadedYet(q: Queue, listing: seq<string>, i: nat)
      requires Inv(q) && Distinct(listing) && i < |listing| && (forall id :: id in listing ==> id in q.ledger)
      requires Tied() && model == Load(q, listing[i + 1..]).(maxHistory := maxHistory)
      ensures q.ledger[listing[i]].id !in pending
      ensures forall k :: 0 <= k < |history| ==> history[k].id != q.ledger[listing[i]].id
    {
      LoadContents(q, listing[i + 1..]);
      assert listing[i] !in listing[i + 1..];
      assert forall k :: 0 <= k < |history| ==> model.history[k] in model.history;
    }

    method LoadRow(r: Request)
      requires Tied() && r.id !in pending && forall k :: 0 <= k < |history| ==> history[k].id != r.id
      modifies `pending, `order, `history, `model, `repr
      ensures Tied() && model == LoadOne(old(model), r) && fresh(repr - old(repr))
    {
      var req := new ApprovalRequest(r);
      repr := repr + {req};
      AddLoaded(req);
    }

    method AddLoaded(req: ApprovalRequest)
      requires Tied() && req in repr && req.id !in pending && forall k :: 0 <= k < |history| ==> history[k].id != req.id
      modifies `pending, `order, `history, `model
      ensures Tied() && model == LoadOne(old(model), req.Snapshot())
    {
      hide Mirrors, ToDict, PendingTied, HistoryTied, Separate;
      LoadTied(repr, pending, history, model, req);
      if req.status == Pending || req.status == PartiallyApproved {
        pending, order := pending[req.id := req], order + [req.id];
      } else {
        history := history + [req];
      }
      model := LoadOne(model, req.Snapshot());
    }
  }

  lemma LoadTied(repr: set<ApprovalRequest>, pending: map<string, ApprovalRequest>, history: seq<ApprovalRequest>,
                 q: Queue, req: ApprovalRequest)
    requires PendingTied(repr, pending, q.pending, null) && HistoryTied(repr, history, q.history)
    requires Separate(pending, history)
    requires req in repr && req.id !in pending && forall i :: 0 <= i < |history| ==> history[i].id != req.id
    ensures var q' := LoadOne(q, req.Snapshot());
            if req.Snapshot().IsOpen()
            then PendingTied(repr, pending[req.id := req], q'.pending, null)
                 && Separate(pending[req.id := req], history)
            else HistoryTied(repr, history + [req], q'.history) && Separate(pending, history + [req])
  {
  }

  lemma MirroredListing(rows: map<string, Dict>, ledger: map<string, Request>, limit: nat, ids: seq<string>)
    requires Mirrors(rows, ledger) && Table.IsListing(Matching(rows, ""), RowCreatedAt(), limit, ids)
    ensures Table.IsListing(ledger, CreatedAt(), limit, ids)
    ensures forall id :: id in ids ==> id in ledger && Matching(rows, "")[id] == ToDict(ledger[id])
  {
    var matching := Matching(rows, "");
    assert matching.Keys == ledger.Keys;
    assert |matching| == |matching.Keys| && |ledger| == |ledger.Keys|;
    assert forall id :: id in ledger ==> RowCreatedAt()(matching[id]) == CreatedAt()(ledger[id]);
  }
}
