/** What each call on the approval queue does to it, in the fields of the request it is about, and what the status of a
    request says of the calls of a run. */
module ApprovalEffects {
  import opened Common
  import opened ApprovalModel
  import opened ApprovalTheorems

  /** The last `n` elements. */
  function LastOnes<T>(s: seq<T>, n: int): (r: seq<T>)
    ensures |r| == Min(|s|, Max(0, n))
  {
    if n <= 0 then [] else if |s| <= n then s else s[|s| - n..]
  }

  /** The request has left the pending ones, its row is what it is now, and the history holds the newest decisions. */
  ghost predicate Closes(q: Queue, q': Queue, r': Request) {
    && q'.pending == q.pending - {r'.id} && q'.ledger == q.ledger[r'.id := r']
    && q'.stored == q.stored && q'.maxHistory == q.maxHistory
    && (|q.history| <= Max(0, q.maxHistory) ==> q'.history == LastOnes(q.history + [r'], q.maxHistory))
  }

  lemma ArchiveCloses(q: Queue, id: string, r': Request)
    requires id in q.pending && r'.id == id
    ensures Closes(q, Archive(Remove(q, id), r'), r')
  {
  }

  /** deny answers None and changes nothing unless the request is pending; otherwise, whatever its age, the request is
      closed as DENIED with this decider, time and reason, and is otherwise as it was. */
  lemma DenyEffect(q: Queue, id: string, reason: string, who: string, now: real)
    requires Inv(q)
    ensures var (q', answer) := Deny(q, id, reason, who, now);
            if id !in q.pending then q' == q && answer.None?
            else
              && answer.Some? && Closes(q, q', answer.value)
              && answer.value
                 == q.ledger[id].(status := Denied, decidedAt := now, decidedBy := who, denialReason := reason)
  {
    if id in q.pending {
      assert Mirrored(q, q.pending[id]);
      ArchiveCloses(q, id, Deny(q, id, reason, who, now).1.value);
    }
  }

  /** What an approve makes of a pending request. */
  ghost predicate ApprovedAs(r: Request, r': Request, who: string, now: real) {
    var received := r.approvalsReceived + if who in r.approvalsReceived then [] else [who];
    if now >= r.createdAt + r.ttlSeconds as real then r' == r.(status := Expired)
    else if |received| >= r.requiredApprovals then
      r' == r.(approvalsReceived := received, status := Approved, decidedAt := now, decidedBy := who)
    else r' == r.(approvalsReceived := received, status := PartiallyApproved)
  }

  /** approve answers None and changes nothing unless the request is pending.  Once its lifetime is over the request is
      closed as EXPIRED and nobody is added; before that the decider is on record, once, and the request is closed as
      APPROVED by them if as many people as it requires are, and stays pending as PARTIALLY_APPROVED otherwise. */
  lemma ApproveEffect(q: Queue, id: string, who: string, now: real)
    requires Inv(q)
    ensures var (q', answer) := Approve(q, id, who, now);
            if id !in q.pending then q' == q && answer.None?
            else
              && answer.Some? && ApprovedAs(q.ledger[id], answer.value, who, now)
              && if answer.value.status != PartiallyApproved then Closes(q, q', answer.value)
                 else && q'.pending == q.pending[id := answer.value] && q'.ledger == q.ledger[id := answer.value]
                      && q'.history == q.history
  {
    if id in q.pending {
      assert Mirrored(q, q.pending[id]);
      var r' := Approve(q, id, who, now).1.value;
      assert r'.id == id;
      if !r'.IsOpen() { ArchiveCloses(q, id, r'); }
    }
  }

  /** expire_stale closes as EXPIRED every pending request whose lifetime is over, and touches no other. */
  lemma ExpireEffect(q: Queue, now: real)
    requires Inv(q)
    ensures var q' := ExpireStale(q, now);
            && q'.pending
               == (map id | id in q.pending && now < q.pending[id].createdAt + q.pending[id].ttlSeconds as real
                     :: q.pending[id])
            && q'.ledger.Keys == q.ledger.Keys
            && forall id :: id in q.ledger ==>
                 q'.ledger[id] == if id in q.pending
                                     && now >= q.pending[id].createdAt + q.pending[id].ttlSeconds as real
                                  then q.ledger[id].(status := Expired) else q.ledger[id]
  {
    ExpireStaleStep(q, now);
    ExpireStaleLedger(q, now);
    assert forall id :: id in q.pending ==> Mirrored(q, q.pending[id]) && q.pending[id].id == id;
  }

  /** mark_executed answers true exactly when the history holds the request as APPROVED; then its row and its entry
      become EXECUTED at this time, and nothing else changes. */
  lemma MarkExecutedEffect(q: Queue, id: string, now: real)
    requires Inv(q)
    ensures var (q', ok) := MarkExecuted(q, id, now);
            && (ok <==> exists r :: r in q.history && r.id == id && r.status == Approved)
            && q'.pending == q.pending && |q'.history| == |q.history|
            && (!ok ==> q' == q)
            && (ok ==>
                  && id in q.ledger && q.ledger[id].status == Approved
                  && q'.ledger == q.ledger[id := q.ledger[id].(status := Executed, executedAt := now)]
                  && forall i :: 0 <= i < |q.history| ==>
                       q'.history[i] == if q.history[i].id == id then q'.ledger[id] else q.history[i])
  {
    var found := FindApproved(q.history, id);
    if found.Some? {
      assert q.history[found.value] in q.history;
      assert Mirrored(q, q.history[found.value]);
    }
  }

  /** propose adds one pending request, with what was asked for and nobody's approval; at least one is required. */
  lemma ProposeEffect(q: Queue, c: Command)
    requires Inv(q) && c.DoPropose? && Enabled(q, c)
    ensures var q', r := Step(q, c), Request(c.id, c.proposal, Pending, c.now, 0.0, "", "", c.ttl, 0.0,
                                             if c.required < 1 then 1 else c.required, []);
            q'.pending == q.pending[c.id := r] && q'.ledger == q.ledger[c.id := r] && q'.history == q.history
  {
    assert forall id :: id in q.pending ==> Mirrored(q, q.pending[id]) && q.pending[id].id == id;
  }

  // ---------------------------------------------------------------- the bounded history

  lemma {:induction false} ExpiryKeepsBound(q: Queue, ids: seq<string>, now: real)
    requires |q.history| <= Max(0, q.maxHistory)
    ensures |ExpireEach(q, ids, now).history| <= Max(0, q.maxHistory)
    decreases |ids|
  {
    if ids != [] { ExpiryKeepsBound(ExpireOne(q, ids[0], now), ids[1..], now); }
  }

  /** Until the first restart the history is never longer than its bound. */
  lemma {:induction false} HistoryIsBounded(cmds: seq<Command>, stored: bool, maxHistory: int)
    requires IsRun(cmds, stored, maxHistory) && forall c :: c in cmds ==> !c.Restart?
    ensures var q := Run(cmds, stored, maxHistory);
            q.maxHistory == maxHistory && |q.history| <= Max(0, maxHistory)
  {
    if cmds != [] {
      var front, c := cmds[..|cmds| - 1], cmds[|cmds| - 1];
      HistoryIsBounded(front, stored, maxHistory);
      var q := Run(front, stored, maxHistory);
      if c.DoExpireStale? {
        ExpiryKeepsBound(q, q.order, c.now);
        ExpiryKeepsMaxHistory(q, q.order, c.now);
      }
    }
  }

  lemma {:induction false} ExpiryKeepsMaxHistory(q: Queue, ids: seq<string>, now: real)
    ensures ExpireEach(q, ids, now).maxHistory == q.maxHistory
    decreases |ids|
  {
    if ids != [] { ExpiryKeepsMaxHistory(ExpireOne(q, ids[0], now), ids[1..], now); }
  }

  lemma TrimTwice<T>(a: seq<T>, b: seq<T>, n: int)
    ensures LastOnes(LastOnes(a, n) + b, n) == LastOnes(a + b, n)
  {
  }

  /** Those of the ids whose requests are pending and out of time, as they are once expired. */
  ghost function Expiring(q: Queue, ids: seq<string>, now: real): seq<Request> {
    if ids == [] then []
    else
      var rest := Expiring(q, ids[1..], now);
      if ids[0] in q.pending && Late(q.pending[ids[0]], now) && q.pending[ids[0]].IsOpen()
      then [q.pending[ids[0]].(status := Expired)] + rest else rest
  }

  lemma {:induction false} ExpiringIgnoresOthers(q: Queue, id: string, ids: seq<string>, q': Queue, now: real)
    requires id !in ids && forall k :: k != id ==> (k in q.pending <==> k in q'.pending)
    requires forall k :: k != id && k in q.pending ==> q'.pending[k] == q.pending[k]
    ensures Expiring(q', ids, now) == Expiring(q, ids, now)
  {
    if ids != [] { ExpiringIgnoresOthers(q, id, ids[1..], q', now); }
  }

  /** Expired requests enter the bounded history one after the other, in the order in which they were pending. */
  lemma {:induction false} ExpiryHistory(q: Queue, ids: seq<string>, now: real)
    requires |q.history| <= Max(0, q.maxHistory) && Distinct(ids)
    ensures ExpireEach(q, ids, now).history == LastOnes(q.history + Expiring(q, ids, now), q.maxHistory)
    decreases |ids|
  {
    if ids != [] {
      var q1 := ExpireOne(q, ids[0], now);
      ExpiryHistory(q1, ids[1..], now);
      assert ids[0] !in ids[1..];
      ExpiringIgnoresOthers(q, ids[0], ids[1..], q1, now);
      var rest := Expiring(q, ids[1..], now);
      if ids[0] in q.pending && q.pending[ids[0]].IsExpired(now) {
        var r := q.pending[ids[0]].(status := Expired);
        assert q1.history == LastOnes(q.history + [r], q.maxHistory);
        TrimTwice(q.history + [r], rest, q.maxHistory);
        assert q.history + [r] + rest == q.history + ([r] + rest);
      }
    }
  }

  // ---------------------------------------------------------------- the order of the pending requests

  lemma {:induction false} WithoutOldestFirst(ids: seq<string>, x: string, rows: map<string, Request>)
    requires OldestFirst(ids, rows)
    ensures OldestFirst(Without(ids, x), rows)
  {
    if ids != [] {
      WithoutOldestFirst(ids[1..], x, rows);
      assert forall i :: 0 <= i < |Without(ids[1..], x)| ==> Without(ids[1..], x)[i] in ids[1..];
    }
  }

  lemma {:induction false} ExpiryOldestFirst(q: Queue, ids: seq<string>, now: real, rows: map<string, Request>)
    requires OldestFirst(q.order, rows)
    ensures OldestFirst(ExpireEach(q, ids, now).order, rows)
    decreases |ids|
  {
    if ids != [] {
      WithoutOldestFirst(q.order, ids[0], rows);
      ExpiryOldestFirst(ExpireOne(q, ids[0], now), ids[1..], now, rows);
    }
  }

  lemma SameAges(ids: seq<string>, rows: map<string, Request>, rows': map<string, Request>)
    requires OldestFirst(ids, rows) && rows'.Keys == rows.Keys
    requires forall id :: id in rows ==> rows'[id].createdAt == rows[id].createdAt
    ensures OldestFirst(ids, rows')
  {
  }

  /** Over every run the pending requests are held in the order of their creation, so expiry archives the oldest
      first. */
  lemma {:induction false} PendingOldestFirst(cmds: seq<Command>, stored: bool, maxHistory: int)
    requires IsRun(cmds, stored, maxHistory)
    ensures OldestFirst(Run(cmds, stored, maxHistory).order, Run(cmds, stored, maxHistory).ledger)
  {
    if cmds != [] {
      var front, c := cmds[..|cmds| - 1], cmds[|cmds| - 1];
      PendingOldestFirst(front, stored, maxHistory);
      RunKeepsInv(front, stored, maxHistory);
      ApprovalsAreReal(front, stored, maxHistory);
      CreatedBefore(front, stored, maxHistory, c.now);
      StepOldestFirst(Run(front, stored, maxHistory), c);
    }
  }

  lemma CreatedBefore(cmds: seq<Command>, stored: bool, maxHistory: int, now: real)
    requires IsRun(cmds, stored, maxHistory) && (cmds != [] ==> cmds[|cmds| - 1].now <= now)
    ensures forall id :: id in Run(cmds, stored, maxHistory).ledger ==>
              Run(cmds, stored, maxHistory).ledger[id].createdAt <= now
  {
    ApprovalsAreReal(cmds, stored, maxHistory);
    if cmds == [] { assert Run(cmds, stored, maxHistory).ledger == map[]; }
  }

  lemma StepOldestFirst(q: Queue, c: Command)
    requires Inv(q) && Enabled(q, c) && OldestFirst(q.order, q.ledger)
    requires forall id :: id in q.ledger ==> q.ledger[id].createdAt <= c.now
    ensures OldestFirst(Step(q, c).order, Step(q, c).ledger)
  {
    if c.DoPropose? {
      ProposeOldestFirst(q, c);
    } else {
      OrderAfter(q, c);
      MovesKeepAges(q, c);
      SameAges(Step(q, c).order, q.ledger, Step(q, c).ledger);
    }
    hide Inv, Step, Enabled, OldestFirst;
  }

  lemma MovesKeepAges(q: Queue, c: Command)
    requires Inv(q) && Enabled(q, c) && !c.DoPropose?
    ensures Step(q, c).ledger.Keys == q.ledger.Keys
    ensures forall id :: id in q.ledger ==> Step(q, c).ledger[id].createdAt == q.ledger[id].createdAt
  {
    StepKeepsInv(q, c);
    hide Inv, Step, Enabled;
  }

  lemma ProposeOldestFirst(q: Queue, c: Command)
    requires Inv(q) && c.DoPropose? && Enabled(q, c) && OldestFirst(q.order, q.ledger)
    requires forall id :: id in q.ledger ==> q.ledger[id].createdAt <= c.now
    ensures OldestFirst(Step(q, c).order, Step(q, c).ledger)
  {
    assert forall id :: id in q.order ==> id in q.pending && Mirrored(q, q.pending[id]) && q.pending[id].id == id;
    assert c.id !in q.order;
  }

  lemma OrderAfter(q: Queue, c: Command)
    requires Inv(q) && Enabled(q, c) && !c.DoPropose? && OldestFirst(q.order, q.ledger)
    ensures OldestFirst(Step(q, c).order, q.ledger)
  {
    match c
    case DoApprove(id, _, _) =>
      WithoutOldestFirst(q.order, id, q.ledger);
      assert id in q.pending ==> q.pending[id].id == id;
      hide OldestFirst;
    case DoDeny(id, _, _, _) =>
      WithoutOldestFirst(q.order, id, q.ledger);
      hide OldestFirst;
    case DoMarkExecuted(_, _) =>
    case DoExpireStale(now) => ExpiryOldestFirst(q, q.order, now, q.ledger);
    case Restart(_, _, _) => RestartOrder(q, c);
  }

  lemma RestartOrder(q: Queue, c: Command)
    requires Inv(q) && c.Restart? && Enabled(q, c)
    ensures OldestFirst(Step(q, c).order, q.ledger)
  {
    ListingIsNewestFirst(q, c);
    LoadedOrder(q, c.listing);
  }

  lemma ListingIsNewestFirst(q: Queue, c: Command)
    requires Inv(q) && c.Restart? && Enabled(q, c)
    ensures NewestFirst(c.listing, q.ledger)
  {
    assert forall id :: id in q.ledger ==> CreatedAt()(q.ledger[id]) == q.ledger[id].createdAt;
  }

  // ---------------------------------------------------------------- what a status says of the run

  ghost predicate Late(r: Request, now: real) { now >= r.createdAt + r.ttlSeconds as real }

  /** The call by which a request comes to a decided status: a deny or a completing approve while it is pending, any
      expiry that finds it pending and late, a mark_executed that finds its approval in the history. */
  ghost predicate Turns(q: Queue, c: Command, id: string, s: Status) {
    match s
    case Denied => c.DoDeny? && c.id == id && id in q.pending
    case Expired => id in q.pending && Late(q.pending[id], c.now) && (c.DoExpireStale? || (c.DoApprove? && c.id == id))
    case Approved => c.DoApprove? && c.id == id && id in q.pending && !Late(q.pending[id], c.now)
                     && |Elements(q.pending[id].approvalsReceived) + {c.who}| >= q.pending[id].requiredApprovals
    case Executed => c.DoMarkExecuted? && c.id == id && id in q.ledger && q.ledger[id].status == Approved
                     && q.ledger[id] in q.history
    case _ => false
  }

  ghost predicate Turned(cmds: seq<Command>, stored: bool, maxHistory: int, id: string, s: Status)
    requires IsRun(cmds, stored, maxHistory)
  {
    cmds != [] &&
      var front, c := cmds[..|cmds| - 1], cmds[|cmds| - 1];
      Turned(front, stored, maxHistory, id, s) || Turns(Run(front, stored, maxHistory), c, id, s)
  }

  /** An executed request was approved before. */
  ghost predicate Reached(q: Queue, id: string, s: Status) {
    id in q.ledger && (q.ledger[id].status == s || (s == Approved && q.ledger[id].status == Executed))
  }

  lemma OneMoreElement(s: seq<string>, x: string)
    requires Distinct(s)
    ensures |Elements(s) + {x}| == |s| + if x in s then 0 else 1
  {
    DistinctCardinality(s);
    if x in s { assert Elements(s) + {x} == Elements(s); }
  }

  lemma ApproveTurns(q: Queue, c: Command, id: string, s: Status)
    requires Inv(q) && c.DoApprove? && s in {Approved, Denied, Expired, Executed}
    ensures Reached(Approve(q, c.id, c.who, c.now).0, id, s) <==> Reached(q, id, s) || Turns(q, c, id, s)
  {
    ApproveEffect(q, c.id, c.who, c.now);
    if c.id in q.pending {
      assert Mirrored(q, q.pending[c.id]) && q.pending[c.id].id == c.id;
      OneMoreElement(q.pending[c.id].approvalsReceived, c.who);
      var (q', answer) := Approve(q, c.id, c.who, c.now);
      if id == c.id { ApprovedTurns(q.pending[id], answer.value, c, s); }
    }
    hide Inv, Approve;
  }

  /** What an approve makes of its request's status. */
  lemma ApprovedTurns(r: Request, r': Request, c: Command, s: Status)
    requires r.IsOpen() && c.DoApprove? && s in {Approved, Denied, Expired, Executed}
    requires |Elements(r.approvalsReceived) + {c.who}|
             == |r.approvalsReceived| + if c.who in r.approvalsReceived then 0 else 1
    requires var received := r.approvalsReceived + if c.who in r.approvalsReceived then [] else [c.who];
             r'.status == if Late(r, c.now) then Expired
                          else if |received| >= r.requiredApprovals then Approved else PartiallyApproved
    ensures r'.status == s <==>
            (s == Expired && Late(r, c.now))
            || (s == Approved && !Late(r, c.now) && |Elements(r.approvalsReceived) + {c.who}| >= r.requiredApprovals)
  {
  }

  lemma DenyTurns(q: Queue, c: Command, id: string, s: Status)
    requires Inv(q) && c.DoDeny? && s in {Approved, Denied, Expired, Executed}
    ensures Reached(Deny(q, c.id, c.reason, c.who, c.now).0, id, s) <==> Reached(q, id, s) || Turns(q, c, id, s)
  {
    DenyEffect(q, c.id, c.reason, c.who, c.now);
    if c.id in q.pending { assert Mirrored(q, q.pending[c.id]) && q.pending[c.id].id == c.id; }
    hide Deny;
  }

  lemma MarkTurns(q: Queue, c: Command, id: string, s: Status)
    requires Inv(q) && c.DoMarkExecuted? && s in {Approved, Denied, Expired, Executed}
    ensures Reached(MarkExecuted(q, c.id, c.now).0, id, s) <==> Reached(q, id, s) || Turns(q, c, id, s)
  {
    MarkExecutedEffect(q, c.id, c.now);
    MarkExecutedSeesHistoryOnly(q, c.id, c.now);
    hide MarkExecuted, Inv;
  }

  lemma ExpiryTurns(q: Queue, c: Command, id: string, s: Status)
    requires Inv(q) && c.DoExpireStale? && s in {Approved, Denied, Expired, Executed}
    ensures Reached(ExpireStale(q, c.now), id, s) <==> Reached(q, id, s) || Turns(q, c, id, s)
  {
    ExpireEffect(q, c.now);
    assert id in q.pending ==> Mirrored(q, q.pending[id]) && q.pending[id].id == id;
    hide ExpireStale;
  }

  lemma StepTurns(q: Queue, c: Command, id: string, s: Status)
    requires Inv(q) && Enabled(q, c) && s in {Approved, Denied, Expired, Executed}
    ensures Reached(Step(q, c), id, s) <==> Reached(q, id, s) || Turns(q, c, id, s)
  {
    match c
    case DoPropose(_, _, _, _, _) =>
      ProposeEffect(q, c);
      hide Inv;
    case DoApprove(_, _, _) => ApproveTurns(q, c, id, s);
    case DoDeny(_, _, _, _) => DenyTurns(q, c, id, s);
    case DoMarkExecuted(_, _) => MarkTurns(q, c, id, s);
    case DoExpireStale(_) => ExpiryTurns(q, c, id, s);
    case Restart(_, _, _) => RestartStep(q, c);
  }

  /** Over every run: a request is DENIED exactly when a deny call arrived while it was pending, EXPIRED exactly when an
      approve of it or an expire_stale found it pending after its lifetime, approved exactly when an approve in time
      made up the number of people required, and EXECUTED exactly when a mark_executed found that approval. */
  lemma {:induction false} DecidedExactlyWhen(cmds: seq<Command>, stored: bool, maxHistory: int, id: string, s: Status)
    requires IsRun(cmds, stored, maxHistory) && s in {Approved, Denied, Expired, Executed}
    ensures Reached(Run(cmds, stored, maxHistory), id, s) <==> Turned(cmds, stored, maxHistory, id, s)
  {
    if cmds != [] {
      var front, c := cmds[..|cmds| - 1], cmds[|cmds| - 1];
      DecidedExactlyWhen(front, stored, maxHistory, id, s);
      RunKeepsInv(front, stored, maxHistory);
      StepTurns(Run(front, stored, maxHistory), c, id, s);
      hide Inv, Step, Enabled, Turns, Reached;
    }
  }
}
