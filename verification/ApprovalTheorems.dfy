/** What every run of the approval queue guarantees: approvals are real and in time, a restart loses nothing while
    the table fits the reload limit, and a lookup always answers with the persisted row. */
module ApprovalTheorems {
  import opened Common
  import opened ApprovalModel
  import Table

  // ---------------------------------------------------------------- approvals are real

  /** Somebody approved request `r` by name, after it was proposed and strictly before its time ran out. */
  ghost predicate Granted(cmds: seq<Command>, r: Request, who: string) {
    exists k :: 0 <= k < |cmds| && ApprovesInTime(cmds[k], r, who)
  }

  ghost predicate ApprovesInTime(c: Command, r: Request, who: string) {
    c.DoApprove? && c.id == r.id && c.who == who && r.createdAt <= c.now < r.createdAt + r.ttlSeconds as real
  }

  ghost predicate ExecutedByCall(cmds: seq<Command>, r: Request) {
    exists k :: 0 <= k < |cmds| && cmds[k] == DoMarkExecuted(r.id, r.executedAt)
  }

  ghost predicate History(cmds: seq<Command>, r: Request) {
    && (forall who :: who in r.approvalsReceived ==> Granted(cmds, r, who))
    && (r.status == Executed ==> ExecutedByCall(cmds, r))
    && (cmds != [] ==> r.createdAt <= cmds[|cmds| - 1].now)
  }

  lemma HistoryExtends(cmds: seq<Command>, c: Command, r: Request, r': Request)
    requires cmds != [] ==> cmds[|cmds| - 1].now <= c.now
    requires cmds != [] && History(cmds, r) && Moves(r, r', c)
    ensures History(cmds + [c], r')
  {
    var all := cmds + [c];
    forall who | who in r'.approvalsReceived
      ensures Granted(all, r', who)
    {
      if who in r.approvalsReceived {
        var k :| 0 <= k < |cmds| && ApprovesInTime(cmds[k], r, who);
        assert ApprovesInTime(all[k], r', who);
      } else {
        assert ApprovesInTime(all[|cmds|], r', who);
      }
    }
    if r'.status == Executed {
      if r.status == Executed {
        var k :| 0 <= k < |cmds| && cmds[k] == DoMarkExecuted(r.id, r.executedAt);
        assert all[k] == DoMarkExecuted(r'.id, r'.executedAt);
      } else {
        assert all[|cmds|] == DoMarkExecuted(r'.id, r'.executedAt);
      }
    }
  }

  /** Every approval recorded on any request was given by an approve call with that id and that decider, made
      within the request's lifetime; an EXECUTED request was marked by a mark_executed call. */
  lemma {:induction false} ApprovalsAreReal(cmds: seq<Command>, stored: bool, maxHistory: int)
    requires IsRun(cmds, stored, maxHistory)
    ensures forall id :: id in Run(cmds, stored, maxHistory).ledger ==>
              History(cmds, Run(cmds, stored, maxHistory).ledger[id])
  {
    if cmds != [] {
      var front, c := cmds[..|cmds| - 1], cmds[|cmds| - 1];
      var q, q' := Run(front, stored, maxHistory), Run(cmds, stored, maxHistory);
      ApprovalsAreReal(front, stored, maxHistory);
      RunKeepsInv(front, stored, maxHistory);
      StepKeepsInv(q, c);
      hide Inv, Moves, Step, History, Complete, WithinRestartLimit;
      assert cmds == front + [c];
      forall id | id in q'.ledger
        ensures History(cmds, q'.ledger[id])
      {
        if id in q.ledger {
          assert front != [];
          HistoryExtends(front, c, q.ledger[id], q'.ledger[id]);
        } else {
          NewlyProposed(q, c);
          NewHasHistory(cmds, Step(q, c).ledger[c.id]);
        }
      }
    }
  }

  lemma NewHasHistory(cmds: seq<Command>, r: Request)
    requires cmds != [] && Proposes(cmds[|cmds| - 1], r) && r.status == Pending && r.approvalsReceived == []
    ensures History(cmds, r)
  {
  }

  /** An approve call that counts: the request is pending and still in time. */
  ghost predicate CountsNow(q: Queue, c: Command, id: string, who: string) {
    && c.DoApprove? && c.id == id && c.who == who && id in q.pending
    && c.now < q.pending[id].createdAt + q.pending[id].ttlSeconds as real
  }

  ghost predicate Counted(cmds: seq<Command>, stored: bool, maxHistory: int, id: string, who: string)
    requires IsRun(cmds, stored, maxHistory)
  {
    cmds != [] &&
      var front, c := cmds[..|cmds| - 1], cmds[|cmds| - 1];
      Counted(front, stored, maxHistory, id, who) || CountsNow(Run(front, stored, maxHistory), c, id, who)
  }

  ghost predicate HasApproval(q: Queue, id: string, who: string) {
    id in q.ledger && who in q.ledger[id].approvalsReceived
  }

  lemma MoveKeepsApprovals(r: Request, r': Request, c: Command, who: string)
    requires Moves(r, r', c)
    ensures who in r.approvalsReceived ==> who in r'.approvalsReceived
    ensures who in r'.approvalsReceived ==> who in r.approvalsReceived || (c.DoApprove? && c.id == r.id && c.who == who)
  {
  }

  lemma ApproveCounts(q: Queue, c: Command, id: string, who: string)
    requires Inv(q) && c.DoApprove? && c.id == id && c.who == who
    ensures HasApproval(Approve(q, id, who, c.now).0, id, who) <==> HasApproval(q, id, who) || CountsNow(q, c, id, who)
  {
    if id in q.pending { assert Mirrored(q, q.pending[id]) && q.pending[id].id == id; }
  }

  lemma StepCounts(q: Queue, c: Command, id: string, who: string)
    requires Inv(q) && Enabled(q, c)
    ensures HasApproval(Step(q, c), id, who) <==> HasApproval(q, id, who) || CountsNow(q, c, id, who)
  {
    if c.DoApprove? && c.id == id && c.who == who {
      ApproveCounts(q, c, id, who);
    } else if id in q.ledger {
      StepKeepsInv(q, c);
      hide Inv, Moves, Step, Enabled;
      MoveKeepsApprovals(q.ledger[id], Step(q, c).ledger[id], c, who);
    } else {
      StepKeepsInv(q, c);
      if c.DoPropose? && c.id == id { NewlyProposed(q, c); }
      hide Inv, Moves, Step, Enabled;
    }
  }

  /** Over every run, a person is on record as an approver of a request exactly when they approved it while it was
      pending and in time: such an approval is recorded, and stays for the rest of the run. */
  lemma {:induction false} ApprovalsRecordedExactly(cmds: seq<Command>, stored: bool, maxHistory: int, id: string,
                                                    who: string)
    requires IsRun(cmds, stored, maxHistory)
    ensures HasApproval(Run(cmds, stored, maxHistory), id, who) <==> Counted(cmds, stored, maxHistory, id, who)
  {
    if cmds != [] {
      var front, c := cmds[..|cmds| - 1], cmds[|cmds| - 1];
      ApprovalsRecordedExactly(front, stored, maxHistory, id, who);
      RunKeepsInv(front, stored, maxHistory);
      StepCounts(Run(front, stored, maxHistory), c, id, who);
      hide Inv, Step, Enabled, CountsNow;
    }
  }

  /** Request `r` is what this propose call asked for; less than one required approver counts as one. */
  ghost predicate Proposes(c: Command, r: Request) {
    && c.DoPropose? && c.id == r.id && c.proposal == r.proposal && c.ttl == r.ttlSeconds && c.now == r.createdAt
    && r.requiredApprovals == Max(1, c.required)
  }

  ghost predicate AsProposed(cmds: seq<Command>, r: Request) { exists k :: 0 <= k < |cmds| && Proposes(cmds[k], r) }

  lemma ProposalExtends(cmds: seq<Command>, c: Command, r: Request, r': Request)
    requires AsProposed(cmds, r) && Moves(r, r', c)
    ensures AsProposed(cmds + [c], r')
  {
    var k :| 0 <= k < |cmds| && Proposes(cmds[k], r);
    assert Proposes((cmds + [c])[k], r');
  }

  ghost predicate AllAsProposed(cmds: seq<Command>, q: Queue) {
    forall id :: id in q.ledger ==> AsProposed(cmds, q.ledger[id])
  }

  lemma StepAsProposed(cmds: seq<Command>, q: Queue, c: Command)
    requires Inv(q) && Enabled(q, c) && AllAsProposed(cmds, q)
    ensures AllAsProposed(cmds + [c], Step(q, c))
  {
    StepKeepsInv(q, c);
    hide Inv, Moves, Step, Proposes, AsProposed, Complete;
    forall id | id in Step(q, c).ledger
      ensures AsProposed(cmds + [c], Step(q, c).ledger[id])
    {
      if id in q.ledger {
        ProposalExtends(cmds, c, q.ledger[id], Step(q, c).ledger[id]);
      } else {
        NewlyProposed(q, c);
        NewAsProposed(cmds + [c], Step(q, c).ledger[c.id]);
      }
    }
  }

  /** What was asked for - the action, its lifetime and the number of approvers - never changes afterwards. */
  lemma {:induction false} RequestsAreAsProposed(cmds: seq<Command>, stored: bool, maxHistory: int)
    requires IsRun(cmds, stored, maxHistory)
    ensures forall id :: id in Run(cmds, stored, maxHistory).ledger ==>
              AsProposed(cmds, Run(cmds, stored, maxHistory).ledger[id])
  {
    if cmds != [] {
      hide Inv, Step, AsProposed, Enabled;
      var front, c := cmds[..|cmds| - 1], cmds[|cmds| - 1];
      RequestsAreAsProposed(front, stored, maxHistory);
      RunKeepsInv(front, stored, maxHistory);
      StepAsProposed(front, Run(front, stored, maxHistory), c);
      assert cmds == front + [c];
    }
  }

  lemma NewAsProposed(cmds: seq<Command>, r: Request)
    requires cmds != [] && Proposes(cmds[|cmds| - 1], r)
    ensures AsProposed(cmds, r)
  {
  }

  lemma NewlyProposed(q: Queue, c: Command)
    requires c.DoPropose? && Enabled(q, c)
    ensures c.id in Step(q, c).ledger && Proposes(c, Step(q, c).ledger[c.id])
    ensures Step(q, c).ledger[c.id].status == Pending && Step(q, c).ledger[c.id].approvalsReceived == []
  {
  }

  /** The quorum behind an approval: as many different people as were required, each of whom approved in time. */
  ghost predicate RealQuorum(cmds: seq<Command>, r: Request) {
    && r.requiredApprovals >= 1
    && |Elements(r.approvalsReceived)| == r.requiredApprovals
    && forall who :: who in Elements(r.approvalsReceived) ==> Granted(cmds, r, who)
  }

  lemma ApprovedMeansQuorum(cmds: seq<Command>, stored: bool, maxHistory: int, id: string)
    requires IsRun(cmds, stored, maxHistory)
    requires id in Run(cmds, stored, maxHistory).ledger
    requires Run(cmds, stored, maxHistory).ledger[id].status in {Approved, Executed}
    ensures RealQuorum(cmds, Run(cmds, stored, maxHistory).ledger[id])
  {
    RunKeepsInv(cmds, stored, maxHistory);
    ApprovalsAreReal(cmds, stored, maxHistory);
    DistinctCardinality(Run(cmds, stored, maxHistory).ledger[id].approvalsReceived);
  }

  // ---------------------------------------------------------------- lifecycle

  /** The order of the statuses: what a request may have become later. */
  predicate Advances(a: Status, b: Status) {
    || a == b
    || a == Pending
    || (a == PartiallyApproved && b != Pending)
    || (a == Approved && b == Executed)
  }

  lemma StatusesAdvance(q: Queue, c: Command, id: string)
    requires Inv(q) && Enabled(q, c) && id in q.ledger
    ensures id in Step(q, c).ledger && Advances(q.ledger[id].status, Step(q, c).ledger[id].status)
    ensures q.ledger[id].status != Executed && Step(q, c).ledger[id].status == Executed
            ==> q.ledger[id].status == Approved && c.DoMarkExecuted?
  {
    StepKeepsInv(q, c);
  }

  /** Once approved, a request stays approved or executed, and its quorum stays real, whatever is called next. */
  lemma QuorumStays(cmds: seq<Command>, c: Command, stored: bool, maxHistory: int, id: string)
    requires IsRun(cmds, stored, maxHistory) && IsRun(cmds + [c], stored, maxHistory)
    requires id in Run(cmds, stored, maxHistory).ledger
    requires Run(cmds, stored, maxHistory).ledger[id].status in {Approved, Executed}
    ensures id in Run(cmds + [c], stored, maxHistory).ledger
    ensures Run(cmds + [c], stored, maxHistory).ledger[id].status in {Approved, Executed}
    ensures RealQuorum(cmds + [c], Run(cmds + [c], stored, maxHistory).ledger[id])
  {
    assert (cmds + [c])[..|cmds|] == cmds;
    RunKeepsInv(cmds, stored, maxHistory);
    StatusesAdvance(Run(cmds, stored, maxHistory), c, id);
    ApprovedMeansQuorum(cmds + [c], stored, maxHistory, id);
  }

  /** A lookup, which expires requests first, neither approves a request nor takes an approval back. */
  lemma LookupApprovesNothing(cmds: seq<Command>, now: real, stored: bool, maxHistory: int, id: string)
    requires IsRun(cmds, stored, maxHistory) && IsRun(cmds + [DoExpireStale(now)], stored, maxHistory)
    ensures var before, after := Run(cmds, stored, maxHistory).ledger,
                                 Run(cmds + [DoExpireStale(now)], stored, maxHistory).ledger;
            var cleared, stillCleared := id in before && before[id].status in {Approved, Executed},
                                         id in after && after[id].status in {Approved, Executed};
            && (stillCleared <==> cleared)
            && (cleared ==>
                  && before[id] == after[id] && RealQuorum(cmds, before[id])
                  && RealQuorum(cmds + [DoExpireStale(now)], after[id]))
  {
    var c := DoExpireStale(now);
    var q := Run(cmds, stored, maxHistory);
    assert (cmds + [c])[..|cmds|] == cmds;
    RunKeepsInv(cmds, stored, maxHistory);
    StepKeepsInv(q, c);
    assert id in q.ledger ==> Moves(q.ledger[id], Step(q, c).ledger[id], c);
    if id in q.ledger && q.ledger[id].status in {Approved, Executed} {
      ApprovedMeansQuorum(cmds, stored, maxHistory, id);
      ApprovedMeansQuorum(cmds + [c], stored, maxHistory, id);
    }
  }

  // ---------------------------------------------------------------- lookups

  /** In memory or in the table: a lookup gives the latest persisted value of the request, whenever it gives one. */
  lemma FindIsLedger(q: Queue, id: string)
    requires Inv(q)
    ensures Find(q, id).Some? ==> id in q.ledger && Find(q, id).value == q.ledger[id]
    ensures q.stored ==> Find(q, id) == if id in q.ledger then Some(q.ledger[id]) else None
    ensures Find(q, id).None? && id in q.ledger ==> !q.stored
  {
    if id in q.pending {
      assert Mirrored(q, q.pending[id]);
    } else if FindLast(q.history, id).Some? {
      var r := FindLast(q.history, id).value;
      var i :| 0 <= i < |q.history| && q.history[i] == r;
      assert Mirrored(q, q.history[i]);
    }
  }

  /** A request is unknown exactly when it is not pending, not in the history and, with a table, in no row. */
  lemma FindsWhatIsThere(q: Queue, id: string)
    ensures Find(q, id).None?
            <==> id !in q.pending && (forall r :: r in q.history ==> r.id != id) && (q.stored ==> id !in q.ledger)
  {
  }

  ghost predicate EverProposed(cmds: seq<Command>, id: string) {
    exists k :: 0 <= k < |cmds| && cmds[k].DoPropose? && cmds[k].id == id
  }

  /** The ledger knows exactly the ids ever proposed. */
  lemma {:induction false} LedgerIsEverProposed(cmds: seq<Command>, stored: bool, maxHistory: int, id: string)
    requires IsRun(cmds, stored, maxHistory)
    ensures id in Run(cmds, stored, maxHistory).ledger <==> EverProposed(cmds, id)
  {
    if cmds != [] {
      var front, c := cmds[..|cmds| - 1], cmds[|cmds| - 1];
      LedgerIsEverProposed(front, stored, maxHistory, id);
      RunKeepsInv(front, stored, maxHistory);
      StepKeepsInv(Run(front, stored, maxHistory), c);
      hide Inv, Step, Enabled, Moves, EverProposed;
      assert cmds == front + [c];
      OneMoreProposed(front, c, id);
    }
  }

  lemma OneMoreProposed(cmds: seq<Command>, c: Command, id: string)
    ensures EverProposed(cmds + [c], id) <==> EverProposed(cmds, id) || (c.DoPropose? && c.id == id)
  {
    var all := cmds + [c];
    assert all[|cmds|] == c;
    if k :| 0 <= k < |cmds| && cmds[k].DoPropose? && cmds[k].id == id { assert all[k] == cmds[k]; }
  }

  /** For every id ever proposed, evicted from the history or not, get_request answers the stored row. */
  lemma GetRequestReturnsRow(cmds: seq<Command>, maxHistory: int, id: string, now: real)
    requires IsRun(cmds, true, maxHistory)
    ensures var q := Run(cmds, true, maxHistory);
            var (q', answer) := GetRequest(q, id, now);
            && (answer.Some? <==> EverProposed(cmds, id)) && q'.ledger.Keys == q.ledger.Keys
            && (answer.Some? ==> id in q.ledger && answer.value == q'.ledger[id]
                                 && Moves(q.ledger[id], answer.value, DoExpireStale(now)))
  {
    var q := Run(cmds, true, maxHistory);
    RunKeepsInv(cmds, true, maxHistory);
    ExpireStaleStep(q, now);
    FindIsLedger(ExpireStale(q, now), id);
    LedgerIsEverProposed(cmds, true, maxHistory, id);
  }

  // ---------------------------------------------------------------- restarts

  lemma {:induction false} LedgerOnlyGrows(cmds: seq<Command>, k: nat, stored: bool, maxHistory: int)
    requires IsRun(cmds, stored, maxHistory) && k <= |cmds|
    ensures IsRun(cmds[..k], stored, maxHistory)
    ensures Run(cmds[..k], stored, maxHistory).ledger.Keys <= Run(cmds, stored, maxHistory).ledger.Keys
  {
    if k == |cmds| {
      assert cmds[..k] == cmds;
    } else {
      var front := cmds[..|cmds| - 1];
      LedgerOnlyGrows(front, k, stored, maxHistory);
      assert front[..k] == cmds[..k];
      RunKeepsInv(front, stored, maxHistory);
      StepKeepsInv(Run(front, stored, maxHistory), cmds[|cmds| - 1]);
    }
  }

  lemma {:induction false} RunIsComplete(cmds: seq<Command>, maxHistory: int)
    requires IsRun(cmds, true, maxHistory)
    requires |Run(cmds, true, maxHistory).ledger| <= 5000
    ensures Complete(Run(cmds, true, maxHistory))
  {
    if cmds != [] {
      var front := cmds[..|cmds| - 1];
      LedgerOnlyGrows(cmds, |front|, true, maxHistory);
      SubsetCardinality(Run(front, true, maxHistory).ledger.Keys, Run(cmds, true, maxHistory).ledger.Keys);
      RunIsComplete(front, maxHistory);
      RunKeepsInv(front, true, maxHistory);
      StepKeepsInv(Run(front, true, maxHistory), cmds[|cmds| - 1]);
    }
  }

  /** Two queues that no caller can tell apart, except through the bounded history of mark_executed. */
  ghost predicate Same(q1: Queue, q2: Queue) {
    q1.pending == q2.pending && q1.ledger == q2.ledger && q1.stored == q2.stored
  }

  lemma RestartIsSame(q: Queue, listing: seq<string>, newMaxHistory: int, now: real)
    requires Inv(q) && Complete(q) && q.stored && |q.ledger| <= 5000
    requires Enabled(q, Restart(listing, newMaxHistory, now))
    ensures Same(q, Step(q, Restart(listing, newMaxHistory, now)))
    ensures forall r :: r in Step(q, Restart(listing, newMaxHistory, now)).history
                        <==> r.id in q.ledger && r == q.ledger[r.id] && !r.IsOpen()
  {
    LoadContents(q, listing);
    Table.ListingIsComplete(q.ledger, CreatedAt(), RESTART_LIMIT, listing);
    assert forall k :: k in listing <==> k in Elements(listing);
    assert forall k :: k in q.pending ==> Mirrored(q, q.pending[k]) && q.pending[k].id == k;
  }

  /** After any run, and while the table holds at most 5000 rows, a queue rebuilt from the table has exactly the
      same pending requests, all decided rows as its history, and answers every lookup, at any time, with the same
      request. */
  lemma RestartRefines(cmds: seq<Command>, maxHistory: int, listing: seq<string>, newMaxHistory: int, id: string,
                       now: real)
    requires IsRun(cmds, true, maxHistory)
    requires |Run(cmds, true, maxHistory).ledger| <= 5000
    requires Enabled(Run(cmds, true, maxHistory), Restart(listing, newMaxHistory, now))
    ensures var q := Run(cmds, true, maxHistory);
            var restarted := Step(q, Restart(listing, newMaxHistory, now));
            && restarted.pending == q.pending && restarted.ledger == q.ledger
            && (forall r :: r in restarted.history <==> r.id in q.ledger && r == q.ledger[r.id] && !r.IsOpen())
            && GetRequest(restarted, id, now).1 == GetRequest(q, id, now).1
  {
    var q, c := Run(cmds, true, maxHistory), Restart(listing, newMaxHistory, now);
    RunKeepsInv(cmds, true, maxHistory);
    RunIsComplete(cmds, maxHistory);
    StepKeepsInv(q, c);
    RestartIsSame(q, listing, newMaxHistory, now);
    GetRequestOnSame(q, Step(q, c), id, now);
  }

  /** In every reachable state, past the limit too: the rebuilt pending map is the open rows among the 5000 newest.  So
      it is the old one exactly when those rows are the requests that were pending. */
  lemma RestartKeepsListed(q: Queue, listing: seq<string>, newMaxHistory: int, now: real)
    requires Inv(q) && q.stored && Enabled(q, Restart(listing, newMaxHistory, now))
    ensures var restarted := Step(q, Restart(listing, newMaxHistory, now));
            && restarted.pending == (map id | id in q.ledger && id in listing && q.ledger[id].IsOpen() :: q.ledger[id])
            && (restarted.pending == q.pending
                <==> forall id :: id in q.pending <==> id in q.ledger && id in listing && q.ledger[id].IsOpen())
            && (Complete(restarted) <==> forall id :: id in q.ledger && q.ledger[id].IsOpen() ==> id in listing)
    ensures |listing| == Min(5000, |q.ledger|)
    ensures forall i, id :: 0 <= i < |listing| && id in q.ledger && id !in listing ==>
              q.ledger[listing[i]].createdAt >= q.ledger[id].createdAt
    ensures var h := Step(q, Restart(listing, newMaxHistory, now)).history;
            forall i, j :: 0 <= i < j < |h| ==> h[i].createdAt <= h[j].createdAt
  {
    assert forall id :: id in q.ledger ==> CreatedAt()(q.ledger[id]) == q.ledger[id].createdAt;
    LoadedOldestFirst(q, listing);
    LoadContents(q, listing);
    PendingAgainstRows(q, listing);
    hide Inv, Load, Table.IsListing;
  }

  lemma PendingAgainstRows(q: Queue, listing: seq<string>)
    requires PendingInv(q) && forall id :: id in listing ==> id in q.ledger
    ensures var rows := map id | id in q.ledger && id in listing && q.ledger[id].IsOpen() :: q.ledger[id];
            && rows == (map id | id in listing && q.ledger[id].IsOpen() :: q.ledger[id])
            && (rows == q.pending
                <==> forall id :: id in q.pending <==> id in q.ledger && id in listing && q.ledger[id].IsOpen())
  {
    var rows := map id | id in q.ledger && id in listing && q.ledger[id].IsOpen() :: q.ledger[id];
    assert forall k :: k in q.pending ==> Mirrored(q, q.pending[k]) && q.pending[k].id == k;
    if forall id :: id in q.pending <==> id in rows {
      assert rows == q.pending;
    }
  }

  ghost predicate OldestFirst(ids: seq<string>, rows: map<string, Request>) {
    forall i, j :: 0 <= i < j < |ids| && ids[i] in rows && ids[j] in rows ==>
      rows[ids[i]].createdAt <= rows[ids[j]].createdAt
  }

  ghost predicate NewestFirst(ids: seq<string>, rows: map<string, Request>) {
    && (forall id :: id in ids ==> id in rows) && (forall id :: id in rows ==> rows[id].id == id)
    && forall i, j :: 0 <= i < j < |ids| ==> rows[ids[i]].createdAt >= rows[ids[j]].createdAt
  }

  /** After a restart the history runs from the oldest request to the newest, so the oldest is evicted first. */
  lemma {:induction false} LoadedOldestFirst(q: Queue, ids: seq<string>)
    requires NewestFirst(ids, q.ledger)
    ensures var h := Load(q, ids).history;
            && (forall i :: 0 <= i < |h| ==> h[i].id in ids && h[i] == q.ledger[h[i].id])
            && (forall i, j :: 0 <= i < j < |h| ==> h[i].createdAt <= h[j].createdAt)
  {
    if ids != [] {
      LoadedOldestFirst(q, ids[1..]);
      LoadKeepsLedger(q, ids[1..]);
      assert forall id :: id in ids[1..] ==> q.ledger[id].createdAt <= q.ledger[ids[0]].createdAt;
    }
  }

  /** And so do the pending ids. */
  lemma {:induction false} LoadedOrder(q: Queue, ids: seq<string>)
    requires NewestFirst(ids, q.ledger)
    ensures OldestFirst(Load(q, ids).order, q.ledger) && forall id :: id in Load(q, ids).order ==> id in ids
  {
    if ids != [] {
      LoadedOrder(q, ids[1..]);
      LoadKeepsLedger(q, ids[1..]);
      assert forall id :: id in ids[1..] ==> q.ledger[id].createdAt <= q.ledger[ids[0]].createdAt;
    }
  }

  lemma {:induction false} LoadKeepsLedger(q: Queue, ids: seq<string>)
    requires forall id :: id in ids ==> id in q.ledger
    ensures Load(q, ids).ledger == q.ledger
  {
    if ids != [] { LoadKeepsLedger(q, ids[1..]); }
  }

  function AfterExpiry(q: Queue, id: string, now: real): Request
    requires id in q.ledger
  {
    if id in q.pending && q.pending[id].IsExpired(now) then q.pending[id].(status := Expired) else q.ledger[id]
  }

  lemma {:induction false} ExpireEachLedger(q: Queue, ids: seq<string>, now: real)
    requires forall id :: id in q.pending ==> q.pending[id].id == id && id in q.ledger
    ensures var q' := ExpireEach(q, ids, now);
            && q'.ledger.Keys == q.ledger.Keys
            && forall id :: id in q.ledger ==>
                 q'.ledger[id] == if id in ids then AfterExpiry(q, id, now) else q.ledger[id]
    decreases |ids|
  {
    if ids != [] {
      var q1 := ExpireOne(q, ids[0], now);
      ExpireEachLedger(q1, ids[1..], now);
      assert forall id :: id in ids <==> id == ids[0] || id in ids[1..];
    }
  }

  lemma ExpireStaleLedger(q: Queue, now: real)
    requires Inv(q)
    ensures ExpireStale(q, now).ledger == map id | id in q.ledger :: AfterExpiry(q, id, now)
  {
    assert forall id :: id in q.pending ==> Mirrored(q, q.pending[id]) && q.pending[id].id == id;
    ExpireEachLedger(q, q.order, now);
  }

  lemma ExpireStaleOnSame(q1: Queue, q2: Queue, now: real)
    requires Inv(q1) && Inv(q2) && Same(q1, q2)
    ensures Same(ExpireStale(q1, now), ExpireStale(q2, now))
  {
    hide Inv, ExpireStale, LedgerMoves, AfterExpiry, Request.IsExpired;
    ExpireStaleStored(q1, now);
    ExpireStaleStored(q2, now);
    SameAfterExpiry(q1, q2, now);
  }

  lemma ExpireStaleStored(q: Queue, now: real)
    requires Inv(q)
    ensures var q' := ExpireStale(q, now);
            && q'.stored == q.stored
            && q'.pending == (map id | id in q.pending && !q.pending[id].IsExpired(now) :: q.pending[id])
            && q'.ledger == map id | id in q.ledger :: AfterExpiry(q, id, now)
  {
    ExpireStaleStep(q, now);
    ExpireStaleLedger(q, now);
    hide Inv, ExpireStale, AfterExpiry, Moves;
  }

  lemma SameAfterExpiry(q1: Queue, q2: Queue, now: real)
    requires Same(q1, q2)
    ensures (map id | id in q1.ledger :: AfterExpiry(q1, id, now))
            == (map id | id in q2.ledger :: AfterExpiry(q2, id, now))
  {
  }

  lemma GetRequestOnSame(q1: Queue, q2: Queue, id: string, now: real)
    requires Inv(q1) && Inv(q2) && Same(q1, q2) && q1.stored
    ensures GetRequest(q1, id, now).1 == GetRequest(q2, id, now).1
    ensures Same(GetRequest(q1, id, now).0, GetRequest(q2, id, now).0)
  {
    ExpireStaleOnSame(q1, q2, now);
    ExpireStaleStep(q1, now);
    ExpireStaleStep(q2, now);
    FindIsLedger(ExpireStale(q1, now), id);
    FindIsLedger(ExpireStale(q2, now), id);
  }

  lemma ApproveOnSame(q1: Queue, q2: Queue, id: string, who: string, now: real)
    requires Same(q1, q2)
    ensures Same(Approve(q1, id, who, now).0, Approve(q2, id, who, now).0)
    ensures Approve(q1, id, who, now).1 == Approve(q2, id, who, now).1
  {
  }

  lemma DenyOnSame(q1: Queue, q2: Queue, id: string, reason: string, who: string, now: real)
    requires Same(q1, q2)
    ensures Same(Deny(q1, id, reason, who, now).0, Deny(q2, id, reason, who, now).0)
    ensures Deny(q1, id, reason, who, now).1 == Deny(q2, id, reason, who, now).1
  {
  }

  /** No later call, another restart included, tells a restarted queue from the one it replaced, unless it is
      mark_executed, which only sees the history in memory. */
  lemma SameKeepsSame(q1: Queue, q2: Queue, c: Command)
    requires Inv(q1) && Inv(q2) && Same(q1, q2)
    requires Enabled(q1, c) && !c.DoMarkExecuted?
    ensures Enabled(q2, c) && Same(Step(q1, c), Step(q2, c))
    ensures c.DoApprove? ==> Approve(q1, c.id, c.who, c.now).1 == Approve(q2, c.id, c.who, c.now).1
    ensures c.DoDeny? ==> Deny(q1, c.id, c.reason, c.who, c.now).1 == Deny(q2, c.id, c.reason, c.who, c.now).1
  {
    match c
    case DoPropose(_, _, _, _, _) =>
    case DoApprove(id, who, now) => ApproveOnSame(q1, q2, id, who, now);
    case DoDeny(id, reason, who, now) => DenyOnSame(q1, q2, id, reason, who, now);
    case DoExpireStale(now) => ExpireStaleOnSame(q1, q2, now);
    case Restart(listing, _, _) => LoadOnSame(q1, q2, listing);
  }

  lemma LoadOnSame(q1: Queue, q2: Queue, listing: seq<string>)
    requires Inv(q1) && Inv(q2) && Same(q1, q2) && forall id :: id in listing ==> id in q1.ledger
    ensures Same(Load(q1, listing), Load(q2, listing))
  {
    LoadContents(q1, listing);
    LoadContents(q2, listing);
  }

  /** mark_executed succeeds exactly when an APPROVED entry with the id is still in the in-memory history. */
  lemma MarkExecutedSeesHistoryOnly(q: Queue, id: string, now: real)
    requires Inv(q)
    ensures MarkExecuted(q, id, now).1
            <==> id in q.ledger && q.ledger[id].status == Approved && q.ledger[id] in q.history
    ensures MarkExecuted(q, id, now).1 ==> MarkExecuted(q, id, now).0.ledger[id].status == Executed
    ensures !MarkExecuted(q, id, now).1 ==> MarkExecuted(q, id, now).0 == q
  {
    forall i | 0 <= i < |q.history|
      ensures Mirrored(q, q.history[i])
    {
    }
  }

  /** With a history bound of one, deciding a second request makes the first approval impossible to execute, although
      its row still says APPROVED; after a restart the very same call succeeds. */
  lemma EvictedApprovalCannotBeExecuted(p: Proposal)
    ensures exists cmds, listing ::
              && IsRun(cmds, true, 1)
              && var q := Run(cmds, true, 1);
                 && "a" in q.ledger && q.ledger["a"].status == Approved
                 && !MarkExecuted(q, "a", 3.0).1
                 && Enabled(q, Restart(listing, 1, 3.0))
                 && MarkExecuted(Step(q, Restart(listing, 1, 3.0)), "a", 3.0).1
  {
    hide Inv, MarkExecuted, Enabled, IsRun, Run;
    var cmds, q := EvictingRun(p);
    var listing := ["b", "a"];
    TwoRowListing(q);
    RunKeepsInv(cmds, true, 1);
    RestartFinds(q, listing);
    MarkExecutedSeesHistoryOnly(q, "a", 3.0);
    assert IsRun(cmds, true, 1);
  }

  lemma TwoRowListing(q: Queue)
    requires q.stored && q.ledger.Keys == {"a", "b"} && q.ledger["b"].createdAt == q.ledger["a"].createdAt
    ensures Enabled(q, Restart(["b", "a"], 1, 3.0))
  {
    assert |q.ledger| == |q.ledger.Keys| == 2;
  }

  lemma RestartFinds(q: Queue, listing: seq<string>)
    requires Inv(q) && Enabled(q, Restart(listing, 1, 3.0)) && "a" in listing && q.stored
    requires "a" in q.ledger && q.ledger["a"].status == Approved
    ensures MarkExecuted(Step(q, Restart(listing, 1, 3.0)), "a", 3.0).1
  {
    StepKeepsInv(q, Restart(listing, 1, 3.0));
    LoadContents(q, listing);
    MarkExecutedSeesHistoryOnly(Step(q, Restart(listing, 1, 3.0)), "a", 3.0);
  }

  lemma EvictingRun(p: Proposal) returns (cmds: seq<Command>, q: Queue)
    ensures IsRun(cmds, true, 1) && q == Run(cmds, true, 1)
    ensures "a" in q.ledger && q.ledger["a"].status == Approved && q.ledger["a"].id == "a"
    ensures q.ledger.Keys == {"a", "b"} && q.ledger["b"].createdAt == q.ledger["a"].createdAt
    ensures forall r :: r in q.history ==> r.id == "b"
    ensures q.stored
  {
    var c0, c1 := DoPropose("a", p, 60, 1, 0.0), DoPropose("b", p, 60, 1, 0.0);
    var c2, c3 := DoApprove("a", "owner", 1.0), DoApprove("b", "owner", 2.0);
    cmds, q := [], Empty(true, 1);
    RunSnoc(cmds, c0, true, 1); cmds, q := cmds + [c0], Step(q, c0);
    RunSnoc(cmds, c1, true, 1); cmds, q := cmds + [c1], Step(q, c1);
    assert "a" in q.pending && q.pending["a"] == NewRequest("a", p, 60, 1, 0.0);
    assert "b" in q.pending && q.pending["b"] == NewRequest("b", p, 60, 1, 0.0);
    RunSnoc(cmds, c2, true, 1); cmds, q := cmds + [c2], Step(q, c2);
    assert q.ledger["a"].status == Approved && |q.history| == 1;
    RunSnoc(cmds, c3, true, 1); cmds, q := cmds + [c3], Step(q, c3);
    assert |q.history| == 1 && q.history[0].id == "b";
  }
}
