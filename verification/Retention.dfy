/** Retained artifacts: records expire by the clock, a scan prunes what has expired, and recording starts over. */
module Retention {
  import opened Common
  import opened Table

  datatype Status = Active | Expired | Pruned

  function StatusText(s: Status): string {
    match s
    case Active => "active"
    case Expired => "expired"
    case Pruned => "pruned"
  }

  datatype RetentionPolicy = RetentionPolicy(id: string, retainDays: int, keepSnapshot: bool, recoverable: bool)

  /** A creation or expiry time that cannot be read is None: such a record never expires. */
  datatype Artifact = Artifact(id: string, jobId: string, kind: string, policyId: string, status: Status,
                               created: Option<real>, updated: real, expires: Option<real>, recoverable: bool,
                               content: string, json: string,
                               prunedAt: Option<real>)

  type Rows = map<string, Artifact>

  function Day(): real { 86400.0 }

  function ExpiresAt(created: Option<real>, retainDays: int): Option<real> {
    if created.None? then None else Some(created.value + retainDays as real * Day())
  }

  /** Whether the clock has passed a record's expiry. */
  predicate Due(a: Artifact, now: real) { a.expires.Some? && a.expires.value <= now }

  function Refresh(a: Artifact, now: real): Artifact {
    if a.status == Pruned || a.expires.None? then a
    else if a.expires.value <= now then
      (if a.status != Expired then a.(status := Expired, updated := now) else a)
    else
      (if a.status != Active then a.(status := Active, updated := now) else a)
  }

  function Prune(a: Artifact, now: real): Artifact {
    if a.status != Expired then a
    else a.(status := Pruned, updated := now, recoverable := false, content := "", json := "", prunedAt := Some(now))
  }

  /** What a caller asks to retain; a creation time is used only for a record that does not exist yet. */
  datatype Request = Request(jobId: string, kind: string, policy: RetentionPolicy, created: Option<Option<real>>,
                             content: string, json: string)

  function CreatedAt(existing: Option<Artifact>, q: Request, now: real): Option<real> {
    if existing.Some? then existing.value.created else if q.created.Some? then q.created.value else Some(now)
  }

  function NewArtifact(id: string, created: Option<real>, q: Request, now: real): Artifact {
    Refresh(Artifact(id, q.jobId, q.kind, q.policy.id, Active, created, now, ExpiresAt(created, q.policy.retainDays),
                     q.policy.recoverable, if q.policy.keepSnapshot then q.content else "",
                     if q.policy.keepSnapshot then q.json else "", None), now)
  }

  function Lookup(rows: Rows, id: string): Option<Artifact> { if id in rows then Some(rows[id]) else None }

  datatype Command =
    | Retain(id: string, request: Request, now: real)
    | Get(id: string, now: real)
    | List(ids: set<string>, now: real)
    | PruneScanned(ids: set<string>, now: real)

  function Refreshed(rows: Rows, ids: set<string>, now: real): Rows {
    map id | id in rows :: if id in ids then Refresh(rows[id], now) else rows[id]
  }

  function PrunedIn(rows: Rows, ids: set<string>, now: real): Rows {
    map id | id in rows :: if id in ids then Prune(rows[id], now) else rows[id]
  }

  function Step(rows: Rows, c: Command): Rows {
    match c
    case Retain(id, q, now) => rows[id := NewArtifact(id, CreatedAt(Lookup(rows, id), q, now), q, now)]
    case Get(id, now) => Refreshed(rows, {id}, now)
    case List(ids, now) => Refreshed(rows, ids, now)
    case PruneScanned(ids, now) => PrunedIn(Refreshed(rows, ids, now), ids, now)
  }

  function Run(cs: seq<Command>): Rows {
    if cs == [] then map[] else Step(Run(cs[..|cs| - 1]), cs[|cs| - 1])
  }

  /** Time does not go back. */
  ghost predicate IsRun(cs: seq<Command>) {
    cs != [] ==>
      var front := cs[..|cs| - 1];
      IsRun(front) && (front != [] ==> front[|front| - 1].now <= cs[|cs| - 1].now)
  }

  // ---------------------------------------------------------------- what happens to one record

  /** What reading a record at this time makes of it: expired from its expiry on, active before, whatever it was; its
      update time changes only with its status.  A pruned record and one that never expires stay as they are. */
  ghost predicate ReadAs(a: Artifact, a': Artifact, now: real) {
    if a.status == Pruned || a.expires.None? then a' == a
    else
      var status := if a.expires.value <= now then Expired else Active;
      a' == a.(status := status, updated := if status != a.status then now else a.updated)
  }

  /** What a prune makes of a record whose expiry has come. */
  ghost predicate EmptiedAs(a: Artifact, a': Artifact, now: real) {
    a' == a.(status := Pruned, updated := now, recoverable := false, content := "", json := "", prunedAt := Some(now))
  }

  /** A recorded artifact: it keeps the creation time of the record it replaces, expires as many days of 86400 seconds
      after that as its policy says, and keeps its content only if the policy wants a snapshot. */
  ghost predicate RecordedAs(existing: Option<Artifact>, id: string, q: Request, now: real, a: Artifact) {
    && a.id == id && a.jobId == q.jobId && a.kind == q.kind && a.policyId == q.policy.id && a.updated == now
    && a.created == (if existing.Some? then existing.value.created
                     else if q.created.Some? then q.created.value else Some(now))
    && (a.expires.Some? <==> a.created.Some?)
    && (a.created.Some? ==> a.expires.value == a.created.value + 86400.0 * q.policy.retainDays as real)
    && a.status == (if a.expires.Some? && a.expires.value <= now then Expired else Active)
    && a.recoverable == q.policy.recoverable && a.prunedAt == None
    && a.content == (if q.policy.keepSnapshot then q.content else "")
    && a.json == (if q.policy.keepSnapshot then q.json else "")
  }

  lemma RefreshMeans(a: Artifact, now: real)
    ensures ReadAs(a, Refresh(a, now), now)
  {
  }

  lemma RecordingMeans(rows: Rows, id: string, q: Request, now: real)
    ensures RecordedAs(Lookup(rows, id), id, q, now, Step(rows, Retain(id, q, now))[id])
  {
  }

  // ---------------------------------------------------------------- what every run keeps

  /** An expired record's time has passed, and a pruned one has no snapshot and cannot be recovered. */
  ghost predicate Consistent(a: Artifact, now: real) {
    && (a.status == Expired ==> Due(a, now))
    && (a.status == Pruned ==> a.content == "" && a.json == "" && !a.recoverable)
  }

  ghost predicate AllConsistent(rows: Rows, now: real) {
    forall id :: id in rows ==> rows[id].id == id && Consistent(rows[id], now)
  }

  lemma StepKeepsConsistent(rows: Rows, c: Command, before: real)
    requires AllConsistent(rows, before) && before <= c.now
    ensures AllConsistent(Step(rows, c), c.now)
  {
  }

  lemma {:induction false} RunIsConsistent(cs: seq<Command>)
    requires IsRun(cs)
    ensures cs == [] ==> Run(cs) == map[]
    ensures cs != [] ==> AllConsistent(Run(cs), cs[|cs| - 1].now)
  {
    if cs != [] {
      var front, c := cs[..|cs| - 1], cs[|cs| - 1];
      RunIsConsistent(front);
      StepKeepsConsistent(Run(front), c, if front == [] then c.now else front[|front| - 1].now);
    }
  }

  function Rank(s: Status): nat { match s case Active => 0 case Expired => 1 case Pruned => 2 }

  /** Reading, listing and pruning move a record only forward: active, expired, pruned.  A record that such a command
      refreshes is then expired exactly when its time has come, unless it is pruned. */
  lemma OnlyForward(cs: seq<Command>, c: Command, id: string)
    requires IsRun(cs + [c]) && !c.Retain? && id in Run(cs)
    ensures id in Run(cs + [c])
    ensures var a, a' := Run(cs)[id], Run(cs + [c])[id];
            && Rank(a.status) <= Rank(a'.status)
            && (a'.status != a.status ==> a.expires.Some? && a.expires.value <= c.now)
            && (!c.PruneScanned? ==> a'.content == a.content && a'.json == a.json && a'.recoverable == a.recoverable)
            && (a.status == Pruned ==> a' == a)
    ensures var a, a' := Run(cs)[id], Run(cs + [c])[id];
            (c == Get(id, c.now) || (c.List? && id in c.ids)) && a.status != Pruned && a.expires.Some?
            ==> && (a'.status == Expired <==> a.expires.value <= c.now)
                && (a'.status == Active <==> a.expires.value > c.now)
  {
    assert (cs + [c])[..|cs|] == cs;
    RunIsConsistent(cs);
  }

  /** A scan prunes exactly the scanned records that are not pruned yet and whose time has come; every other record
      keeps its snapshot. */
  lemma PrunesExactlyExpired(cs: seq<Command>, c: Command, id: string)
    requires IsRun(cs + [c]) && c.PruneScanned? && id in Run(cs)
    ensures id in Run(cs + [c])
    ensures var a, a' := Run(cs)[id], Run(cs + [c])[id];
            var chosen := id in c.ids && a.status != Pruned && a.expires.Some? && a.expires.value <= c.now;
            && (a.status != Pruned && a'.status == Pruned <==> chosen)
            && (chosen ==> EmptiedAs(a, a', c.now))
            && (!chosen ==> if id in c.ids then ReadAs(a, a', c.now) else a' == a)
  {
    assert (cs + [c])[..|cs|] == cs;
    RunIsConsistent(cs);
  }

  /** A pruned record stays pruned until it is recorded again. */
  lemma {:induction false} PrunedStaysPruned(cs: seq<Command>, more: seq<Command>, id: string)
    requires id in Run(cs) && Run(cs)[id].status == Pruned
    requires forall k :: 0 <= k < |more| && more[k].Retain? ==> more[k].id != id
    ensures id in Run(cs + more) && Run(cs + more)[id] == Run(cs)[id]
  {
    if more == [] {
      assert cs + more == cs;
    } else {
      PrunedStaysPruned(cs, more[..|more| - 1], id);
      assert (cs + more)[..|cs + more| - 1] == cs + more[..|more| - 1];
      assert (cs + more)[|cs + more| - 1] == more[|more| - 1];
    }
  }

  /** Recording always brings a pruned record back: with the old creation time, it is active again unless its new
      expiry has passed. */
  lemma RecordingRevives(cs: seq<Command>, id: string, q: Request, now: real)
    requires id in Run(cs) && Run(cs)[id].status == Pruned
    ensures var a := Run(cs + [Retain(id, q, now)])[id];
            && a.status != Pruned && a.created == Run(cs)[id].created
            && (a.status == Active <==> a.expires.None? || now < a.expires.value)
            && (a.content == q.content <==> q.policy.keepSnapshot || q.content == "")
  {
    assert (cs + [Retain(id, q, now)])[..|cs|] == cs;
  }

  /** A record created on day 0 for one day, pruned on day 1 and then recorded for two days: it is active again. */
  lemma PrunedThenActive() returns (cs: seq<Command>)
    ensures IsRun(cs) && "a" in Run(cs) && Run(cs)["a"].status == Active
    ensures exists k :: 0 <= k <= |cs| && "a" in Run(cs[..k]) && Run(cs[..k])["a"].status == Pruned
  {
    var one := Request("job", "patch", RetentionPolicy("p", 1, true, true), None, "text", "");
    var two := one.(policy := RetentionPolicy("p", 2, true, true));
    var c0, c1, c2 := Retain("a", one, 0.0), PruneScanned({"a"}, 86400.0), Retain("a", two, 86400.0);
    cs := [c0, c1, c2];
    assert cs[..1] == [c0] && cs[..2] == [c0, c1] && cs[..3] == cs;
    assert cs[..2][..1] == [c0] && cs[..1][..0] == [] && [c0, c1][..1] == [c0] && [c0][..0] == [];
    assert IsRun([c0]) && IsRun([c0, c1]);
    assert Run([c0]) == Step(map[], c0);
    assert Run([c0, c1]) == Step(Run([c0]), c1);
    assert Run(cs[..2])["a"].status == Pruned;
    assert Run(cs) == Step(Run([c0, c1]), c2);
  }

  /** The rows that the hard delete removes: it looks for the status in capitals. */
  function HardDeleted(rows: Rows, cutoff: real): Rows {
    map id | id in rows && !(StatusText(rows[id].status) == "PRUNED" && rows[id].updated < cutoff) :: rows[id]
  }

  lemma HardDeleteRemovesNothing(rows: Rows, cutoff: real)
    ensures HardDeleted(rows, cutoff) == rows
  {
    forall id | id in rows
      ensures id in HardDeleted(rows, cutoff)
    {
      assert StatusText(rows[id].status)[0] != "PRUNED"[0];
    }
  }

  // ---------------------------------------------------------------- the service

  datatype Filter = Filter(jobId: string, kind: string, policyId: string)

  predicate Passes(a: Artifact, f: Filter) {
    (f.jobId == "" || a.jobId == f.jobId) && (f.kind == "" || a.kind == f.kind)
    && (f.policyId == "" || a.policyId == f.policyId)
  }

  function Filtered(rows: Rows, f: Filter): Rows { map id | id in rows && Passes(rows[id], f) :: rows[id] }

  function ByUpdate(): Artifact -> real { (a: Artifact) => a.updated }

  function RowsOf(rows: Rows, ids: seq<string>): seq<Artifact>
    requires forall id :: id in ids ==> id in rows
  {
    seq(|ids|, i requires 0 <= i < |ids| => rows[ids[i]])
  }

  function WithStatus(s: seq<Artifact>, status: string): (r: seq<Artifact>)
    ensures forall a :: a in r <==> a in s && (status == "" || StatusText(a.status) == status)
    ensures status == "" ==> r == s
  {
    if s == [] then []
    else (if status == "" || StatusText(s[0].status) == status then [s[0]] else []) + WithStatus(s[1..], status)
  }

  /** A prune that is not cut short by its limit leaves nothing due among the rows that pass its filter. */
  lemma NothingDueLeft(cs: seq<Command>, f: Filter, limit: nat, ids: seq<string>, now: real)
    requires IsRun(cs + [PruneScanned(Elements(ids), now)])
    requires IsListing(Filtered(Run(cs), f), ByUpdate(), limit, ids) && |Filtered(Run(cs), f)| <= limit
    ensures var rows := Run(cs + [PruneScanned(Elements(ids), now)]);
            forall id ::
              id in rows && Passes(rows[id], f) && rows[id].expires.Some? && rows[id].expires.value <= now ==>
                rows[id].status == Pruned
  {
    var c := PruneScanned(Elements(ids), now);
    ListingIsComplete(Filtered(Run(cs), f), ByUpdate(), limit, ids);
    assert (cs + [c])[..|cs|] == cs;
    forall id | id in Run(cs + [c]) && Passes(Run(cs + [c])[id], f) && Due(Run(cs + [c])[id], now)
      ensures Run(cs + [c])[id].status == Pruned
    {
      PrunesExactlyExpired(cs, c, id);
      assert Passes(Run(cs)[id], f);
      assert id in Filtered(Run(cs), f).Keys;
    }
  }

  function Bumped(m: map<string, nat>, k: string): map<string, nat> { m[k := (if k in m then m[k] else 0) + 1] }

  datatype Posture = Posture(total: nat, byStatus: map<string, nat>, byPolicy: map<string, nat>, recoverable: nat)

  /** The tally of a sequence of labels. */
  ghost predicate Tallies(m: map<string, nat>, labels: seq<string>) {
    forall k :: (if k in m then m[k] else 0) == multiset(labels)[k]
  }

  function Labels(s: seq<Artifact>, part: Artifact -> string): (r: seq<string>)
    ensures |r| == |s|
  {
    seq(|s|, i requires 0 <= i < |s| => part(s[i]))
  }

  lemma BumpTallies(m: map<string, nat>, labels: seq<string>, k: string)
    requires Tallies(m, labels)
    ensures Tallies(Bumped(m, k), labels + [k])
  {
  }

  lemma BumpAddsOne(m: map<string, nat>, k: string)
    ensures Sum(AsInts(Bumped(m, k))) == Sum(AsInts(m)) + 1
  {
    var before, after := AsInts(m), AsInts(Bumped(m, k));
    SumWithout(after, k);
    if k in before {
      SumWithout(before, k);
    } else {
      assert before - {k} == before;
    }
    assert before - {k} == after - {k};
  }

  ghost function AsInts(m: map<string, nat>): map<string, int> { map k | k in m :: m[k] as int }

  lemma PruneKeepsId(a: Artifact, now: real)
    ensures Prune(a, now).id == a.id && (a.status != Expired ==> Prune(a, now) == a)
  {
  }

  /** A scanned record, as it is after the scan, that was not pruned before and whose time had come. */
  ghost predicate IsChosen(before: Rows, after: Rows, ids: set<string>, now: real, a: Artifact) {
    && a.id in ids && a.id in before && a.id in after && a == after[a.id]
    && before[a.id].status != Pruned && before[a.id].expires.Some? && before[a.id].expires.value <= now
  }

  ghost predicate IsPruned(scan: Rows, ids: set<string>, now: real, a: Artifact) {
    a.id in ids && a.id in scan && scan[a.id].status == Expired && a == Prune(scan[a.id], now)
  }

  ghost predicate EachOnce(artifacts: seq<Artifact>) {
    forall i, j :: 0 <= i < j < |artifacts| ==> artifacts[i].id != artifacts[j].id
  }

  lemma ExpiredAreDue(cs: seq<Command>, now: real)
    requires IsRun(cs) && (cs != [] ==> cs[|cs| - 1].now <= now)
    ensures forall id :: id in Run(cs) ==>
              Run(cs)[id].id == id && (Run(cs)[id].status == Expired ==> Due(Run(cs)[id], now))
  {
    RunIsConsistent(cs);
  }

  lemma ChosenAfterScan(before: Rows, ids: set<string>, now: real, a: Artifact)
    requires forall id :: id in before ==> before[id].status == Expired ==> Due(before[id], now)
    ensures var scan := Refreshed(before, ids, now);
            IsPruned(scan, ids, now, a) <==> IsChosen(before, PrunedIn(scan, ids, now), ids, now, a)
  {
  }

  /** The scanned rows are distinct rows of the table, under their own ids. */
  lemma ScannedRows(rows: Rows, f: Filter, limit: nat, ids: seq<string>, now: real)
    requires IsListing(Filtered(rows, f), ByUpdate(), limit, ids) && forall id :: id in rows ==> rows[id].id == id
    ensures Distinct(ids) && (forall id :: id in ids ==> id in Refreshed(rows, Elements(ids), now))
    ensures forall id :: id in Refreshed(rows, Elements(ids), now) ==> Refreshed(rows, Elements(ids), now)[id].id == id
  {
  }

  /** Every part of the filter that is not empty is the record's own. */
  ghost predicate Fits(a: Artifact, f: Filter) {
    f.jobId in {"", a.jobId} && f.kind in {"", a.kind} && f.policyId in {"", a.policyId}
  }

  /** The rows listed: the newest that pass the filter, each read at this time; the other rows are left alone. */
  ghost predicate IsScan(before: Rows, after: Rows, f: Filter, limit: nat, ids: seq<string>, now: real) {
    && AreNewest(before, f, limit, ids) && after.Keys == before.Keys
    && forall id :: id in before ==>
         if id in ids then ReadAs(before[id], after[id], now) else after[id] == before[id]
  }

  ghost predicate AreNewest(before: Rows, f: Filter, limit: nat, ids: seq<string>) {
    && Distinct(ids) && |ids| <= limit && (forall id :: id in ids ==> id in before && Fits(before[id], f))
    && (forall i, j :: 0 <= i < j < |ids| ==> before[ids[i]].updated >= before[ids[j]].updated)
    && (forall id, i :: id in before && id !in ids && Fits(before[id], f) && 0 <= i < |ids| ==>
          before[ids[i]].updated >= before[id].updated)
    && (forall id :: id in before && id !in ids && Fits(before[id], f) ==> |ids| == limit)
  }

  lemma ScanMeans(before: Rows, f: Filter, limit: nat, ids: seq<string>, now: real)
    requires IsListing(Filtered(before, f), ByUpdate(), limit, ids)
    ensures IsScan(before, Refreshed(before, Elements(ids), now), f, limit, ids, now)
  {
    ListedAreNewest(before, f, limit, ids);
    forall id | id in before
      ensures ReadAs(before[id], Refresh(before[id], now), now)
    {
      RefreshMeans(before[id], now);
    }
    hide Refresh, ReadAs, AreNewest, IsListing, Filtered;
  }

  lemma ListedAreNewest(before: Rows, f: Filter, limit: nat, ids: seq<string>)
    requires IsListing(Filtered(before, f), ByUpdate(), limit, ids)
    ensures AreNewest(before, f, limit, ids)
  {
    assert forall id :: id in Filtered(before, f) ==> ByUpdate()(Filtered(before, f)[id]) == before[id].updated;
    if |ids| < limit { ListingIsComplete(Filtered(before, f), ByUpdate(), limit, ids); }
    assert forall id :: id in before && Passes(before[id], f) ==> id in Filtered(before, f).Keys;
  }

  /** The record's status, as it is written; every record when none is asked for. */
  ghost predicate HasStatusText(a: Artifact, status: string) {
    || status == "" || (a.status == Active && status == "active") || (a.status == Expired && status == "expired")
    || (a.status == Pruned && status == "pruned")
  }

  lemma StatusTextMeans(a: Artifact, status: string)
    ensures status == "" || StatusText(a.status) == status <==> HasStatusText(a, status)
  {
  }

  lemma FoundMeans(rows: Rows, ids: seq<string>, status: string)
    requires (forall id :: id in ids ==> id in rows) && forall id :: id in rows ==> rows[id].id == id
    ensures forall a :: a in WithStatus(RowsOf(rows, ids), status)
                        <==> a.id in ids && a == rows[a.id] && HasStatusText(a, status)
  {
    forall a
      ensures a in RowsOf(rows, ids) <==> a.id in ids && a == rows[a.id]
      ensures status == "" || StatusText(a.status) == status <==> HasStatusText(a, status)
    {
      StatusTextMeans(a, status);
      if a.id in ids && a == rows[a.id] {
        var i :| 0 <= i < |ids| && ids[i] == a.id;
        assert RowsOf(rows, ids)[i] == a;
      }
    }
    hide StatusText, HasStatusText;
  }

  class RetentionState {
    var rows: Rows
    ghost var trace: seq<Command>

    ghost predicate Valid()
      reads this
    {
      IsRun(trace) && rows == Run(trace)
    }

    ghost predicate NotBefore(now: real)
      reads `trace
    {
      trace != [] ==> trace[|trace| - 1].now <= now
    }

    constructor ()
      ensures Valid() && trace == []
    {
      rows, trace := map[], [];
    }

    ghost method Note(c: Command)
      requires IsRun(trace) && NotBefore(c.now) && rows == Step(Run(trace), c)
      modifies `trace
      ensures Valid() && trace == old(trace) + [c]
    {
      assert (trace + [c])[..|trace|] == trace;
      trace := trace + [c];
    }

    /** A record is written back only when refreshing changed it. */
    method Fetch(id: string, now: real) returns (a: Option<Artifact>)
      modifies `rows
      ensures rows == Refreshed(old(rows), {id}, now) && a == Lookup(rows, id)
    {
      if id !in rows {
        return None;
      }
      var r := Refresh(rows[id], now);
      if r != rows[id] {
        rows := rows[id := r];
      }
      a := Some(r);
    }

    method GetRetainedArtifact(id: string, now: real) returns (a: Option<Artifact>)
      requires Valid() && NotBefore(now)
      modifies this
      ensures Valid() && trace == old(trace) + [Get(id, now)]
      ensures if id in old(rows) then
                a.Some? && ReadAs(old(rows)[id], a.value, now) && rows == old(rows)[id := a.value]
              else a.None? && rows == old(rows)
    {
      if id in rows { RefreshMeans(rows[id], now); }
      a := Fetch(id, now);
      Note(Get(id, now));
    }

    method RecordRetainedArtifact(id: string, q: Request, now: real) returns (a: Artifact)
      requires Valid() && NotBefore(now)
      modifies this
      ensures Valid() && trace == old(trace) + [Retain(id, q, now)]
      ensures rows == old(rows)[id := a] && RecordedAs(Lookup(old(rows), id), id, q, now, a)
    {
      RecordingMeans(rows, id, q, now);
      var existing := Fetch(id, now);
      a := NewArtifact(id, CreatedAt(existing, q, now), q, now);
      rows := rows[id := a];
      assert rows == Step(old(rows), Retain(id, q, now));
      Note(Retain(id, q, now));
    }

    /** Refreshes the newest rows that pass the filter, at most as many as asked for. */
    method Scan(f: Filter, limit: nat, now: real) returns (ids: seq<string>)
      modifies `rows
      ensures IsListing(Filtered(old(rows), f), ByUpdate(), limit, ids)
      ensures rows == Refreshed(old(rows), Elements(ids), now)
      ensures IsScan(old(rows), rows, f, limit, ids, now) && forall id :: id in ids ==> id in rows
    {
      ids := Newest(Filtered(rows, f), ByUpdate(), limit);
      hide Refresh, Passes;
      for i := 0 to |ids|
        invariant rows == Refreshed(old(rows), Elements(ids[..i]), now)
      {
        assert ids[i] !in ids[..i];
        assert Elements(ids[..i + 1]) == Elements(ids[..i]) + {ids[i]};
        var r := Refresh(rows[ids[i]], now);
        if r != rows[ids[i]] {
          rows := rows[ids[i] := r];
        }
      }
      assert ids[..|ids|] == ids;
      ScanMeans(old(rows), f, limit, ids, now);
    }

    lemma ListedUnderTheirIds(c: Command)
      requires IsRun(trace) && NotBefore(c.now) && rows == Step(Run(trace), c)
      ensures forall id :: id in rows ==> rows[id].id == id
    {
      assert (trace + [c])[..|trace|] == trace;
      RunIsConsistent(trace + [c]);
    }

    method ListRetainedArtifacts(status: string, f: Filter, limit: nat, now: real)
      returns (found: seq<Artifact>, ghost ids: seq<string>)
      requires Valid() && NotBefore(now)
      modifies this
      ensures Valid() && trace == old(trace) + [List(Elements(ids), now)]
      ensures IsListing(Filtered(old(rows), f), ByUpdate(), limit, ids) && (forall id :: id in ids ==> id in rows)
      ensures found == WithStatus(RowsOf(rows, ids), status)
      ensures IsScan(old(rows), rows, f, limit, ids, now)
      ensures forall a :: a in found <==> a.id in ids && a == rows[a.id] && HasStatusText(a, status)
    {
      hide IsScan, IsListing, Filtered, ReadAs, Refresh, Consistent, HasStatusText, WithStatus, RowsOf;
      var scanned := Scan(f, limit, now);
      ids := scanned;
      found := WithStatus(RowsOf(rows, scanned), status);
      ListedUnderTheirIds(List(Elements(ids), now));
      FoundMeans(rows, scanned, status);
      Note(List(Elements(ids), now));
    }

    /** Returns the records it pruned: the scanned ones whose time had come. */
    method PruneRetainedArtifacts(f: Filter, limit: nat, now: real)
      returns (pruned: seq<Artifact>, ghost ids: seq<string>)
      requires Valid() && NotBefore(now)
      modifies this
      ensures Valid() && trace == old(trace) + [PruneScanned(Elements(ids), now)]
      ensures IsListing(Filtered(old(rows), f), ByUpdate(), limit, ids)
      ensures forall a :: a in pruned <==> IsChosen(old(rows), rows, Elements(ids), now, a)
      ensures EachOnce(pruned)
      ensures forall id :: id in old(rows) && id !in ids ==> id in rows && rows[id] == old(rows)[id]
    {
      hide Prune, Passes, Refresh, IsListing, Consistent, IsRun, Run, IsChosen, IsPruned, Filtered;
      ExpiredAreDue(trace, now);
      ghost var before := rows;
      var scanned := Scan(f, limit, now);
      ids := scanned;
      ScannedRows(before, f, limit, ids, now);
      pruned := PruneEach(scanned, now);
      forall a
        ensures a in pruned <==> IsChosen(before, rows, Elements(ids), now, a)
      {
        ChosenAfterScan(before, Elements(ids), now, a);
      }
      Note(PruneScanned(Elements(ids), now));
    }

    method PruneEach(ids: seq<string>, now: real) returns (pruned: seq<Artifact>)
      requires Distinct(ids) && (forall id :: id in ids ==> id in rows) && forall id :: id in rows ==> rows[id].id == id
      modifies `rows
      ensures rows == PrunedIn(old(rows), Elements(ids), now)
      ensures forall a :: a in pruned <==> IsPruned(old(rows), Elements(ids), now, a)
      ensures EachOnce(pruned)
    {
      pruned := [];
      for i := 0 to |ids|
        invariant rows == PrunedIn(old(rows), Elements(ids[..i]), now)
        invariant forall a :: a in pruned <==> IsPruned(old(rows), Elements(ids[..i]), now, a)
        invariant EachOnce(pruned) && forall k :: 0 <= k < |pruned| ==> pruned[k].id in ids[..i]
      {
        hide Prune;
        assert ids[i] !in ids[..i];
        assert ids[..i + 1] == ids[..i] + [ids[i]];
        assert Elements(ids[..i + 1]) == Elements(ids[..i]) + {ids[i]};
        var r := rows[ids[i]];
        if r.status == Expired {
          PruneKeepsId(r, now);
          rows := rows[ids[i] := Prune(r, now)];
          pruned := pruned + [Prune(r, now)];
        } else {
          PruneKeepsId(r, now);
        }
      }
      assert ids[..|ids|] == ids;
    }

    /** Every listed record is counted once under its status and once under its policy. */
    method GetRetentionPosture(limit: nat, now: real) returns (p: Posture, ghost ids: seq<string>)
      requires Valid() && NotBefore(now)
      modifies this
      ensures Valid() && trace == old(trace) + [List(Elements(ids), now)]
      ensures IsListing(Filtered(old(rows), Filter("", "", "")), ByUpdate(), limit, ids)
      ensures forall id :: id in ids ==> id in rows
      ensures Counts(p, RowsOf(rows, ids))
      ensures p.total == |ids| && Sum(AsInts(p.byStatus)) == p.total && Sum(AsInts(p.byPolicy)) == p.total
    {
      var records;
      records, ids := ListRetainedArtifacts("", Filter("", "", ""), limit, now);
      p := CountRecords(records);
    }
  }

  /** The tallies of a sequence of records. */
  ghost predicate Counts(p: Posture, s: seq<Artifact>) {
    && p.total == |s|
    && Tallies(p.byStatus, Labels(s, (a: Artifact) => StatusText(a.status)))
    && Tallies(p.byPolicy, Labels(s, (a: Artifact) => a.policyId))
    && p.recoverable == |set i: nat | i < |s| && s[i].recoverable|
  }

  ghost function Recoverable(s: seq<Artifact>): nat {
    if s == [] then 0 else Recoverable(s[..|s| - 1]) + if s[|s| - 1].recoverable then 1 else 0
  }

  lemma {:induction false} RecoverableIsCount(s: seq<Artifact>)
    ensures Recoverable(s) == |set i: nat | i < |s| && s[i].recoverable|
  {
    if s != [] {
      var n := |s| - 1;
      RecoverableIsCount(s[..n]);
      assert (set i: nat | i < |s| && s[i].recoverable)
          == (set i: nat | i < n && s[..n][i].recoverable) + if s[n].recoverable then {n} else {};
    }
  }

  lemma LabelsExtend(s: seq<Artifact>, n: nat, part: Artifact -> string)
    requires n < |s|
    ensures Labels(s[..n + 1], part) == Labels(s[..n], part) + [part(s[n])]
  {
  }

  method CountRecords(s: seq<Artifact>) returns (p: Posture)
    ensures Counts(p, s)
    ensures Sum(AsInts(p.byStatus)) == |s| && Sum(AsInts(p.byPolicy)) == |s|
  {
    var byStatus := map["active" := 0, "expired" := 0, "pruned" := 0];
    var byPolicy: map<string, nat> := map[];
    var recoverable := 0;
    ghost var status, policy := (a: Artifact) => StatusText(a.status), (a: Artifact) => a.policyId;
    hide Tallies, Labels, Recoverable, Bumped, AsInts;
    NothingCounted(byStatus, byPolicy, status, policy);
    for i := 0 to |s|
      invariant Tallies(byStatus, Labels(s[..i], status)) && Tallies(byPolicy, Labels(s[..i], policy))
      invariant Sum(AsInts(byStatus)) == i && Sum(AsInts(byPolicy)) == i
      invariant recoverable == Recoverable(s[..i])
    {
      BumpAddsOne(byStatus, StatusText(s[i].status));
      BumpAddsOne(byPolicy, s[i].policyId);
      BumpTallies(byStatus, Labels(s[..i], status), StatusText(s[i].status));
      BumpTallies(byPolicy, Labels(s[..i], policy), s[i].policyId);
      LabelsExtend(s, i, status);
      LabelsExtend(s, i, policy);
      byStatus := Bumped(byStatus, StatusText(s[i].status));
      byPolicy := Bumped(byPolicy, s[i].policyId);
      RecoverableExtends(s, i);
      if s[i].recoverable {
        recoverable := recoverable + 1;
      }
    }
    assert s[..|s|] == s;
    RecoverableIsCount(s);
    p := Posture(|s|, byStatus, byPolicy, recoverable);
  }

  lemma RecoverableExtends(s: seq<Artifact>, n: nat)
    requires n < |s|
    ensures Recoverable(s[..n + 1]) == Recoverable(s[..n]) + if s[n].recoverable then 1 else 0
  {
    assert s[..n + 1][..n] == s[..n];
  }

  lemma NothingCounted(m: map<string, nat>, none: map<string, nat>, status: Artifact -> string,
                       policy: Artifact -> string)
    requires m == map["active" := 0, "expired" := 0, "pruned" := 0] && none == map[]
    ensures Tallies(m, Labels([], status)) && Tallies(none, Labels([], policy)) && Recoverable([]) == 0
    ensures Sum(AsInts(m)) == 0 && Sum(AsInts(none)) == 0
  {
    var a := AsInts(m);
    SumWithout(a, "active");
    SumWithout(a - {"active"}, "expired");
    SumWithout(a - {"active"} - {"expired"}, "pruned");
    assert a - {"active"} - {"expired"} - {"pruned"} == map[];
  }
}
