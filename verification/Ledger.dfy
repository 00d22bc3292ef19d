/** Product-job records and the cost ledger.  Every ledger entry is an upsert under a key; the theorems say what the
    choice of keys makes of a job's total, and exactly when it can lose a charge. */
module Ledger {
  import opened Common
  import opened Policy

  datatype CostEntry = CostEntry(jobId: string, amount: int)

  type Costs = map<string, CostEntry>

  function UsageKey(jobId: string): string { "usage-" + jobId }

  function GatewayKey(hex: string): string { "gateway-" + hex }

  /** The operation id generated for an API call that names no job, and the key of an operation's charge. */
  function ApiJob(hex: string): string { "api-" + hex }

  function ApiKey(operationId: string): string { operationId + "-cost" }

  /** Operate jobs keep no usage in the ledger. */
  predicate RecordsUsage(kind: JobKind) { kind != OPERATE }

  // ---------------------------------------------------------------- totals

  ghost function Amounts(costs: Costs, jobId: string): map<string, int> {
    map key | key in costs && costs[key].jobId == jobId :: costs[key].amount
  }

  ghost function JobTotal(costs: Costs, jobId: string): int { Sum(Amounts(costs, jobId)) }

  /** What one upsert changes: it takes out what was under the key and puts in the new amount. */
  lemma UpsertTotal(costs: Costs, key: string, e: CostEntry, jobId: string)
    ensures JobTotal(costs[key := e], jobId)
         == JobTotal(costs, jobId) - (if key in costs && costs[key].jobId == jobId then costs[key].amount else 0)
            + (if e.jobId == jobId then e.amount else 0)
  {
    var before, after := Amounts(costs, jobId), Amounts(costs[key := e], jobId);
    if key in before { SumWithout(before, key); }
    if key in after { SumWithout(after, key); }
    assert before - {key} == after - {key};
    if key !in before { assert before - {key} == before; }
    if key !in after { assert after - {key} == after; }
  }

  // ---------------------------------------------------------------- runs

  /** The writes that reach the ledger: a job update with its usage so far, a successful gateway send under its fresh
      run id, and a successful API call under its operation id, which the caller may choose. */
  datatype Write =
    | JobUpdate(jobId: string, kind: JobKind, amount: int)
    | SendCharge(hex: string, jobId: string, amount: int)
    | CallCharge(jobId: string, amount: int)
  {
    predicate Records() { JobUpdate? ==> RecordsUsage(kind) }

    function Key(): string {
      match this
      case JobUpdate(jobId, _, _) => UsageKey(jobId)
      case SendCharge(hex, _, _) => GatewayKey(hex)
      case CallCharge(jobId, _) => ApiKey(jobId)
    }

    function Entry(): CostEntry { CostEntry(jobId, amount) }
  }

  function Apply(costs: Costs, w: Write): Costs { if w.Records() then costs[w.Key() := w.Entry()] else costs }

  /** Which entry a write makes: one per run id for a send, one per operation id for an API call, one per job for the
      usage of a build, review or delivery job, and none for an operate job. */
  lemma ApplyMeans(costs: Costs, w: Write)
    ensures Apply(costs, w)
         == match w
            case JobUpdate(jobId, kind, amount) =>
              if kind in {BUILD, REVIEW, DELIVERY} then costs["usage-" + jobId := CostEntry(jobId, amount)] else costs
            case SendCharge(hex, jobId, amount) => costs["gateway-" + hex := CostEntry(jobId, amount)]
            case CallCharge(jobId, amount) => costs[jobId + "-cost" := CostEntry(jobId, amount)]
  {
  }

  function Run(ws: seq<Write>): Costs {
    if ws == [] then map[] else Apply(Run(ws[..|ws| - 1]), ws[|ws| - 1])
  }

  predicate IsHex(s: string) { forall c <- s :: '0' <= c <= '9' || 'a' <= c <= 'f' }

  ghost predicate UnusedHex(ws: seq<Write>, hex: string) {
    forall i :: 0 <= i < |ws| && ws[i].SendCharge? ==> ws[i].hex != hex
  }

  /** Run ids are hexadecimal and never used twice. */
  ghost predicate FreshIds(ws: seq<Write>) {
    && (forall i :: 0 <= i < |ws| && ws[i].SendCharge? ==> IsHex(ws[i].hex))
    && (forall i, j :: 0 <= i < j < |ws| && ws[i].SendCharge? && ws[j].SendCharge? ==> ws[i].hex != ws[j].hex)
  }

  lemma RunSnoc(ws: seq<Write>, w: Write)
    requires FreshIds(ws) && (w.SendCharge? ==> IsHex(w.hex) && UnusedHex(ws, w.hex))
    ensures Run(ws + [w]) == Apply(Run(ws), w) && FreshIds(ws + [w])
  {
    hide IsHex, Apply;
    assert (ws + [w])[..|ws|] == ws;
    HexStaysFresh(ws, w);
    hide FreshIds;
  }

  lemma HexStaysFresh(ws: seq<Write>, w: Write)
    requires FreshIds(ws) && (w.SendCharge? ==> IsHex(w.hex) && UnusedHex(ws, w.hex))
    ensures FreshIds(ws + [w])
  {
    hide IsHex;
    var all := ws + [w];
    assert forall i :: 0 <= i < |ws| ==> all[i] == ws[i];
  }

  /** The usage in the latest record of a job that is not an operate job. */
  function LatestUsage(ws: seq<Write>, jobId: string): int {
    if ws == [] then 0
    else
      var w := ws[|ws| - 1];
      if w.JobUpdate? && w.jobId == jobId && w.kind != OPERATE then w.amount else LatestUsage(ws[..|ws| - 1], jobId)
  }

  /** The charges of all successful gateway sends for a job. */
  function SendCharges(ws: seq<Write>, jobId: string): int {
    if ws == [] then 0
    else
      var w := ws[|ws| - 1];
      SendCharges(ws[..|ws| - 1], jobId) + if w.SendCharge? && w.jobId == jobId then w.amount else 0
  }

  /** The charge of the latest successful API call under an operation id. */
  function LatestCall(ws: seq<Write>, jobId: string): int {
    if ws == [] then 0
    else
      var w := ws[|ws| - 1];
      if w.CallCharge? && w.jobId == jobId then w.amount else LatestCall(ws[..|ws| - 1], jobId)
  }

  /** What a job owes: its latest usage, every gateway send, and the latest API call under its id. */
  function Owed(ws: seq<Write>, jobId: string): int {
    LatestUsage(ws, jobId) + SendCharges(ws, jobId) + LatestCall(ws, jobId)
  }

  // ---------------------------------------------------------------- keys

  lemma KeysInjective(a: string, b: string)
    ensures UsageKey(a) == UsageKey(b) ==> a == b
    ensures GatewayKey(a) == GatewayKey(b) ==> a == b
    ensures ApiKey(a) == ApiKey(b) ==> a == b
  {
    assert UsageKey(a)[6..] == a && UsageKey(b)[6..] == b;
    assert GatewayKey(a)[8..] == a && GatewayKey(b)[8..] == b;
    assert ApiKey(a) == ApiKey(b) ==> |a| == |b|;
    assert ApiKey(a)[..|a|] == a && ApiKey(b)[..|b|] == b;
  }

  /** A run id's key is nobody else's; a usage key and an operation's key can only be the same for different jobs,
      and then the operation id starts with "usage". */
  lemma KeysApart(hex: string, jobId: string, operationId: string)
    ensures GatewayKey(hex) != UsageKey(jobId)
    ensures IsHex(hex) ==> GatewayKey(hex) != ApiKey(operationId)
    ensures UsageKey(jobId) == ApiKey(operationId) ==> jobId != operationId && "usage" <= operationId
  {
    assert GatewayKey(hex)[0] == 'g' && UsageKey(jobId)[0] == 'u';
    var g, u, a := GatewayKey(hex), UsageKey(jobId), ApiKey(operationId);
    if IsHex(hex) {
      assert a[|a| - 1] == 't';
      assert g[|g| - 1] == if hex == "" then '-' else hex[|hex| - 1];
      assert hex != "" ==> hex[|hex| - 1] in hex;
    }
    if u == a {
      assert a[|operationId|] == '-';
      assert u[..5] == "usage";
      assert forall m :: 0 <= m < 5 ==> u[m] == u[..5][m] && u[m] != '-';
      assert a[..5] == operationId[..5];
    }
  }

  /** Every entry of the ledger is the entry of some write under its key. */
  lemma {:induction false} EntryOrigin(ws: seq<Write>, key: string)
    requires key in Run(ws)
    ensures exists i :: 0 <= i < |ws| && Wrote(ws[i], key, Run(ws)[key])
  {
    var front, w := ws[..|ws| - 1], ws[|ws| - 1];
    if w.Records() && w.Key() == key {
      assert Wrote(ws[|ws| - 1], key, Run(ws)[key]);
    } else {
      EntryOrigin(front, key);
      var i :| 0 <= i < |front| && Wrote(front[i], key, Run(front)[key]);
      assert Wrote(ws[i], key, Run(ws)[key]);
    }
  }

  ghost predicate Wrote(w: Write, key: string, e: CostEntry) { w.Records() && w.Key() == key && w.Entry() == e }

  /** A fresh run id never overwrites an entry. */
  lemma FreshKey(ws: seq<Write>, hex: string)
    requires FreshIds(ws) && IsHex(hex) && UnusedHex(ws, hex)
    ensures GatewayKey(hex) !in Run(ws)
  {
    var key := GatewayKey(hex);
    if key in Run(ws) {
      EntryOrigin(ws, key);
      var i :| 0 <= i < |ws| && Wrote(ws[i], key, Run(ws)[key]);
      KeysApart(hex, ws[i].jobId, ws[i].jobId);
      if ws[i].SendCharge? { KeysInjective(hex, ws[i].hex); }
      assert false;
    }
  }

  // ---------------------------------------------------------------- conservation

  /** A write that does not replace another job's non-zero entry. */
  ghost predicate Spares(costs: Costs, w: Write) {
    w.Records() && w.Key() in costs ==> costs[w.Key()].jobId == w.jobId || costs[w.Key()].amount == 0
  }

  ghost predicate AllSpare(ws: seq<Write>) {
    ws != [] ==> AllSpare(ws[..|ws| - 1]) && Spares(Run(ws[..|ws| - 1]), ws[|ws| - 1])
  }

  /** What is under a key, if it belongs to the job. */
  function Own(costs: Costs, key: string, jobId: string): int {
    if key in costs && costs[key].jobId == jobId then costs[key].amount else 0
  }

  lemma OwnAfter(costs: Costs, w: Write, key: string, jobId: string)
    ensures Own(Apply(costs, w), key, jobId)
         == if w.Records() && w.Key() == key then (if w.jobId == jobId then w.amount else 0) else Own(costs, key, jobId)
  {
    hide Write.Key;
  }

  /** The usage key and the operation key of a job hold its latest usage and its latest call. */
  ghost predicate Held(ws: seq<Write>, jobId: string) {
    && Own(Run(ws), UsageKey(jobId), jobId) == LatestUsage(ws, jobId)
    && Own(Run(ws), ApiKey(jobId), jobId) == LatestCall(ws, jobId)
  }

  ghost predicate Balanced(ws: seq<Write>, jobId: string) {
    Held(ws, jobId) && JobTotal(Run(ws), jobId) == Owed(ws, jobId)
  }

  /** Which of a job's two keys a write can meet. */
  lemma KeyMet(w: Write, jobId: string)
    requires w.SendCharge? ==> IsHex(w.hex)
    ensures w.Key() == UsageKey(jobId) ==> !w.SendCharge? && (w.JobUpdate? <==> w.jobId == jobId)
    ensures w.Key() == ApiKey(jobId) ==> !w.SendCharge? && (w.CallCharge? <==> w.jobId == jobId)
    ensures w.JobUpdate? && w.jobId == jobId ==> w.Key() == UsageKey(jobId)
    ensures w.CallCharge? && w.jobId == jobId ==> w.Key() == ApiKey(jobId)
  {
    KeysInjective(jobId, w.jobId);
    KeysApart(if w.SendCharge? then w.hex else "", jobId, jobId);
    KeysApart("", jobId, w.jobId);
    KeysApart("", w.jobId, jobId);
    hide UsageKey, GatewayKey, ApiKey;
  }

  lemma StepKeepsHeld(front: seq<Write>, w: Write, jobId: string)
    requires (w.SendCharge? ==> IsHex(w.hex)) && Spares(Run(front), w) && Held(front, jobId)
    ensures Held(front + [w], jobId)
  {
    assert (front + [w])[..|front|] == front;
    KeyMet(w, jobId);
    OwnAfter(Run(front), w, UsageKey(jobId), jobId);
    OwnAfter(Run(front), w, ApiKey(jobId), jobId);
    hide UsageKey, GatewayKey, ApiKey, Write.Key, IsHex;
  }

  lemma StepKeepsTotal(front: seq<Write>, w: Write, jobId: string)
    requires FreshIds(front) && (w.SendCharge? ==> IsHex(w.hex) && UnusedHex(front, w.hex))
    requires Spares(Run(front), w) && Balanced(front, jobId)
    ensures JobTotal(Run(front + [w]), jobId) == Owed(front + [w], jobId)
  {
    assert (front + [w])[..|front|] == front;
    if w.Records() {
      UpsertTotal(Run(front), w.Key(), w.Entry(), jobId);
      KeyMet(w, jobId);
      if w.SendCharge? { FreshKey(front, w.hex); }
    }
    hide UsageKey, ApiKey, JobTotal, IsHex, FreshIds;
  }

  lemma LastIsFresh(ws: seq<Write>)
    requires ws != [] && FreshIds(ws)
    ensures FreshIds(ws[..|ws| - 1])
    ensures var w := ws[|ws| - 1]; w.SendCharge? ==> IsHex(w.hex) && UnusedHex(ws[..|ws| - 1], w.hex)
  {
    assert forall i :: 0 <= i < |ws| - 1 ==> ws[..|ws| - 1][i] == ws[i];
  }

  lemma {:induction false} SparedIsBalanced(ws: seq<Write>, jobId: string)
    requires FreshIds(ws) && AllSpare(ws)
    ensures Balanced(ws, jobId)
  {
    if ws != [] {
      hide FreshIds, IsHex, UnusedHex, JobTotal;
      var front, w := ws[..|ws| - 1], ws[|ws| - 1];
      LastIsFresh(ws);
      SparedIsBalanced(front, jobId);
      StepKeepsHeld(front, w, jobId);
      StepKeepsTotal(front, w, jobId);
      assert ws == front + [w];
    }
  }

  /** Conservation: after any interleaving of job updates, gateway sends and API calls, under any operation ids but
      those that start with "usage", a job's total is its latest usage snapshot plus each of its successful sends,
      counted once, plus its latest API call. */
  lemma LedgerConservation(ws: seq<Write>, jobId: string)
    requires FreshIds(ws) && forall w :: w in ws && w.CallCharge? ==> !("usage" <= w.jobId)
    ensures JobTotal(Run(ws), jobId) == LatestUsage(ws, jobId) + SendCharges(ws, jobId) + LatestCall(ws, jobId)
  {
    OrdinaryIdsSpare(ws);
    SparedIsBalanced(ws, jobId);
  }

  lemma {:induction false} OrdinaryIdsSpare(ws: seq<Write>)
    requires FreshIds(ws) && forall w :: w in ws && w.CallCharge? ==> !("usage" <= w.jobId)
    ensures AllSpare(ws)
  {
    if ws != [] {
      var front, w := ws[..|ws| - 1], ws[|ws| - 1];
      LastIsFresh(ws);
      OrdinaryIdsSpare(front);
      if w.Records() && w.Key() in Run(front) {
        EntryOrigin(front, w.Key());
        var i :| 0 <= i < |front| && Wrote(front[i], w.Key(), Run(front)[w.Key()]);
        SameKeySameJob(w, front[i]);
      }
    }
  }

  lemma SameKeySameJob(w: Write, v: Write)
    requires w.Key() == v.Key() && (w.SendCharge? ==> IsHex(w.hex)) && (v.SendCharge? ==> IsHex(v.hex))
    requires (w.CallCharge? ==> !("usage" <= w.jobId)) && (v.CallCharge? ==> !("usage" <= v.jobId))
    requires w.SendCharge? && v.SendCharge? ==> w.hex != v.hex
    ensures w.jobId == v.jobId
  {
    KeysInjective(w.jobId, v.jobId);
    if w.SendCharge? && v.SendCharge? { KeysInjective(w.hex, v.hex); }
    KeysApart(if w.SendCharge? then w.hex else "", v.jobId, v.jobId);
    KeysApart(if v.SendCharge? then v.hex else "", w.jobId, w.jobId);
    KeysApart("", w.jobId, v.jobId);
    KeysApart("", v.jobId, w.jobId);
  }

  /** At every moment of a run, every job's total is what it owes. */
  ghost predicate Conserved(ws: seq<Write>) {
    (ws != [] ==> Conserved(ws[..|ws| - 1])) && forall j :: JobTotal(Run(ws), j) == Owed(ws, j)
  }

  /** For any operation ids: totals are conserved exactly when no write ever replaced another job's non-zero entry. */
  lemma {:induction false} ConservedExactlyWhenSpared(ws: seq<Write>)
    requires FreshIds(ws)
    ensures Conserved(ws) <==> AllSpare(ws)
  {
    if ws == [] {
      assert forall j :: Amounts(Run(ws), j) == map[];
    } else {
      var front, w := ws[..|ws| - 1], ws[|ws| - 1];
      LastIsFresh(ws);
      ConservedExactlyWhenSpared(front);
      if AllSpare(ws) {
        forall j
          ensures JobTotal(Run(ws), j) == Owed(ws, j)
        {
          SparedIsBalanced(ws, j);
        }
      }
      if Conserved(front) && !Spares(Run(front), w) {
        LossIsNoticed(front, w);
        assert ws == front + [w];
      }
    }
  }

  /** A job that loses an entry no longer has the total it owes. */
  lemma LossIsNoticed(front: seq<Write>, w: Write)
    requires Conserved(front) && !Spares(Run(front), w)
    ensures !Conserved(front + [w])
  {
    var other := Run(front)[w.Key()].jobId;
    assert (front + [w])[..|front|] == front;
    UpsertTotal(Run(front), w.Key(), w.Entry(), other);
    assert JobTotal(Run(front), other) == Owed(front, other);
    assert JobTotal(Run(front + [w]), other) != Owed(front + [w], other);
  }

  /** An operation id can take another job's usage out of the ledger: both are kept under "usage-a-cost". */
  lemma OperationReplacesUsage()
    ensures var ws := [JobUpdate("a-cost", BUILD, 3), CallCharge("usage-a", 5)];
            FreshIds(ws) && JobTotal(Run(ws), "a-cost") == 0 && Owed(ws, "a-cost") == 3
  {
    SharedKey();
    hide UsageKey, ApiKey, Run, Owed, JobTotal, FreshIds;
    ReplacedUsage(JobUpdate("a-cost", BUILD, 3), CallCharge("usage-a", 5));
  }

  lemma ReplacedUsage(w0: Write, w1: Write)
    requires w0.JobUpdate? && w0.Records() && w1.CallCharge? && w1.Key() == w0.Key() && w1.jobId != w0.jobId
    ensures FreshIds([w0, w1]) && JobTotal(Run([w0, w1]), w0.jobId) == 0 && Owed([w0, w1], w0.jobId) == w0.amount
  {
    RunSnoc([], w0);
    RunSnoc([w0], w1);
    assert [] + [w0] == [w0] && [w0] + [w1] == [w0, w1];
    OtherJobOwesTheSame(w0, w1);
    NothingYet();
    hide UsageKey, ApiKey, Run, Owed, Write.Key;
    assert Run([w0, w1]) == map[w1.Key() := w1.Entry()];
    assert Amounts(Run([w0, w1]), w0.jobId) == map[];
  }

  lemma NothingYet()
    ensures Run([]) == map[]
  {
  }

  lemma OtherJobOwesTheSame(w0: Write, w1: Write)
    requires w0.JobUpdate? && w0.Records() && w1.jobId != w0.jobId
    ensures Owed([w0, w1], w0.jobId) == w0.amount
  {
    assert [w0, w1][..1] == [w0] && [w0][..0] == [];
    assert Owed([], w0.jobId) == 0;
    assert Owed([w0], w0.jobId) == w0.amount;
  }

  lemma SharedKey()
    ensures UsageKey("a-cost") == ApiKey("usage-a") && "a-cost" != "usage-a"
  {
    assert "usage-" + "a-cost" == "usage-a-cost";
    assert "usage-a" + "-cost" == "usage-a-cost";
  }

  // ---------------------------------------------------------------- API calls

  /** A successful API call adds exactly its amount to its operation's total, unless the operation already had a
      charge: that one is replaced. */
  lemma ApiChargeTotal(costs: Costs, op: string, amount: int)
    ensures JobTotal(Apply(costs, CallCharge(op, amount)), op)
            == JobTotal(costs, op) - Own(costs, ApiKey(op), op) + amount
    ensures JobTotal(Apply(costs, CallCharge(op, amount)), op) == JobTotal(costs, op) + amount
            <==> ApiKey(op) !in costs || costs[ApiKey(op)].jobId != op || costs[ApiKey(op)].amount == 0
  {
    UpsertTotal(costs, ApiKey(op), CostEntry(op, amount), op);
  }

  /** What one returning API call does to the ledger: its two job records leave nothing there, its charge is applied. */
  lemma CallLedger(ws: seq<Write>, op: string, charge: seq<Write>)
    requires FreshIds(ws) && (charge == [] || (|charge| == 1 && charge[0].CallCharge?))
    ensures var u := JobUpdate(op, OPERATE, 0);
            Run(ws + [u] + charge + [u]) == if charge == [] then Run(ws) else Apply(Run(ws), charge[0])
  {
    hide FreshIds, IsHex, UnusedHex, Run, Write.Key;
    var u := JobUpdate(op, OPERATE, 0);
    RunSnoc(ws, u);
    if charge == [] {
      assert ws + [u] + charge == ws + [u];
    } else {
      RunSnoc(ws + [u], charge[0]);
      assert charge == [charge[0]];
    }
    RunSnoc(ws + [u] + charge, u);
  }

  /** The charges of all successful API calls under an operation id. */
  function CallCharges(ws: seq<Write>, jobId: string): int {
    if ws == [] then 0
    else
      var w := ws[|ws| - 1];
      CallCharges(ws[..|ws| - 1], jobId) + if w.CallCharge? && w.jobId == jobId then w.amount else 0
  }

  /** An operation id used for one call only, as the generated ids are, is charged for every call made under it. */
  lemma {:induction false} OneCallIsCharged(ws: seq<Write>, jobId: string)
    requires forall i, j :: 0 <= i < j < |ws| && ws[i].CallCharge? && ws[j].CallCharge? ==>
               !(ws[i].jobId == jobId && ws[j].jobId == jobId)
    ensures LatestCall(ws, jobId) == CallCharges(ws, jobId)
  {
    if ws != [] {
      var front, w := ws[..|ws| - 1], ws[|ws| - 1];
      OneCallIsCharged(front, jobId);
      if w.CallCharge? && w.jobId == jobId { NoCallNoCharge(front, jobId); }
    }
  }

  lemma {:induction false} NoCallNoCharge(ws: seq<Write>, jobId: string)
    requires forall i :: 0 <= i < |ws| && ws[i].CallCharge? ==> ws[i].jobId != jobId
    ensures CallCharges(ws, jobId) == 0
  {
    if ws != [] { NoCallNoCharge(ws[..|ws| - 1], jobId); }
  }

  /** Two successful calls under one job id are charged once. */
  lemma RepeatedJobIdIsChargedOnce(op: string)
    ensures var ws := [CallCharge(op, 5), CallCharge(op, 5)];
            FreshIds(ws) && CallCharges(ws, op) == 10 && JobTotal(Run(ws), op) == 5
  {
    var w := CallCharge(op, 5);
    RunSnoc([], w);
    RunSnoc([w], w);
    assert [] + [w] == [w] && [w] + [w] == [w, w];
    assert [w, w][..1] == [w] && [w][..0] == [];
    assert CallCharges([w], op) == 5;
    ApiChargeTotal(map[], op, 5);
    ApiChargeTotal(Run([w]), op, 5);
    assert Amounts(map[], op) == map[];
  }

  // ---------------------------------------------------------------- the state service

  datatype JobRecord = JobRecord(jobId: string, kind: JobKind, title: string, status: string, outcome: string,
                                 createdAt: real, updatedAt: real, usage: int, revenue: int,
                                 metadata: map<string, string>)

  /** The job table that these writes lead to: the latest record of each job. */
  ghost function JobTable(ws: seq<JobRecord>): map<string, JobRecord> {
    if ws == [] then map[] else JobTable(ws[..|ws| - 1])[ws[|ws| - 1].jobId := ws[|ws| - 1]]
  }

  lemma JobTableSnoc(ws: seq<JobRecord>, w: JobRecord)
    ensures JobTable(ws + [w]) == JobTable(ws)[w.jobId := w]
  {
    assert (ws + [w])[..|ws|] == ws;
  }

  /** The record continues the job's earlier one, if any: creation time and metadata survive, a revenue does not. */
  ghost predicate Continues(jobs: map<string, JobRecord>, w: JobRecord, added: map<string, string>) {
    && w.createdAt == (if w.jobId in jobs then jobs[w.jobId].createdAt else w.updatedAt)
    && w.metadata == (if w.jobId in jobs then jobs[w.jobId].metadata else map[]) + added
    && w.revenue == 0
  }

  /** The job and cost tables of the control-plane state. */
  class ControlPlaneState {
    var jobs: map<string, JobRecord>
    var costs: Costs

    /** Every job record written, and every write that reached the cost ledger. */
    ghost var jobWrites: seq<JobRecord>
    ghost var writes: seq<Write>

    /** The ledger is what its writes lead to, so the theorems on runs apply to it. */
    ghost predicate Valid()
      reads this
    {
      costs == Run(writes) && FreshIds(writes) && jobs == JobTable(jobWrites)
    }

    constructor ()
      ensures Valid() && jobs == map[] && costs == map[] && jobWrites == [] && writes == []
    {
      jobs, costs, jobWrites, writes := map[], map[], [], [];
    }

    /** Closes a write to the ledger. */
    ghost method Note(w: Write)
      requires FreshIds(writes) && costs == Apply(Run(writes), w) && jobs == JobTable(jobWrites)
      requires w.SendCharge? ==> IsHex(w.hex) && UnusedHex(writes, w.hex)
      modifies `writes
      ensures Valid() && writes == old(writes) + [w]
    {
      RunSnoc(writes, w);
      writes := writes + [w];
    }

    /** The total the ledger shows for a job. */
    lemma TotalIsOwed(jobId: string)
      requires Valid() && forall w :: w in writes && w.CallCharge? ==> !("usage" <= w.jobId)
      ensures JobTotal(costs, jobId)
              == LatestUsage(writes, jobId) + SendCharges(writes, jobId) + LatestCall(writes, jobId)
    {
      LedgerConservation(writes, jobId);
    }

    method RecordCostEntry(entryId: string, jobId: string, amount: int)
      modifies `costs
      ensures costs == old(costs)[if entryId != "" then entryId else "usage-" + jobId := CostEntry(jobId, amount)]
    {
      var key := OrElse(entryId, UsageKey(jobId));
      costs := costs[key := CostEntry(jobId, amount)];
    }

    /** Rewrites the whole job record: only the creation time and the metadata survive, so a revenue recorded
        on the job before is lost. */
    method RecordProductJob(jobId: string, kind: JobKind, title: string, status: string, outcome: string, usage: int,
                            metadata: map<string, string>, now: real)
      requires Valid()
      modifies this
      ensures Valid() && writes == old(writes) + [JobUpdate(jobId, kind, usage)]
      ensures jobs.Keys == old(jobs.Keys) + {jobId}
      ensures forall id :: id in old(jobs) && id != jobId ==> jobs[id] == old(jobs)[id]
      ensures var r := jobs[jobId];
              && r.jobId == jobId && r.kind == kind && r.title == title && r.status == status && r.outcome == outcome
              && r.updatedAt == now && r.usage == usage && Continues(old(jobs), r, metadata)
      ensures jobWrites == old(jobWrites) + [jobs[jobId]]
      // every job but an operate job has its usage in the ledger, under its own key
      ensures kind != OPERATE ==> costs == old(costs)["usage-" + jobId := CostEntry(jobId, usage)]
      ensures kind == OPERATE ==> costs == old(costs)
    {
      hide JobTable, Run, FreshIds, UnusedHex;
      var createdAt, kept := now, map[];
      if jobId in jobs {
        createdAt, kept := jobs[jobId].createdAt, jobs[jobId].metadata;
      }
      var record := JobRecord(jobId, kind, title, status, outcome, createdAt, now, usage, 0, kept + metadata);
      jobs := jobs[jobId := record];
      JobTableSnoc(jobWrites, record);
      jobWrites := jobWrites + [record];
      if RecordsUsage(kind) {
        RecordCostEntry("", jobId, usage);
      }
      Note(JobUpdate(jobId, kind, usage));
    }
  }
}
