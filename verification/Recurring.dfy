/** Recurring workflows: schedules, pausing, and giving up after consecutive failures.  Times are in seconds. */
module Recurring {
  import opened Common

  datatype Schedule = Hourly | Daily | Weekly | Monthly | Other

  function Interval(s: Schedule): real {
    match s
    case Hourly => 3600.0
    case Daily => 86400.0
    case Weekly => 604800.0
    case Monthly => 2592000.0
    case Other => 86400.0
  }

  function ComputeNextRun(s: Schedule, base: real): real { base + Interval(s) }

  /** An unknown schedule runs daily, and a month has 30 days. */
  ghost function Hours(s: Schedule): int {
    if s.Hourly? then 1 else if s.Weekly? then 7 * 24 else if s.Monthly? then 30 * 24 else 24
  }

  lemma NextRunIsHoursLater(s: Schedule, base: real)
    ensures ComputeNextRun(s, base) == base + 3600.0 * Hours(s) as real
  {
  }

  datatype Status = Active | Paused | Failed

  datatype Workflow = Workflow(id: string, schedule: Schedule, status: Status, nextRunAt: real, lastRunAt: Option<real>,
                               lastJobId: string, runCount: nat, errorCount: nat, maxErrors: int)

  type Book = map<string, Workflow>

  datatype Call =
    | Create(id: string, schedule: Schedule, maxErrors: int, now: real)
    | Pause(id: string, now: real)
    | Activate(id: string, now: real)
    | RecordRun(id: string, jobId: string, success: bool, now: real)

  function Changed(w: Workflow, c: Call): Workflow {
    match c
    case Create(_, _, _, _) => w
    case Pause(_, _) => if w.status == Active then w.(status := Paused) else w
    case Activate(_, now) =>
      if w.status == Active then w
      else w.(status := Active, errorCount := 0, nextRunAt := ComputeNextRun(w.schedule, now))
    case RecordRun(_, jobId, success, now) =>
      var ran := w.(lastRunAt := Some(now), runCount := w.runCount + 1);
      if success then ran.(lastJobId := jobId, errorCount := 0, nextRunAt := ComputeNextRun(w.schedule, now))
      else if w.errorCount + 1 >= w.maxErrors then ran.(errorCount := w.errorCount + 1, status := Failed)
      else ran.(errorCount := w.errorCount + 1, nextRunAt := ComputeNextRun(w.schedule, now))
  }

  /** What a recorded run makes of a workflow: a success clears the errors, a failure adds one and at the limit makes it
      fail; unless it fails, the next run is one interval after this one. */
  ghost predicate RanAs(w: Workflow, w': Workflow, jobId: string, success: bool, now: real) {
    && w' == w.(lastRunAt := Some(now), runCount := w.runCount + 1, status := w'.status, lastJobId := w'.lastJobId,
                errorCount := w'.errorCount, nextRunAt := w'.nextRunAt)
    && w'.lastJobId == (if success then jobId else w.lastJobId)
    && w'.errorCount == (if success then 0 else w.errorCount + 1)
    && var fails := !success && w.errorCount + 1 >= w.maxErrors;
       && w'.status == (if fails then Failed else w.status)
       && w'.nextRunAt == if fails then w.nextRunAt else now + 3600.0 * Hours(w.schedule) as real
  }

  /** What each call does to the workflow it names; a call for an unknown one does nothing. */
  lemma StepMeans(b: Book, c: Call)
    ensures var b' := Step(b, c);
            match c
            case Create(id, schedule, maxErrors, now) =>
              b' == b[id := Workflow(id, schedule, Active, now + 3600.0 * Hours(schedule) as real, None, "", 0, 0,
                                     maxErrors)]
            case Pause(id, _) =>
              b' == if id in b && b[id].status == Active then b[id := b[id].(status := Paused)] else b
            case Activate(id, now) =>
              b' == if id in b && b[id].status in {Paused, Failed}
                    then b[id := b[id].(status := Active, errorCount := 0,
                                        nextRunAt := now + 3600.0 * Hours(b[id].schedule) as real)]
                    else b
            case RecordRun(id, jobId, success, now) =>
              if id in b then b' == b[id := b'[id]] && RanAs(b[id], b'[id], jobId, success, now) else b' == b
  {
    if !c.Create? && c.id in b { assert b[c.id := b[c.id]] == b; }
  }

  function Step(b: Book, c: Call): Book {
    if c.Create? then
      b[c.id := Workflow(c.id, c.schedule, Active, ComputeNextRun(c.schedule, c.now), None, "", 0, 0, c.maxErrors)]
    else if c.id in b then b[c.id := Changed(b[c.id], c)]
    else b
  }

  function Run(cs: seq<Call>): Book {
    if cs == [] then map[] else Step(Run(cs[..|cs| - 1]), cs[|cs| - 1])
  }

  /** Ids are fresh, time does not go back, and a workflow gives up after at least one failure. */
  ghost predicate IsRun(cs: seq<Call>) {
    cs != [] ==>
      var front, c := cs[..|cs| - 1], cs[|cs| - 1];
      && IsRun(front) && (front != [] ==> front[|front| - 1].now <= c.now)
      && (c.Create? ==> c.id !in Run(front) && c.maxErrors >= 1)
  }

  // ---------------------------------------------------------------- what the history says

  /** An activation that took effect: the workflow was paused or had failed. */
  ghost predicate Activates(cs: seq<Call>, id: string) {
    cs != [] && cs[|cs| - 1].Activate? && cs[|cs| - 1].id == id
    && id in Run(cs[..|cs| - 1]) && Run(cs[..|cs| - 1])[id].status != Active
  }

  /** The failures recorded for a workflow since its last success or activation. */
  ghost function TrailingFailures(cs: seq<Call>, id: string): nat {
    if cs == [] then 0
    else
      var front, c := cs[..|cs| - 1], cs[|cs| - 1];
      if Activates(cs, id) then 0
      else if c.RecordRun? && c.id == id && id in Run(front) then
        (if c.success then 0 else TrailingFailures(front, id) + 1)
      else TrailingFailures(front, id)
  }

  ghost function Runs(cs: seq<Call>, id: string): nat {
    if cs == [] then 0
    else Runs(cs[..|cs| - 1], id)
         + (if cs[|cs| - 1].RecordRun? && cs[|cs| - 1].id == id && id in Run(cs[..|cs| - 1]) then 1 else 0)
  }

  ghost function LastRun(cs: seq<Call>, id: string): Option<real> {
    if cs == [] then None
    else if cs[|cs| - 1].RecordRun? && cs[|cs| - 1].id == id && id in Run(cs[..|cs| - 1]) then Some(cs[|cs| - 1].now)
    else LastRun(cs[..|cs| - 1], id)
  }

  /** The counters of a workflow are those of its history; unless it has failed, its failures are below the limit and
      it is not due before its last run plus its interval. */
  ghost predicate Accounted(cs: seq<Call>, w: Workflow) {
    && w.errorCount == TrailingFailures(cs, w.id)
    && w.runCount == Runs(cs, w.id)
    && w.lastRunAt == LastRun(cs, w.id)
    && w.maxErrors >= 1
    && (w.lastRunAt.Some? ==> cs != [] && w.lastRunAt.value <= cs[|cs| - 1].now)
    && (w.status != Failed ==> w.errorCount < w.maxErrors)
    && (w.status != Failed && w.lastRunAt.Some? ==> w.nextRunAt >= w.lastRunAt.value + Interval(w.schedule))
  }

  lemma {:induction false} UnknownHasNoHistory(cs: seq<Call>, id: string)
    requires id !in Run(cs)
    ensures TrailingFailures(cs, id) == 0 && Runs(cs, id) == 0 && LastRun(cs, id) == None
  {
    if cs != [] { UnknownHasNoHistory(cs[..|cs| - 1], id); }
  }

  lemma OneCall(cs: seq<Call>, id: string)
    requires cs != [] && IsRun(cs) && id in Run(cs)
    requires id in Run(cs[..|cs| - 1]) ==>
               Run(cs[..|cs| - 1])[id].id == id && Accounted(cs[..|cs| - 1], Run(cs[..|cs| - 1])[id])
    ensures Run(cs)[id].id == id && Accounted(cs, Run(cs)[id])
  {
    var front, c := cs[..|cs| - 1], cs[|cs| - 1];
    if id !in Run(front) {
      UnknownHasNoHistory(front, id);
    }
  }

  /** Over every run, for every workflow. */
  lemma {:induction false} WorkflowsAccounted(cs: seq<Call>)
    requires IsRun(cs)
    ensures forall id :: id in Run(cs) ==> Run(cs)[id].id == id && Accounted(cs, Run(cs)[id])
  {
    if cs != [] {
      WorkflowsAccounted(cs[..|cs| - 1]);
      forall id | id in Run(cs)
        ensures Run(cs)[id].id == id && Accounted(cs, Run(cs)[id])
      {
        OneCall(cs, id);
      }
    }
  }

  ghost predicate IsDue(w: Workflow, now: real) { w.status == Active && w.nextRunAt <= now }

  /** No workflow is due earlier than its last run plus its interval, and a due workflow has failed less often in a row
      than its limit. */
  lemma DueOnTime(cs: seq<Call>, id: string, now: real)
    requires IsRun(cs) && id in Run(cs) && IsDue(Run(cs)[id], now)
    ensures LastRun(cs, id).Some? ==> now >= LastRun(cs, id).value + 3600.0 * Hours(Run(cs)[id].schedule) as real
    ensures TrailingFailures(cs, id) < Run(cs)[id].maxErrors
  {
    WorkflowsAccounted(cs);
  }

  /** A workflow becomes failed exactly by a failed run that reaches the limit, and leaves it only by activation. */
  lemma FailsAtLimit(cs: seq<Call>, c: Call, id: string)
    requires IsRun(cs + [c]) && id in Run(cs) && c.id == id
    ensures id in Run(cs + [c])
    ensures Run(cs)[id].status != Failed ==>
              (Run(cs + [c])[id].status == Failed
               <==> c.RecordRun? && !c.success && TrailingFailures(cs, id) + 1 >= Run(cs)[id].maxErrors)
    ensures Run(cs)[id].status == Failed ==> (Run(cs + [c])[id].status != Failed <==> c.Activate?)
    ensures Run(cs + [c])[id].status == Paused
            <==> || (Run(cs)[id].status == Active && c.Pause?)
                 || (Run(cs)[id].status == Paused && Run(cs + [c])[id].status != Failed && !c.Activate?)
  {
    assert (cs + [c])[..|cs|] == cs;
    WorkflowsAccounted(cs);
  }

  // ---------------------------------------------------------------- the manager

  class RecurringWorkflow {
    const id: string
    const schedule: Schedule
    const maxErrors: int
    var status: Status
    var nextRunAt: real
    var lastRunAt: Option<real>
    var lastJobId: string
    var runCount: nat
    var errorCount: nat

    constructor (id: string, schedule: Schedule, maxErrors: int, nextRunAt: real)
      ensures Snapshot() == Workflow(id, schedule, Active, nextRunAt, None, "", 0, 0, maxErrors)
    {
      this.id, this.schedule, this.maxErrors, this.nextRunAt := id, schedule, maxErrors, nextRunAt;
      status, lastRunAt, lastJobId, runCount, errorCount := Active, None, "", 0, 0;
    }

    function Snapshot(): Workflow
      reads this
    {
      Workflow(id, schedule, status, nextRunAt, lastRunAt, lastJobId, runCount, errorCount, maxErrors)
    }

    method Resume(now: real)
      requires status != Active
      modifies this
      ensures Snapshot() == Changed(old(Snapshot()), Activate(id, now))
      ensures status == Active && errorCount == 0 && nextRunAt == now + 3600.0 * Hours(schedule) as real
    {
      status, errorCount, nextRunAt := Active, 0, ComputeNextRun(schedule, now);
    }

    method NoteRun(jobId: string, success: bool, now: real)
      modifies this
      ensures Snapshot() == Changed(old(Snapshot()), RecordRun(id, jobId, success, now))
    {
      lastRunAt, runCount := Some(now), runCount + 1;
      if success {
        lastJobId, errorCount, nextRunAt := jobId, 0, ComputeNextRun(schedule, now);
      } else {
        errorCount := errorCount + 1;
        if errorCount >= maxErrors {
          status := Failed;
        } else {
          nextRunAt := ComputeNextRun(schedule, now);
        }
      }
    }
  }

  class RecurringWorkflowManager {
    var workflows: map<string, RecurringWorkflow>
    ghost var repr: set<RecurringWorkflow>
    ghost var trace: seq<Call>

    ghost predicate Valid()
      reads this, repr
    {
      IsRun(trace) && Tied(Run(trace))
    }

    ghost predicate Tied(b: Book)
      reads `workflows, `repr, repr
    {
      && workflows.Keys == b.Keys
      && (forall id :: id in workflows ==>
            workflows[id] in repr && workflows[id].id == id && workflows[id].Snapshot() == b[id])
    }

    ghost predicate NotBefore(now: real)
      reads `trace
    {
      trace != [] ==> trace[|trace| - 1].now <= now
    }

    constructor ()
      ensures Valid() && trace == []
    {
      workflows, repr, trace := map[], {}, [];
    }

    ghost method Record(c: Call)
      requires IsRun(trace) && NotBefore(c.now) && (c.Create? ==> c.id !in Run(trace) && c.maxErrors >= 1)
      requires Tied(Step(Run(trace), c))
      modifies `trace
      ensures Valid() && trace == old(trace) + [c]
    {
      assert (trace + [c])[..|trace|] == trace;
      trace := trace + [c];
    }

    method CreateWorkflow(id: string, schedule: Schedule, maxErrors: int, now: real) returns (w: RecurringWorkflow)
      requires Valid() && NotBefore(now) && id !in workflows && maxErrors >= 1
      modifies this
      ensures Valid() && trace == old(trace) + [Create(id, schedule, maxErrors, now)]
      ensures fresh(w) && workflows == old(workflows)[id := w] && w.Snapshot() == Run(trace)[id]
      ensures w.id == id && w.schedule == schedule && w.maxErrors == maxErrors && w.status == Active
      ensures w.nextRunAt == now + 3600.0 * Hours(schedule) as real && w.lastRunAt == None
      ensures w.runCount == 0 && w.errorCount == 0
    {
      w := new RecurringWorkflow(id, schedule, maxErrors, ComputeNextRun(schedule, now));
      workflows := workflows[id := w];
      repr := repr + {w};
      Record(Create(id, schedule, maxErrors, now));
    }

    method PauseWorkflow(id: string, now: real) returns (ok: bool)
      requires Valid() && NotBefore(now)
      modifies this, repr
      ensures Valid() && repr == old(repr) && trace == old(trace) + [Pause(id, now)]
      ensures ok <==> id in old(workflows) && old(Run(trace)[id].status) == Active
      ensures workflows == old(workflows) && (ok ==> workflows[id].status == Paused)
      ensures Run(trace)
           == if ok then old(Run(trace))[id := old(Run(trace)[id]).(status := Paused)] else old(Run(trace))
    {
      ok := id in workflows && workflows[id].status == Active;
      if ok {
        workflows[id].status := Paused;
      }
      Record(Pause(id, now));
    }

    method ActivateWorkflow(id: string, now: real) returns (ok: bool)
      requires Valid() && NotBefore(now)
      modifies this, repr
      ensures Valid() && repr == old(repr) && trace == old(trace) + [Activate(id, now)]
      ensures ok <==> id in old(workflows) && old(Run(trace)[id].status) in {Paused, Failed}
      ensures workflows == old(workflows)
      ensures ok ==>
                var w := workflows[id];
                && w.Snapshot() == old(workflows[id].Snapshot()).(status := Active, errorCount := 0,
                                                                  nextRunAt := w.nextRunAt)
                && w.nextRunAt == now + 3600.0 * Hours(w.schedule) as real
      ensures !ok ==> Run(trace) == old(Run(trace))
    {
      hide Interval, Hours;
      ok := id in workflows && (workflows[id].status == Paused || workflows[id].status == Failed);
      if ok {
        workflows[id].Resume(now);
      }
      Record(Activate(id, now));
    }

    method RecordExecution(id: string, jobId: string, success: bool, now: real)
      requires Valid() && NotBefore(now)
      modifies this, repr
      ensures Valid() && repr == old(repr) && trace == old(trace) + [RecordRun(id, jobId, success, now)]
      ensures workflows == old(workflows)
      ensures if id in workflows
              then && workflows[id].Snapshot() == Run(trace)[id] && Run(trace) == old(Run(trace))[id := Run(trace)[id]]
                   && RanAs(old(Run(trace)[id]), Run(trace)[id], jobId, success, now)
              else Run(trace) == old(Run(trace))
    {
      StepMeans(Run(trace), RecordRun(id, jobId, success, now));
      if id in workflows {
        workflows[id].NoteRun(jobId, success, now);
      }
      Record(RecordRun(id, jobId, success, now));
    }

    method GetDueWorkflows(now: real) returns (due: set<string>)
      requires Valid()
      ensures forall id :: id in due <==> id in Run(trace) && IsDue(Run(trace)[id], now)
      ensures forall id :: id in due <==>
                             id in workflows && workflows[id].status == Active && workflows[id].nextRunAt <= now
      ensures forall id :: id in due && LastRun(trace, id).Some? ==>
                now >= LastRun(trace, id).value + 3600.0 * Hours(Run(trace)[id].schedule) as real
    {
      due := set id | id in workflows && workflows[id].status == Active && workflows[id].nextRunAt <= now;
      forall id | id in due
        ensures LastRun(trace, id).Some? ==>
                  now >= LastRun(trace, id).value + 3600.0 * Hours(Run(trace)[id].schedule) as real
      {
        DueOnTime(trace, id, now);
      }
    }
  }
}
