/** Pipelines of jobs: each stage runs or is skipped by what became of the stage before it. */
module Pipeline {
  import opened Common

  datatype Status = Pending | Running | Completed | Failed | Skipped

  datatype PipelineStatus = Draft | Executing | Done | Broken

  /** What submitting a stage's work came to. */
  datatype Outcome = Ok(jobId: string) | NotOk(error: string) | Raised(error: string)

  /** Any condition the orchestrator does not know runs. */
  predicate ShouldExecuteStage(condition: string, previous: Status) {
    if condition == "always" then true
    else if condition == "on_success" then previous == Completed
    else if condition == "on_failure" then previous == Failed
    else true
  }

  // ---------------------------------------------------------------- the declarative meaning

  /** The nearest stage that was not skipped, looking back from the end; -1 when there is none. */
  ghost function LastRun(ss: seq<Status>): (i: int)
    ensures -1 <= i < |ss|
    ensures i >= 0 ==> ss[i] != Skipped
    ensures forall k :: i < k < |ss| ==> ss[k] == Skipped
  {
    if ss == [] then -1
    else if ss[|ss| - 1] != Skipped then |ss| - 1
    else LastRun(ss[..|ss| - 1])
  }

  /** The status that counts as the previous one: that of the nearest stage not skipped, completed if there is none. */
  ghost function Previous(ss: seq<Status>): Status {
    if LastRun(ss) < 0 then Completed else ss[LastRun(ss)]
  }

  /** Every stage ends completed, failed or skipped, and is skipped exactly when its condition does not hold of the
      nearest earlier stage that was not. */
  ghost predicate IsExecution(conditions: seq<string>, ss: seq<Status>) {
    && |conditions| == |ss|
    && forall i :: 0 <= i < |ss| ==>
         ss[i] in {Completed, Failed, Skipped}
         && (ss[i] == Skipped <==> !ShouldExecuteStage(conditions[i], Previous(ss[..i])))
  }

  /** An execution is determined by how the stages it runs end. */
  lemma {:induction false} DeterminedByOutcomes(conditions: seq<string>, ss: seq<Status>, ts: seq<Status>)
    requires IsExecution(conditions, ss) && IsExecution(conditions, ts)
    requires forall i :: 0 <= i < |ss| && ss[i] != Skipped && ts[i] != Skipped ==> ss[i] == ts[i]
    ensures ss == ts
  {
    hide IsExecution, ShouldExecuteStage, LastRun, Previous;
    AllEnded(conditions, ss);
    AllEnded(conditions, ts);
    if ss != [] {
      var n := |ss| - 1;
      LastDecided(conditions, ss);
      LastDecided(conditions, ts);
      ExecutionPrefix(conditions, ss, n);
      ExecutionPrefix(conditions, ts, n);
      DeterminedByOutcomes(conditions[..n], ss[..n], ts[..n]);
      assert ss == ss[..n] + [ss[n]] && ts == ts[..n] + [ts[n]];
    }
  }

  lemma LastDecided(conditions: seq<string>, ss: seq<Status>)
    requires IsExecution(conditions, ss) && ss != []
    ensures |conditions| == |ss|
    ensures ss[|ss| - 1] == Skipped <==> !ShouldExecuteStage(conditions[|ss| - 1], Previous(ss[..|ss| - 1]))
  {
  }

  lemma ExecutionPrefix(conditions: seq<string>, ss: seq<Status>, n: nat)
    requires IsExecution(conditions, ss) && n <= |ss|
    ensures IsExecution(conditions[..n], ss[..n])
  {
    forall i | 0 <= i < n
      ensures ss[..n][..i] == ss[..i]
    {
    }
  }

  lemma OneMore(conditions: seq<string>, ss: seq<Status>, condition: string, s: Status)
    requires IsExecution(conditions, ss) && s in {Completed, Failed, Skipped}
    requires s == Skipped <==> !ShouldExecuteStage(condition, Previous(ss))
    ensures IsExecution(conditions + [condition], ss + [s])
    ensures Previous(ss + [s]) == if s == Skipped then Previous(ss) else s
  {
    assert (ss + [s])[..|ss|] == ss;
    forall i | 0 <= i < |ss|
      ensures (ss + [s])[..i] == ss[..i]
    {
    }
  }

  // ---------------------------------------------------------------- what a failure stops

  /** After a failure, an on_success stage runs only if in between a stage with another condition completed. */
  lemma {:induction false} RunsAgainOnlyThroughAnother(conditions: seq<string>, ss: seq<Status>, i: nat, j: nat)
    returns (k: nat)
    requires IsExecution(conditions, ss) && i < j < |ss|
    requires ss[i] == Failed && conditions[j] == "on_success" && ss[j] != Skipped
    ensures i < k < j && ss[k] == Completed && conditions[k] != "on_success"
  {
    assert Previous(ss[..j]) == Completed;
    k := LastRun(ss[..j]);
    assert k >= i by { assert ss[..j][i] == Failed; }
    if conditions[k] == "on_success" {
      k := RunsAgainOnlyThroughAnother(conditions, ss, i, k);
    }
  }

  /** The documented behaviour: after a failure only stages with the condition "always" run. */
  ghost predicate StopsOnFailure(conditions: seq<string>) {
    forall ss, i, j ::
      IsExecution(conditions, ss) && 0 <= i < j < |ss| && ss[i] == Failed && ss[j] != Skipped ==>
        conditions[j] == "always"
  }

  /** Before any stage runs the previous status counts as completed, so leading on_failure stages never run. */
  ghost function Lead(conditions: seq<string>): (n: nat)
    ensures n <= |conditions|
    ensures forall i :: 0 <= i < n ==> conditions[i] == "on_failure"
    ensures n < |conditions| ==> conditions[n] != "on_failure"
  {
    if conditions == [] || conditions[0] != "on_failure" then 0 else 1 + Lead(conditions[1..])
  }

  /** After the first stage that can run: on_success stages, and then only "always" stages. */
  ghost predicate SuccessThenAlways(conditions: seq<string>) {
    var f := Lead(conditions);
    && (forall j :: f < j < |conditions| ==> conditions[j] in {"on_success", "always"})
    && (forall i, j :: f < i < j < |conditions| && conditions[i] == "always" ==> conditions[j] == "always")
  }

  ghost function Ending(condition: string, previous: Status, fails: bool): Status {
    if !ShouldExecuteStage(condition, previous) then Skipped else if fails then Failed else Completed
  }

  /** The execution in which the stages of bad fail when they run, and the others complete. */
  ghost function Execution(conditions: seq<string>, bad: set<nat>): (ss: seq<Status>)
    ensures |ss| == |conditions|
  {
    if conditions == [] then []
    else
      var n := |conditions| - 1;
      var front := Execution(conditions[..n], bad);
      front + [Ending(conditions[n], Previous(front), n in bad)]
  }

  ghost predicate FailsOnly(ss: seq<Status>, bad: set<nat>) {
    forall i :: 0 <= i < |ss| && ss[i] != Skipped ==> (ss[i] == Failed <==> i in bad)
  }

  lemma {:induction false} ExecutionExecutes(conditions: seq<string>, bad: set<nat>)
    ensures IsExecution(conditions, Execution(conditions, bad)) && FailsOnly(Execution(conditions, bad), bad)
  {
    hide IsExecution, FailsOnly, ShouldExecuteStage, LastRun, Previous, Ending;
    if conditions == [] {
      NoStage(bad);
    } else {
      var n := |conditions| - 1;
      ExecutionExecutes(conditions[..n], bad);
      OneMoreFails(conditions[..n], Execution(conditions[..n], bad), conditions[n], bad);
      assert conditions == conditions[..n] + [conditions[n]];
    }
  }

  lemma NoStage(bad: set<nat>)
    ensures IsExecution([], []) && FailsOnly([], bad)
  {
  }

  lemma OneMoreFails(conditions: seq<string>, ss: seq<Status>, condition: string, bad: set<nat>)
    requires IsExecution(conditions, ss) && FailsOnly(ss, bad)
    ensures var s := Ending(condition, Previous(ss), |ss| in bad);
            IsExecution(conditions + [condition], ss + [s]) && FailsOnly(ss + [s], bad)
  {
    hide IsExecution, LastRun, Previous, ShouldExecuteStage;
    var s := Ending(condition, Previous(ss), |ss| in bad);
    OneMore(conditions, ss, condition, s);
  }

  lemma {:induction false} LeadIsSkipped(conditions: seq<string>, ss: seq<Status>, n: nat)
    requires IsExecution(conditions, ss) && n <= Lead(conditions)
    ensures forall i :: 0 <= i < n ==> ss[i] == Skipped
    ensures Previous(ss[..n]) == Completed
  {
    if n > 0 {
      LeadIsSkipped(conditions, ss, n - 1);
      assert conditions[n - 1] == "on_failure" && ss[n - 1] == Skipped;
      assert ss[..n][..n - 1] == ss[..n - 1];
    }
  }

  /** In some execution the first stage that can run fails and stage j runs, unless j is an on_success stage with
      nothing but on_success stages in between. */
  lemma LaterStageRuns(conditions: seq<string>, j: nat, bad: set<nat>)
    requires Lead(conditions) < j < |conditions|
    requires if conditions[j] != "on_success" then bad == AllBelow(|conditions|)
             else bad == {Lead(conditions)} && exists i :: Lead(conditions) < i < j && conditions[i] == "always"
    ensures var ss := Execution(conditions, bad);
            IsExecution(conditions, ss) && ss[Lead(conditions)] == Failed && ss[j] != Skipped
  {
    hide Execution, Lead;
    var f, ss := Lead(conditions), Execution(conditions, bad);
    ExecutionExecutes(conditions, bad);
    LeadIsSkipped(conditions, ss, f);
    assert ss[f] != Skipped;
    assert ss[f] == Failed;
    var k := LastRun(ss[..j]);
    if conditions[j] == "on_success" {
      var i :| f < i < j && conditions[i] == "always";
      assert ss[..j][i] != Skipped;
      assert k >= i;
      assert ss[k] == Completed;
    } else {
      assert ss[..j][f] != Skipped;
      assert k in bad && ss[k] == Failed;
    }
  }

  ghost function AllBelow(n: nat): (s: set<nat>)
    ensures forall i: nat :: i in s <==> i < n
  {
    if n == 0 then {} else AllBelow(n - 1) + {n - 1}
  }

  /** The pipeline stops as documented, whatever its stages come to, exactly when its conditions have that shape. */
  lemma StopsExactlyWhen(conditions: seq<string>)
    ensures StopsOnFailure(conditions) <==> SuccessThenAlways(conditions)
  {
    if StopsOnFailure(conditions) {
      forall j | Lead(conditions) < j < |conditions|
        ensures conditions[j] == "always"
                || (conditions[j] == "on_success" && !exists i :: Lead(conditions) < i < j && conditions[i] == "always")
      {
        StopsOnlyWhen(conditions, j);
      }
    }
    if SuccessThenAlways(conditions) {
      forall ss, i, j | IsExecution(conditions, ss) && 0 <= i < j < |ss| && ss[i] == Failed && ss[j] != Skipped
        ensures conditions[j] == "always"
      {
        StopsWhen(conditions, ss, i, j);
      }
    }
  }

  lemma StopsOnlyWhen(conditions: seq<string>, j: nat)
    requires StopsOnFailure(conditions) && Lead(conditions) < j < |conditions|
    ensures conditions[j] == "always"
            || (conditions[j] == "on_success" && !exists i :: Lead(conditions) < i < j && conditions[i] == "always")
  {
    hide IsExecution, Execution;
    if conditions[j] != "on_success" || exists i :: Lead(conditions) < i < j && conditions[i] == "always" {
      var bad := if conditions[j] != "on_success" then AllBelow(|conditions|) else {Lead(conditions)};
      LaterStageRuns(conditions, j, bad);
    }
  }

  lemma StopsWhen(conditions: seq<string>, ss: seq<Status>, i: nat, j: nat)
    requires IsExecution(conditions, ss) && i < j < |ss|
    ensures SuccessThenAlways(conditions) && ss[i] == Failed && ss[j] != Skipped ==> conditions[j] == "always"
  {
    hide IsExecution;
    LeadIsSkipped(conditions, ss, Lead(conditions));
    AllEnded(conditions, ss);
    if SuccessThenAlways(conditions) && ss[i] == Failed && ss[j] != Skipped && conditions[j] != "always" {
      var k := RunsAgainOnlyThroughAnother(conditions, ss, i, j);
      assert false;
    }
  }

  lemma AllEnded(conditions: seq<string>, ss: seq<Status>)
    requires IsExecution(conditions, ss)
    ensures |conditions| == |ss|
    ensures Failed in ss <==> exists i :: 0 <= i < |ss| && ss[i] != Completed && ss[i] != Skipped
  {
  }

  /** A three-stage pipeline whose last stage runs although the first one failed. */
  lemma RunsOnAfterFailure()
    ensures !StopsOnFailure(["on_success", "always", "on_success"])
  {
    var cs := ["on_success", "always", "on_success"];
    assert cs[0] != "on_failure";
    assert cs[1] == "always" && cs[2] != "always";
    StopsExactlyWhen(cs);
  }

  // ---------------------------------------------------------------- the orchestrator

  class PipelineStage {
    const name: string
    const condition: string
    var status: Status
    var jobId: string
    var error: string

    constructor (name: string, condition: string)
      ensures this.name == name && this.condition == condition && status == Pending && jobId == "" && error == ""
    {
      this.name, this.condition, status, jobId, error := name, condition, Pending, "", "";
    }
  }

  class JobPipeline {
    const id: string
    const stages: seq<PipelineStage>
    var status: PipelineStatus
    var startedAt: Option<real>
    var completedAt: Option<real>
    var currentStageIndex: nat

    constructor (id: string, stages: seq<PipelineStage>)
      ensures this.id == id && this.stages == stages && status == Draft
    {
      this.id, this.stages, status, startedAt, completedAt, currentStageIndex := id, stages, Draft, None, None, 0;
    }
  }

  /** The agent that takes the work: it answers as it likes and remembers what it was given. */
  class Agent {
    ghost var submitted: seq<string>
    ghost var answers: seq<Outcome>

    method SubmitOperatorIntake(name: string) returns (o: Outcome)
      modifies this
      ensures submitted == old(submitted) + [name] && answers == old(answers) + [o]
    {
      o := *;
      submitted, answers := submitted + [name], answers + [o];
    }
  }

  function Conditions(stages: seq<PipelineStage>): (cs: seq<string>) {
    seq(|stages|, i requires 0 <= i < |stages| => stages[i].condition)
  }

  function Statuses(stages: seq<PipelineStage>): (ss: seq<Status>)
    reads stages
  {
    seq(|stages|, i requires 0 <= i < |stages| reads stages => stages[i].status)
  }

  const NO_AGENT := "No agent configured for pipeline execution."

  function Truncated(s: string): (t: string)
    ensures t <= s && |t| == Min(200, |s|)
  {
    if |s| <= 200 then s else s[..200]
  }

  datatype Answer =
    | NotFound
    | NoStages
    | Finished(ok: bool, status: PipelineStatus, executed: nat, total: nat, stages: seq<Status>)

  /** The stages counted as executed are those that were run and did not raise. */
  ghost function Counted(rs: seq<Option<Outcome>>): nat {
    if rs == [] then 0
    else Counted(rs[..|rs| - 1]) + if rs[|rs| - 1].Some? && !rs[|rs| - 1].value.Raised? then 1 else 0
  }

  ghost function Submitted(stages: seq<PipelineStage>, rs: seq<Option<Outcome>>): seq<string>
    requires |rs| <= |stages|
  {
    if rs == [] then []
    else
      var n := |rs| - 1;
      Submitted(stages, rs[..n]) + if rs[n].Some? then [stages[n].name] else []
  }

  lemma {:induction false} CountedMeans(rs: seq<Option<Outcome>>)
    ensures Counted(rs) == |set i: nat | i < |rs| && rs[i].Some? && !rs[i].value.Raised?|
  {
    if rs != [] {
      var n := |rs| - 1;
      CountedMeans(rs[..n]);
      assert (set i: nat | i < |rs| && rs[i].Some? && !rs[i].value.Raised?)
          == (set i: nat | i < n && rs[..n][i].Some? && !rs[..n][i].value.Raised?)
             + if rs[n].Some? && !rs[n].value.Raised? then {n} else {};
    }
  }

  /** The outcomes of the stages that ran. */
  ghost function Ran(rs: seq<Option<Outcome>>): seq<Outcome> {
    if rs == [] then [] else Ran(rs[..|rs| - 1]) + if rs[|rs| - 1].Some? then [rs[|rs| - 1].value] else []
  }

  /** A stage that ran had its outcome from the agent; without one it fails. */
  ghost predicate FailsAlone(r: Option<Outcome>) { r.Some? ==> r.value == NotOk(NO_AGENT) }

  ghost predicate IsNew(s: PipelineStage, def: (string, string))
    reads s
  {
    s.name == def.0 && s.condition == def.1 && s.status == Pending && s.jobId == "" && s.error == ""
  }

  /** How a stage looks after its result. */
  ghost predicate Reflects(s: PipelineStage, r: Option<Outcome>)
    reads s
  {
    match r
    case None => s.status == Skipped
    case Some(Ok(job)) => s.status == Completed && s.jobId == job
    case Some(NotOk(e)) => s.status == Failed && s.error == Truncated(e)
    case Some(Raised(e)) => s.status == Failed && s.error == Truncated(e)
  }

  class PipelineOrchestrator {
    const agent: Agent?
    var pipelines: map<string, JobPipeline>

    ghost predicate Valid()
      reads this
    {
      forall id :: id in pipelines ==> pipelines[id].id == id && Distinct(pipelines[id].stages)
    }

    ghost function Footprint(id: string): set<object>
      reads this
    {
      if id in pipelines then {pipelines[id]} + (set s: object | s in pipelines[id].stages) else {}
    }

    constructor (agent: Agent?)
      ensures Valid() && pipelines == map[] && this.agent == agent
    {
      this.agent, pipelines := agent, map[];
    }

    method CreatePipeline(id: string, defs: seq<(string, string)>) returns (p: JobPipeline)
      requires Valid() && id !in pipelines
      modifies this
      ensures Valid() && pipelines == old(pipelines)[id := p] && fresh(p) && p.status == Draft
      ensures |p.stages| == |defs|
      ensures forall i :: 0 <= i < |defs| ==> fresh(p.stages[i]) && IsNew(p.stages[i], defs[i])
    {
      var stages: seq<PipelineStage> := [];
      for i := 0 to |defs|
        invariant pipelines == old(pipelines) && |stages| == i && Distinct(stages)
        invariant forall k :: 0 <= k < i ==> fresh(stages[k]) && IsNew(stages[k], defs[k])
      {
        var s := new PipelineStage(defs[i].0, defs[i].1);
        stages := stages + [s];
      }
      p := new JobPipeline(id, stages);
      pipelines := pipelines[id := p];
    }

    /** One stage's work: without an agent it fails. */
    method ExecuteStage(s: PipelineStage) returns (o: Outcome)
      modifies agent
      ensures agent != null ==> agent.submitted == old(agent.submitted) + [s.name]
      ensures agent != null ==> agent.answers == old(agent.answers) + [o]
      ensures agent == null ==> o == NotOk(NO_AGENT)
    {
      if agent == null {
        return NotOk(NO_AGENT);
      }
      o := agent.SubmitOperatorIntake(s.name);
    }

    /** The stages run as declared; the pipeline is ok exactly when no stage failed. */
    method ExecutePipeline(id: string, now: real, later: real) returns (a: Answer, ghost rs: seq<Option<Outcome>>)
      requires Valid()
      modifies Footprint(id), agent
      ensures Valid()
      ensures id !in pipelines ==> a == NotFound
      ensures id in pipelines && pipelines[id].stages == [] ==> a == NoStages
      ensures !a.Finished? ==> unchanged(Footprint(id)) && (agent != null ==> unchanged(agent))
      ensures a.Finished? <==> id in pipelines && pipelines[id].stages != []
      ensures a.Finished? ==>
                var p := pipelines[id];
                && a.stages == Statuses(p.stages) && a.total == |p.stages| && a.status == p.status
                && IsExecution(Conditions(p.stages), a.stages)
                && (a.ok <==> Failed !in a.stages) && a.status == (if a.ok then Done else Broken)
                && p.startedAt == Some(now) && p.completedAt == Some(later)
                && |rs| == |p.stages| && (forall i :: 0 <= i < |rs| ==> Reflects(p.stages[i], rs[i]))
                && a.executed == |set i: nat | i < |rs| && rs[i].Some? && !rs[i].value.Raised?|
                && (agent != null ==> agent.submitted == old(agent.submitted) + Submitted(p.stages, rs))
                && (agent != null ==> agent.answers == old(agent.answers) + Ran(rs))
                && (agent == null ==> forall i :: 0 <= i < |rs| ==> FailsAlone(rs[i]))
    {
      hide IsExecution, Counted, Submitted, Ran, FailsAlone, Reflects;
      rs := [];
      if id !in pipelines {
        return NotFound, rs;
      }
      var p := pipelines[id];
      if p.stages == [] {
        return NoStages, rs;
      }
      p.status, p.startedAt := Executing, Some(now);
      var executed: nat;
      executed, rs := RunStages(p);
      CountedMeans(rs);
      p.completedAt := Some(later);
      AllEnded(Conditions(p.stages), Statuses(p.stages));
      var ok := forall s <- p.stages :: s.status == Completed || s.status == Skipped;
      p.status := if ok then Done else Broken;
      assert ok <==> Failed !in Statuses(p.stages) by {
        assert forall i :: 0 <= i < |p.stages| ==> Statuses(p.stages)[i] == p.stages[i].status;
      }
      a := Finished(ok, p.status, executed, |p.stages|, Statuses(p.stages));
    }

    /** One stage: skipped, or run and marked with what came of it. */
    method RunStage(stage: PipelineStage, previous: Status) returns (counted: bool, ghost r: Option<Outcome>)
      modifies stage, agent
      ensures Reflects(stage, r) && stage.status in {Completed, Failed, Skipped}
      ensures stage.status == Skipped <==> !ShouldExecuteStage(stage.condition, previous)
      ensures stage.status == Skipped <==> || (stage.condition == "on_success" && previous != Completed)
                                           || (stage.condition == "on_failure" && previous != Failed)
      ensures counted <==> r.Some? && !r.value.Raised?
      ensures agent != null ==> agent.submitted == old(agent.submitted) + if r.Some? then [stage.name] else []
      ensures agent != null ==> agent.answers == old(agent.answers) + if r.Some? then [r.value] else []
      ensures agent == null ==> FailsAlone(r)
    {
      counted, r := false, None;
      if !ShouldExecuteStage(stage.condition, previous) {
        stage.status := Skipped;
        return;
      }
      stage.status := Running;
      var o := ExecuteStage(stage);
      r := Some(o);
      match o {
        case Ok(job) =>
          stage.status, stage.jobId, counted := Completed, job, true;
        case NotOk(e) =>
          stage.status, stage.error, counted := Failed, Truncated(e), true;
        case Raised(e) =>
          stage.status, stage.error := Failed, Truncated(e);
      }
    }

    method RunStages(p: JobPipeline) returns (executed: nat, ghost rs: seq<Option<Outcome>>)
      requires Distinct(p.stages)
      modifies p`currentStageIndex, p.stages, agent
      ensures IsExecution(Conditions(p.stages), Statuses(p.stages))
      ensures |rs| == |p.stages| && (forall i :: 0 <= i < |rs| ==> Reflects(p.stages[i], rs[i]))
      ensures executed == Counted(rs)
      ensures agent != null ==> agent.submitted == old(agent.submitted) + Submitted(p.stages, rs)
      ensures agent != null ==> agent.answers == old(agent.answers) + Ran(rs)
      ensures agent == null ==> forall i :: 0 <= i < |rs| ==> FailsAlone(rs[i])
    {
      hide IsExecution, Counted, Submitted, Ran, FailsAlone, Reflects, ShouldExecuteStage, LastRun, Previous;
      ghost var conditions := Conditions(p.stages);
      var lastStatus := Completed;
      executed, rs := 0, [];
      ghost var done: seq<Status> := [];
      NothingYet(p.stages, conditions);
      for i := 0 to |p.stages|
        invariant |rs| == |done| == i && executed == Counted(rs)
        invariant agent != null ==> agent.submitted == old(agent.submitted) + Submitted(p.stages, rs)
        invariant agent != null ==> agent.answers == old(agent.answers) + Ran(rs)
        invariant agent == null ==> forall k :: 0 <= k < i ==> FailsAlone(rs[k])
        invariant forall k :: 0 <= k < i ==> Reflects(p.stages[k], rs[k]) && done[k] == p.stages[k].status
        invariant IsExecution(conditions[..i], done)
        invariant lastStatus == Previous(done)
      {
        p.currentStageIndex := i;
        var stage := p.stages[i];
        var counted;
        ghost var r;
        counted, r := RunStage(stage, lastStatus);
        if stage.status != Skipped {
          lastStatus := stage.status;
        }
        if counted {
          executed := executed + 1;
        }
        OneMore(conditions[..i], done, stage.condition, stage.status);
        OneMoreResult(p.stages, rs, r);
        assert conditions[..i + 1] == conditions[..i] + [stage.condition];
        rs, done := rs + [r], done + [stage.status];
      }
      assert conditions[..|p.stages|] == conditions;
      assert done == Statuses(p.stages);
    }
  }

  lemma NothingYet(stages: seq<PipelineStage>, conditions: seq<string>)
    ensures IsExecution(conditions[..0], []) && Previous([]) == Completed
    ensures Counted([]) == 0 && Submitted(stages, []) == [] && Ran([]) == []
  {
  }

  lemma OneMoreResult(stages: seq<PipelineStage>, rs: seq<Option<Outcome>>, r: Option<Outcome>)
    requires |rs| < |stages|
    ensures Counted(rs + [r]) == Counted(rs) + if r.Some? && !r.value.Raised? then 1 else 0
    ensures Submitted(stages, rs + [r]) == Submitted(stages, rs) + if r.Some? then [stages[|rs|].name] else []
    ensures Ran(rs + [r]) == Ran(rs) + if r.Some? then [r.value] else []
  {
    assert (rs + [r])[..|rs|] == rs;
  }
}
