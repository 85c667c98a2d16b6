/** The rollout coordinator of the `update-deployments` utility: triggers
    each provisioned deployment's pipeline in snapshot order, waits for it,
    and aborts the run once the error budget is used up. */
module UpdateDeployments {
  import opened Wrappers
  import opened Records
  import opened ConfigTools
  import opened ApiTools

  /** The reference error budget. */
  const ErrorBudget := 1

  /** The part of a `StartPipelineExecution` response the coordinator reads. */
  datatype StartResult = StartResult(pipelineExecutionId: Option<string>)

  /** The services a rollout calls: starting a pipeline, the pipeline
      service the tracker polls, and the clock of each pipeline's wait. */
  datatype Services = Services(
    startPipelineExecution: string -> Reply<StartResult>,
    codePipeline: CodePipeline,
    waitClock: string -> Clock)

  /** What happened to one deployment. */
  datatype Attempt =
    | Skipped        // not provisioned
    | StartRaised    // starting the pipeline threw
    | NoExecutionId  // the start response carried no execution id
    | WaitRaised     // waiting threw
    | WaitFailed     // waiting returned false
    | Updated        // waiting returned true

  /** Whether an attempt costs one unit of the error budget. */
  predicate CostsError(a: Attempt) {
    a != Skipped && a != Updated
  }

  /** The wait the coordinator makes for a started execution, with the default maximum wait. */
  function WaitFor(env: Services, pipelineName: string, executionId: string): Tracking {
    var clock := env.waitClock(pipelineName);
    Track(env.codePipeline, clock, pipelineName, executionId, DefaultMaxWaitSeconds * 1000, clock.firstCheck, [])
  }

  /** The outcome of processing one deployment. */
  function AttemptOf(env: Services, d: Deployment): Attempt {
    if !d.provisioned then Skipped
    else
      var name := PipelineName(d.deploymentType, d.id);
      match env.startPipelineExecution(name)
      case Raised(_) => StartRaised
      case Returned(start) =>
        if !Truthy(start.pipelineExecutionId) then NoExecutionId
        else
          var t := WaitFor(env, name, start.pipelineExecutionId.value);
          if t.ending.Threw? then WaitRaised
          else if t.ending != Finished then WaitFailed
          else Updated
  }

  /** The run's state: the error count, whether the process exited, and the
      pipelines started so far (the 'Starting execution' log). */
  datatype RolloutState = RolloutState(errors: nat, aborted: bool, started: seq<string>)

  /** `incrementErrors`: one more error, and an abort once the count reaches the budget. */
  function Increment(st: RolloutState, budget: int): RolloutState {
    st.(errors := st.errors + 1, aborted := st.aborted || st.errors + 1 >= budget)
  }

  /** Processing one deployment. */
  function Step(st: RolloutState, budget: int, env: Services, d: Deployment): RolloutState {
    if !d.provisioned then st
    else
      var st' := st.(started := st.started + [PipelineName(d.deploymentType, d.id)]);
      if CostsError(AttemptOf(env, d)) then Increment(st', budget) else st'
  }

  /** Processing the deployments in order until the end or an abort. */
  function Run(st: RolloutState, budget: int, env: Services, ds: seq<Deployment>): RolloutState
    decreases |ds|
  {
    if ds == [] || st.aborted then st
    else Run(Step(st, budget, env, ds[0]), budget, env, ds[1..])
  }

  // ---------------------------------------------------------------------
  // Properties of a run
  // ---------------------------------------------------------------------

  /** A deployment whose attempt fails: provisioned, and its start or wait failed. */
  predicate Fails(env: Services, d: Deployment) {
    CostsError(AttemptOf(env, d))
  }

  /** One deployment changes the error count by one exactly when it fails,
      whatever the kind of failure, and an unprovisioned one changes nothing. */
  lemma EachFailureCostsOneError(st: RolloutState, budget: int, env: Services, d: Deployment)
    ensures Step(st, budget, env, d).errors == st.errors + (if Fails(env, d) then 1 else 0)
    ensures Fails(env, d) ==> d.provisioned
    ensures !d.provisioned ==> Step(st, budget, env, d) == st
  {
  }

  /** The deployments that are provisioned, in order. */
  function ProvisionedOnly(ds: seq<Deployment>): (r: seq<Deployment>)
    ensures forall d :: d in r ==> d.provisioned
    decreases |ds|
  {
    if ds == [] then []
    else if ds[0].provisioned then [ds[0]] + ProvisionedOnly(ds[1..])
    else ProvisionedOnly(ds[1..])
  }

  /** Unprovisioned deployments, wherever they stand, make no difference to a run. */
  lemma {:induction false} UnprovisionedAreIgnored(st: RolloutState, budget: int, env: Services, ds: seq<Deployment>)
    ensures Run(st, budget, env, ds) == Run(st, budget, env, ProvisionedOnly(ds))
    decreases |ds|
  {
    if ds != [] && !st.aborted {
      if ds[0].provisioned {
        UnprovisionedAreIgnored(Step(st, budget, env, ds[0]), budget, env, ds[1..]);
        assert ProvisionedOnly(ds)[1..] == ProvisionedOnly(ds[1..]);
      } else {
        UnprovisionedAreIgnored(st, budget, env, ds[1..]);
      }
    }
  }

  /** How many deployments a run looks at before it ends or aborts. */
  function Consumed(st: RolloutState, budget: int, env: Services, ds: seq<Deployment>): nat
    decreases |ds|
  {
    if ds == [] || st.aborted then 0
    else 1 + Consumed(Step(st, budget, env, ds[0]), budget, env, ds[1..])
  }

  /** The pipeline names of the provisioned deployments, in order. */
  function StartedNames(ds: seq<Deployment>): seq<string>
    decreases |ds|
  {
    if ds == [] then []
    else (if ds[0].provisioned then [PipelineName(ds[0].deploymentType, ds[0].id)] else []) + StartedNames(ds[1..])
  }

  /** The number of failing deployments. */
  function FailureCount(env: Services, ds: seq<Deployment>): nat
    decreases |ds|
  {
    if ds == [] then 0
    else (if Fails(env, ds[0]) then 1 else 0) + FailureCount(env, ds[1..])
  }

  /** Taking a non-empty prefix and then dropping its head is dropping the
      head and taking one less. */
  lemma PrefixTail(ds: seq<Deployment>, n: nat)
    requires 0 < n <= |ds|
    ensures ds[..n][0] == ds[0] && ds[..n][1..] == ds[1..][..n - 1]
  {
  }

  /** A run looks at a prefix of the list; it stops short of the end only
      by aborting, and then the last deployment it looked at failed. */
  lemma {:induction false} RunConsumesPrefix(st: RolloutState, budget: int, env: Services, ds: seq<Deployment>)
    ensures var r, n := Run(st, budget, env, ds), Consumed(st, budget, env, ds);
      && n <= |ds|
      && (!r.aborted ==> n == |ds|)
      && (r.aborted && !st.aborted ==> n > 0 && Fails(env, ds[n - 1]))
    decreases |ds|
  {
    if ds != [] && !st.aborted {
      var st1 := Step(st, budget, env, ds[0]);
      RunConsumesPrefix(st1, budget, env, ds[1..]);
    }
  }

  /** The pipelines a run starts are those of the provisioned deployments of
      the prefix it looks at, in order. */
  lemma {:induction false} RunStartsPrefix(st: RolloutState, budget: int, env: Services, ds: seq<Deployment>)
    ensures Consumed(st, budget, env, ds) <= |ds|
    ensures Run(st, budget, env, ds).started == st.started + StartedNames(ds[..Consumed(st, budget, env, ds)])
    decreases |ds|
  {
    var n := Consumed(st, budget, env, ds);
    if ds != [] && !st.aborted {
      var st1 := Step(st, budget, env, ds[0]);
      RunStartsPrefix(st1, budget, env, ds[1..]);
      PrefixTail(ds, n);
      var head := if ds[0].provisioned then [PipelineName(ds[0].deploymentType, ds[0].id)] else [];
      assert st1.started == st.started + head;
      assert StartedNames(ds[..n]) == head + StartedNames(ds[1..][..n - 1]);
    } else {
      assert ds[..n] == [];
    }
  }

  /** The errors a run counts are the failures of the prefix it looks at. */
  lemma {:induction false} RunCountsPrefix(st: RolloutState, budget: int, env: Services, ds: seq<Deployment>)
    ensures Consumed(st, budget, env, ds) <= |ds|
    ensures Run(st, budget, env, ds).errors == st.errors + FailureCount(env, ds[..Consumed(st, budget, env, ds)])
    decreases |ds|
  {
    var n := Consumed(st, budget, env, ds);
    if ds != [] && !st.aborted {
      var st1 := Step(st, budget, env, ds[0]);
      RunCountsPrefix(st1, budget, env, ds[1..]);
      PrefixTail(ds, n);
    } else {
      assert ds[..n] == [];
    }
  }

  /** A run looks at a prefix of the snapshot, in order and each deployment
      once: it starts exactly the pipelines of the provisioned deployments
      of that prefix, named by the naming rule, and counts exactly their
      failures. It stops short of the end only by aborting, and then the
      last deployment it looked at failed. */
  lemma {:induction false} RunProcessesPrefix(st: RolloutState, budget: int, env: Services, ds: seq<Deployment>)
    ensures var r, n := Run(st, budget, env, ds), Consumed(st, budget, env, ds);
      && n <= |ds|
      && r.started == st.started + StartedNames(ds[..n])
      && r.errors == st.errors + FailureCount(env, ds[..n])
      && (!r.aborted ==> n == |ds|)
      && (r.aborted && !st.aborted ==> n > 0 && Fails(env, ds[n - 1]))
  {
    RunConsumesPrefix(st, budget, env, ds);
    RunStartsPrefix(st, budget, env, ds);
    RunCountsPrefix(st, budget, env, ds);
  }

  /** A run that was running ends without aborting only with its error count
      below the budget, or with no error counted at all. */
  lemma {:induction false} FinishedRunIsWithinBudget(st: RolloutState, budget: int, env: Services, ds: seq<Deployment>)
    requires !st.aborted
    ensures var r := Run(st, budget, env, ds);
      r.aborted ==> r.errors >= budget
    ensures var r := Run(st, budget, env, ds);
      !r.aborted ==> r.errors < budget || r.errors == st.errors
    decreases |ds|
  {
    if ds != [] {
      var st1 := Step(st, budget, env, ds[0]);
      if !st1.aborted {
        FinishedRunIsWithinBudget(st1, budget, env, ds[1..]);
      }
    }
  }

  /** Under any budget, a run that starts below it aborts exactly at the
      first failure that brings the error count up to the budget: the
      failures before the last deployment it looked at stay below the
      budget, and that deployment's failure reaches it. A run that does
      not abort stays below the budget over the whole list. */
  lemma {:induction false} RunAbortsWhenBudgetReached(st: RolloutState, budget: int, env: Services, ds: seq<Deployment>)
    requires !st.aborted && st.errors < budget
    ensures var r, n := Run(st, budget, env, ds), Consumed(st, budget, env, ds);
      && (r.aborted ==> && 0 < n <= |ds| && Fails(env, ds[n - 1])
                        && st.errors + FailureCount(env, ds[..n - 1]) + 1 == budget)
      && (!r.aborted ==> st.errors + FailureCount(env, ds) < budget)
    decreases |ds|
  {
    if ds != [] {
      var st1 := Step(st, budget, env, ds[0]);
      if st1.aborted {
        assert ds[..0] == [];
      } else {
        RunAbortsWhenBudgetReached(st1, budget, env, ds[1..]);
        RunProcessesPrefix(st1, budget, env, ds[1..]);
        var n := Consumed(st, budget, env, ds);
        if Run(st, budget, env, ds).aborted {
          assert ds[..n - 1][0] == ds[0];
          assert ds[..n - 1][1..] == ds[1..][..n - 2];
        }
      }
    }
  }

  /** With the reference budget of one, a fresh run aborts exactly when some
      deployment fails; the first failing deployment is then the last one
      looked at, and the error count is one; otherwise it is zero. */
  lemma {:induction false} BudgetOneStopsAtFirstFailure(st: RolloutState, env: Services, ds: seq<Deployment>)
    requires st.errors == 0 && !st.aborted
    ensures var r, n := Run(st, ErrorBudget, env, ds), Consumed(st, ErrorBudget, env, ds);
      && (r.aborted <==> exists j :: 0 <= j < |ds| && Fails(env, ds[j]))
      && (r.aborted ==> 0 < n <= |ds| && Fails(env, ds[n - 1]) && forall j :: 0 <= j < n - 1 ==> !Fails(env, ds[j]))
      && r.errors == (if r.aborted then 1 else 0)
    decreases |ds|
  {
    if ds != [] {
      var st1 := Step(st, ErrorBudget, env, ds[0]);
      if !Fails(env, ds[0]) {
        BudgetOneStopsAtFirstFailure(st1, env, ds[1..]);
        var r := Run(st, ErrorBudget, env, ds);
        if r.aborted {
          var n := Consumed(st, ErrorBudget, env, ds);
          assert forall j :: 1 <= j < n - 1 ==> ds[j] == ds[1..][j - 1];
        } else {
          assert forall j :: 1 <= j < |ds| ==> ds[j] == ds[1..][j - 1];
        }
      }
    }
  }

  /** The coordinator's process-level state. */
  class Rollout {
    const budget: int
    var errors: nat
    var aborted: bool
    var started: seq<string>

    function State(): RolloutState
      reads this
    {
      RolloutState(errors, aborted, started)
    }

    constructor (budget: int)
      ensures this.budget == budget
      ensures State() == RolloutState(0, false, [])
    {
      this.budget := budget;
      errors := 0;
      aborted := false;
      started := [];
    }

    /** `incrementErrors`: `process.exit(1)` once `errors >= budget` is the `aborted` flag. */
    method IncrementErrors()
      modifies this
      ensures State() == Increment(old(State()), budget)
    {
      errors := errors + 1;
      if errors >= budget {
        aborted := true;
      }
    }

    /** `processDeployments`: each deployment in order, skipping unprovisioned
        ones, starting and waiting for the others, and counting each failure
        once; the loop ends at the first abort. */
    method ProcessDeployments(deployments: seq<Deployment>, env: Services)
      modifies this
      ensures State() == Run(old(State()), budget, env, deployments)
    {
      var i := 0;
      while i < |deployments| && !aborted
        invariant 0 <= i <= |deployments|
        invariant Run(old(State()), budget, env, deployments) == Run(State(), budget, env, deployments[i..])
      {
        var deployment := deployments[i];
        assert deployments[i..][1..] == deployments[i + 1..];
        i := i + 1;
        if !deployment.provisioned {
          continue;
        }
        var pipelineName := PipelineName(deployment.deploymentType, deployment.id);
        started := started + [pipelineName];

        var startResult := env.startPipelineExecution(pipelineName);
        if startResult.Raised? {
          IncrementErrors();
          continue;
        }
        if !Truthy(startResult.value.pipelineExecutionId) {
          IncrementErrors();
          continue;
        }
        var executionId := startResult.value.pipelineExecutionId.value;
        var clock := env.waitClock(pipelineName);
        var waitResult, ending, polls := WaitPipelineExecution(env.codePipeline, clock, pipelineName, executionId, DefaultMaxWaitSeconds);
        if ending.Threw? {
          IncrementErrors();
          continue;
        }
        if !waitResult {
          IncrementErrors();
        }
      }
      if i < |deployments| {
        assert aborted;
      } else {
        assert deployments[i..] == [];
      }
    }
  }
  /** The `update-deployments` utility: reads the snapshot (a read failure
      other than a missing file escapes at start-up and exits 1), runs the
      rollout with the reference budget of one, and exits 1 exactly when
      the budget was exhausted; a zero exit means no error was counted. */
  method UpdateDeploymentsRun(store: FileStore, env: Services) returns (exitCode: int, errors: nat)
    ensures ReadConfig(store, SnapshotFile).Err? ==> exitCode == 1 && errors == 0
    ensures ReadConfig(store, SnapshotFile).Ok? ==>
      var r := Run(RolloutState(0, false, []), ErrorBudget, env, ReadConfig(store, SnapshotFile).value);
      exitCode == (if r.aborted then 1 else 0) && errors == r.errors
    ensures exitCode == 0 ==> errors == 0
  {
    var read := ReadConfig(store, SnapshotFile);
    if read.Err? {
      return 1, 0;
    }
    var allDeployments := read.value;
    var rollout := new Rollout(ErrorBudget);
    rollout.ProcessDeployments(allDeployments, env);
    FinishedRunIsWithinBudget(RolloutState(0, false, []), ErrorBudget, env, allDeployments);
    exitCode := if rollout.aborted then 1 else 0;
    errors := rollout.errors;
  }
}
