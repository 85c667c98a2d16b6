/** The pipeline execution tracker: polling one pipeline execution to a
    terminal outcome, following the execution that replaces it when the
    pipeline cancels or supersedes it. The pipeline service and the clock
    are oracles. */
module ApiTools {
  import opened Wrappers

  /** The status of a pipeline execution. Anything the code does not name,
      including a missing status (read as 'undefined'), is `Unrecognized`. */
  datatype ExecutionStatus =
    | Cancelled | InProgress | Stopped | Stopping | Succeeded | Superseded | Failed
    | Unrecognized(name: string)

  /** `response.pipelineExecution?.status || 'undefined'`, as a closed enumeration. */
  function ParseStatus(raw: Option<string>): (s: ExecutionStatus)
    ensures s == Succeeded <==> raw == Some("Succeeded")
    ensures s == InProgress <==> raw == Some("InProgress")
    ensures (s == Cancelled || s == Superseded) <==> (raw == Some("Cancelled") || raw == Some("Superseded"))
    ensures raw.None? || raw == Some("") ==> s == Unrecognized("undefined")
  {
    var name := if raw.Some? && raw.value != "" then raw.value else "undefined";
    if name == "Cancelled" then Cancelled
    else if name == "InProgress" then InProgress
    else if name == "Stopped" then Stopped
    else if name == "Stopping" then Stopping
    else if name == "Succeeded" then Succeeded
    else if name == "Superseded" then Superseded
    else if name == "Failed" then Failed
    else Unrecognized(name)
  }

  /** The parts of a `GetPipelineState` response the tracker reads. */
  datatype StageExecution = StageExecution(pipelineExecutionId: Option<string>)
  datatype StageState = StageState(stageName: Option<string>, latestExecution: Option<StageExecution>)
  datatype PipelineState = PipelineState(stageStates: Option<seq<StageState>>)

  /** `stageStates.findIndex(s => s.stageName === 'Source')`: the first
      Source stage's position, or -1. */
  function FindSourceIndex(stages: seq<StageState>): (i: int)
    ensures -1 <= i < |stages|
    ensures i >= 0 ==> stages[i].stageName == Some("Source")
    ensures forall j :: 0 <= j < |stages| && (i < 0 || j < i) ==> stages[j].stageName != Some("Source")
  {
    if stages == [] then -1
    else if stages[0].stageName == Some("Source") then 0
    else
      var k := FindSourceIndex(stages[1..]);
      if k < 0 then -1 else k + 1
  }

  /** The latest execution id of a stage, if it reports one. */
  function StageExecutionId(stage: StageState): Option<string> {
    if stage.latestExecution.Some? then stage.latestExecution.value.pipelineExecutionId else None
  }

  /** `getLatestPipelineExecutionId`, given the pipeline-state response. */
  function LatestExecutionId(state: PipelineState): Option<string> {
    if state.stageStates.None? then None
    else
      var stages := state.stageStates.value;
      var i := FindSourceIndex(stages);
      if i >= 0 then StageExecutionId(stages[i]) else None
  }

  /** The latest id is that of the first stage named Source; there is none
      when the response has no stages or no Source stage. */
  lemma LatestExecutionIdIsFirstSourceStage(state: PipelineState)
    ensures state.stageStates.None? ==> LatestExecutionId(state).None?
    ensures state.stageStates.Some? ==>
      var stages := state.stageStates.value;
      && ((forall j :: 0 <= j < |stages| ==> stages[j].stageName != Some("Source")) ==> LatestExecutionId(state).None?)
      && (forall i :: 0 <= i < |stages| && stages[i].stageName == Some("Source")
            && (forall j :: 0 <= j < i ==> stages[j].stageName != Some("Source"))
            ==> LatestExecutionId(state) == StageExecutionId(stages[i]))
  {
  }

  /** The pipeline service as seen by the tracker. Both calls may raise. */
  datatype CodePipeline = CodePipeline(
    // `GetPipelineExecution` for (pipeline, execution id, poll number): its status field
    getExecutionStatus: (string, string, nat) -> Reply<Option<string>>,
    // `GetPipelineState` for (pipeline, poll number after which it is made)
    getPipelineState: (string, nat) -> Reply<PipelineState>)

  /** Milliseconds an iteration of the polling loop takes: at least the 20 s sleep. */
  const PollIntervalMs := 20000
  type PollDelay = d: int | d >= PollIntervalMs witness PollIntervalMs

  /** The clock, relative to the start time read before the loop: the time
      elapsed at the first deadline check, and the time each iteration takes. */
  datatype Clock = Clock(firstCheck: nat, iterationTime: nat -> PollDelay)

  /** Time elapsed since the start at the deadline check before poll `k`. */
  function ElapsedAt(clock: Clock, k: nat): int {
    if k == 0 then clock.firstCheck else ElapsedAt(clock, k - 1) + clock.iterationTime(k - 1)
  }

  /** One status observation. */
  datatype Poll = Poll(executionId: string, status: ExecutionStatus)

  /** Why the tracker stopped. Only `Finished` makes it return `true`;
      `Threw` is a rejected promise. */
  datatype Ending =
    | Finished
    | TimedOut
    | NoLatestExecution
    | BadStatus(status: ExecutionStatus)
    | Threw(message: string)

  datatype Tracking = Tracking(ending: Ending, polls: seq<Poll>)

  /** A status after which the tracker keeps polling. */
  predicate KeepsPolling(s: ExecutionStatus) {
    s == InProgress || s == Cancelled || s == Superseded
  }

  /** Poll number `j` reports what the service answered for that execution. */
  predicate Observed(api: CodePipeline, pipeline: string, p: Poll, j: nat) {
    var reply := api.getExecutionStatus(pipeline, p.executionId, j);
    reply.Returned? && p.status == ParseStatus(reply.value)
  }

  /** The execution to poll after poll number `j`: the same one after
      InProgress, the Source stage's latest one after Cancelled or Superseded. */
  predicate Leads(api: CodePipeline, pipeline: string, p: Poll, j: nat, nextId: string)
    ensures Leads(api, pipeline, p, j, nextId) ==> KeepsPolling(p.status)
  {
    || (p.status == InProgress && nextId == p.executionId)
    || (&& (p.status == Cancelled || p.status == Superseded)
        && api.getPipelineState(pipeline, j).Returned?
        && LatestExecutionId(api.getPipelineState(pipeline, j).value) == Some(nextId))
  }

  /** One iteration of the polling loop after a deadline check that passed:
      it stops with an ending, or goes on with the execution to poll next
      and the time elapsed at the next check. */
  datatype Iteration =
    | Stop(ending: Ending, polls: seq<Poll>)
    | Continue(nextId: string, nextElapsed: int, polls: seq<Poll>)

  /** The body of the polling loop. It observes at most one status, and
      only an exception from the status query leaves nothing observed. The
      loop goes on exactly after InProgress, or after Cancelled or
      Superseded when the Source stage names an execution, and then polls
      that execution; Succeeded ends it with success, and any other status
      ends it with that status. */
  function PollOnce(api: CodePipeline, clock: Clock, pipeline: string, executionId: string,
                    elapsed: int, polls: seq<Poll>): (r: Iteration)
    ensures |r.polls| == |polls| || |r.polls| == |polls| + 1
    ensures r.polls[..|polls|] == polls
    ensures |r.polls| > |polls| ==> r.polls[|polls|].executionId == executionId && Observed(api, pipeline, r.polls[|polls|], |polls|)
    ensures |r.polls| == |polls| ==> r.Stop? && r.ending.Threw?
    ensures r.Continue? ==> && |r.polls| == |polls| + 1
                            && Leads(api, pipeline, r.polls[|polls|], |polls|, r.nextId)
                            && r.nextElapsed == elapsed + clock.iterationTime(|polls|)
    ensures r.Stop? ==> r.ending != TimedOut
    ensures r.Stop? ==> (r.ending == Finished <==> |r.polls| > |polls| && r.polls[|polls|].status == Succeeded)
    ensures r.Stop? && r.ending.BadStatus? ==>
      && |r.polls| > |polls| && r.polls[|polls|].status == r.ending.status
      && r.ending.status != Succeeded && !KeepsPolling(r.ending.status)
    ensures r.Stop? && r.ending == NoLatestExecution ==>
      && |r.polls| > |polls|
      && (r.polls[|polls|].status == Cancelled || r.polls[|polls|].status == Superseded)
      && api.getPipelineState(pipeline, |polls|).Returned?
      && LatestExecutionId(api.getPipelineState(pipeline, |polls|).value).None?
  {
    var k := |polls|;
    match api.getExecutionStatus(pipeline, executionId, k)
    case Raised(m) => Stop(Threw(m), polls)
    case Returned(raw) =>
      var status := ParseStatus(raw);
      var observed := polls + [Poll(executionId, status)];
      assert observed[..k] == polls;
      var next := elapsed + clock.iterationTime(k);
      if status == Succeeded then Stop(Finished, observed)
      else if status == InProgress then Continue(executionId, next, observed)
      else if status == Cancelled || status == Superseded then
        match api.getPipelineState(pipeline, k)
        case Raised(m) => Stop(Threw(m), observed)
        case Returned(state) =>
          match LatestExecutionId(state)
          case None => Stop(NoLatestExecution, observed)
          case Some(newId) => Continue(newId, next, observed)
      else Stop(BadStatus(status), observed)
  }

  /** The loop body throws only when the status query, or the
      pipeline-state query after Cancelled or Superseded, raised. */
  lemma PollOnceThrowsOnlyOnRaise(api: CodePipeline, clock: Clock, pipeline: string, executionId: string,
                                  elapsed: int, polls: seq<Poll>)
    ensures var r := PollOnce(api, clock, pipeline, executionId, elapsed, polls);
      r.Stop? && r.ending.Threw? ==>
        || (|r.polls| == |polls| && api.getExecutionStatus(pipeline, executionId, |polls|).Raised?)
        || (&& |r.polls| == |polls| + 1
            && (r.polls[|polls|].status == Cancelled || r.polls[|polls|].status == Superseded)
            && api.getPipelineState(pipeline, |polls|).Raised?)
  {
  }

  /** The converse half of the loop body: after InProgress it goes on with
      the same execution, after a status that leads to `nextId` it goes on
      with `nextId`, and after any other status but Succeeded it ends with
      that status. */
  lemma PollOnceGoesOnWhenItShould(api: CodePipeline, clock: Clock, pipeline: string, executionId: string,
                                   elapsed: int, polls: seq<Poll>, nextId: string)
    ensures var r := PollOnce(api, clock, pipeline, executionId, elapsed, polls);
      && (|r.polls| > |polls| && r.polls[|polls|].status == InProgress ==> r.Continue? && r.nextId == executionId)
      && (|r.polls| > |polls| && Leads(api, pipeline, r.polls[|polls|], |polls|, nextId) ==> r.Continue? && r.nextId == nextId)
      && (|r.polls| > |polls| && r.polls[|polls|].status != Succeeded && !KeepsPolling(r.polls[|polls|].status) ==>
            r == Stop(BadStatus(r.polls[|polls|].status), r.polls))
  {
  }

  /** The tracker from one deadline check on: tracking `executionId`, with
      `elapsed` ms gone since the start and `polls` observed so far. A check
      past the deadline ends it without another poll. */
  function Track(api: CodePipeline, clock: Clock, pipeline: string, executionId: string,
                 deadlineMs: int, elapsed: int, polls: seq<Poll>): Tracking
    decreases if elapsed > deadlineMs then 0 else deadlineMs - elapsed + 1
  {
    if elapsed > deadlineMs then Tracking(TimedOut, polls)
    else match PollOnce(api, clock, pipeline, executionId, elapsed, polls)
      case Stop(ending, observed) => Tracking(ending, observed)
      case Continue(nextId, next, observed) => Track(api, clock, pipeline, nextId, deadlineMs, next, observed)
  }

  /** A deadline check that passes, followed by an iteration that goes
      on, leaves the tracker's outcome to the next check. */
  lemma TrackContinues(api: CodePipeline, clock: Clock, pipeline: string, executionId: string,
                       deadlineMs: int, elapsed: int, polls: seq<Poll>)
    requires elapsed <= deadlineMs
    requires PollOnce(api, clock, pipeline, executionId, elapsed, polls).Continue?
    ensures var r := PollOnce(api, clock, pipeline, executionId, elapsed, polls);
      Track(api, clock, pipeline, executionId, deadlineMs, elapsed, polls)
        == Track(api, clock, pipeline, r.nextId, deadlineMs, r.nextElapsed, r.polls)
  {
  }

  /** The default maximum wait, 30 minutes. */
  const DefaultMaxWaitSeconds := 30 * 60

  /** `waitPipelineExecution`: polls the execution until it succeeds, fails,
      can no longer be followed, or the time since the start exceeds
      `maxWaitSeconds`. Returns `true` only on success, together with the
      ending and the statuses observed. */
  method WaitPipelineExecution(api: CodePipeline, clock: Clock, pipeline: string, executionId: string, maxWaitSeconds: int)
    returns (ok: bool, ending: Ending, polls: seq<Poll>)
    ensures Tracking(ending, polls) == Track(api, clock, pipeline, executionId, maxWaitSeconds * 1000, clock.firstCheck, [])
    ensures ok <==> ending == Finished
  {
    var deadlineMs := maxWaitSeconds * 1000;
    var trackedId := executionId;     // input.pipelineExecutionId
    var elapsed := clock.firstCheck;  // Date.now() - startTime
    polls := [];
    while elapsed <= deadlineMs
      invariant Track(api, clock, pipeline, executionId, deadlineMs, clock.firstCheck, [])
             == Track(api, clock, pipeline, trackedId, deadlineMs, elapsed, polls)
      decreases deadlineMs - elapsed
    {
      ghost var iteration := PollOnce(api, clock, pipeline, trackedId, elapsed, polls);
      ghost var trackedBefore, elapsedBefore, pollsBefore := trackedId, elapsed, polls;
      var k := |polls|;
      var response := api.getExecutionStatus(pipeline, trackedId, k);
      if response.Raised? {
        assert iteration == Stop(Threw(response.message), polls);
        return false, Threw(response.message), polls;
      }
      var status := ParseStatus(response.value);
      polls := polls + [Poll(trackedId, status)];
      if status == Succeeded {
        assert iteration == Stop(Finished, polls);
        return true, Finished, polls;
      } else if status == InProgress {
        assert iteration == Continue(trackedId, elapsed + clock.iterationTime(k), polls);
      } else if status == Cancelled || status == Superseded {
        var lookup := api.getPipelineState(pipeline, k);
        if lookup.Raised? {
          assert iteration == Stop(Threw(lookup.message), polls);
          return false, Threw(lookup.message), polls;
        }
        var newExecutionId := LatestExecutionId(lookup.value);
        if newExecutionId.None? {
          assert iteration == Stop(NoLatestExecution, polls);
          return false, NoLatestExecution, polls;
        }
        assert iteration == Continue(newExecutionId.value, elapsed + clock.iterationTime(k), polls);
        trackedId := newExecutionId.value;
      } else {
        assert iteration == Stop(BadStatus(status), polls);
        return false, BadStatus(status), polls;
      }
      elapsed := elapsed + clock.iterationTime(k);
      TrackContinues(api, clock, pipeline, trackedBefore, deadlineMs, elapsedBefore, pollsBefore);
      assert iteration == Continue(trackedId, elapsed, polls);
    }
    return false, TimedOut, polls;
  }
  // ---------------------------------------------------------------------
  // Properties of the tracker
  // ---------------------------------------------------------------------

  /** The tracker only appends observations: the first new poll is of the
      execution it was given, each poll reports the service's answer, and
      each execution polled is the one the previous status leads to (so every
      poll but the last saw a status the tracker keeps polling after). */
  lemma {:induction false} TrackFollowsExecutions(api: CodePipeline, clock: Clock, pipeline: string, executionId: string,
                                                  deadlineMs: int, elapsed: int, polls: seq<Poll>)
    ensures var t := Track(api, clock, pipeline, executionId, deadlineMs, elapsed, polls);
      && |polls| <= |t.polls| && t.polls[..|polls|] == polls
      && (|t.polls| > |polls| ==> t.polls[|polls|].executionId == executionId)
      && (forall j :: |polls| <= j < |t.polls| ==> Observed(api, pipeline, t.polls[j], j))
      && (forall j :: |polls| <= j < |t.polls| - 1 ==> Leads(api, pipeline, t.polls[j], j, t.polls[j + 1].executionId))
    decreases if elapsed > deadlineMs then 0 else deadlineMs - elapsed + 1
  {
    if elapsed <= deadlineMs {
      var r := PollOnce(api, clock, pipeline, executionId, elapsed, polls);
      if r.Continue? {
        TrackFollowsExecutions(api, clock, pipeline, r.nextId, deadlineMs, r.nextElapsed, r.polls);
        var t := Track(api, clock, pipeline, r.nextId, deadlineMs, r.nextElapsed, r.polls);
        assert t.polls[..|r.polls|][..|polls|] == t.polls[..|polls|];
        assert t.polls[|polls|] == r.polls[|polls|];
      }
    }
  }

  /** The tracker only appends to the polls it is given. */
  lemma {:induction false} TrackExtends(api: CodePipeline, clock: Clock, pipeline: string, executionId: string,
                                        deadlineMs: int, elapsed: int, polls: seq<Poll>)
    ensures var t := Track(api, clock, pipeline, executionId, deadlineMs, elapsed, polls);
      |polls| <= |t.polls| && t.polls[..|polls|] == polls
    decreases if elapsed > deadlineMs then 0 else deadlineMs - elapsed + 1
  {
    if elapsed <= deadlineMs {
      var r := PollOnce(api, clock, pipeline, executionId, elapsed, polls);
      if r.Continue? {
        TrackExtends(api, clock, pipeline, r.nextId, deadlineMs, r.nextElapsed, r.polls);
        var t := Track(api, clock, pipeline, r.nextId, deadlineMs, r.nextElapsed, r.polls);
        assert t.polls[..|r.polls|][..|polls|] == t.polls[..|polls|];
      }
    }
  }

  /** The tracker succeeds exactly when the last status it observed is Succeeded. */
  lemma {:induction false} TrackSucceedsOnlyOnSucceeded(api: CodePipeline, clock: Clock, pipeline: string, executionId: string,
                                                        deadlineMs: int, elapsed: int, polls: seq<Poll>)
    ensures var t := Track(api, clock, pipeline, executionId, deadlineMs, elapsed, polls);
      t.ending == Finished <==> |t.polls| > |polls| && t.polls[|t.polls| - 1].status == Succeeded
    decreases if elapsed > deadlineMs then 0 else deadlineMs - elapsed + 1
  {
    if elapsed <= deadlineMs {
      var r := PollOnce(api, clock, pipeline, executionId, elapsed, polls);
      if r.Continue? {
        TrackSucceedsOnlyOnSucceeded(api, clock, pipeline, r.nextId, deadlineMs, r.nextElapsed, r.polls);
        TrackExtends(api, clock, pipeline, r.nextId, deadlineMs, r.nextElapsed, r.polls);
        var t := Track(api, clock, pipeline, r.nextId, deadlineMs, r.nextElapsed, r.polls);
        if |t.polls| == |r.polls| {
          assert t.polls == r.polls;
        }
      }
    }
  }

  /** The failing endings, read off the last status observed: a bad status
      is one the tracker does not keep polling after, and a lost execution
      follows Cancelled or Superseded with no Source-stage id. */
  lemma {:induction false} TrackFailureEndings(api: CodePipeline, clock: Clock, pipeline: string, executionId: string,
                                               deadlineMs: int, elapsed: int, polls: seq<Poll>)
    ensures var t := Track(api, clock, pipeline, executionId, deadlineMs, elapsed, polls);
      var n := |t.polls|;
      && (t.ending.BadStatus? ==> n > |polls| && t.polls[n - 1].status == t.ending.status
                                  && t.ending.status != Succeeded && !KeepsPolling(t.ending.status))
      && (t.ending == NoLatestExecution ==>
            && n > |polls|
            && (t.polls[n - 1].status == Cancelled || t.polls[n - 1].status == Superseded)
            && api.getPipelineState(pipeline, n - 1).Returned?
            && LatestExecutionId(api.getPipelineState(pipeline, n - 1).value).None?)
    decreases if elapsed > deadlineMs then 0 else deadlineMs - elapsed + 1
  {
    if elapsed <= deadlineMs {
      var r := PollOnce(api, clock, pipeline, executionId, elapsed, polls);
      if r.Continue? {
        TrackFailureEndings(api, clock, pipeline, r.nextId, deadlineMs, r.nextElapsed, r.polls);
      }
    }
  }

  /** The tracker throws only when a call raised: the status query for the
      execution it was following (the given one before any poll, the same
      one after InProgress, the Source stage's latest one after Cancelled
      or Superseded), or the pipeline-state query after Cancelled or
      Superseded. */
  lemma {:induction false} TrackThrowsOnlyOnRaise(api: CodePipeline, clock: Clock, pipeline: string, executionId: string,
                                                  deadlineMs: int, elapsed: int, polls: seq<Poll>)
    ensures var t := Track(api, clock, pipeline, executionId, deadlineMs, elapsed, polls);
      var n := |t.polls|;
      t.ending.Threw? ==>
        || (n == |polls| && api.getExecutionStatus(pipeline, executionId, n).Raised?)
        || (&& n > |polls|
            && (t.polls[n - 1].status == Cancelled || t.polls[n - 1].status == Superseded)
            && api.getPipelineState(pipeline, n - 1).Raised?)
        || (&& n > |polls| && t.polls[n - 1].status == InProgress
            && api.getExecutionStatus(pipeline, t.polls[n - 1].executionId, n).Raised?)
        || (&& n > |polls|
            && (t.polls[n - 1].status == Cancelled || t.polls[n - 1].status == Superseded)
            && api.getPipelineState(pipeline, n - 1).Returned?
            && LatestExecutionId(api.getPipelineState(pipeline, n - 1).value).Some?
            && api.getExecutionStatus(pipeline, LatestExecutionId(api.getPipelineState(pipeline, n - 1).value).value, n).Raised?)
    decreases if elapsed > deadlineMs then 0 else deadlineMs - elapsed + 1
  {
    if elapsed <= deadlineMs {
      var r := PollOnce(api, clock, pipeline, executionId, elapsed, polls);
      PollOnceThrowsOnlyOnRaise(api, clock, pipeline, executionId, elapsed, polls);
      if r.Continue? {
        var t := Track(api, clock, pipeline, r.nextId, deadlineMs, r.nextElapsed, r.polls);
        assert Track(api, clock, pipeline, executionId, deadlineMs, elapsed, polls) == t;
        TrackThrowsOnlyOnRaise(api, clock, pipeline, r.nextId, deadlineMs, r.nextElapsed, r.polls);
        TrackExtends(api, clock, pipeline, r.nextId, deadlineMs, r.nextElapsed, r.polls);
        if |t.polls| == |r.polls| && t.ending.Threw? {
          assert t.polls == r.polls;
          var n := |t.polls|;
          assert api.getExecutionStatus(pipeline, r.nextId, n).Raised?;
          assert t.polls[n - 1] == r.polls[|polls|];
        }
      } else {
        assert Track(api, clock, pipeline, executionId, deadlineMs, elapsed, polls) == Tracking(r.ending, r.polls);
      }
    }
  }

  /** The tracker never gives up on an execution it should keep following:
      when the last observed status leads to `nextId` (InProgress, or
      Cancelled or Superseded with a Source-stage id), it ended by timeout
      or because the next status query, for `nextId`, raised. */
  lemma TrackOnlyStopsOnEnding(api: CodePipeline, clock: Clock, pipeline: string, executionId: string,
                               deadlineMs: int, elapsed: int, polls: seq<Poll>, nextId: string)
    ensures var t := Track(api, clock, pipeline, executionId, deadlineMs, elapsed, polls);
      var n := |t.polls|;
      n > |polls| && Leads(api, pipeline, t.polls[n - 1], n - 1, nextId) ==>
        t.ending == TimedOut || (t.ending.Threw? && api.getExecutionStatus(pipeline, nextId, n).Raised?)
  {
    TrackSucceedsOnlyOnSucceeded(api, clock, pipeline, executionId, deadlineMs, elapsed, polls);
    TrackFailureEndings(api, clock, pipeline, executionId, deadlineMs, elapsed, polls);
    TrackThrowsOnlyOnRaise(api, clock, pipeline, executionId, deadlineMs, elapsed, polls);
  }

  /** The deadline counts from the original start, across every switch to a
      new execution id: each poll happened no later than the deadline, and
      a timeout means the check after the last poll was past it. */
  lemma {:induction false} TrackDeadline(api: CodePipeline, clock: Clock, pipeline: string, executionId: string,
                                         deadlineMs: int, elapsed: int, polls: seq<Poll>)
    requires elapsed == ElapsedAt(clock, |polls|)
    ensures var t := Track(api, clock, pipeline, executionId, deadlineMs, elapsed, polls);
      && (forall j :: |polls| <= j < |t.polls| ==> ElapsedAt(clock, j) <= deadlineMs)
      && (t.ending == TimedOut ==> ElapsedAt(clock, |t.polls|) > deadlineMs)
    decreases if elapsed > deadlineMs then 0 else deadlineMs - elapsed + 1
  {
    if elapsed <= deadlineMs {
      var r := PollOnce(api, clock, pipeline, executionId, elapsed, polls);
      if r.Continue? {
        assert r.nextElapsed == ElapsedAt(clock, |r.polls|);
        TrackDeadline(api, clock, pipeline, r.nextId, deadlineMs, r.nextElapsed, r.polls);
      }
    }
  }

  /** Each iteration takes at least the poll interval. */
  lemma {:induction false} ElapsedGrows(clock: Clock, k: nat)
    ensures ElapsedAt(clock, k) >= clock.firstCheck + PollIntervalMs * k
  {
    if k > 0 {
      ElapsedGrows(clock, k - 1);
    }
  }

  /** A wait of `maxWaitSeconds` makes at most maxWaitSeconds*1000/20000 + 1 polls. */
  lemma PollCountBounded(api: CodePipeline, clock: Clock, pipeline: string, executionId: string, maxWaitSeconds: int)
    ensures var t := Track(api, clock, pipeline, executionId, maxWaitSeconds * 1000, clock.firstCheck, []);
      PollIntervalMs * (|t.polls| - 1) <= maxWaitSeconds * 1000 - clock.firstCheck || t.polls == []
  {
    var t := Track(api, clock, pipeline, executionId, maxWaitSeconds * 1000, clock.firstCheck, []);
    TrackDeadline(api, clock, pipeline, executionId, maxWaitSeconds * 1000, clock.firstCheck, []);
    if t.polls != [] {
      ElapsedGrows(clock, |t.polls| - 1);
    }
  }

  // ---------------------------------------------------------------------
  // Scenarios
  // ---------------------------------------------------------------------

  /** A clock whose iterations take exactly the poll interval. */
  function SteadyClock(): Clock {
    Clock(0, k => PollIntervalMs)
  }

  /** A pipeline service whose execution "e1" reports the given statuses in
      turn and whose Source stage reports the given latest id. */
  function Scripted(statuses: seq<string>, latest: Option<string>): CodePipeline {
    CodePipeline(
      (p, e, k) => Returned(if 0 <= k < |statuses| then Some(statuses[k]) else None),
      (p, k) => Returned(PipelineState(Some([StageState(Some("Source"), Some(StageExecution(latest)))]))))
  }

  /** InProgress, InProgress, Succeeded: the wait succeeds. */
  lemma ScenarioSucceedsAfterProgress()
    ensures Track(Scripted(["InProgress", "InProgress", "Succeeded"], None), SteadyClock(), "p", "e1",
                  DefaultMaxWaitSeconds * 1000, 0, []).ending == Finished
  {
    var api := Scripted(["InProgress", "InProgress", "Succeeded"], None);
    var deadline := DefaultMaxWaitSeconds * 1000;
    var p0: seq<Poll> := [];
    var p1 := p0 + [Poll("e1", InProgress)];
    var p2 := p1 + [Poll("e1", InProgress)];
    assert PollOnce(api, SteadyClock(), "p", "e1", 0, p0) == Continue("e1", PollIntervalMs, p1);
    assert PollOnce(api, SteadyClock(), "p", "e1", PollIntervalMs, p1) == Continue("e1", 2 * PollIntervalMs, p2);
    assert PollOnce(api, SteadyClock(), "p", "e1", 2 * PollIntervalMs, p2).ending == Finished;
    assert Track(api, SteadyClock(), "p", "e1", deadline, 2 * PollIntervalMs, p2).ending == Finished;
    assert Track(api, SteadyClock(), "p", "e1", deadline, PollIntervalMs, p1)
        == Track(api, SteadyClock(), "p", "e1", deadline, 2 * PollIntervalMs, p2);
    assert Track(api, SteadyClock(), "p", "e1", deadline, 0, p0)
        == Track(api, SteadyClock(), "p", "e1", deadline, PollIntervalMs, p1);
  }

  /** A status sequence ending in Failed: the wait fails with that status. */
  lemma ScenarioFails()
    ensures Track(Scripted(["InProgress", "Failed"], None), SteadyClock(), "p", "e1",
                  DefaultMaxWaitSeconds * 1000, 0, []).ending == BadStatus(Failed)
  {
    var api := Scripted(["InProgress", "Failed"], None);
    var t1 := Track(api, SteadyClock(), "p", "e1", DefaultMaxWaitSeconds * 1000, PollIntervalMs, [Poll("e1", InProgress)]);
    assert t1.ending == BadStatus(Failed);
  }

  /** Cancelled, then the Source stage names "e2", which succeeds: the wait
      succeeds, having switched to "e2". */
  lemma ScenarioFollowsSelfMutation()
    ensures Track(Scripted(["Cancelled", "Succeeded"], Some("e2")), SteadyClock(), "p", "e1",
                  DefaultMaxWaitSeconds * 1000, 0, [])
         == Tracking(Finished, [Poll("e1", Cancelled), Poll("e2", Succeeded)])
  {
    var api := Scripted(["Cancelled", "Succeeded"], Some("e2"));
    assert LatestExecutionId(PipelineState(Some([StageState(Some("Source"), Some(StageExecution(Some("e2"))))]))) == Some("e2");
    var t1 := Track(api, SteadyClock(), "p", "e2", DefaultMaxWaitSeconds * 1000, PollIntervalMs, [Poll("e1", Cancelled)]);
    assert t1 == Tracking(Finished, [Poll("e1", Cancelled), Poll("e2", Succeeded)]);
  }

  /** Superseded with no id to follow: the wait fails. */
  lemma ScenarioSupersededWithoutSuccessor()
    ensures Track(Scripted(["Superseded"], None), SteadyClock(), "p", "e1",
                  DefaultMaxWaitSeconds * 1000, 0, []).ending == NoLatestExecution
  {
    assert LatestExecutionId(PipelineState(Some([StageState(Some("Source"), Some(StageExecution(None)))]))) == None;
  }
  /** An execution that stays InProgress under a 40-second limit: polls at
      0 s, 20 s and 40 s, then the check at 60 s is past the deadline and
      the wait times out without polling again. */
  lemma ScenarioTimesOut()
    ensures Track(Scripted(["InProgress", "InProgress", "InProgress", "InProgress"], None), SteadyClock(), "p", "e1",
                  40 * 1000, 0, [])
         == Tracking(TimedOut, [Poll("e1", InProgress), Poll("e1", InProgress), Poll("e1", InProgress)])
  {
    var api := Scripted(["InProgress", "InProgress", "InProgress", "InProgress"], None);
    var p0: seq<Poll> := [];
    var p1 := p0 + [Poll("e1", InProgress)];
    var p2 := p1 + [Poll("e1", InProgress)];
    var p3 := p2 + [Poll("e1", InProgress)];
    assert PollOnce(api, SteadyClock(), "p", "e1", 0, p0) == Continue("e1", PollIntervalMs, p1);
    assert PollOnce(api, SteadyClock(), "p", "e1", PollIntervalMs, p1) == Continue("e1", 2 * PollIntervalMs, p2);
    assert PollOnce(api, SteadyClock(), "p", "e1", 2 * PollIntervalMs, p2) == Continue("e1", 3 * PollIntervalMs, p3);
    assert Track(api, SteadyClock(), "p", "e1", 40 * 1000, 3 * PollIntervalMs, p3) == Tracking(TimedOut, p3);
    assert Track(api, SteadyClock(), "p", "e1", 40 * 1000, 2 * PollIntervalMs, p2)
        == Track(api, SteadyClock(), "p", "e1", 40 * 1000, 3 * PollIntervalMs, p3);
    assert Track(api, SteadyClock(), "p", "e1", 40 * 1000, PollIntervalMs, p1)
        == Track(api, SteadyClock(), "p", "e1", 40 * 1000, 2 * PollIntervalMs, p2);
  }
}
