/** Properties that join the two utilities: the snapshot that
    `get-deployments` writes is what `update-deployments` reads, and every
    pipeline the rollout starts is the existing pipeline of an admitted
    record, by the one shared naming rule. */
module EndToEnd {
  import opened Wrappers
  import opened Records
  import opened ConfigTools
  import opened GetDeployments
  import opened UpdateDeployments

  /** Each started name belongs to a provisioned deployment of the list. */
  lemma {:induction false} StartedNamesAreProvisioned(ds: seq<Deployment>)
    ensures forall name :: name in StartedNames(ds) ==>
      exists d :: d in ds && d.provisioned && name == PipelineName(d.deploymentType, d.id)
    decreases |ds|
  {
    if ds != [] {
      StartedNamesAreProvisioned(ds[1..]);
      forall name | name in StartedNames(ds)
        ensures exists d :: d in ds && d.provisioned && name == PipelineName(d.deploymentType, d.id)
      {
        if name !in StartedNames(ds[1..]) {
          assert ds[0] in ds;
        } else {
          var d :| d in ds[1..] && d.provisioned && name == PipelineName(d.deploymentType, d.id);
          assert d in ds;
        }
      }
    }
  }

  /** The snapshot hand-off and the naming rule together: the rollout reads
      back the saved snapshot unchanged, and each pipeline it starts is in
      the stack list the snapshot was tagged against and is the pipeline of
      a snapshot entry, which the validator admits. */
  lemma RolloutStartsOnlyExistingPipelines(records: seq<DeploymentRecord>, regions: seq<string>, stacks: seq<string>,
                                           store: FileStore, env: Services)
    ensures var snapshot := Snapshot(records, regions, stacks);
      ReadConfig(SaveConfig(store, snapshot, SnapshotFile), SnapshotFile) == Ok(snapshot)
    ensures var snapshot := Snapshot(records, regions, stacks);
            var r := Run(RolloutState(0, false, []), ErrorBudget, env, snapshot);
      forall name :: name in r.started ==>
        && name in stacks
        && exists d :: d in snapshot && Admitted(AsRecord(d), regions) && name == PipelineName(d.deploymentType, d.id)
  {
    var snapshot := Snapshot(records, regions, stacks);
    var st0 := RolloutState(0, false, []);
    SaveThenRead(store, snapshot, SnapshotFile);
    RunProcessesPrefix(st0, ErrorBudget, env, snapshot);
    SnapshotElementsValid(records, regions, stacks);
    var n := Consumed(st0, ErrorBudget, env, snapshot);
    var prefix := snapshot[..n];
    StartedNamesAreProvisioned(prefix);
    var r := Run(st0, ErrorBudget, env, snapshot);
    forall name | name in r.started
      ensures name in stacks
      ensures exists d :: d in snapshot && Admitted(AsRecord(d), regions) && name == PipelineName(d.deploymentType, d.id)
    {
      assert name in StartedNames(prefix);
      var d :| d in prefix && d.provisioned && name == PipelineName(d.deploymentType, d.id);
      assert d in snapshot;
    }
  }
}
