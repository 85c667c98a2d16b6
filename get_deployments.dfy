/** The registry snapshot builder of the `get-deployments` utility. */
module GetDeployments {
  import opened Wrappers
  import opened Records
  import opened ConfigTools

  /** A record the builder dropped, with the error it failed on (the
      'failed validation ... Ignoring record.' log line). */
  datatype Rejection = Rejection(id: Option<string>, error: ValidationError)

  /** An admitted record cast to a deployment and tagged with whether its
      pipeline stack exists. */
  function Tag(record: DeploymentRecord, stacks: seq<string>): (d: Deployment)
    requires Complete(record)
    ensures AsRecord(d) == record
    ensures d.provisioned <==> PipelineName(d.deploymentType, d.id) in stacks
  {
    var id := record.id.value;
    var deploymentType := record.deploymentType.value;
    Deployment(id, deploymentType, record.account.value, record.region.value,
               PipelineName(deploymentType, id) in stacks)
  }

  /** The snapshot of a sequence of records: the admitted ones, tagged, in order.
      Defined from the last record so that it follows the builder's loop. */
  function Snapshot(records: seq<DeploymentRecord>, regions: seq<string>, stacks: seq<string>): seq<Deployment>
    decreases |records|
  {
    if records == [] then []
    else
      var last := records[|records| - 1];
      var earlier := Snapshot(records[..|records| - 1], regions, stacks);
      if Admitted(last, regions) then earlier + [Tag(last, stacks)] else earlier
  }

  /** The rejection log of a sequence of records, in order. */
  function Rejections(records: seq<DeploymentRecord>, regions: seq<string>): seq<Rejection>
    decreases |records|
  {
    if records == [] then []
    else
      var last := records[|records| - 1];
      var earlier := Rejections(records[..|records| - 1], regions);
      match Validate(last, regions)
      case Err(e) => earlier + [Rejection(last.id, e)]
      case Ok(_) => earlier
  }

  /** `verifyAndSaveData`: walks the records in order, keeps each one the
      validator admits, tags it with `provisioned`, logs each rejected one,
      and saves the kept ones as the snapshot file. */
  method VerifyAndSaveData(records: seq<DeploymentRecord>, regions: seq<string>, stacks: seq<string>, store: FileStore)
    returns (deployments: seq<Deployment>, rejected: seq<Rejection>, saved: FileStore)
    ensures deployments == Snapshot(records, regions, stacks)
    ensures rejected == Rejections(records, regions)
    ensures saved == SaveConfig(store, deployments, SnapshotFile)
  {
    deployments := [];
    rejected := [];
    var i := 0;
    while i < |records|
      invariant 0 <= i <= |records|
      invariant deployments == Snapshot(records[..i], regions, stacks)
      invariant rejected == Rejections(records[..i], regions)
    {
      var record := records[i];
      assert records[..i + 1][..i] == records[..i];
      match Validate(record, regions) {
        case Ok(valid) =>
          if valid {
            var deployment := Tag(record, stacks);
            deployments := deployments + [deployment];
          }
        case Err(error) =>
          rejected := rejected + [Rejection(record.id, error)];
      }
      i := i + 1;
    }
    assert records[..i] == records;
    saved := SaveConfig(store, deployments, SnapshotFile);
  }

  // ---------------------------------------------------------------------
  // Properties of the snapshot
  // ---------------------------------------------------------------------

  /** The snapshot of a concatenation is the concatenation of the snapshots:
      each record is judged on its own. */
  lemma {:induction false} SnapshotAppend(a: seq<DeploymentRecord>, b: seq<DeploymentRecord>, regions: seq<string>, stacks: seq<string>)
    ensures Snapshot(a + b, regions, stacks) == Snapshot(a, regions, stacks) + Snapshot(b, regions, stacks)
    decreases |b|
  {
    if b == [] {
      assert a + b == a;
    } else {
      var b' := b[..|b| - 1];
      assert (a + b)[..|a + b| - 1] == a + b';
      assert (a + b)[|a + b| - 1] == b[|b| - 1];
      SnapshotAppend(a, b', regions, stacks);
    }
  }

  /** An invalid record is left out, and the records after it are still processed. */
  lemma InvalidRecordSkipped(a: seq<DeploymentRecord>, r: DeploymentRecord, b: seq<DeploymentRecord>, regions: seq<string>, stacks: seq<string>)
    requires !Admitted(r, regions)
    ensures Snapshot(a + [r] + b, regions, stacks) == Snapshot(a, regions, stacks) + Snapshot(b, regions, stacks)
  {
    SnapshotAppend(a + [r], b, regions, stacks);
    SnapshotAppend(a, [r], regions, stacks);
    assert [r][..0] == [];
  }

  /** Every element of the snapshot passes the validator, and its flag is
      membership of its pipeline name in the stack list. */
  lemma {:induction false} SnapshotElementsValid(records: seq<DeploymentRecord>, regions: seq<string>, stacks: seq<string>)
    ensures forall d :: d in Snapshot(records, regions, stacks) ==>
      && Admitted(AsRecord(d), regions)
      && (d.provisioned <==> PipelineName(d.deploymentType, d.id) in stacks)
    decreases |records|
  {
    if records != [] {
      SnapshotElementsValid(records[..|records| - 1], regions, stacks);
    }
  }

  /** The positions of the admitted records: in range and strictly increasing. */
  function AdmittedPositions(records: seq<DeploymentRecord>, regions: seq<string>): (idx: seq<nat>)
    ensures forall k :: 0 <= k < |idx| ==> idx[k] < |records|
    ensures forall k, l :: 0 <= k < l < |idx| ==> idx[k] < idx[l]
    decreases |records|
  {
    if records == [] then []
    else
      var earlier := AdmittedPositions(records[..|records| - 1], regions);
      if Admitted(records[|records| - 1], regions) then earlier + [|records| - 1] else earlier
  }

  /** A position is among the admitted positions exactly when the validator
      admits the record there. */
  lemma {:induction false} AdmittedPositionsExact(records: seq<DeploymentRecord>, regions: seq<string>)
    ensures forall j :: 0 <= j < |records| ==>
      (Admitted(records[j], regions) <==> j in AdmittedPositions(records, regions))
    decreases |records|
  {
    if records != [] {
      var n := |records| - 1;
      var front := records[..n];
      AdmittedPositionsExact(front, regions);
      var idx' := AdmittedPositions(front, regions);
      assert n !in idx';
      forall j | 0 <= j < n
        ensures Admitted(records[j], regions) <==> j in AdmittedPositions(records, regions)
      {
        assert records[j] == front[j];
      }
    }
  }

  /** Element k of the snapshot is the record at admitted position k, tagged. */
  lemma {:induction false} SnapshotAtAdmittedPositions(records: seq<DeploymentRecord>, regions: seq<string>, stacks: seq<string>)
    ensures var s, idx := Snapshot(records, regions, stacks), AdmittedPositions(records, regions);
      && |s| == |idx|
      && (forall k :: 0 <= k < |idx| ==> idx[k] < |records| && Complete(records[idx[k]]) && s[k] == Tag(records[idx[k]], stacks))
    decreases |records|
  {
    if records != [] {
      var n := |records| - 1;
      var front := records[..n];
      SnapshotAtAdmittedPositions(front, regions, stacks);
      var idx' := AdmittedPositions(front, regions);
      forall k | 0 <= k < |idx'|
        ensures records[idx'[k]] == front[idx'[k]]
      {
      }
    }
  }

  /** The snapshot is exactly the subsequence of admitted records, in input
      order, each keeping its attributes: element k is record `idx[k]`
      tagged, the positions increase, and a position is selected exactly
      when the validator admits that record. */
  lemma {:induction false} SnapshotIsAdmittedSubsequence(records: seq<DeploymentRecord>, regions: seq<string>, stacks: seq<string>)
    ensures var s, idx := Snapshot(records, regions, stacks), AdmittedPositions(records, regions);
      && |s| == |idx|
      && (forall k :: 0 <= k < |idx| ==> idx[k] < |records| && Complete(records[idx[k]]) && s[k] == Tag(records[idx[k]], stacks))
      && (forall k, l :: 0 <= k < l < |idx| ==> idx[k] < idx[l])
      && (forall j :: 0 <= j < |records| ==> (Admitted(records[j], regions) <==> j in idx))
  {
    SnapshotAtAdmittedPositions(records, regions, stacks);
    AdmittedPositionsExact(records, regions);
  }

  /** The positions of the rejected records: in range and strictly increasing. */
  function RejectedPositions(records: seq<DeploymentRecord>, regions: seq<string>): (idx: seq<nat>)
    ensures forall k :: 0 <= k < |idx| ==> idx[k] < |records|
    ensures forall k, l :: 0 <= k < l < |idx| ==> idx[k] < idx[l]
    decreases |records|
  {
    if records == [] then []
    else
      var earlier := RejectedPositions(records[..|records| - 1], regions);
      if Admitted(records[|records| - 1], regions) then earlier else earlier + [|records| - 1]
  }

  /** A position is among the rejected positions exactly when the validator
      does not admit the record there. */
  lemma {:induction false} RejectedPositionsExact(records: seq<DeploymentRecord>, regions: seq<string>)
    ensures forall j :: 0 <= j < |records| ==>
      (!Admitted(records[j], regions) <==> j in RejectedPositions(records, regions))
    decreases |records|
  {
    if records != [] {
      var n := |records| - 1;
      var front := records[..n];
      RejectedPositionsExact(front, regions);
      var idx' := RejectedPositions(front, regions);
      assert n !in idx';
      forall j | 0 <= j < n
        ensures !Admitted(records[j], regions) <==> j in RejectedPositions(records, regions)
      {
        assert records[j] == front[j];
      }
    }
  }

  /** Element k of the rejection log is the record at rejected position k,
      with its id and the error the validator raised for it. */
  lemma {:induction false} RejectionsAtRejectedPositions(records: seq<DeploymentRecord>, regions: seq<string>)
    ensures var log, idx := Rejections(records, regions), RejectedPositions(records, regions);
      && |log| == |idx|
      && (forall k :: 0 <= k < |idx| ==>
            && Validate(records[idx[k]], regions).Err?
            && log[k] == Rejection(records[idx[k]].id, Validate(records[idx[k]], regions).error))
    decreases |records|
  {
    if records != [] {
      var n := |records| - 1;
      var front := records[..n];
      RejectionsAtRejectedPositions(front, regions);
      var idx' := RejectedPositions(front, regions);
      forall k | 0 <= k < |idx'|
        ensures records[idx'[k]] == front[idx'[k]]
      {
      }
    }
  }

  /** The rejection log is exactly the subsequence of rejected records, in
      input order, each with its id and its validation error, and a
      position is logged exactly when the validator does not admit it. */
  lemma {:induction false} RejectionsAreRejectedSubsequence(records: seq<DeploymentRecord>, regions: seq<string>)
    ensures var log, idx := Rejections(records, regions), RejectedPositions(records, regions);
      && |log| == |idx|
      && (forall k :: 0 <= k < |idx| ==>
            && Validate(records[idx[k]], regions).Err?
            && log[k] == Rejection(records[idx[k]].id, Validate(records[idx[k]], regions).error))
      && (forall k, l :: 0 <= k < l < |idx| ==> idx[k] < idx[l])
      && (forall j :: 0 <= j < |records| ==> (!Admitted(records[j], regions) <==> j in idx))
  {
    RejectionsAtRejectedPositions(records, regions);
    RejectedPositionsExact(records, regions);
  }

  /** The snapshot is never longer than the input, and has the same length
      exactly when every record is admitted. */
  lemma {:induction false} SnapshotLength(records: seq<DeploymentRecord>, regions: seq<string>, stacks: seq<string>)
    ensures |Snapshot(records, regions, stacks)| <= |records|
    ensures |Snapshot(records, regions, stacks)| == |records| <==> forall j :: 0 <= j < |records| ==> Admitted(records[j], regions)
    decreases |records|
  {
    if records != [] {
      var n := |records| - 1;
      var front := records[..n];
      SnapshotLength(front, regions, stacks);
      if Admitted(records[n], regions) {
        assert |Snapshot(records, regions, stacks)| == |Snapshot(front, regions, stacks)| + 1;
        assert forall j :: 0 <= j < n ==> front[j] == records[j];
      } else {
        assert |Snapshot(records, regions, stacks)| == |Snapshot(front, regions, stacks)|;
      }
    }
  }

  /** Every record ends up in exactly one of the snapshot and the rejection
      log: its position is either admitted or rejected, never both, and the
      two outputs together are as long as the input. */
  lemma {:induction false} EveryRecordAccountedFor(records: seq<DeploymentRecord>, regions: seq<string>, stacks: seq<string>)
    ensures |Snapshot(records, regions, stacks)| + |Rejections(records, regions)| == |records|
    ensures forall j :: 0 <= j < |records| ==>
      (j in AdmittedPositions(records, regions) <==> j !in RejectedPositions(records, regions))
    decreases |records|
  {
    AdmittedPositionsExact(records, regions);
    RejectedPositionsExact(records, regions);
    if records != [] {
      EveryRecordAccountedFor(records[..|records| - 1], regions, stacks);
    }
  }

  /** The validator's verdicts on the three records of the scenario below. */
  lemma ScenarioVerdicts(a: DeploymentRecord, b: DeploymentRecord, c: DeploymentRecord)
    requires a == DeploymentRecord(Some("t1"), Some("silo"), Some("111111111111"), Some("eu-west-1"))
    requires b == DeploymentRecord(Some("t2"), Some("pool"), Some("222222222222"), Some("mars-1"))
    requires c == DeploymentRecord(Some("t3"), Some("pool"), Some("333333333333"), Some("eu-west-1"))
    ensures Admitted(a, ["eu-west-1"]) && Validate(b, ["eu-west-1"]) == Err(InvalidRegion) && Admitted(c, ["eu-west-1"])
  {
    assert !HasWhitespace("t1") && !HasWhitespace("t2") && !HasWhitespace("t3");
    assert IsAccountId("111111111111") && IsAccountId("222222222222") && IsAccountId("333333333333");
  }

  /** Three records, the middle one in an unknown region: the snapshot holds
      the first and the third, in that order, and the silo one whose
      pipeline exists is tagged provisioned. */
  lemma ScenarioDropsInvalidRegion()
    ensures var a := DeploymentRecord(Some("t1"), Some("silo"), Some("111111111111"), Some("eu-west-1"));
            var b := DeploymentRecord(Some("t2"), Some("pool"), Some("222222222222"), Some("mars-1"));
            var c := DeploymentRecord(Some("t3"), Some("pool"), Some("333333333333"), Some("eu-west-1"));
      Snapshot([a, b, c], ["eu-west-1"], ["silo-t1-pipeline"])
        == [Deployment("t1", "silo", "111111111111", "eu-west-1", true),
            Deployment("t3", "pool", "333333333333", "eu-west-1", false)]
  {
    var a := DeploymentRecord(Some("t1"), Some("silo"), Some("111111111111"), Some("eu-west-1"));
    var b := DeploymentRecord(Some("t2"), Some("pool"), Some("222222222222"), Some("mars-1"));
    var c := DeploymentRecord(Some("t3"), Some("pool"), Some("333333333333"), Some("eu-west-1"));
    var regions, stacks := ["eu-west-1"], ["silo-t1-pipeline"];
    ScenarioVerdicts(a, b, c);
    assert Tag(a, stacks) == Deployment("t1", "silo", "111111111111", "eu-west-1", true) by {
      assert PipelineName("silo", "t1") == "silo-t1-pipeline";
    }
    assert Tag(c, stacks) == Deployment("t3", "pool", "333333333333", "eu-west-1", false) by {
      assert PipelineName("pool", "t3")[0] != "silo-t1-pipeline"[0];
    }
    assert [a, b, c][..2] == [a, b] && [a, b][..1] == [a] && [a][..0] == [];
    assert Snapshot([a], regions, stacks) == [Tag(a, stacks)];
    assert Snapshot([a, b], regions, stacks) == [Tag(a, stacks)];
  }
}
