/** The registry's deployment records and the pipeline naming rule. */
module Records {
  import opened Wrappers

  /** A raw record as read from the deployment table; any attribute may be
      absent. The `type` attribute is called `deploymentType` here, since
      `type` is a Dafny keyword. */
  datatype DeploymentRecord = DeploymentRecord(
    id: Option<string>,
    deploymentType: Option<string>,
    account: Option<string>,
    region: Option<string>)

  /** A validated record tagged with whether its pipeline already exists. */
  datatype Deployment = Deployment(
    id: string,
    deploymentType: string,
    account: string,
    region: string,
    provisioned: bool)

  /** JavaScript truthiness of an optional string attribute: present and not "". */
  predicate Truthy(attribute: Option<string>) {
    attribute.Some? && attribute.value != ""
  }

  /** All four attributes are present. */
  predicate Complete(record: DeploymentRecord) {
    record.id.Some? && record.deploymentType.Some? && record.account.Some? && record.region.Some?
  }

  /** A deployment seen as a record again, as the validator accepts both. */
  function AsRecord(d: Deployment): (r: DeploymentRecord)
    ensures Complete(r)
  {
    DeploymentRecord(Some(d.id), Some(d.deploymentType), Some(d.account), Some(d.region))
  }

  /** The two deployment models. */
  predicate IsDeploymentType(s: string) {
    s == "pool" || s == "silo"
  }

  /** The one naming rule for a tenant's pipeline (and its stack):
      `type-id-pipeline`. */
  function PipelineName(deploymentType: string, id: string): (n: string)
    ensures |n| == |deploymentType| + |id| + 10
    ensures n[..|deploymentType|] == deploymentType && n[|deploymentType|] == '-'
    ensures n[|deploymentType| + 1..|deploymentType| + 1 + |id|] == id
    ensures n[|n| - 9..] == "-pipeline"
  {
    deploymentType + "-" + id + "-pipeline"
  }

  /** For the two admissible deployment types the naming rule is injective:
      the pipeline name determines the type and the id. */
  lemma PipelineNameInjective(t1: string, id1: string, t2: string, id2: string)
    requires IsDeploymentType(t1) && IsDeploymentType(t2)
    requires PipelineName(t1, id1) == PipelineName(t2, id2)
    ensures t1 == t2 && id1 == id2
  {
    var n := PipelineName(t1, id1);
    assert |t1| == 4 && |t2| == 4;
    assert n[..4] == t1 by { assert (t1 + "-" + id1 + "-pipeline")[..4] == t1; }
    assert n[..4] == t2 by { assert (t2 + "-" + id2 + "-pipeline")[..4] == t2; }
    assert |id1| == |id2|;
    assert n[5..5 + |id1|] == id1 by { assert (t1 + "-" + id1 + "-pipeline")[5..5 + |id1|] == id1; }
    assert n[5..5 + |id2|] == id2 by { assert (t2 + "-" + id2 + "-pipeline")[5..5 + |id2|] == id2; }
  }
}
