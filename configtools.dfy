/** The deployment record validator and the snapshot file read and written
    between the two command-line utilities. */
module ConfigTools {
  import opened Wrappers
  import opened Records

  // ---------------------------------------------------------------------
  // Record validation
  // ---------------------------------------------------------------------

  /** One error per rule of the validator, in the order the rules are checked. */
  datatype ValidationError =
    | MissingId              // 'Missing required attribute ID'
    | IdHasWhitespace        // 'Attribute ID contains whitespace characters'
    | MissingType            // 'Missing required attribute type'
    | InvalidType            // 'Attribute type is not either of pool or silo'
    | MissingAccount         // 'Missing required attribute account'
    | InvalidAccountFormat   // 'Attribute account has invalid AWS account ID format'
    | MissingRegion          // 'Missing required attribute region'
    | InvalidRegion          // 'Attribute region has invalid AWS region'

  /** A character matched by the regular-expression class `\s`: the
      ECMAScript WhiteSpace and LineTerminator code points. */
  predicate IsWhitespace(c: char) {
    || c == '\t' || c == '\n' || c == '\U{000B}' || c == '\U{000C}' || c == '\r'
    || c == ' ' || c == '\U{00A0}' || c == '\U{1680}'
    || ('\U{2000}' <= c <= '\U{200A}')
    || c == '\U{2028}' || c == '\U{2029}' || c == '\U{202F}' || c == '\U{205F}'
    || c == '\U{3000}' || c == '\U{FEFF}'
  }

  /** `RegExp('\\s').test(s)`: some character of `s` is whitespace. */
  predicate HasWhitespace(s: string) {
    exists i :: 0 <= i < |s| && IsWhitespace(s[i])
  }

  /** `RegExp('^[0-9]{12}$').test(s)`: exactly twelve ASCII digits. */
  predicate IsAccountId(s: string) {
    |s| == 12 && forall i :: 0 <= i < |s| ==> '0' <= s[i] <= '9'
  }

  /** The text of an attribute, "" when absent. */
  function Text(attribute: Option<string>): string {
    if attribute.Some? then attribute.value else ""
  }

  /** The rule for each attribute, stated on its own. */
  predicate IdIsValid(id: Option<string>) { Truthy(id) && !HasWhitespace(id.value) }
  predicate TypeIsValid(t: Option<string>) { Truthy(t) && IsDeploymentType(t.value) }
  predicate AccountIsValid(a: Option<string>) { Truthy(a) && IsAccountId(a.value) }
  predicate RegionIsValid(r: Option<string>, regions: seq<string>) { Truthy(r) && r.value in regions }

  /** A record every rule admits. */
  predicate RecordIsValid(record: DeploymentRecord, regions: seq<string>) {
    && IdIsValid(record.id)
    && TypeIsValid(record.deploymentType)
    && AccountIsValid(record.account)
    && RegionIsValid(record.region, regions)
  }

  /** A rule as a table entry: whether it holds, and the error it reports when it does not. */
  datatype Rule = Rule(holds: bool, violation: ValidationError)

  /** The validator's rules as an ordered table, independent of how the
      validator nests its conditionals. */
  function Rules(record: DeploymentRecord, regions: seq<string>): seq<Rule> {
    [ Rule(Truthy(record.id), MissingId),
      Rule(!HasWhitespace(Text(record.id)), IdHasWhitespace),
      Rule(Truthy(record.deploymentType), MissingType),
      Rule(IsDeploymentType(Text(record.deploymentType)), InvalidType),
      Rule(Truthy(record.account), MissingAccount),
      Rule(IsAccountId(Text(record.account)), InvalidAccountFormat),
      Rule(Truthy(record.region), MissingRegion),
      Rule(Text(record.region) in regions, InvalidRegion) ]
  }

  /** The position of the first rule that does not hold, or |rules| when all hold. */
  function FirstViolated(rules: seq<Rule>): (i: nat)
    ensures i <= |rules|
    ensures forall j :: 0 <= j < i ==> rules[j].holds
    ensures i < |rules| ==> !rules[i].holds
  {
    if rules == [] then 0
    else if !rules[0].holds then 0
    else 1 + FirstViolated(rules[1..])
  }

  /** The verdict a rule table gives: `true`, or the first violated rule's error. */
  function Verdict(rules: seq<Rule>): Result<bool, ValidationError> {
    var i := FirstViolated(rules);
    if i < |rules| then Err(rules[i].violation) else Ok(true)
  }

  /** `isValidDeploymentRecord`: returns `true` or throws the error of the
      first rule, in the order id, type, account, region, that the record
      breaks. It never returns `false`. */
  function Validate(record: DeploymentRecord, regions: seq<string>): (r: Result<bool, ValidationError>)
    ensures r.Ok? <==> RecordIsValid(record, regions)
    ensures r.Ok? ==> r.value
  {
    if !Truthy(record.id) then Err(MissingId)
    else if HasWhitespace(record.id.value) then Err(IdHasWhitespace)
    else if !Truthy(record.deploymentType) then Err(MissingType)
    else if !IsDeploymentType(record.deploymentType.value) then Err(InvalidType)
    else if !Truthy(record.account) then Err(MissingAccount)
    else if !IsAccountId(record.account.value) then Err(InvalidAccountFormat)
    else if !Truthy(record.region) then Err(MissingRegion)
    else if record.region.value !in regions then Err(InvalidRegion)
    else Ok(true)
  }

  /** The validator admits a record: it returns `true`. */
  predicate Admitted(record: DeploymentRecord, regions: seq<string>) {
    Validate(record, regions) == Ok(true)
  }

  /** A missing or empty id fails with the missing-id error, and the other
      attributes are not looked at: any two records with that id get the
      same verdict under any region lists. */
  lemma MissingIdDecides(a: DeploymentRecord, b: DeploymentRecord, regionsA: seq<string>, regionsB: seq<string>)
    requires !Truthy(a.id) && a.id == b.id
    ensures Validate(a, regionsA) == Validate(b, regionsB) == Err(MissingId)
  {
  }

  /** An id containing a whitespace character fails with the whitespace
      error, whatever the other attributes hold. */
  lemma WhitespaceIdDecides(a: DeploymentRecord, b: DeploymentRecord, regionsA: seq<string>, regionsB: seq<string>, k: nat)
    requires a.id == b.id && Truthy(a.id)
    requires k < |a.id.value| && IsWhitespace(a.id.value[k])
    ensures Validate(a, regionsA) == Validate(b, regionsB) == Err(IdHasWhitespace)
  {
  }

  /** After a valid id, a type other than exactly "pool" or "silo" fails with
      a type error (missing or invalid), and account and region are not
      looked at. */
  lemma TypeRuleDecides(a: DeploymentRecord, b: DeploymentRecord, regionsA: seq<string>, regionsB: seq<string>)
    requires IdIsValid(a.id) && !TypeIsValid(a.deploymentType)
    requires a.id == b.id && a.deploymentType == b.deploymentType
    ensures Validate(a, regionsA) == Validate(b, regionsB)
    ensures Validate(a, regionsA) == (if Truthy(a.deploymentType) then Err(InvalidType) else Err(MissingType))
  {
  }

  /** After a valid id and type, an account that is not exactly twelve ASCII
      digits fails with an account error, and the region is not looked at. */
  lemma AccountRuleDecides(a: DeploymentRecord, b: DeploymentRecord, regionsA: seq<string>, regionsB: seq<string>)
    requires IdIsValid(a.id) && TypeIsValid(a.deploymentType) && !AccountIsValid(a.account)
    requires a.id == b.id && a.deploymentType == b.deploymentType && a.account == b.account
    ensures Validate(a, regionsA) == Validate(b, regionsB)
    ensures Validate(a, regionsA) == (if Truthy(a.account) then Err(InvalidAccountFormat) else Err(MissingAccount))
  {
  }

  /** After the first three rules pass, a region that is missing, empty or
      not in the list fails with a region error. */
  lemma RegionRuleDecides(record: DeploymentRecord, regions: seq<string>)
    requires IdIsValid(record.id) && TypeIsValid(record.deploymentType) && AccountIsValid(record.account)
    requires !RegionIsValid(record.region, regions)
    ensures Validate(record, regions) == (if Truthy(record.region) then Err(InvalidRegion) else Err(MissingRegion))
  {
  }

  /** The validator reports exactly what the ordered rule table reports: the
      error of the first rule broken, in the order id, type, account, region,
      and `true` when none is. */
  lemma {:induction false} ValidateReportsFirstBrokenRule(record: DeploymentRecord, regions: seq<string>)
    ensures Validate(record, regions) == Verdict(Rules(record, regions))
  {
    var rules := Rules(record, regions);
    var i := FirstViolated(rules);
    assert |rules| == 8;
    if i == 0 {
    } else if i == 1 {
      assert rules[0].holds;
    } else if i == 2 {
      assert rules[0].holds && rules[1].holds;
    } else if i == 3 {
      assert rules[0].holds && rules[1].holds && rules[2].holds;
    } else if i == 4 {
      assert rules[0].holds && rules[1].holds && rules[2].holds && rules[3].holds;
    } else if i == 5 {
      assert rules[0].holds && rules[1].holds && rules[2].holds && rules[3].holds && rules[4].holds;
    } else if i == 6 {
      assert forall j | 0 <= j < 6 :: rules[j].holds;
      assert rules[0].holds && rules[1].holds && rules[2].holds && rules[3].holds && rules[4].holds && rules[5].holds;
    } else if i == 7 {
      assert forall j | 0 <= j < 7 :: rules[j].holds;
      assert rules[0].holds && rules[1].holds && rules[2].holds && rules[3].holds && rules[4].holds && rules[5].holds && rules[6].holds;
    } else {
      assert forall j | 0 <= j < 8 :: rules[j].holds;
      assert rules[0].holds && rules[1].holds && rules[2].holds && rules[3].holds && rules[4].holds && rules[5].holds && rules[6].holds && rules[7].holds;
    }
  }

  // ---------------------------------------------------------------------
  // Snapshot persistence
  // ---------------------------------------------------------------------

  /** The snapshot artifact written by the snapshot builder and read by the
      rollout coordinator. */
  const SnapshotFile := "deployments.json"

  /** What a read of one file in `build_output` finds. */
  datatype StoredFile =
    | Written(data: seq<Deployment>)   // a file `saveConfig` wrote
    | Unreadable(code: string)         // a read that fails with this error code

  /** The `build_output` directory: file name to contents. A name not in the
      map does not exist. */
  type FileStore = map<string, StoredFile>

  /** `readConfig`: a missing file (error code ENOENT) reads as the empty
      configuration; any other failure is propagated. */
  function ReadConfig(store: FileStore, jsonFile: string): (r: Result<seq<Deployment>, string>)
    ensures jsonFile !in store || store[jsonFile] == Unreadable("ENOENT") ==> r == Ok([])
    ensures jsonFile in store && store[jsonFile].Written? ==> r == Ok(store[jsonFile].data)
    ensures r.Err? <==> jsonFile in store && store[jsonFile].Unreadable? && store[jsonFile].code != "ENOENT"
  {
    if jsonFile !in store then Ok([])
    else match store[jsonFile]
      case Written(data) => Ok(data)
      case Unreadable(code) => if code == "ENOENT" then Ok([]) else Err(code)
  }

  /** `saveConfig`: writes the array under the given name, leaving the other
      files alone. */
  function SaveConfig(store: FileStore, data: seq<Deployment>, jsonFile: string): (r: FileStore)
    ensures jsonFile in r && r[jsonFile] == Written(data)
    ensures forall f :: f in store && f != jsonFile ==> f in r && r[f] == store[f]
    ensures r.Keys == store.Keys + {jsonFile}
  {
    store[jsonFile := Written(data)]
  }

  /** Reading a snapshot back returns exactly what was saved. */
  lemma SaveThenRead(store: FileStore, data: seq<Deployment>, jsonFile: string)
    ensures ReadConfig(SaveConfig(store, data, jsonFile), jsonFile) == Ok(data)
  {
  }
}
