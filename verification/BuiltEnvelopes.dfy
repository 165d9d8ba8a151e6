/** The envelopes that the Publisher builds from the record it has claimed: bundles and prepare
    checkpoints are well formed, intents are well formed and always read back
    (scripts/actions_request_handler.py). */
module BuiltEnvelopes {
  import opened Common
  import opened JsonValue
  import opened Text
  import opened CommentFraming
  import opened CommentJson
  import opened Envelopes
  import opened Dictionaries
  import opened Markers
  import opened MachineComments
  import opened MarkedTexts
  import opened PublisherEnvelopes
  import JournalRecord

  // ----- dictionaries from their names and values

  function Dict(names: seq<string>, values: seq<Value>): (ms: seq<Member>)
    requires |names| == |values|
    ensures |ms| == |names|
  {
    seq(|names|, i requires 0 <= i < |names| => Member(names[i], values[i]))
  }

  predicate Ascending(names: seq<string>) {
    forall k | 0 <= k < |names| - 1 :: NameLess(names[k], names[k + 1])
  }

  /** A dictionary written out in order has its names for keys and its values at them. */
  lemma DictHolds(names: seq<string>, values: seq<Value>)
    requires |names| == |values| && Ascending(names) && forall i | 0 <= i < |values| :: Ordered(values[i])
    ensures var d := VObject(Dict(names, values));
            && Ordered(d) && HasKeys(d, set n | n in names)
            && forall i | 0 <= i < |names| :: Get(d, names[i]) == Some(values[i])
  {
    hide NameLess, Find;
    var ms := Dict(names, values);
    assert forall k | 0 <= k < |ms| - 1 :: NameLess(ms[k].name, ms[k + 1].name);
    ChainOrders(ms);
    NamesAreKeys(ms, names);
    forall i | 0 <= i < |names| ensures Find(ms, names[i]) == Some(values[i]) { FindAt(ms, i); }
  }

  const BUNDLE_NAMES := [
    "accepted_revision", "canonical_record", "claim_revision", "execution_id", "issue_id", "issue_number", "kind",
    "operation", "parameters", "repository_full_name", "repository_id", "request_digest", "request_id",
    "schema_version"]
  const PREPARE_NAMES := ["bundle", "disposition", "kind", "schema_version"]
  const INTENT_NAMES := [
    "accepted_revision", "execution_id", "issue_id", "issue_number", "kind", "operation", "policy_revision",
    "repository_full_name", "repository_id", "request_digest", "request_id", "schema_version"]

  lemma FirstNames()
    ensures NameLess("accepted_revision", "canonical_record") && NameLess("canonical_record", "claim_revision")
    ensures NameLess("claim_revision", "execution_id") && NameLess("execution_id", "issue_id")
    ensures NameLess("issue_id", "issue_number") && NameLess("issue_number", "kind") && NameLess("kind", "operation")
    ensures NameLess("accepted_revision", "execution_id") && NameLess("bundle", "disposition")
            && NameLess("disposition", "kind")
  {
    hide NameLess;
    NameLessAt("accepted_revision", "canonical_record", 0);
    NameLessAt("canonical_record", "claim_revision", 1);
    NameLessAt("claim_revision", "execution_id", 0);
    NameLessAt("execution_id", "issue_id", 0);
    NameLessAt("issue_id", "issue_number", 6);
    NameLessAt("issue_number", "kind", 0);
    NameLessAt("kind", "operation", 0);
    NameLessAt("accepted_revision", "execution_id", 0);
    NameLessAt("bundle", "disposition", 0);
    NameLessAt("disposition", "kind", 0);
  }

  lemma LastNames()
    ensures NameLess("operation", "parameters") && NameLess("parameters", "repository_full_name")
    ensures NameLess("operation", "policy_revision") && NameLess("policy_revision", "repository_full_name")
    ensures NameLess("repository_full_name", "repository_id") && NameLess("repository_id", "request_digest")
    ensures NameLess("request_digest", "request_id") && NameLess("request_id", "schema_version")
            && NameLess("kind", "schema_version")
  {
    hide NameLess;
    NameLessAt("operation", "parameters", 0);
    NameLessAt("parameters", "repository_full_name", 0);
    NameLessAt("operation", "policy_revision", 0);
    NameLessAt("policy_revision", "repository_full_name", 0);
    NameLessAt("repository_full_name", "repository_id", 11);
    NameLessAt("repository_id", "request_digest", 2);
    NameLessAt("request_digest", "request_id", 8);
    NameLessAt("request_id", "schema_version", 0);
    NameLessAt("kind", "schema_version", 0);
  }

  lemma NamesAscend()
    ensures Ascending(BUNDLE_NAMES) && Ascending(PREPARE_NAMES) && Ascending(INTENT_NAMES)
  {
    hide NameLess;
    FirstNames();
    LastNames();
  }

  lemma BundleNamesAreTheKeys()
    ensures (set n | n in BUNDLE_NAMES) == BUNDLE_KEYS
  {
    forall n ensures n in BUNDLE_NAMES <==> n in BUNDLE_KEYS {}
  }

  lemma PrepareNamesAreTheKeys()
    ensures (set n | n in PREPARE_NAMES) == {"schema_version", "kind", "bundle", "disposition"}
  {
  }

  lemma IntentNamesAreTheKeys()
    ensures (set n | n in INTENT_NAMES) == INTENT_KEYS
  {
    forall n ensures n in INTENT_NAMES <==> n in INTENT_KEYS {}
  }

  // ----- bundles

  /** `_bundle_from_record`: the fields of the loaded record, its text, and what the run adds. */
  function BundleFrom(record: Value, content: string, execution: string, accepted: string, claim: string): Value {
    var parameters := match RequestParameters(record) case Some(v) => v case None => VNull;
    VObject(Dict(BUNDLE_NAMES, BundleValues(record, parameters, content, execution, accepted, claim)))
  }

  lemma RecordNumber(content: string, es: seq<Keyed<Json>>, k: nat, name: string, n: int)
    requires CanonicalText(content, Object(es)) && k < |es| && es[k] == Named(name, NumberJson(n))
    ensures Loads(content).Some? && Get(Loads(content).value, name) == Some(VInt(n))
  {
    hide Loads, CanonicalText, Printed, Get;
    LoadedField(content, es, k);
    LoadedNumber(name, n);
    TextOfScalars(name);
  }

  /** The frozen fields of a record as they are loaded. */
  predicate FrozenValue(record: Value, f: JournalRecord.Frozen) {
    && record.VObject? && Ordered(record) && GetOrNull(record, "request_id") == VString(f.requestId)
    && GetOrNull(record, "request_digest") == VString(f.requestDigest)
    && GetOrNull(record, "operation") == VString(f.operation)
    && GetOrNull(record, "repository_id") == VInt(f.repositoryId)
    && GetOrNull(record, "repository_full_name") == VString(f.repositoryFullName)
    && GetOrNull(record, "issue_id") == VInt(f.issueId) && GetOrNull(record, "issue_number") == VInt(f.issueNumber)
    && GetString(record, "canonical_request") == Some(f.canonicalRequest)
    && GetOrNull(record, "policy_revision") == VString(f.policyRevision)
  }

  lemma FrozenLoads(r: JournalRecord.Record, content: string)
    requires CanonicalText(content, Object(RecordEntries(r)))
    ensures Loads(content).Some? && FrozenValue(Loads(content).value, r.frozen)
  {
    hide CanonicalText, Find, Loads, NumberJson, TextJson, Named, Ordered, HoldsExactly;
    var f, es := r.frozen, RecordEntries(r);
    LoadsObject(content, es);
    RecordNumber(content, es, 1, "repository_id", f.repositoryId);
    RecordText(content, es, 2, "repository_full_name", f.repositoryFullName);
    RecordNumber(content, es, 3, "issue_id", f.issueId);
    RecordNumber(content, es, 4, "issue_number", f.issueNumber);
    RecordText(content, es, 7, "request_id", f.requestId);
    RecordText(content, es, 8, "operation", f.operation);
    RecordText(content, es, 9, "canonical_request", f.canonicalRequest);
    RecordText(content, es, 10, "request_digest", f.requestDigest);
    RecordText(content, es, 12, "policy_revision", f.policyRevision);
  }

  lemma OwnerLoads(r: JournalRecord.Record, content: string)
    requires CanonicalText(content, Object(RecordEntries(r))) && r.state.Executing? && r.executionId.Some?
    ensures Loads(content).Some? && GetString(Loads(content).value, "execution_id") == r.executionId
    ensures GetString(Loads(content).value, "state") == Some("executing")
  {
    hide CanonicalText, Find, Loads, NumberJson, TextJson, Named;
    var es := RecordEntries(r);
    RecordText(content, es, 13, "state", "executing");
    RecordText(content, es, 14, "execution_id", r.executionId.value);
  }

  lemma {:induction false} SameIsReflexive(v: Value)
    ensures Same(v, v)
    decreases v
  {
    match v
    case VList(items) => forall i | 0 <= i < |items| ensures Same(items[i], items[i]) { SameIsReflexive(items[i]); }
    case VObject(ms) => forall i | 0 <= i < |ms| ensures SameMember(ms[i], ms[i]) { SameIsReflexive(ms[i].value); }
    case _ =>
  }

  lemma RecordParameters(record: Value, f: JournalRecord.Frozen, parameters: seq<Keyed<Json>>)
    requires FrozenValue(record, f) && Acceptable(f, parameters)
    ensures RequestParameters(record).Some? && RequestParameters(record).value.VObject?
            && Ordered(RequestParameters(record).value)
  {
    hide MarkText, Tells, Contains, Loads, Ordered, Get, Acceptable, PublisherPrefix;
    assert GetString(record, "canonical_request") == Some(f.canonicalRequest);
    hide FrozenValue;
    PrefixIsMark(IntentKind);
    RequestTells(f, parameters, PublisherPrefix(IntentKind));
  }

  function BundleValues(record: Value, parameters: Value, content: string, execution: string, accepted: string,
                        claim: string): (vs: seq<Value>)
    ensures |vs| == 14
  {
    [VString(accepted), VString(content), VString(claim), VString(execution), GetOrNull(record, "issue_id"),
     GetOrNull(record, "issue_number"), VString("actions.execution.bundle"), GetOrNull(record, "operation"), parameters,
     GetOrNull(record, "repository_full_name"), GetOrNull(record, "repository_id"), GetOrNull(record, "request_digest"),
     GetOrNull(record, "request_id"), VInt(1)]
  }

  lemma BundleHolds(d: Value, values: seq<Value>)
    requires |values| == 14 && (forall k | 0 <= k < 14 :: Ordered(values[k]))
             && d == VObject(Dict(BUNDLE_NAMES, values))
    ensures Ordered(d) && HasKeys(d, BUNDLE_KEYS)
    ensures Get(d, "accepted_revision") == Some(values[0]) && Get(d, "canonical_record") == Some(values[1])
    ensures Get(d, "claim_revision") == Some(values[2]) && Get(d, "execution_id") == Some(values[3])
    ensures Get(d, "issue_id") == Some(values[4]) && Get(d, "issue_number") == Some(values[5])
    ensures Get(d, "kind") == Some(values[6]) && Get(d, "operation") == Some(values[7])
    ensures Get(d, "parameters") == Some(values[8]) && Get(d, "repository_full_name") == Some(values[9])
    ensures Get(d, "repository_id") == Some(values[10]) && Get(d, "request_digest") == Some(values[11])
    ensures Get(d, "request_id") == Some(values[12]) && Get(d, "schema_version") == Some(values[13])
  {
    hide Ascending, Ordered, Get, Dict, HasKeys, BUNDLE_KEYS, BUNDLE_NAMES;
    NamesAscend();
    BundleNamesAreTheKeys();
    BundleNamesAt();
    DictHolds(BUNDLE_NAMES, values);
  }

  lemma BundleNamesAt()
    ensures var names := BUNDLE_NAMES;
            && |names| == 14
            && names[0] == "accepted_revision" && names[1] == "canonical_record" && names[2] == "claim_revision"
            && names[3] == "execution_id" && names[4] == "issue_id" && names[5] == "issue_number" && names[6] == "kind"
            && names[7] == "operation" && names[8] == "parameters" && names[9] == "repository_full_name"
            && names[10] == "repository_id" && names[11] == "request_digest" && names[12] == "request_id"
            && names[13] == "schema_version"
  {
  }

  lemma BundleValuesAreOrdered(record: Value, parameters: Value, content: string, execution: string, accepted: string,
                               claim: string)
    requires Ordered(record) && Ordered(parameters)
    ensures forall k | 0 <= k < 14 :: Ordered(BundleValues(record, parameters, content, execution, accepted, claim)[k])
  {
    hide NameLess, GetOrNull;
    FieldIsOrdered(record, "issue_id");
    FieldIsOrdered(record, "issue_number");
    FieldIsOrdered(record, "operation");
    FieldIsOrdered(record, "repository_full_name");
    FieldIsOrdered(record, "repository_id");
    FieldIsOrdered(record, "request_digest");
    FieldIsOrdered(record, "request_id");
  }

  /** The fields of a bundle built for a claimed record. */
  predicate BundleValue(d: Value, r: JournalRecord.Record, parameters: Value, content: string, accepted: string,
                        claim: string)
    requires r.executionId.Some?
  {
    var f := r.frozen;
    && Ordered(d) && HasKeys(d, BUNDLE_KEYS)
    && Get(d, "accepted_revision") == Some(VString(accepted)) && Get(d, "canonical_record") == Some(VString(content))
    && Get(d, "claim_revision") == Some(VString(claim)) && Get(d, "execution_id") == Some(VString(r.executionId.value))
    && Get(d, "issue_id") == Some(VInt(f.issueId)) && Get(d, "issue_number") == Some(VInt(f.issueNumber))
    && Get(d, "kind") == Some(VString("actions.execution.bundle")) && Get(d, "operation") == Some(VString(f.operation))
    && Get(d, "parameters") == Some(parameters) && Get(d, "repository_full_name") == Some(VString(f.repositoryFullName))
    && Get(d, "repository_id") == Some(VInt(f.repositoryId))
    && Get(d, "request_digest") == Some(VString(f.requestDigest))
    && Get(d, "request_id") == Some(VString(f.requestId)) && Get(d, "schema_version") == Some(VInt(1))
  }

  lemma BundleFields(record: Value, r: JournalRecord.Record, content: string, accepted: string, claim: string)
    requires r.executionId.Some? && FrozenValue(record, r.frozen)
    requires RequestParameters(record).Some? && Ordered(RequestParameters(record).value)
    ensures BundleValue(BundleFrom(record, content, r.executionId.value, accepted, claim), r,
                        RequestParameters(record).value,
                        content, accepted, claim)
  {
    hide Ordered, Get, HasKeys, RequestParameters, Dict, BUNDLE_KEYS, BUNDLE_NAMES;
    var values := BundleValues(record, RequestParameters(record).value, content, r.executionId.value, accepted, claim);
    BundleValuesAreOrdered(record, RequestParameters(record).value, content, r.executionId.value, accepted, claim);
    BundleHolds(BundleFrom(record, content, r.executionId.value, accepted, claim), values);
  }

  lemma BundleChecks(d: Value, r: JournalRecord.Record, parameters: Value, content: string, accepted: string,
                     claim: string)
    requires r.executionId.Some? && BundleValue(d, r, parameters, content, accepted, claim) && parameters.VObject?
    requires RequestId(r.frozen.requestId) && LowerHex(r.frozen.requestDigest, 64) && ExecutionId(r.executionId.value)
    requires LowerHex(accepted, 40) && LowerHex(claim, 40) && '/' in r.frozen.repositoryFullName
    requires r.frozen.repositoryId > 0 && r.frozen.issueId > 0 && r.frozen.issueNumber > 0
    ensures BundleDict(d)
  {
    hide Ordered, Get, HasKeys, BUNDLE_KEYS, RequestId, LowerHex, ExecutionId;
  }

  lemma BundleBinds(d: Value, record: Value, r: JournalRecord.Record, content: string, accepted: string, claim: string)
    requires FrozenValue(record, r.frozen) && r.executionId.Some? && GetString(record, "execution_id") == r.executionId
    requires GetString(record, "state") == Some("executing") && RequestParameters(record).Some?
    requires BundleValue(d, r, RequestParameters(record).value, content, accepted, claim)
    requires Loads(content) == Some(record) && ByteLength(content) <= MAX_RECORD_BYTES
    ensures RecordBound(d)
  {
    hide Ordered, Get, HasKeys, BUNDLE_KEYS, RequestParameters, Loads, ByteLength;
    SameIsReflexive(RequestParameters(record).value);
    BoundFieldsAt();
    hide BOUND_FIELDS;
    forall i | 0 <= i < |BOUND_FIELDS| ensures Same(GetOrNull(record, BOUND_FIELDS[i]), GetOrNull(d, BOUND_FIELDS[i])) {
      assert GetOrNull(record, BOUND_FIELDS[i]) == GetOrNull(d, BOUND_FIELDS[i]);
    }
  }

  lemma BoundFieldsAt()
    ensures var fs := BOUND_FIELDS;
            && |fs| == 8 && fs[0] == "request_id" && fs[1] == "request_digest" && fs[2] == "operation"
            && fs[3] == "repository_id"
            && fs[4] == "repository_full_name" && fs[5] == "issue_id" && fs[6] == "issue_number"
            && fs[7] == "execution_id"
  {
  }

  /** The bundle of a claimed record is well formed and bound to the record. */
  lemma BundleIsWellFormed(r: JournalRecord.Record, parameters: seq<Keyed<Json>>, content: string, accepted: string,
                           claim: string)
    requires Claimed(r, parameters, content) && LowerHex(accepted, 40) && LowerHex(claim, 40)
    ensures Loads(content).Some?
    ensures var d := BundleFrom(Loads(content).value, content, r.executionId.value, accepted, claim);
            && Ordered(d) && BundleDict(d) && RecordBound(d)
            && GetString(d, "request_id") == Some(r.frozen.requestId)
            && GetString(d, "request_digest") == Some(r.frozen.requestDigest)
            && GetString(d, "execution_id") == r.executionId && GetString(d, "canonical_record") == Some(content)
            && GetString(d, "accepted_revision") == Some(accepted) && GetString(d, "claim_revision") == Some(claim)
  {
    hide CanonicalText, ByteLength, AllChars, Loads, Ordered, Get, HasKeys, BundleFrom, Free, DigestOf,
         RequestParameters, RecordEntries, OPERATIONS, BUNDLE_KEYS, FrozenValue, JournalRecord.ValidExecutionId,
         BundleDict, RecordBound;
    ExecutionIsFree(r.executionId.value);
    FrozenIsUnmarked(r.frozen, parameters);
    FrozenLoads(r, content);
    OwnerLoads(r, content);
    var record := Loads(content).value;
    RecordParameters(record, r.frozen, parameters);
    BundleFields(record, r, content, accepted, claim);
    var d := BundleFrom(record, content, r.executionId.value, accepted, claim);
    BundleChecks(d, r, RequestParameters(record).value, content, accepted, claim);
    BundleBinds(d, record, r, content, accepted, claim);
  }

  // ----- prepare checkpoints

  function PrepareFrom(bundle: Value, disposition: string): Value {
    VObject(Dict(PREPARE_NAMES, [bundle, VString(disposition), VString("actions.publisher.prepare"), VInt(1)]))
  }

  lemma PrepareFields(bundle: Value, disposition: string)
    requires Ordered(bundle)
    ensures var e := PrepareFrom(bundle, disposition);
            && Ordered(e) && HasKeys(e, {"schema_version", "kind", "bundle", "disposition"})
            && Get(e, "bundle") == Some(bundle) && GetString(e, "disposition") == Some(disposition)
            && GetString(e, "kind") == Some("actions.publisher.prepare") && Get(e, "schema_version") == Some(VInt(1))
  {
    hide Ascending, Dict, HasKeys, NameLess, Find;
    NamesAscend();
    PrepareNamesAreTheKeys();
    var values := [bundle, VString(disposition), VString("actions.publisher.prepare"), VInt(1)];
    DictHolds(PREPARE_NAMES, values);
    assert PREPARE_NAMES[0] == "bundle" && PREPARE_NAMES[1] == "disposition" && PREPARE_NAMES[2] == "kind";
    assert PREPARE_NAMES[3] == "schema_version";
  }

  lemma FourStrings(d: Value, a: string, b: string, c: string, f: string)
    requires GetString(d, "request_id") == Some(a) && GetString(d, "request_digest") == Some(b)
    requires GetString(d, "accepted_revision") == Some(c) && GetString(d, "claim_revision") == Some(f)
    ensures FieldStrings(d,
                         ["request_id", "request_digest", "accepted_revision", "claim_revision"]) == Some([a, b, c, f])
  {
    hide GetString;
    var names := ["request_id", "request_digest", "accepted_revision", "claim_revision"];
    assert names[0] == "request_id" && names[1] == "request_digest" && names[2] == "accepted_revision"
           && names[3] == "claim_revision";
    var fs := FieldStrings(d, names).value;
    assert fs[0] == a && fs[1] == b && fs[2] == c && fs[3] == f;
    assert fs == [a, b, c, f];
  }

  /** The prepare checkpoint of a claimed record is a well-formed envelope of its request and execution. */
  lemma PrepareIsWellFormed(r: JournalRecord.Record, parameters: seq<Keyed<Json>>, content: string,
                            accepted: string, claim: string, disposition: string)
    requires Claimed(r, parameters, content) && LowerHex(accepted, 40) && LowerHex(claim, 40)
    requires disposition == "granted" || disposition == "reconciliation_required"
    ensures Loads(content).Some?
    ensures var f, execution := r.frozen, r.executionId.value;
            var e := PrepareFrom(BundleFrom(Loads(content).value, content, execution, accepted, claim), disposition);
            && WellFormedPublisher(PrepareKind, e) && CarriedRecord(e) == Some(content)
            && ExecutionOf(PrepareKind, e) == Some(execution)
            && MarkerFields(PrepareKind, e) == Ok([f.requestId, f.requestDigest, DigestOf(execution), accepted, claim])
  {
    hide CanonicalText, ByteLength, Loads, Ordered, Find, HasKeys, BundleFrom, Free, DigestOf, FieldStrings,
         PrepareFrom, RecordEntries, OPERATIONS, JournalRecord.ValidExecutionId, BundleDict, RecordBound, AllChars,
         WellFormedPublisher, MarkerFields, ExecutionOf;
    BundleIsWellFormed(r, parameters, content, accepted, claim);
    ExecutionIsFree(r.executionId.value);
    FrozenIsUnmarked(r.frozen, parameters);
    DigestIsHex(r.executionId.value);
    var d := BundleFrom(Loads(content).value, content, r.executionId.value, accepted, claim);
    PrepareFields(d, disposition);
    FourStrings(d, r.frozen.requestId, r.frozen.requestDigest, accepted, claim);
    CheckpointIsWellFormed(PrepareFrom(d, disposition), d, disposition, r.frozen.requestId, r.frozen.requestDigest,
                           r.executionId.value, accepted, claim);
  }

  lemma CheckpointIsWellFormed(e: Value, d: Value, disposition: string, request: string, digest: string,
                               execution: string,
                               accepted: string, claim: string)
    requires Ordered(e) && HasKeys(e, {"schema_version", "kind", "bundle", "disposition"})
    requires Get(e, "bundle") == Some(d) && GetString(e, "disposition") == Some(disposition)
    requires GetString(e, "kind") == Some("actions.publisher.prepare") && Get(e, "schema_version") == Some(VInt(1))
    requires disposition == "granted" || disposition == "reconciliation_required"
    requires BundleDict(d) && RecordBound(d) && GetString(d, "execution_id") == Some(execution)
    requires GetString(d, "request_id") == Some(request) && GetString(d, "request_digest") == Some(digest)
    requires GetString(d, "accepted_revision") == Some(accepted) && GetString(d, "claim_revision") == Some(claim)
    requires FieldStrings(d, ["request_id", "request_digest", "accepted_revision", "claim_revision"])
             == Some([request, digest, accepted, claim])
    requires RequestId(request) && LowerHex(digest, 64) && ExecutionId(execution) && LowerHex(accepted, 40)
             && LowerHex(claim, 40)
    ensures MarkerFields(PrepareKind, e) == Ok([request, digest, DigestOf(execution), accepted, claim])
    ensures WellFormedPublisher(PrepareKind, e) && ExecutionOf(PrepareKind, e) == Some(execution)
  {
    hide Ordered, Find, DigestOf, FieldStrings, BundleDict, RecordBound, AllChars, HasKeys;
    DigestIsHex(execution);
    assert "actions.publisher." + KindName(PrepareKind) == "actions.publisher.prepare";
    var fs := [request, digest, accepted, claim];
    assert [fs[0], fs[1], DigestOf(execution)] + fs[2..] == [request, digest, DigestOf(execution), accepted, claim];
  }

  /** Every prepare checkpoint that is formatted is read back, unless the canonical request contains
      the prefix of the kind it is scanned for: then that scan fails. */
  lemma PreparesReadBackExactly(r: JournalRecord.Record, parameters: seq<Keyed<Json>>, content: string,
                                accepted: string, claim: string, disposition: string, k: Kind)
    requires Claimed(r, parameters, content) && LowerHex(accepted, 40) && LowerHex(claim, 40)
    requires disposition == "granted" || disposition == "reconciliation_required"
    ensures Loads(content).Some?
    ensures var e := PrepareFrom(BundleFrom(Loads(content).value, content, r.executionId.value, accepted, claim),
                                 disposition);
            FormatPublisher(PrepareKind, e).Ok? ==>
              ParsePublisher(FormatPublisher(PrepareKind, e).value, k, r.executionId.value, Some(r.frozen.requestId))
              == if Contains(r.frozen.canonicalRequest, PublisherPrefix(k)) then Err(CanonicalMismatch)
                 else if k == PrepareKind then Ok(Some(e)) else Ok(None)
  {
    hide Acceptable, CanonicalText, RecordEntries, Loads, PrepareFrom, BundleFrom, WellFormedPublisher,
         FormatPublisher, ParsePublisher, Contains, PublisherPrefix, CarriedRecord, ExecutionOf, MarkerFields,
         DigestOf, LowerHex;
    PrepareIsWellFormed(r, parameters, content, accepted, claim, disposition);
    var e := PrepareFrom(BundleFrom(Loads(content).value, content, r.executionId.value, accepted, claim), disposition);
    if FormatPublisher(PrepareKind, e).Ok? {
      UnreadableExactly(k, PrepareKind, e, r.executionId.value, Some(r.frozen.requestId), r, parameters, content);
    }
  }

  // ----- intents

  /** `_intent_envelope`. */
  function IntentFrom(record: Value, execution: string, accepted: string): Value {
    VObject(Dict(INTENT_NAMES, [
      VString(accepted), VString(execution), GetOrNull(record, "issue_id"), GetOrNull(record, "issue_number"),
      VString("actions.publisher.intent"), GetOrNull(record, "operation"), GetOrNull(record, "policy_revision"),
      GetOrNull(record, "repository_full_name"), GetOrNull(record, "repository_id"),
      GetOrNull(record, "request_digest"),
      GetOrNull(record, "request_id"), VInt(1)]))
  }

  lemma IntentNamesAt()
    ensures var names := INTENT_NAMES;
            && |names| == 12
            && names[0] == "accepted_revision" && names[1] == "execution_id" && names[2] == "issue_id"
            && names[3] == "issue_number"
            && names[4] == "kind" && names[5] == "operation" && names[6] == "policy_revision"
            && names[7] == "repository_full_name"
            && names[8] == "repository_id" && names[9] == "request_digest" && names[10] == "request_id"
            && names[11] == "schema_version"
  {
  }

  /** The fields of an intent for a record with the frozen fields. */
  predicate IntentValue(e: Value, f: JournalRecord.Frozen, execution: string, accepted: string) {
    && Ordered(e) && HasKeys(e, INTENT_KEYS)
    && Get(e, "accepted_revision") == Some(VString(accepted)) && Get(e, "execution_id") == Some(VString(execution))
    && Get(e, "issue_id") == Some(VInt(f.issueId)) && Get(e, "issue_number") == Some(VInt(f.issueNumber))
    && Get(e, "kind") == Some(VString("actions.publisher.intent")) && Get(e, "operation") == Some(VString(f.operation))
    && Get(e, "policy_revision") == Some(VString(f.policyRevision))
    && Get(e, "repository_full_name") == Some(VString(f.repositoryFullName))
    && Get(e, "repository_id") == Some(VInt(f.repositoryId))
    && Get(e, "request_digest") == Some(VString(f.requestDigest))
    && Get(e, "request_id") == Some(VString(f.requestId)) && Get(e, "schema_version") == Some(VInt(1))
  }

  lemma IntentFields(record: Value, f: JournalRecord.Frozen, execution: string, accepted: string)
    requires FrozenValue(record, f)
    ensures IntentValue(IntentFrom(record, execution, accepted), f, execution, accepted)
  {
    hide Ascending, Get, Dict, HasKeys, INTENT_KEYS, INTENT_NAMES;
    NamesAscend();
    IntentNamesAreTheKeys();
    IntentNamesAt();
    DictHolds(INTENT_NAMES, [
      VString(accepted), VString(execution), GetOrNull(record, "issue_id"), GetOrNull(record, "issue_number"),
      VString("actions.publisher.intent"), GetOrNull(record, "operation"), GetOrNull(record, "policy_revision"),
      GetOrNull(record, "repository_full_name"), GetOrNull(record, "repository_id"),
      GetOrNull(record, "request_digest"),
      GetOrNull(record, "request_id"), VInt(1)]);
  }

  lemma IntentIsWellFormed(e: Value, f: JournalRecord.Frozen, parameters: seq<Keyed<Json>>, execution: string,
                           accepted: string)
    requires IntentValue(e, f, execution, accepted) && Acceptable(f, parameters)
    requires ExecutionId(execution) && LowerHex(accepted, 40)
    ensures WellFormedPublisher(IntentKind, e) && ExecutionOf(IntentKind, e) == Some(execution)
    ensures MarkerFields(IntentKind, e) == Ok([f.requestId, f.requestDigest, DigestOf(execution)])
  {
    hide CanonicalText, Ordered, Find, HasKeys, Free, DigestOf, AllChars, INTENT_KEYS, OPERATIONS;
    DigestIsHex(execution);
    FrozenIsUnmarked(f, parameters);
    var fs := FieldStrings(e, ["request_id", "request_digest"]).value;
    assert fs[0] == f.requestId && fs[1] == f.requestDigest;
    assert [fs[0], fs[1], DigestOf(execution)] + fs[2..] == [f.requestId, f.requestDigest, DigestOf(execution)];
  }

  lemma IntentKeysAreFree(n: string)
    requires n in INTENT_KEYS
    ensures Free(n, '<')
  {
  }

  lemma QuietInteger(e: Value, name: string, n: int, t: string)
    requires Get(e, name) == Some(VInt(n))
    ensures !TellsAt(e, name, t)
  {
    hide Get, Contains;
  }

  lemma QuietIntent(e: Value, f: JournalRecord.Frozen, execution: string, accepted: string, t: string)
    requires IntentValue(e, f, execution, accepted) && Unmarked(f) && ExecutionId(execution) && LowerHex(accepted, 40)
             && MarkText(t)
    ensures !Tells(e, t)
  {
    hide MarkText, TellsAt, Contains, Get, Ordered, Tells, Free, HasKeys, AllChars;
    HexIsFree(accepted, 40);
    WordsAreFree(execution);
    KindsAreFree();
    QuietField(e, "accepted_revision", t);
    QuietField(e, "execution_id", t);
    QuietField(e, "kind", t);
    QuietField(e, "operation", t);
    QuietField(e, "policy_revision", t);
    QuietField(e, "repository_full_name", t);
    QuietField(e, "request_digest", t);
    QuietField(e, "request_id", t);
    QuietInteger(e, "issue_id", f.issueId, t);
    QuietInteger(e, "issue_number", f.issueNumber, t);
    QuietInteger(e, "repository_id", f.repositoryId, t);
    QuietInteger(e, "schema_version", 1, t);
    hide IntentValue;
    forall n | n in INTENT_KEYS ensures Free(n, '<') { IntentKeysAreFree(n); }
    assert Ordered(e) && HasKeys(e, INTENT_KEYS);
    TellsByName(e, INTENT_KEYS, t);
  }

  /** The intent of every accepted record reads back for its request and execution, and scans for
      the other kinds pass over it. */
  lemma IntentsReadBack(r: JournalRecord.Record, parameters: seq<Keyed<Json>>, content: string, execution: string,
                        accepted: string, k: Kind)
    requires Acceptable(r.frozen, parameters) && CanonicalText(content, Object(RecordEntries(r)))
    requires ExecutionId(execution) && LowerHex(accepted, 40)
    ensures Loads(content).Some?
    ensures var e := IntentFrom(Loads(content).value, execution, accepted);
            && WellFormedPublisher(IntentKind, e)
            && (FormatPublisher(IntentKind, e).Ok? ==>
                  ParsePublisher(FormatPublisher(IntentKind, e).value, k, execution, Some(r.frozen.requestId))
                  == if k == IntentKind then Ok(Some(e)) else Ok(None))
  {
    hide CanonicalText, Loads, IntentFrom, WellFormedPublisher, FormatPublisher, ParsePublisher, Contains,
         PublisherPrefix, ExecutionOf, MarkerFields, DigestOf, LowerHex, ExecutionId, Pretty, Tells, MarkText,
         Acceptable, IntentValue, Unmarked, RecordEntries;
    FrozenLoads(r, content);
    var e := IntentFrom(Loads(content).value, execution, accepted);
    IntentFields(Loads(content).value, r.frozen, execution, accepted);
    IntentIsWellFormed(e, r.frozen, parameters, execution, accepted);
    FrozenIsUnmarked(r.frozen, parameters);
    PrefixIsMark(k);
    QuietIntent(e, r.frozen, execution, accepted, PublisherPrefix(k));
    PrettyTells(e, PublisherPrefix(k)) by { assert WellFormedPublisher(IntentKind, e); OrderedIntent(e); }
    if FormatPublisher(IntentKind, e).Ok? {
      ScannedAs(k, IntentKind, e, execution, Some(r.frozen.requestId));
      PublisherRoundTrip(IntentKind, e);
    }
  }

  lemma OrderedIntent(e: Value)
    requires WellFormedPublisher(IntentKind, e)
    ensures Ordered(e)
  {
    hide Ordered, PublisherFault, MarkerFields, PublisherFields;
  }

  // ----- receipts

  const RECEIPT_KEYS := {
    "schema_version", "kind", "request_id", "request_digest", "operation", "accepted_revision", "claim_revision",
    "terminal_state", "terminal_code", "result"}

  lemma ReceiptKeysAreFree(n: string)
    requires n in RECEIPT_KEYS
    ensures Free(n, '<')
  {
  }

  lemma StatesAreFree()
    ensures Free("succeeded", '<') && Free("rejected", '<') && Free("candidate_ready", '<')
            && Free("actions.request.receipt", '<')
  {
  }

  /** What the parser's checks leave of a receipt's strings. */
  lemma ReceiptStrings(e: Value)
    requires WellFormedReceipt(e)
    ensures GetString(e, "accepted_revision").Some? && Free(GetString(e, "accepted_revision").value, '<')
    ensures GetString(e, "claim_revision").Some? && Free(GetString(e, "claim_revision").value, '<')
    ensures GetString(e, "kind").Some? && Free(GetString(e, "kind").value, '<')
    ensures GetString(e, "operation").Some? && Free(GetString(e, "operation").value, '<')
    ensures GetString(e, "request_digest").Some? && Free(GetString(e, "request_digest").value, '<')
    ensures GetString(e, "request_id").Some? && Free(GetString(e, "request_id").value, '<')
    ensures GetString(e, "terminal_state").Some? && Free(GetString(e, "terminal_state").value, '<')
    ensures Get(e, "schema_version") == Some(VInt(1)) && GetString(e, "terminal_code").Some? && Get(e, "result").Some?
    ensures Ordered(e)
  {
    hide Ordered, Get, HandoffOk, Free, ReceiptFields;
    var fs := FieldStrings(e, RECEIPT_NAMES).value;
    hide FieldStrings;
    ReceiptFieldsAreFree(fs);
    StatesAreFree();
    assert AllFree(fs, '<');
  }

  lemma ReceiptTells(e: Value, t: string)
    requires WellFormedReceipt(e) && HasKeys(e, RECEIPT_KEYS) && Free(GetString(e, "terminal_code").value, '<')
             && MarkText(t)
    ensures Tells(e, t) <==> Tells(GetOrNull(e, "result"), t)
  {
    hide MarkText, TellsAt, Contains, Get, Ordered, Tells, Free, HasKeys, WellFormedReceipt;
    ReceiptStrings(e);
    QuietField(e, "accepted_revision", t);
    QuietField(e, "claim_revision", t);
    QuietField(e, "kind", t);
    QuietField(e, "operation", t);
    QuietField(e, "request_digest", t);
    QuietField(e, "request_id", t);
    QuietField(e, "terminal_state", t);
    QuietField(e, "terminal_code", t);
    QuietInteger(e, "schema_version", 1, t);
    ToldValue(e, "result", t);
    forall n | n in RECEIPT_KEYS ensures Free(n, '<') { ReceiptKeysAreFree(n); }
    TellsByName(e, RECEIPT_KEYS, t);
  }

  lemma ToldValue(e: Value, name: string, t: string)
    requires Get(e, name).Some?
    ensures TellsAt(e, name, t) <==> Tells(GetOrNull(e, name), t)
  {
    hide Get, Contains;
  }

  lemma ReceiptIsMark()
    ensures MarkText(RECEIPT)
  {
    hide PlainText, MarkerPrefix;
    NamesArePlain(IntentKind);
    MarkerIsMark("receipt");
  }

  lemma PlantedReceiptFails(e: Value)
    requires WellFormedReceipt(e) && FormatReceipt(e).Ok? && Contains(Pretty(e, 0), RECEIPT)
    ensures ParseReceipt(FormatReceipt(e).value,
                         OwnBinding(FieldStrings(e, RECEIPT_NAMES).value)) == Err(CanonicalMismatch)
  {
    hide Pretty, ReadFields, MarkerText, ByteLength, Count, ReceiptFault, Calm, Free, Contains, Shaped, Frame,
         FieldStrings, Ordered;
    var fs := FieldStrings(e, RECEIPT_NAMES).value;
    ReceiptFieldsAreFree(fs);
    ReceiptConstants();
    PrettyIsCalm(e, 0);
    FormattedShape(RECEIPT, fs, RECEIPT_LABELS, Pretty(e, 0));
  }

  /** A formatted receipt with a clean terminal code is read back under its own bindings, unless some
      string of its result contains the receipt prefix: then it is rejected. */
  lemma ReceiptsReadBackExactly(e: Value)
    requires WellFormedReceipt(e) && HasKeys(e, RECEIPT_KEYS) && Free(GetString(e, "terminal_code").value, '<')
    requires FormatReceipt(e).Ok?
    ensures ParseReceipt(FormatReceipt(e).value, OwnBinding(FieldStrings(e, RECEIPT_NAMES).value))
            == if Tells(GetOrNull(e, "result"), RECEIPT) then Err(CanonicalMismatch) else Ok(Some(e))
  {
    hide Pretty, Contains, Tells, MarkText, FormatReceipt, ParseReceipt, FieldStrings, Get, Free, ReceiptFault,
         ReceiptFields, Ordered, HasKeys, RECEIPT_KEYS, RECEIPT;
    ReceiptIsMark();
    ReceiptTells(e, RECEIPT);
    PrettyTells(e, RECEIPT);
    ReceiptRoundTrip(e);
    if Contains(Pretty(e, 0), RECEIPT) { PlantedReceiptFails(e); }
  }
}
