/** The comments that are formatted but not read back do occur: the parameters of a request, and the
    labels of a workflow's jobs, may hold the very prefix the marker is recognized by. */
module UnreadableComments {
  import opened Common
  import opened JsonValue
  import opened JsonPrinter
  import opened JsonParser
  import opened Text
  import opened CommentFraming
  import opened CommentJson
  import opened Envelopes
  import opened Dictionaries
  import opened Markers
  import opened MachineComments
  import opened MarkedTexts
  import opened PublisherEnvelopes
  import opened BuiltEnvelopes
  import opened TextLengths
  import JsonTheorems
  import Mentions
  import JournalRecord
  import Decimal

  // ----- objects with different names

  /** Length and first letter tell the names of a record apart. */
  function Signature(s: string): nat {
    if s == "" then 0 else 1000 * |s| + s[0] as int
  }

  predicate AllDifferent(ns: seq<nat>) {
    forall i, j | 0 <= i < j < |ns| :: ns[i] != ns[j]
  }

  lemma DistinctNames(ms: seq<Keyed<Json>>, names: seq<string>, signatures: seq<nat>)
    requires |ms| == |names| == |signatures| && AllDifferent(signatures)
    requires forall k | 0 <= k < |ms| :: ms[k].key == ScalarsOf(names[k]) && Signature(names[k]) == signatures[k]
    ensures DistinctKeys(ms)
  {
    hide Signature, ScalarsOf;
    forall i, j | 0 <= i < j < |ms| ensures ms[i].key != ms[j].key {
      TextOfScalars(names[i]);
      TextOfScalars(names[j]);
    }
  }

  const RECORD_NAMES := [
    "schema_version", "repository_id", "repository_full_name", "issue_id", "issue_number", "author_id", "sender_id",
    "request_id", "operation", "canonical_request", "request_digest", "accepted_at", "policy_revision", "state",
    "execution_id", "terminal_code", "terminal_reference"]
  const RECORD_SIGNATURES := [
    14115, 13114, 20114, 8105, 12105, 9097, 9115, 10114, 9111, 17099, 14114, 11097, 15112, 5115, 12101, 13116, 18116]

  lemma RecordSignatures()
    ensures |RECORD_NAMES| == |RECORD_SIGNATURES| == 17 && AllDifferent(RECORD_SIGNATURES)
    ensures forall k | 0 <= k < 17 :: Signature(RECORD_NAMES[k]) == RECORD_SIGNATURES[k]
  {
  }

  lemma RecordKeys(r: JournalRecord.Record)
    ensures var es := RecordEntries(r); |es| == 17 && forall k | 0 <= k < 17 :: es[k].key == ScalarsOf(RECORD_NAMES[k])
  {
    hide ScalarsOf, NumberJson, TextJson, OptionalJson;
  }

  lemma RecordIsDistinct(r: JournalRecord.Record)
    ensures DistinctKeys(RecordEntries(r))
  {
    hide RecordEntries, RECORD_NAMES, RECORD_SIGNATURES, Signature, AllDifferent;
    RecordSignatures();
    RecordKeys(r);
    DistinctNames(RecordEntries(r), RECORD_NAMES, RECORD_SIGNATURES);
  }

  lemma RequestIsDistinct(f: JournalRecord.Frozen, parameters: seq<Keyed<Json>>)
    ensures DistinctKeys(RequestEntries(f, parameters))
  {
    hide NumberJson, TextJson;
    DistinctNames(RequestEntries(f, parameters), ["schema_version", "request_id", "operation", "parameters"],
                  [14115, 10114, 9111, 10112]);
  }

  lemma OneIsGood(n: nat)
    requires n > 0
    ensures Good(NumberJson(1), n)
  {
    hide NumberText, IntegerBytes;
    JsonTheorems.IntegerIsNumber(1);
  }

  lemma RecordIsGood(r: JournalRecord.Record)
    requires r.frozen.repositoryId == r.frozen.issueId == r.frozen.issueNumber == r.frozen.authorId == r.frozen.senderId == 1
    ensures Good(Object(RecordEntries(r)), MAX_DEPTH)
  {
    hide NumberJson;
    RecordIsDistinct(r);
    OneIsGood(MAX_DEPTH - 1);
    var es := RecordEntries(r);
    forall i | 0 <= i < |es| ensures Good(es[i].value, MAX_DEPTH - 1) {}
  }

  // ----- a request whose parameters hold a marker's prefix

  function Planted(k: Kind): seq<Keyed<Json>> {
    [Named("note", TextJson(PublisherPrefix(k)))]
  }

  function Frozen(request: string, text: string, policy: string): JournalRecord.Frozen {
    JournalRecord.Frozen(request, DigestOf(text), text, "governance.ledger", 1, "owner/name", 1, 1, 1, 1,
                         "2026-01-01T00:00:00Z", policy)
  }

  lemma PrefixIsShort(k: Kind)
    ensures Unescaped(PublisherPrefix(k)) && |PublisherPrefix(k)| <= 43
  {
    PrefixIsMark(k);
    assert |KindName(k)| <= 11 && |START| == 17;
    assert |PublisherPrefix(k)| == 1 + (|START| + (|"publisher-" + KindName(k)| + 4));
    hide KindName;
    var t := PublisherPrefix(k);
    hide PublisherPrefix;
    forall i | 0 <= i < |t| ensures ' ' <= t[i] <= '~' && t[i] != '"' && t[i] != '\\' {
      assert Mentions.PlainByte(ScalarsOf(t)[i]);
    }
  }

  lemma WordsAreUnescaped(s: string)
    requires AllChars(s, WordChar) || AllChars(s, IdChar) || AllChars(s, LowerHexChar)
    ensures Unescaped(s)
  {
  }

  lemma ConstantsAreUnescaped()
    ensures Unescaped("schema_version") && Unescaped("request_id") && Unescaped("operation") && Unescaped("parameters")
  {
  }

  lemma TextsAreUnescaped()
    ensures Unescaped("note") && Unescaped("governance.ledger") && Unescaped("owner/name")
            && Unescaped("2026-01-01T00:00:00Z")
    ensures Unescaped("executing")
  {
  }

  lemma PlantedPrints(k: Kind)
    ensures Fits(Piece(Named("parameters", Object(Planted(k)))), 80) && Good(Object(Planted(k)), MAX_DEPTH - 1)
  {
    hide Unescaped, Jcs, PublisherPrefix, TextJson;
    ConstantsAreUnescaped();
    TextsAreUnescaped();
    PrefixIsShort(k);
    VisibleIfUnescaped(PublisherPrefix(k));
    TextFits("note", PublisherPrefix(k), 53);
    ObjectPrints(Planted(k), 53);
    TextOfScalars("parameters");
    PlantedIsGood(k);
  }

  lemma PlantedIsGood(k: Kind)
    ensures Good(Object(Planted(k)), MAX_DEPTH - 1)
  {
    hide PublisherPrefix;
  }

  lemma VisibleIfUnescaped(s: string)
    requires Unescaped(s)
    ensures Visible(s)
  {
  }

  lemma RequestPrints(f: JournalRecord.Frozen, k: Kind)
    requires RequestId(f.requestId) && f.operation == "governance.ledger"
    ensures var v := Object(RequestEntries(f, Planted(k)));
            Good(v, MAX_DEPTH) && Jcs(v).Ok? && VisibleBytes(Jcs(v).value) && |Jcs(v).value| <= 602
  {
    hide Unescaped, Jcs, Fits, AllChars, NumberJson, TextJson, Planted, VisibleBytes, Piece;
    ConstantsAreUnescaped();
    TextsAreUnescaped();
    WordsAreUnescaped(f.requestId);
    VisibleIfUnescaped(f.requestId);
    VisibleIfUnescaped(f.operation);
    OneFits("schema_version", 150);
    TextFits("request_id", f.requestId, 150);
    TextFits("operation", f.operation, 150);
    PlantedPrints(k);
    FitsInMore(Piece(Named("parameters", Object(Planted(k)))), 80, 150);
    RequestIsDistinct(f, Planted(k));
    OneIsGood(MAX_DEPTH - 1);
    ObjectPrints(RequestEntries(f, Planted(k)), 150);
    TextIsGood(f.requestId);
    TextIsGood(f.operation);
  }

  lemma TextIsGood(s: string)
    ensures Good(TextJson(s), MAX_DEPTH - 1)
  {
  }

  lemma FitsInMore(p: Keyed<Written>, few: nat, many: nat)
    requires Fits(p, few) && few <= many
    ensures Fits(p, many)
  {
  }

  /** A request, of any id, whose parameters hold the prefix of a kind. */
  lemma PlantedRequest(request: string, k: Kind) returns (text: string)
    requires RequestId(request)
    ensures forall policy :: CanonicalText(text, Object(RequestEntries(Frozen(request, text, policy), Planted(k))))
    ensures Visible(text) && |text| <= 602
  {
    hide Jcs, Good, CanonicalText, RequestId, Planted, Visible, VisibleBytes;
    var f := Frozen(request, "", "");
    RequestPrints(f, k);
    text := TextExists(Object(RequestEntries(f, Planted(k))));
    forall policy ensures RequestEntries(Frozen(request, text, policy), Planted(k)) == RequestEntries(f, Planted(k)) {}
  }

  lemma PlantedIsAcceptable(request: string, text: string, policy: string, k: Kind)
    requires RequestId(request) && LowerHex(policy, 40)
    requires CanonicalText(text, Object(RequestEntries(Frozen(request, text, policy), Planted(k))))
    ensures Acceptable(Frozen(request, text, policy), Planted(k))
  {
    hide CanonicalText, RequestId, LowerHex, RequestEntries, DigestOf;
    var name := "owner/name";
    assert name[5] == '/';
    TextsHaveNoBracket();
  }

  lemma TextsHaveNoBracket()
    ensures Free("owner/name", '<') && Free("2026-01-01T00:00:00Z", '<')
  {
  }

  function Owned(request: string, text: string, policy: string, execution: string): JournalRecord.Record {
    JournalRecord.Record(Frozen(request, text, policy), JournalRecord.Executing, Some(execution), None, None)
  }

  lemma NumberNamesAreUnescaped()
    ensures Unescaped("schema_version") && Unescaped("repository_id") && Unescaped("issue_id")
            && Unescaped("issue_number")
    ensures Unescaped("author_id") && Unescaped("sender_id")
  {
  }

  lemma LongNamesAreUnescaped()
    ensures Unescaped("repository_full_name") && Unescaped("canonical_request") && Unescaped("request_digest")
    ensures Unescaped("terminal_code") && Unescaped("terminal_reference")
  {
  }

  lemma TextNamesAreUnescaped()
    ensures Unescaped("accepted_at") && Unescaped("policy_revision") && Unescaped("state") && Unescaped("execution_id")
  {
  }

  lemma NumbersFit(r: JournalRecord.Record)
    requires r.frozen.repositoryId == r.frozen.issueId == r.frozen.issueNumber == r.frozen.authorId == r.frozen.senderId == 1
    requires r.terminalCode.None? && r.terminalReference.None?
    ensures var es := RecordEntries(r);
            |es| == 17 && forall i | 0 <= i < 17 && (i < 2 || 3 <= i < 7 || i > 14) :: Fits(Piece(es[i]), 1230)
  {
    hide Unescaped, Fits, NumberJson, TextJson, Piece;
    NumberNamesAreUnescaped();
    LongNamesAreUnescaped();
    OneFits("schema_version", 1230);
    OneFits("repository_id", 1230);
    OneFits("issue_id", 1230);
    OneFits("issue_number", 1230);
    OneFits("author_id", 1230);
    OneFits("sender_id", 1230);
    NullFits("terminal_code", 1230);
    NullFits("terminal_reference", 1230);
  }

  /** Texts that JSON writes as they are, and the canonical request. */
  predicate Writable(f: JournalRecord.Frozen) {
    && Unescaped(f.repositoryFullName) && Unescaped(f.requestId) && Unescaped(f.operation) && Unescaped(f.requestDigest)
    && Unescaped(f.acceptedAt) && Unescaped(f.policyRevision) && |f.repositoryFullName| <= 128 && |f.requestId| <= 128
    && |f.operation| <= 128 && |f.requestDigest| <= 128 && |f.acceptedAt| <= 128 && |f.policyRevision| <= 128
    && Visible(f.canonicalRequest) && |f.canonicalRequest| <= 602
  }

  lemma ShortTextFits(name: string, s: string)
    requires Unescaped(name) && |name| <= 20 && Unescaped(s) && |s| <= 128
    ensures Fits(Piece(Named(name, TextJson(s))), 1230)
  {
    hide Fits;
    TextFits(name, s, 1230);
  }

  lemma TextsFit(r: JournalRecord.Record)
    requires Writable(r.frozen) && r.state.Executing? && r.executionId.Some?
    requires Unescaped(r.executionId.value) && |r.executionId.value| <= 128
    ensures var es := RecordEntries(r);
            |es| == 17 && forall i | i == 2 || 7 <= i < 15 :: Fits(Piece(es[i]), 1230)
  {
    hide Unescaped, Fits, NumberJson, TextJson, Piece, Visible;
    ConstantsAreUnescaped();
    TextsAreUnescaped();
    TextNamesAreUnescaped();
    LongNamesAreUnescaped();
    ShortTextFits("repository_full_name", r.frozen.repositoryFullName);
    ShortTextFits("request_id", r.frozen.requestId);
    ShortTextFits("operation", r.frozen.operation);
    TextFits("canonical_request", r.frozen.canonicalRequest, 1230);
    ShortTextFits("request_digest", r.frozen.requestDigest);
    ShortTextFits("accepted_at", r.frozen.acceptedAt);
    ShortTextFits("policy_revision", r.frozen.policyRevision);
    ShortTextFits("state", "executing");
    ShortTextFits("execution_id", r.executionId.value);
  }

  lemma FrozenIsWritable(request: string, text: string, policy: string)
    requires RequestId(request) && LowerHex(policy, 40) && Visible(text) && |text| <= 602
    ensures Writable(Frozen(request, text, policy))
  {
    hide Unescaped, AllChars, Visible, DigestOf;
    DigestIsHex(text);
    TextsAreUnescaped();
    WordsAreUnescaped(request);
    WordsAreUnescaped(policy);
    WordsAreUnescaped(DigestOf(text));
  }

  /** The text of a claimed record for the request. */
  lemma OwnedRecord(request: string, text: string, policy: string, execution: string) returns (content: string)
    requires RequestId(request) && LowerHex(policy, 40) && ExecutionId(execution) && Visible(text) && |text| <= 602
    ensures CanonicalText(content, Object(RecordEntries(Owned(request, text, policy, execution))))
    ensures Visible(content) && |content| <= 20912
  {
    hide Jcs, Good, CanonicalText, Fits, VisibleBytes, RecordEntries, Writable, Unescaped, AllChars, Visible;
    var r := Owned(request, text, policy, execution);
    FrozenIsWritable(request, text, policy);
    WordsAreUnescaped(execution);
    NumbersFit(r);
    TextsFit(r);
    RecordIsGood(r);
    hide Owned;
    ObjectPrints(RecordEntries(r), 1230);
    content := TextExists(Object(RecordEntries(r)));
  }

  // ----- its prepare checkpoint

  function PlantedValue(k: Kind): Value {
    VObject([Member("note", VString(PublisherPrefix(k)))])
  }

  lemma PlantedLoads(k: Kind)
    ensures Printed(Object(Planted(k))) == Some(PlantedValue(k))
  {
    hide PublisherPrefix;
    var m := Named("note", TextJson(PublisherPrefix(k)));
    LoadedText("note", PublisherPrefix(k));
    JsonTheorems.CanonMembersAt([m], 0);
    assert JsonTheorems.CanonMembers([m]) == [m];
    assert Sort([m]) == [m];
    assert FromKeyed(m) == Some(Member("note", VString(PublisherPrefix(k))));
    assert JsonTheorems.Canon(Object([m])) == Object([m]);
    OneMember(m, Member("note", VString(PublisherPrefix(k))));
  }

  lemma OneMember(m: Keyed<Json>, n: Member)
    requires FromKeyed(m) == Some(n)
    ensures FromJson(Object([m])) == Some(VObject([n]))
  {
    hide FromKeyed;
    var ms := [m];
    assert FromMembers(ms, 1) == Some([]);
    assert FromMembers(ms, 0) == Some(InsertMember(n, []));
    assert [n] + [] == [n];
  }

  lemma PlantedIsFound(f: JournalRecord.Frozen, k: Kind)
    requires CanonicalText(f.canonicalRequest, Object(RequestEntries(f, Planted(k))))
    ensures Loads(f.canonicalRequest).Some?
            && Get(Loads(f.canonicalRequest).value, "parameters") == Some(PlantedValue(k))
  {
    hide CanonicalText, Loads, Printed, Get, Ordered, Planted, PlantedValue;
    var es := RequestEntries(f, Planted(k));
    assert es[3] == Named("parameters", Object(Planted(k)));
    LoadedField(f.canonicalRequest, es, 3);
    TextOfScalars("parameters");
    PlantedLoads(k);
  }

  lemma PlantedParameters(record: Value, f: JournalRecord.Frozen, k: Kind)
    requires FrozenValue(record, f) && CanonicalText(f.canonicalRequest, Object(RequestEntries(f, Planted(k))))
    ensures RequestParameters(record) == Some(PlantedValue(k))
  {
    hide CanonicalText, Loads, Get, Ordered, Planted, PlantedValue, RequestEntries;
    PlantedIsFound(f, k);
  }

  lemma OneLength(level: nat)
    ensures |Pretty(VInt(1), level)| == 1
  {
    assert Decimal.Digits(1) == [1];
  }

  lemma TextLength(s: string, level: nat)
    requires Unescaped(s) && |s| <= 128
    ensures |Pretty(VString(s), level)| <= 130
  {
    hide Unescaped, Pretty;
    VisibleIfUnescaped(s);
    StringLength(s, level);
  }

  lemma PlantedLength(k: Kind)
    ensures |Pretty(PlantedValue(k), 2)| <= 130
  {
    hide Pretty, PublisherPrefix, Unescaped;
    PrefixIsShort(k);
    TextsAreUnescaped();
    VisibleIfUnescaped(PublisherPrefix(k));
    StringLength(PublisherPrefix(k), 3);
    assert Dict(["note"], [VString(PublisherPrefix(k))]) == [Member("note", VString(PublisherPrefix(k)))];
    DictLength(["note"], [VString(PublisherPrefix(k))], 2, 1, 61, 0);
  }

  predicate ShortValue(v: Value) {
    |Pretty(v, 2)| <= 130
  }

  lemma BundleValuesAreShort(record: Value, r: JournalRecord.Record, k: Kind, content: string, accepted: string,
                             claim: string)
    requires FrozenValue(record, r.frozen) && r.executionId.Some? && Writable(r.frozen)
    requires r.frozen.repositoryId == r.frozen.issueId == r.frozen.issueNumber == 1
    requires Unescaped(r.executionId.value) && |r.executionId.value| <= 128
    requires LowerHex(accepted, 40) && LowerHex(claim, 40)
    ensures var vs := BundleValues(record, PlantedValue(k), content, r.executionId.value, accepted, claim);
            forall i | 0 <= i < 14 && i != 1 :: ShortValue(vs[i])
  {
    hide Pretty, Unescaped, PlantedValue, Visible, AllChars, GetOrNull, GetString, Ordered;
    WordsAreUnescaped(accepted);
    WordsAreUnescaped(claim);
    OneLength(2);
    PlantedLength(k);
    TextLength(accepted, 2);
    TextLength(claim, 2);
    TextLength(r.executionId.value, 2);
    TextLength("actions.execution.bundle", 2) by { KindsAreUnescaped(); }
    TextLength(r.frozen.operation, 2);
    TextLength(r.frozen.repositoryFullName, 2);
    TextLength(r.frozen.requestDigest, 2);
    TextLength(r.frozen.requestId, 2);
  }

  lemma KindsAreUnescaped()
    ensures Unescaped("actions.execution.bundle") && Unescaped("actions.publisher.prepare") && Unescaped("granted")
  {
  }

  lemma BundleNamesAreShort()
    ensures forall i | 0 <= i < |BUNDLE_NAMES| :: Unescaped(BUNDLE_NAMES[i]) && |BUNDLE_NAMES[i]| <= 20
  {
    hide Unescaped;
    ConstantsAreUnescaped();
    NumberNamesAreUnescaped();
    LongNamesAreUnescaped();
    TextNamesAreUnescaped();
    OtherNamesAreUnescaped();
  }

  lemma OtherNamesAreUnescaped()
    ensures Unescaped("accepted_revision") && Unescaped("canonical_record") && Unescaped("claim_revision")
            && Unescaped("kind")
    ensures Unescaped("bundle") && Unescaped("disposition")
  {
  }

  lemma BundleLength(values: seq<Value>, content: string)
    requires |values| == 14 && values[1] == VString(content) && Visible(content) && |content| <= 20912
    requires forall i | 0 <= i < 14 && i != 1 :: ShortValue(values[i])
    ensures |Pretty(VObject(Dict(BUNDLE_NAMES, values)), 1)| <= 44705
  {
    hide Pretty, Unescaped, Visible;
    BundleNamesAreShort();
    StringLength(content, 2);
    assert |BUNDLE_NAMES| == 14;
    hide BUNDLE_NAMES;
    DictLength(BUNDLE_NAMES, values, 1, 1, 200, 41900);
  }

  lemma PrepareLength(d: Value)
    requires |Pretty(d, 1)| <= 44705
    ensures |Pretty(PrepareFrom(d, "granted"), 0)| <= 44953
  {
    hide Pretty, Unescaped, Visible;
    ConstantsAreUnescaped();
    OtherNamesAreUnescaped();
    KindsAreUnescaped();
    OneLength(1);
    VisibleIfUnescaped("granted");
    VisibleIfUnescaped("actions.publisher.prepare");
    StringLength("granted", 1);
    StringLength("actions.publisher.prepare", 1);
    var values := [d, VString("granted"), VString("actions.publisher.prepare"), VInt(1)];
    DictLength(PREPARE_NAMES, values, 0, 0, 50, 44750);
  }

  lemma PrepareFormats(e: Value, fs: seq<string>)
    requires |Pretty(e, 0)| <= 44953 && MarkerFields(PrepareKind, e) == Ok(fs) && |fs| == 5
    requires forall i | 0 <= i < 5 :: |fs[i]| <= 128
    ensures FormatPublisher(PrepareKind, e).Ok?
  {
    hide Pretty, MarkerText, MarkerFields, ByteLength, Frame, PublisherPrefix;
    PrefixIsShort(PrepareKind);
    MarkerLength(PublisherPrefix(PrepareKind) + "request_id", fs, BUNDLE_LABELS);
    FrameBytes(MarkerText(PublisherPrefix(PrepareKind) + "request_id", fs, BUNDLE_LABELS), e);
  }

  lemma OnePrefix(j: Kind, k: Kind)
    ensures Contains(PublisherPrefix(k), PublisherPrefix(j)) <==> j == k
  {
    hide PublisherPrefix;
    var s, t := PublisherPrefix(k), PublisherPrefix(j);
    if j == k { assert OccursAt(s, t, 0); }
    else {
      PrefixesDiffer(j, k, "");
      assert s + "" == s;
      PublisherConstants(k);
      PublisherConstants(j);
      forall i | 0 < i < |s| ensures s[i] != '<' { assert s[i] == s[1..][i - 1]; }
      if i :| 0 <= i <= |s| && OccursAt(s, t, i) { CharacterOf(s, t, i, 0); }
    }
  }

  lemma PlantedValueTells(k: Kind, j: Kind)
    ensures Tells(PlantedValue(k), PublisherPrefix(j)) <==> j == k
  {
    hide Contains, PublisherPrefix, MarkText;
    PrefixIsMark(j);
    NoteIsFree();
    QuietText("note", PublisherPrefix(j));
    OnePrefix(j, k);
    var m := Member("note", VString(PublisherPrefix(k)));
    assert TellsIn(m, PublisherPrefix(j)) <==> j == k;
    assert PlantedValue(k).members[0] == m;
  }

  lemma PlantedTells(f: JournalRecord.Frozen, k: Kind, j: Kind)
    requires Acceptable(f, Planted(k))
    ensures Contains(f.canonicalRequest, PublisherPrefix(j)) <==> j == k
  {
    hide Contains, PublisherPrefix, MarkText, Loads, Get, Ordered, CanonicalText, Planted, PlantedValue, Tells,
         RequestEntries;
    PrefixIsMark(j);
    RequestTells(f, Planted(k), PublisherPrefix(j));
    PlantedIsFound(f, k);
    PlantedValueTells(k, j);
  }

  lemma NoteIsFree()
    ensures Free("note", '<')
  {
  }

  /** For every request id, execution, revisions and kind there is a claimed record whose prepare
      checkpoint is well formed and formatted, is rejected by every scan for that kind, and by no
      other scan: the parameters of its request hold the kind's prefix. */
  lemma UnreadablePrepare(request: string, execution: string, accepted: string, claim: string, k: Kind)
      returns (r: JournalRecord.Record, content: string, e: Value)
    requires RequestId(request) && JournalRecord.ValidExecutionId(execution) && LowerHex(accepted, 40)
             && LowerHex(claim, 40)
    ensures Claimed(r, Planted(k), content) && r.frozen.requestId == request && r.executionId == Some(execution)
    ensures Loads(content).Some?
            && e == PrepareFrom(BundleFrom(Loads(content).value, content, execution, accepted, claim), "granted")
    ensures WellFormedPublisher(PrepareKind, e) && FormatPublisher(PrepareKind, e).Ok?
    ensures forall j :: ParsePublisher(FormatPublisher(PrepareKind, e).value, j, execution, Some(request))
                        == if j == k then Err(CanonicalMismatch) else if j == PrepareKind then Ok(Some(e)) else Ok(None)
  {
    hide CanonicalText, Loads, Printed, Get, Ordered, Planted, PlantedValue, Contains, PublisherPrefix, Pretty,
         Unescaped, Visible, RecordEntries, RequestEntries, AllChars, DigestOf, BundleValues, WellFormedPublisher,
         MarkerFields, FormatPublisher, ParsePublisher, ByteLength, JournalRecord.ValidExecutionId, FrozenValue,
         Writable, Acceptable, PrepareFrom, CarriedRecord;
    var text := PlantedRequest(request, k);
    content := OwnedRecord(request, text, accepted, execution) by { ExecutionIsFree(execution); }
    r := Owned(request, text, accepted, execution);
    PlantedIsAcceptable(request, text, accepted, k);
    VisibleBytesOf(content);
    PrepareIsWellFormed(r, Planted(k), content, accepted, claim, "granted");
    var d := BundleFrom(Loads(content).value, content, execution, accepted, claim);
    e := PrepareFrom(d, "granted");
    PreparedIsShort(r, k, content, accepted, claim) by {
      FrozenIsWritable(request, text, accepted);
      ExecutionIsFree(execution);
      WordsAreUnescaped(execution);
    }
    PrepareLength(d);
    DigestIsHex(execution);
    DigestIsHex(text);
    PrepareFormats(e, [request, DigestOf(text), DigestOf(execution), accepted, claim]);
    forall j ensures ParsePublisher(FormatPublisher(PrepareKind, e).value, j, execution, Some(request))
                     == if j == k then Err(CanonicalMismatch) else if j == PrepareKind then Ok(Some(e)) else Ok(None) {
      PlantedTells(r.frozen, k, j);
      PreparesReadBackExactly(r, Planted(k), content, accepted, claim, "granted", j);
    }
  }

  lemma VisibleBytesOf(s: string)
    requires Visible(s)
    ensures ByteLength(s) == |s|
  {
    AsciiLength(s);
  }

  lemma PreparedIsShort(r: JournalRecord.Record, k: Kind, content: string, accepted: string, claim: string)
    requires Claimed(r, Planted(k), content) && Writable(r.frozen) && Visible(content) && |content| <= 20912
    requires r.frozen.repositoryId == r.frozen.issueId == r.frozen.issueNumber == 1
    requires Unescaped(r.executionId.value) && |r.executionId.value| <= 128 && LowerHex(accepted, 40)
             && LowerHex(claim, 40)
    ensures Loads(content).Some?
    ensures |Pretty(BundleFrom(Loads(content).value, content, r.executionId.value, accepted, claim), 1)| <= 44705
  {
    hide CanonicalText, Loads, Pretty, Unescaped, Visible, RecordEntries, RequestEntries, AllChars, DigestOf,
         BundleValues, Writable, FrozenValue, PlantedValue, Planted, RequestParameters, ShortValue;
    FrozenLoads(r, content);
    var record := Loads(content).value;
    PlantedParameters(record, r.frozen, k);
    BundleValuesAreShort(record, r, k, content, accepted, claim);
    var values := BundleValues(record, PlantedValue(k), content, r.executionId.value, accepted, claim);
    assert values[1] == VString(content) by { SecondValue(record, PlantedValue(k), content, r.executionId.value,
                                                          accepted, claim); }
    BundleLength(values, content);
  }

  lemma SecondValue(record: Value, parameters: Value, content: string, execution: string, accepted: string,
                    claim: string)
    ensures BundleValues(record, parameters, content, execution, accepted, claim)[1] == VString(content)
  {
  }

  // ----- a receipt whose result holds the prefix in the name of a job

  const JOB_NAMES := ["conclusion", "failed_steps", "html_url", "id", "name", "status"]
  const RESULT_NAMES := [
    "complete", "jobs", "jobs_complete", "jobs_observed_total", "kind", "labels_truncated", "observed_total",
    "repository",
    "repository_full_name", "repository_id", "result", "runs", "schema_version", "selected_run", "source_sha",
    "workflow"]
  const SORTED_RECEIPT_NAMES := [
    "accepted_revision", "claim_revision", "kind", "operation", "request_digest", "request_id", "result",
    "schema_version",
    "terminal_code", "terminal_state"]

  lemma JobNamesAscend()
    ensures Ascending(JOB_NAMES)
  {
    hide NameLess;
    NameLessAt("conclusion", "failed_steps", 0);
    NameLessAt("failed_steps", "html_url", 0);
    NameLessAt("html_url", "id", 0);
    NameLessAt("id", "name", 0);
    NameLessAt("name", "status", 0);
  }

  lemma FirstResultNames()
    ensures NameLess("complete", "jobs") && NameLess("jobs", "jobs_complete")
            && NameLess("jobs_complete", "jobs_observed_total")
    ensures NameLess("jobs_observed_total", "kind") && NameLess("kind", "labels_truncated")
    ensures NameLess("labels_truncated", "observed_total") && NameLess("observed_total", "repository")
    ensures NameLess("repository", "repository_full_name")
  {
    hide NameLess;
    NameLessAt("complete", "jobs", 0);
    NamePrefixIsLess("jobs", "jobs_complete");
    NameLessAt("jobs_complete", "jobs_observed_total", 5);
    NameLessAt("jobs_observed_total", "kind", 0);
    NameLessAt("kind", "labels_truncated", 0);
    NameLessAt("labels_truncated", "observed_total", 0);
    NameLessAt("observed_total", "repository", 0);
    NamePrefixIsLess("repository", "repository_full_name");
  }

  lemma LastResultNames()
    ensures NameLess("repository_id", "result") && NameLess("result", "runs") && NameLess("runs", "schema_version")
    ensures NameLess("schema_version", "selected_run") && NameLess("selected_run", "source_sha")
    ensures NameLess("source_sha", "workflow")
  {
    hide NameLess;
    NameLessAt("repository_id", "result", 2);
    NameLessAt("result", "runs", 1);
    NameLessAt("runs", "schema_version", 0);
    NameLessAt("schema_version", "selected_run", 1);
    NameLessAt("selected_run", "source_sha", 1);
    NameLessAt("source_sha", "workflow", 0);
  }

  lemma ReceiptNamesLess()
    ensures NameLess("accepted_revision", "claim_revision") && NameLess("claim_revision", "kind")
    ensures NameLess("operation", "request_digest") && NameLess("request_id", "result")
            && NameLess("result", "schema_version")
    ensures NameLess("schema_version", "terminal_code") && NameLess("terminal_code", "terminal_state")
  {
    hide NameLess;
    NameLessAt("accepted_revision", "claim_revision", 0);
    NameLessAt("claim_revision", "kind", 0);
    NameLessAt("operation", "request_digest", 0);
    NameLessAt("request_id", "result", 2);
    NameLessAt("result", "schema_version", 0);
    NameLessAt("schema_version", "terminal_code", 0);
    NameLessAt("terminal_code", "terminal_state", 9);
  }

  lemma ResultNamesAscend()
    ensures Ascending(RESULT_NAMES)
  {
    hide NameLess;
    FirstResultNames();
    LastResultNames();
    LastNames();
  }

  lemma SortedReceiptNamesAscend()
    ensures Ascending(SORTED_RECEIPT_NAMES)
  {
    hide NameLess;
    ReceiptNamesLess();
    FirstNames();
    LastNames();
  }

  lemma ReceiptNamesAreTheKeys()
    ensures (set n | n in SORTED_RECEIPT_NAMES) == RECEIPT_KEYS
  {
    forall n ensures n in SORTED_RECEIPT_NAMES <==> n in RECEIPT_KEYS {}
  }

  const JOB_ADDRESS := "https://github.com/owner/name" + "/actions/runs/1/job/1"

  /** What the CI inspection reports of a job. */
  function Job(title: string): Value {
    VObject(Dict(JOB_NAMES, [
      VString("success"), VList([]), VString(JOB_ADDRESS), VInt(1), VString(title),
      VString("completed")]))
  }

  /** What it reports of a workflow with one run and one job. */
  function Inspection(run: Value, workflow: Value, sha: string, title: string): Value {
    VObject(Dict(RESULT_NAMES, [
      VBool(true), VList([Job(title)]), VBool(true), VInt(1), VString("github.ci.inspect"), VBool(false), VInt(1),
      VString("alias"), VString("owner/name"), VInt(1), VString("found"), VList([run]), VInt(1), run, VString(sha),
      workflow]))
  }

  /** The receipt of the inspection, with the marker's fields. */
  function InspectionReceipt(fs: seq<string>, result: Value): Value
    requires |fs| == 5
  {
    VObject(Dict(SORTED_RECEIPT_NAMES, [
      VString(fs[3]), VString(fs[4]), VString("actions.request.receipt"), VString(fs[2]), VString(fs[1]),
      VString(fs[0]), result,
      VInt(1), VString("found"), VString("succeeded")]))
  }

  lemma DictTells(names: seq<string>, values: seq<Value>, i: nat, t: string)
    requires |names| == |values| && i < |names| && Tells(values[i], t)
    ensures Tells(VObject(Dict(names, values)), t)
  {
    hide Contains;
    assert TellsIn(Dict(names, values)[i], t);
  }

  lemma JobHolds(title: string, t: string)
    ensures Ordered(Job(title)) && (Contains(title, t) ==> Tells(Job(title), t))
  {
    hide NameLess, Contains, Dict;
    var values := [
      VString("success"), VList([]), VString(JOB_ADDRESS), VInt(1), VString(title),
      VString("completed")];
    JobNamesAscend();
    DictHolds(JOB_NAMES, values);
    if Contains(title, t) { DictTells(JOB_NAMES, values, 4, t); }
  }

  lemma InspectionHolds(run: Value, workflow: Value, sha: string, title: string, t: string)
    requires Ordered(run) && Ordered(workflow)
    ensures var result := Inspection(run, workflow, sha, title);
            result.VObject? && Ordered(result) && (Contains(title, t) ==> Tells(result, t))
  {
    hide NameLess, Contains, Dict, Job, Ascending;
    var values := [
      VBool(true), VList([Job(title)]), VBool(true), VInt(1), VString("github.ci.inspect"), VBool(false), VInt(1),
      VString("alias"), VString("owner/name"), VInt(1), VString("found"), VList([run]), VInt(1), run, VString(sha),
      workflow];
    ResultNamesAscend();
    JobHolds(title, t);
    DictHolds(RESULT_NAMES, values);
    if Contains(title, t) {
      assert [Job(title)][0] == Job(title);
      assert Tells(VList([Job(title)]), t);
      DictTells(RESULT_NAMES, values, 1, t);
    }
  }

  lemma JobNamesAreUnescaped()
    ensures forall i | 0 <= i < |JOB_NAMES| :: Unescaped(JOB_NAMES[i]) && |JOB_NAMES[i]| <= 12
    ensures Unescaped("success") && Unescaped("completed")
  {
  }

  lemma AddressIsUnescaped()
    ensures Unescaped(JOB_ADDRESS) && |JOB_ADDRESS| <= 60
  {
    hide Unescaped;
    AddressPieces();
    UnescapedTogether("https://github.com/owner/name", "/actions/runs/1/job/1");
  }

  lemma AddressPieces()
    ensures Unescaped("https://github.com/owner/name") && Unescaped("/actions/runs/1/job/1")
  {
  }

  lemma UnescapedTogether(s: string, t: string)
    requires Unescaped(s) && Unescaped(t)
    ensures Unescaped(s + t)
  {
  }

  lemma JobLength(title: string)
    requires Visible(title) && |title| <= 160
    ensures |Pretty(Job(title), 3)| <= 1369
  {
    hide Pretty, Unescaped, Visible;
    JobNamesAreUnescaped();
    AddressIsUnescaped();
    OneLength(4);
    TextLength("success", 4);
    TextLength("completed", 4);
    TextLength(JOB_ADDRESS, 4);
    StringLength(title, 4);
    WordLengths(4);
    DictLength(JOB_NAMES, [
      VString("success"), VList([]), VString(JOB_ADDRESS), VInt(1), VString(title),
      VString("completed")], 3, 4, 160, 400);
  }

  lemma WordLengths(level: nat)
    ensures |Pretty(VList([]), level)| == 2 && |Pretty(VBool(true), level)| == 4 && |Pretty(VBool(false), level)| == 5
  {
  }

  lemma ListLength(v: Value, level: nat)
    ensures |Pretty(VList([v]), level)| == |Pretty(v, level + 1)| + 6 + 4 * level
  {
    IndentLength(level);
    IndentLength(level + 1);
    assert PrettyItems([v], 1, level + 1) == "";
    assert |PrettyItems([v], 0, level + 1)| == |NewLine(level + 1)| + |Pretty(v, level + 1)|;
    hide Pretty;
  }

  lemma CountNamesAreUnescaped()
    ensures Unescaped("complete") && Unescaped("jobs") && Unescaped("jobs_complete") && Unescaped("jobs_observed_total")
    ensures Unescaped("labels_truncated") && Unescaped("observed_total") && Unescaped("repository")
  {
  }

  lemma RunNamesAreUnescaped()
    ensures Unescaped("result") && Unescaped("runs") && Unescaped("selected_run") && Unescaped("source_sha")
            && Unescaped("workflow")
    ensures Unescaped("terminal_state")
  {
  }

  lemma ResultNamesAreUnescaped()
    ensures forall i | 0 <= i < |RESULT_NAMES| :: Unescaped(RESULT_NAMES[i]) && |RESULT_NAMES[i]| <= 20
    ensures forall i | 0 <= i < |SORTED_RECEIPT_NAMES| ::
              Unescaped(SORTED_RECEIPT_NAMES[i]) && |SORTED_RECEIPT_NAMES[i]| <= 17
  {
    hide Unescaped;
    ConstantsAreUnescaped();
    NumberNamesAreUnescaped();
    TextNamesAreUnescaped();
    LongNamesAreUnescaped();
    OtherNamesAreUnescaped();
    CountNamesAreUnescaped();
    RunNamesAreUnescaped();
  }

  lemma ResultTextsAreUnescaped()
    ensures Unescaped("github.ci.inspect") && Unescaped("alias") && Unescaped("found") && Unescaped("succeeded")
    ensures Unescaped("actions.request.receipt")
  {
  }

  lemma InspectionLength(run: Value, workflow: Value, sha: string, title: string)
    requires Visible(title) && |title| <= 160 && LowerHex(sha, 40)
    requires |Pretty(run, 2)| <= 1200 && |Pretty(run, 3)| <= 1200 && |Pretty(workflow, 2)| <= 1200
    ensures |Pretty(Inspection(run, workflow, sha, title), 1)| <= 22725
  {
    hide Pretty, Unescaped, Visible, Job, AllChars;
    ResultNamesAreUnescaped();
    ResultTextsAreUnescaped();
    TextsAreUnescaped();
    WordsAreUnescaped(sha);
    JobLength(title);
    ListLength(Job(title), 2);
    ListLength(run, 2);
    WordLengths(2);
    OneLength(2);
    TextLength("github.ci.inspect", 2);
    TextLength("alias", 2);
    TextLength("owner/name", 2);
    TextLength("found", 2);
    TextLength(sha, 2);
    DictLength(RESULT_NAMES, [
      VBool(true), VList([Job(title)]), VBool(true), VInt(1), VString("github.ci.inspect"), VBool(false), VInt(1),
      VString("alias"), VString("owner/name"), VInt(1), VString("found"), VList([run]), VInt(1), run, VString(sha),
      workflow],
      1, 16, 1420, 0);
  }

  lemma ReceiptLength(fs: seq<string>, result: Value)
    requires ReceiptFields(fs) && |Pretty(result, 1)| <= 22725
    ensures |Pretty(InspectionReceipt(fs, result), 0)| <= 24403
  {
    hide Pretty, Unescaped, AllChars;
    ResultNamesAreUnescaped();
    ResultTextsAreUnescaped();
    FieldsAreUnescaped(fs);
    OneLength(1);
    TextLength("actions.request.receipt", 1);
    TextLength("found", 1);
    TextLength("succeeded", 1);
    TextLength(fs[0], 1);
    TextLength(fs[1], 1);
    TextLength(fs[2], 1);
    TextLength(fs[3], 1);
    TextLength(fs[4], 1);
    DictLength(SORTED_RECEIPT_NAMES, [
      VString(fs[3]), VString(fs[4]), VString("actions.request.receipt"), VString(fs[2]), VString(fs[1]),
      VString(fs[0]), result,
      VInt(1), VString("found"), VString("succeeded")], 0, 6, 165, 22750);
  }

  lemma FieldsAreUnescaped(fs: seq<string>)
    requires ReceiptFields(fs)
    ensures Unescaped(fs[0]) && Unescaped(fs[1]) && Unescaped(fs[2]) && Unescaped(fs[3]) && Unescaped(fs[4])
  {
  }

  lemma SortedReceiptNamesAt()
    ensures var names := SORTED_RECEIPT_NAMES;
            && |names| == 10
            && names[0] == "accepted_revision" && names[1] == "claim_revision" && names[2] == "kind"
            && names[3] == "operation"
            && names[4] == "request_digest" && names[5] == "request_id" && names[6] == "result"
            && names[7] == "schema_version"
            && names[8] == "terminal_code" && names[9] == "terminal_state"
  {
  }

  lemma InspectionReceiptFields(fs: seq<string>, result: Value)
    requires |fs| == 5 && Ordered(result)
    ensures var e := InspectionReceipt(fs, result);
            && Ordered(e) && HasKeys(e, RECEIPT_KEYS)
            && GetString(e, "accepted_revision") == Some(fs[3]) && GetString(e, "claim_revision") == Some(fs[4])
            && GetString(e, "kind") == Some("actions.request.receipt") && GetString(e, "operation") == Some(fs[2])
            && GetString(e, "request_digest") == Some(fs[1]) && GetString(e, "request_id") == Some(fs[0])
            && Get(e, "result") == Some(result) && Get(e, "schema_version") == Some(VInt(1))
            && GetString(e, "terminal_code") == Some("found") && GetString(e, "terminal_state") == Some("succeeded")
  {
    hide NameLess, Find, Dict, HasKeys, Ascending, RECEIPT_KEYS, SORTED_RECEIPT_NAMES;
    SortedReceiptNamesAscend();
    ReceiptNamesAreTheKeys();
    SortedReceiptNamesAt();
    DictHolds(SORTED_RECEIPT_NAMES, [
      VString(fs[3]), VString(fs[4]), VString("actions.request.receipt"), VString(fs[2]), VString(fs[1]),
      VString(fs[0]), result,
      VInt(1), VString("found"), VString("succeeded")]);
  }

  lemma InspectionReceiptIsWellFormed(fs: seq<string>, result: Value)
    requires ReceiptFields(fs) && fs[2] == "github.ci.inspect" && Ordered(result) && result.VObject?
    ensures var e := InspectionReceipt(fs, result);
            WellFormedReceipt(e) && HasKeys(e, RECEIPT_KEYS) && FieldStrings(e, RECEIPT_NAMES) == Some(fs)
            && GetString(e, "terminal_code") == Some("found") && GetOrNull(e, "result") == result
  {
    hide Get, HandoffOk, Ordered, HasKeys, RECEIPT_KEYS, AllChars;
    InspectionReceiptFields(fs, result);
    var e := InspectionReceipt(fs, result);
    hide InspectionReceipt;
    var got := FieldStrings(e, RECEIPT_NAMES).value;
    assert got == fs;
  }

  lemma ReceiptFormats(e: Value, fs: seq<string>)
    requires |Pretty(e, 0)| <= 24403 && FieldStrings(e, RECEIPT_NAMES) == Some(fs) && ReceiptFields(fs)
    ensures FormatReceipt(e).Ok?
  {
    hide Pretty, MarkerText, ByteLength, Frame, FieldStrings, AllChars;
    assert |RECEIPT| == 29 && |RECEIPT_HEAD| == 39;
    PrettyBytes(e);
    MarkerLength(RECEIPT_HEAD, fs, RECEIPT_LABELS);
    FrameBytes(MarkerText(RECEIPT_HEAD, fs, RECEIPT_LABELS), e);
  }

  /** For every marker of a CI inspection, run and workflow there is a well-formed receipt that is
      formatted and then rejected: a job is named so that it contains the receipt prefix. */
  lemma UnreadableReceipt(fs: seq<string>, run: Value, workflow: Value, sha: string, title: string) returns (e: Value)
    requires ReceiptFields(fs) && fs[2] == "github.ci.inspect" && LowerHex(sha, 40) && Ordered(run) && Ordered(workflow)
    requires |Pretty(run, 2)| <= 1200 && |Pretty(run, 3)| <= 1200 && |Pretty(workflow, 2)| <= 1200
    requires Visible(title) && |title| <= 160 && Contains(title, RECEIPT)
    ensures e == InspectionReceipt(fs, Inspection(run, workflow, sha, title))
    ensures WellFormedReceipt(e) && FieldStrings(e, RECEIPT_NAMES) == Some(fs) && FormatReceipt(e).Ok?
    ensures ParseReceipt(FormatReceipt(e).value, OwnBinding(fs)) == Err(CanonicalMismatch)
  {
    hide Pretty, Contains, Tells, Ordered, AllChars, WellFormedReceipt, FieldStrings, FormatReceipt, ParseReceipt,
         Get, HasKeys, RECEIPT_KEYS, RECEIPT, InspectionReceipt, Inspection, Visible;
    var result := Inspection(run, workflow, sha, title);
    e := InspectionReceipt(fs, result);
    InspectionHolds(run, workflow, sha, title, RECEIPT);
    InspectionReceiptIsWellFormed(fs, result);
    InspectionLength(run, workflow, sha, title);
    ReceiptLength(fs, result);
    ReceiptFormats(e, fs);
    FoundIsFree();
    ReceiptsReadBackExactly(e);
  }

  lemma FoundIsFree()
    ensures Free("found", '<')
  {
  }
}
