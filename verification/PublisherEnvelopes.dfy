/** The envelopes the Publisher builds from a stored record, and exactly when their comments can be
    read: a scan of any kind fails on one if and only if the canonical request in its record contains
    that kind's prefix (scripts/actions_request_handler.py). */
module PublisherEnvelopes {
  import opened Common
  import opened Utf8
  import opened JsonValue
  import opened JsonPrinter
  import opened JsonParser
  import opened JsonTheorems
  import opened Text
  import opened CommentFraming
  import opened CommentJson
  import opened Envelopes
  import opened Dictionaries
  import opened Markers
  import opened MachineComments
  import opened Mentions
  import opened MarkedTexts
  import JournalRecord

  // ----- what a canonical object loads to

  /** What the printer accepts has only integers for numbers, and so loads. */
  lemma {:induction false} PrintedLoads(v: Json, n: int)
    requires Jcs(v).Ok? && Good(v, n)
    ensures FromJson(Canon(v)).Some?
    decreases v, 1
  {
    match v
    case Number(t) => NumberOfNumber(t); NumberLoads(t);
    case Array(vs) => PrintedItemsLoad(vs, 0, n - 1);
    case Object(ms) => PrintedMembersLoad(ms, n);
    case _ =>
  }

  lemma NumberLoads(t: Bytes)
    requires JcsNumber(t).Ok?
    ensures FromJson(Number(JcsNumber(t).value)) == Some(VInt(IntegerValue(t)))
  {
    IntegerRoundTrip(IntegerValue(t));
  }

  lemma {:induction false} PrintedItemsLoad(vs: seq<Json>, i: nat, n: int)
    requires i <= |vs| && JcsItems(vs, i).Ok? && forall k | 0 <= k < |vs| :: Good(vs[k], n)
    ensures FromItems(CanonItems(vs), i).Some?
    decreases vs, 0, |vs| - i
  {
    hide Jcs, FromJson, Canon, Good;
    if i < |vs| {
      JcsItemsOk(vs, i);
      PrintedLoads(vs[i], n);
      PrintedItemsLoad(vs, i + 1, n);
    }
  }

  lemma {:induction false} PrintedMembersLoad(ms: seq<Keyed<Json>>, n: int)
    requires Jcs(Object(ms)).Ok? && Good(Object(ms), n)
    ensures FromJson(Canon(Object(ms))).Some?
    decreases ms
  {
    var ns, cs := Sort(ms), Sort(CanonMembers(ms));
    SortPieces(ms);
    CanonSorts(ms);
    SortSorts(ms);
    InBoth(ns, ms);
    hide Sort;
    forall k | 0 <= k < |ns| ensures FromKeyed(cs[k]).Some? {
      PiecesOk(ns, 0, k);
      assert ns[k] in ms;
      CanonMembersAt(ns, k);
      PrintedLoads(ns[k].value, n - 1);
    }
    AllLoad(cs, 0);
  }

  lemma {:induction false} PiecesOk(ns: seq<Keyed<Json>>, i: nat, k: nat)
    requires i <= k < |ns| && JoinMembers(Pieces(ns), i).Ok?
    ensures Jcs(ns[k].value).Ok?
    decreases k - i
  {
    hide Jcs;
    JoinOk(ns, i);
    if i < k { PiecesOk(ns, i + 1, k); }
  }

  lemma {:induction false} AllLoad(cs: seq<Keyed<Json>>, i: nat)
    requires i <= |cs| && forall k | 0 <= k < |cs| :: FromKeyed(cs[k]).Some?
    ensures FromMembers(cs, i).Some?
    decreases |cs| - i
  {
    hide FromKeyed;
    if i < |cs| { AllLoad(cs, i + 1); }
  }

  lemma {:induction false} FromMembersHold(cs: seq<Keyed<Json>>, i: nat)
    requires i <= |cs| && FromMembers(cs, i).Some?
    ensures forall m :: m in FromMembers(cs, i).value <==> exists k | i <= k < |cs| :: FromKeyed(cs[k]) == Some(m)
    decreases |cs| - i
  {
    hide FromKeyed, InsertMember;
    if i < |cs| {
      FromMembersHold(cs, i + 1);
      InsertHolds(FromKeyed(cs[i]).value, FromMembers(cs, i + 1).value);
    }
  }

  /** The Python value of a printed JSON value. */
  function Printed(v: Json): Option<Value> {
    FromJson(Canon(v))
  }

  /** The member an object's entry is loaded as. */
  function Loaded(m: Keyed<Json>): Option<Member> {
    match Printed(m.value) case None => None case Some(v) => Some(Member(TextOf(m.key), v))
  }

  predicate HoldsExactly(members: seq<Member>, ms: seq<Keyed<Json>>) {
    && (forall m | m in members :: exists k :: 0 <= k < |ms| && Loaded(ms[k]) == Some(m))
    && (forall k | 0 <= k < |ms| :: Loaded(ms[k]).Some? && Loaded(ms[k]).value in members)
  }

  lemma InBothWays(cs: seq<Keyed<Json>>, ms: seq<Keyed<Json>>, k: nat)
    requires cs == Sort(CanonMembers(ms)) && k < |ms|
    ensures exists j :: 0 <= j < |cs| && cs[j] == CanonMember(ms[k])
  {
    hide Sort, CanonMembers;
    var ns := CanonMembers(ms);
    SortSorts(ns);
    InBoth(ns, cs);
    CanonMembersAt(ms, k);
    assert ns[k] in cs;
  }

  lemma CameFromSomewhere(cs: seq<Keyed<Json>>, ms: seq<Keyed<Json>>, j: nat)
    requires cs == Sort(CanonMembers(ms)) && j < |cs|
    ensures exists k :: 0 <= k < |ms| && cs[j] == CanonMember(ms[k])
  {
    hide Sort, CanonMembers;
    var ns := CanonMembers(ms);
    SortSorts(ns);
    InBoth(cs, ns);
    var k :| 0 <= k < |ns| && ns[k] == cs[j];
    CanonMembersAt(ms, k);
  }

  lemma LoadedMember(m: Keyed<Json>)
    ensures FromKeyed(CanonMember(m)) == Loaded(m)
  {
  }

  /** A canonical object loads as a dictionary of exactly its entries. */
  lemma LoadsObject(s: string, ms: seq<Keyed<Json>>)
    requires CanonicalText(s, Object(ms))
    ensures Loads(s).Some? && Loads(s).value.VObject? && Ordered(Loads(s).value)
    ensures HoldsExactly(Loads(s).value.members, ms)
  {
    var cs := Sort(CanonMembers(ms));
    LoadsCanonical(s, Object(ms));
    PrintedLoads(Object(ms), MAX_DEPTH);
    LoadedIsOrdered(s);
    assert FromJson(Canon(Object(ms))) == FromJson(Object(cs));
    var members := FromMembers(cs, 0).value;
    hide Loads, Ordered, Sort, FromJson, Canon, CanonicalText;
    FromMembersHold(cs, 0);
    forall m | m in members ensures exists k :: 0 <= k < |ms| && Loaded(ms[k]) == Some(m) {
      var j :| 0 <= j < |cs| && FromKeyed(cs[j]) == Some(m);
      CameFromSomewhere(cs, ms, j);
      var k :| 0 <= k < |ms| && cs[j] == CanonMember(ms[k]);
      LoadedMember(ms[k]);
    }
    forall k | 0 <= k < |ms| ensures Loaded(ms[k]).Some? && Loaded(ms[k]).value in members {
      InBothWays(cs, ms, k);
      var j :| 0 <= j < |cs| && cs[j] == CanonMember(ms[k]);
      LoadedMember(ms[k]);
      FromMembersLoad(cs, 0, j);
    }
  }

  lemma {:induction false} FromMembersLoad(cs: seq<Keyed<Json>>, i: nat, j: nat)
    requires i <= j < |cs| && FromMembers(cs, i).Some?
    ensures FromKeyed(cs[j]).Some?
    decreases j - i
  {
    hide FromKeyed;
    if i < j { FromMembersLoad(cs, i + 1, j); }
  }

  /** What stands in a canonical object is found in the dictionary. */
  lemma LoadedField(s: string, ms: seq<Keyed<Json>>, k: nat)
    requires CanonicalText(s, Object(ms)) && k < |ms|
    ensures Loads(s).Some? && Printed(ms[k].value).Some?
    ensures Get(Loads(s).value, TextOf(ms[k].key)) == Printed(ms[k].value)
  {
    LoadsObject(s, ms);
    hide Loads, Printed, CanonicalText, Find, NameLess;
    FindIn(Loads(s).value.members, Loaded(ms[k]).value);
  }

  /** Some string of the entry contains the text. */
  predicate Speaks(m: Keyed<Json>, t: string) {
    Loaded(m).Some? && TellsIn(Loaded(m).value, t)
  }

  /** A canonical object contains a marker's prefix exactly when one of its entries does. */
  lemma ObjectTells(s: string, ms: seq<Keyed<Json>>, t: string)
    requires CanonicalText(s, Object(ms)) && MarkText(t)
    ensures Contains(s, t) <==> exists k :: 0 <= k < |ms| && Speaks(ms[k], t)
  {
    hide Loads, Loaded, CanonicalText, Contains, TellsIn, MarkText;
    LoadsObject(s, ms);
    CanonicalTells(s, Object(ms), t);
    var members := Loads(s).value.members;
    SomeTellsAt(members, t);
    if m :| m in members && TellsIn(m, t) {
      var k :| 0 <= k < |ms| && Loaded(ms[k]) == Some(m);
      assert Speaks(ms[k], t);
    }
    if k :| 0 <= k < |ms| && Speaks(ms[k], t) { assert Loaded(ms[k]).value in members; }
  }

  // ----- texts without an opening bracket

  lemma QuietText(s: string, t: string)
    requires Free(s, '<') && MarkText(t)
    ensures !Contains(s, t)
  {
    assert t[0] == '<' by { assert ScalarsOf(t)[0] == 0x3C; }
    if Contains(s, t) {
      var i :| 0 <= i <= |s| && OccursAt(s, t, i);
      CharacterOf(s, t, i, 0);
    }
  }

  predicate PlainText(s: string) {
    forall i | 0 <= i < |s| :: PlainByte(s[i] as int)
  }

  lemma NamesArePlain(k: Kind)
    ensures PlainText("publisher-" + KindName(k)) && PlainText("receipt")
  {
  }

  lemma MarkerIsMark(name: string)
    requires PlainText(name)
    ensures MarkText(MarkerPrefix(name))
  {
    assert PlainText(START) && PlainText(":v1:");
    assert PlainText(START + (name + ":v1:"));
  }

  lemma PrefixIsMark(k: Kind)
    ensures MarkText(PublisherPrefix(k))
  {
    hide PlainText, KindName, MarkerPrefix;
    NamesArePlain(k);
    MarkerIsMark("publisher-" + KindName(k));
  }

  // ----- what the journal stores

  function TextJson(s: string): Json {
    String(ScalarsOf(s))
  }

  function NumberJson(n: int): Json {
    Number(IntegerBytes(n))
  }

  function OptionalJson(s: Option<string>): Json {
    match s case Some(text) => TextJson(text) case None => Null
  }

  function Named(name: string, v: Json): Keyed<Json> {
    Keyed(ScalarsOf(name), v)
  }

  lemma LoadedText(name: string, s: string)
    ensures Loaded(Named(name, TextJson(s))) == Some(Member(name, VString(s)))
  {
    TextOfScalars(name);
    TextOfScalars(s);
  }

  lemma LoadedNumber(name: string, n: int)
    ensures Loaded(Named(name, NumberJson(n))) == Some(Member(name, VInt(n)))
  {
    TextOfScalars(name);
    IntegerRoundTrip(n);
    if JcsNumber(IntegerBytes(n)).Ok? { NumberLoads(IntegerBytes(n)); }
    hide JcsNumber, JsonValue.IntegerText, IntegerValue, IntegerBytes, Unsigned;
  }

  lemma LoadedNull(name: string)
    ensures Loaded(Named(name, Null)) == Some(Member(name, VNull))
  {
    TextOfScalars(name);
  }

  function StateName(state: JournalRecord.State): string {
    match state
    case Accepted => "accepted"
    case Executing => "executing"
    case Succeeded => "succeeded"
    case Rejected => "rejected"
    case Ambiguous => "ambiguous"
  }

  /** The entries a record is serialized from. */
  function RecordEntries(r: JournalRecord.Record): seq<Keyed<Json>> {
    var f := r.frozen;
    [Named("schema_version", NumberJson(1)), Named("repository_id", NumberJson(f.repositoryId)),
     Named("repository_full_name", TextJson(f.repositoryFullName)), Named("issue_id", NumberJson(f.issueId)),
     Named("issue_number", NumberJson(f.issueNumber)), Named("author_id", NumberJson(f.authorId)),
     Named("sender_id", NumberJson(f.senderId)), Named("request_id", TextJson(f.requestId)),
     Named("operation", TextJson(f.operation)), Named("canonical_request", TextJson(f.canonicalRequest)),
     Named("request_digest", TextJson(f.requestDigest)), Named("accepted_at", TextJson(f.acceptedAt)),
     Named("policy_revision", TextJson(f.policyRevision)), Named("state", TextJson(StateName(r.state))),
     Named("execution_id", OptionalJson(r.executionId)), Named("terminal_code", OptionalJson(r.terminalCode)),
     Named("terminal_reference", OptionalJson(r.terminalReference))]
  }

  function RequestEntries(f: JournalRecord.Frozen, parameters: seq<Keyed<Json>>): seq<Keyed<Json>> {
    [Named("schema_version", NumberJson(1)), Named("request_id", TextJson(f.requestId)),
     Named("operation", TextJson(f.operation)), Named("parameters", Object(parameters))]
  }

  const OPERATIONS := [
    "governance.ledger", "governance.audit-task-integration", "github.ci.inspect", "workspace.recipe.dispatch"]

  /** What acceptance freezes: checked identities, and the canonical text of the request under its
      digest. Repository names and times contain no opening bracket. */
  ghost predicate Acceptable(f: JournalRecord.Frozen, parameters: seq<Keyed<Json>>) {
    && RequestId(f.requestId) && f.operation in OPERATIONS && f.requestDigest == DigestOf(f.canonicalRequest)
    && CanonicalText(f.canonicalRequest, Object(RequestEntries(f, parameters)))
    && f.repositoryId > 0 && f.issueId > 0 && f.issueNumber > 0
    && '/' in f.repositoryFullName && Free(f.repositoryFullName, '<') && Free(f.acceptedAt, '<')
    && LowerHex(f.policyRevision, 40)
  }

  /** The text of a record an execution owns. */
  ghost predicate Claimed(r: JournalRecord.Record, parameters: seq<Keyed<Json>>, content: string) {
    && Acceptable(r.frozen, parameters) && JournalRecord.Consistent(r) && r.state.Executing?
    && CanonicalText(content, Object(RecordEntries(r))) && ByteLength(content) <= MAX_RECORD_BYTES
  }

  lemma OperationsAreFree(operation: string)
    requires operation in OPERATIONS
    ensures Free(operation, '<')
  {
  }

  lemma ExecutionIsFree(execution: string)
    requires JournalRecord.ValidExecutionId(execution)
    ensures ExecutionId(execution) && Free(execution, '<')
  {
  }

  /** Every text but the canonical request itself. */
  predicate Unmarked(f: JournalRecord.Frozen) {
    && Free(f.repositoryFullName, '<') && Free(f.requestId, '<') && Free(f.operation, '<')
    && Free(f.requestDigest, '<') && Free(f.acceptedAt, '<') && Free(f.policyRevision, '<')
  }

  lemma FrozenIsUnmarked(f: JournalRecord.Frozen, parameters: seq<Keyed<Json>>)
    requires Acceptable(f, parameters)
    ensures Unmarked(f) && LowerHex(f.requestDigest, 64)
  {
    hide CanonicalText, DigestOf;
    OperationsAreFree(f.operation);
    DigestIsHex(f.canonicalRequest);
    hide OPERATIONS;
  }

  lemma QuietEntry(name: string, s: string, t: string)
    requires Free(name, '<') && Free(s, '<') && MarkText(t)
    ensures !Speaks(Named(name, TextJson(s)), t)
  {
    hide Loaded, MarkText, Contains;
    LoadedText(name, s);
    QuietText(name, t);
    QuietText(s, t);
    assert !Tells(VString(s), t);
  }

  lemma QuietNumber(name: string, n: int, t: string)
    requires Free(name, '<') && MarkText(t)
    ensures !Speaks(Named(name, NumberJson(n)), t)
  {
    hide Loaded, MarkText, Contains;
    LoadedNumber(name, n);
    QuietText(name, t);
    assert !Tells(VInt(n), t);
  }

  lemma QuietNull(name: string, t: string)
    requires Free(name, '<') && MarkText(t)
    ensures !Speaks(Named(name, Null), t)
  {
    hide Loaded, MarkText, Contains;
    LoadedNull(name);
    QuietText(name, t);
    assert !Tells(VNull, t);
  }

  lemma SpokenText(name: string, s: string, t: string)
    requires Free(name, '<') && MarkText(t)
    ensures Speaks(Named(name, TextJson(s)), t) <==> Contains(s, t)
  {
    hide Loaded, MarkText, Contains;
    LoadedText(name, s);
    QuietText(name, t);
    assert Tells(VString(s), t) <==> Contains(s, t);
  }

  lemma QuietNumbers(r: JournalRecord.Record, t: string)
    requires MarkText(t)
    ensures var es := RecordEntries(r); forall i | 0 <= i < 7 && i != 2 :: !Speaks(es[i], t)
  {
    hide Speaks, NumberJson, TextJson, Named, MarkText;
    QuietNumber("schema_version", 1, t);
    QuietNumber("repository_id", r.frozen.repositoryId, t);
    QuietNumber("issue_id", r.frozen.issueId, t);
    QuietNumber("issue_number", r.frozen.issueNumber, t);
    QuietNumber("author_id", r.frozen.authorId, t);
    QuietNumber("sender_id", r.frozen.senderId, t);
  }

  lemma QuietTexts(r: JournalRecord.Record, t: string)
    requires Unmarked(r.frozen) && MarkText(t)
    ensures var es := RecordEntries(r); !Speaks(es[2], t) && forall i | 7 <= i < 14 && i != 9 :: !Speaks(es[i], t)
  {
    hide Speaks, NumberJson, TextJson, Named, MarkText;
    var f := r.frozen;
    QuietEntry("repository_full_name", f.repositoryFullName, t);
    QuietEntry("request_id", f.requestId, t);
    QuietEntry("operation", f.operation, t);
    QuietEntry("request_digest", f.requestDigest, t);
    QuietEntry("accepted_at", f.acceptedAt, t);
    QuietEntry("policy_revision", f.policyRevision, t);
    QuietEntry("state", StateName(r.state), t);
  }

  lemma QuietOwner(r: JournalRecord.Record, t: string)
    requires JournalRecord.Consistent(r) && r.state.Executing? && MarkText(t)
    ensures var es := RecordEntries(r); !Speaks(es[14], t) && !Speaks(es[15], t) && !Speaks(es[16], t)
  {
    ExecutionIsFree(r.executionId.value);
    hide Speaks, NumberJson, TextJson, Named, MarkText;
    QuietEntry("execution_id", r.executionId.value, t);
    QuietNull("terminal_code", t);
    QuietNull("terminal_reference", t);
  }

  /** A stored record contains a marker's prefix exactly when the canonical request in it does. */
  lemma RecordTells(r: JournalRecord.Record, parameters: seq<Keyed<Json>>, content: string, t: string)
    requires Claimed(r, parameters, content) && MarkText(t)
    ensures Contains(content, t) <==> Contains(r.frozen.canonicalRequest, t)
  {
    hide Speaks, NumberJson, TextJson, MarkText, CanonicalText, Contains, JournalRecord.Consistent, Acceptable,
         ByteLength, Unmarked;
    var es := RecordEntries(r);
    ObjectTells(content, es, t);
    QuietNumbers(r, t);
    FrozenIsUnmarked(r.frozen, parameters);
    QuietTexts(r, t);
    QuietOwner(r, t);
    SpokenText("canonical_request", r.frozen.canonicalRequest, t);
    assert es[9] == Named("canonical_request", TextJson(r.frozen.canonicalRequest));
    hide RecordEntries;
    assert |es| == 17;
    if k :| 0 <= k < |es| && Speaks(es[k], t) { assert k == 9; }
  }

  lemma QuietRequest(f: JournalRecord.Frozen, parameters: seq<Keyed<Json>>, t: string)
    requires Unmarked(f) && MarkText(t)
    ensures var es := RequestEntries(f, parameters); |es| == 4 && forall i | 0 <= i < 3 :: !Speaks(es[i], t)
  {
    hide Speaks, NumberJson, TextJson, Named, MarkText;
    QuietNumber("schema_version", 1, t);
    QuietEntry("request_id", f.requestId, t);
    QuietEntry("operation", f.operation, t);
  }

  /** The canonical request contains it exactly when its parameters do. */
  lemma RequestTells(f: JournalRecord.Frozen, parameters: seq<Keyed<Json>>, t: string)
    requires Acceptable(f, parameters) && MarkText(t)
    ensures Loads(f.canonicalRequest).Some?
    ensures match Get(Loads(f.canonicalRequest).value, "parameters")
            case Some(v) => v.VObject? && Ordered(v) && (Contains(f.canonicalRequest, t) <==> Tells(v, t))
            case None => false
  {
    hide Speaks, NumberJson, TextJson, MarkText, CanonicalText, Contains, Loads, Printed, Tells, Unmarked, Get,
         Ordered;
    var es := RequestEntries(f, parameters);
    FrozenIsUnmarked(f, parameters);
    assert es[3] == Named("parameters", Object(parameters));
    QuietRequest(f, parameters, t);
    ObjectTells(f.canonicalRequest, es, t);
    LoadedField(f.canonicalRequest, es, 3);
    hide RequestEntries, Acceptable;
    ParametersTell(parameters, t);
    ParametersAreOrdered(f.canonicalRequest, "parameters");
    assert Speaks(es[3], t) ==> exists k :: 0 <= k < |es| && Speaks(es[k], t);
  }

  lemma ParametersAreOrdered(s: string, name: string)
    requires Loads(s).Some? && Get(Loads(s).value, name).Some?
    ensures Ordered(Get(Loads(s).value, name).value)
  {
    hide Loads, NameLess;
    LoadedIsOrdered(s);
    FoundIsOrdered(Loads(s).value.members, name);
  }

  lemma {:induction false} FoundIsOrdered(ms: seq<Member>, name: string)
    requires (forall i | 0 <= i < |ms| :: OrderedMember(ms[i])) && Find(ms, name).Some?
    ensures Ordered(Find(ms, name).value)
  {
    if ms[0].name != name { FoundIsOrdered(ms[1..], name); } else { assert OrderedMember(ms[0]); }
  }

  lemma ParametersTell(parameters: seq<Keyed<Json>>, t: string)
    requires Printed(Object(parameters)).Some? && MarkText(t)
    ensures TextOf(ScalarsOf("parameters")) == "parameters" && Printed(Object(parameters)).value.VObject?
    ensures Speaks(Named("parameters", Object(parameters)), t) <==> Tells(Printed(Object(parameters)).value, t)
  {
    QuietText("parameters", t);
    TextOfScalars("parameters");
    hide Contains, MarkText, Tells;
  }

  // ----- which fields of a dictionary tell

  predicate TellsAt(d: Value, name: string, t: string) {
    Get(d, name).Some? && Tells(Get(d, name).value, t)
  }

  /** A dictionary tells exactly when one of its fields does, if none of its names does. */
  lemma TellsByName(d: Value, names: set<string>, t: string)
    requires Ordered(d) && HasKeys(d, names) && forall n | n in names :: Free(n, '<')
    requires MarkText(t)
    ensures Tells(d, t) <==> exists n | n in names :: TellsAt(d, n, t)
  {
    var ms := d.members;
    SomeTellsAt(ms, t);
    hide NameLess, MarkText, Contains, Free, Tells, Find;
    if m :| m in ms && TellsIn(m, t) {
      QuietText(m.name, t);
      FindIn(ms, m);
      assert TellsAt(d, m.name, t);
    }
    if n :| n in names && TellsAt(d, n, t) {
      var m :| m in ms && m.name == n;
      FindIn(ms, m);
      assert TellsIn(m, t);
    }
  }

  /** Values that Python finds equal have the same strings. */
  lemma {:induction false} SameTells(v: Value, w: Value, t: string)
    requires Same(v, w)
    ensures Tells(v, t) <==> Tells(w, t)
    decreases v
  {
    hide Contains;
    match v
    case VList(items) =>
      forall i | 0 <= i < |items| ensures Tells(items[i], t) <==> Tells(w.items[i],
          t) { SameTells(items[i], w.items[i], t); }
    case VObject(ms) =>
      forall i | 0 <= i < |ms| ensures TellsIn(ms[i], t) <==> TellsIn(w.members[i], t) {
        assert SameMember(ms[i], w.members[i]);
        SameTells(ms[i].value, w.members[i].value, t);
      }
    case _ =>
  }

  lemma QuietField(d: Value, name: string, t: string)
    requires GetString(d, name).Some? && Free(GetString(d, name).value, '<') && MarkText(t)
    ensures !TellsAt(d, name, t)
  {
    hide MarkText, Contains, Free;
    QuietText(GetString(d, name).value, t);
  }

  lemma ToldField(d: Value, name: string, t: string)
    requires GetString(d, name).Some?
    ensures TellsAt(d, name, t) <==> Contains(GetString(d, name).value, t)
  {
    hide Contains;
  }

  lemma HexIsFree(s: string, n: nat)
    requires LowerHex(s, n)
    ensures Free(s, '<')
  {
  }

  lemma WordsAreFree(s: string)
    requires AllChars(s, WordChar) || AllChars(s, IdChar)
    ensures Free(s, '<')
  {
  }

  // ----- bundles

  lemma BundleKeysAreFree(n: string)
    requires n in BUNDLE_KEYS
    ensures Free(n, '<')
  {
  }

  /** What the record says of the bundle's operation and repository. */
  lemma BoundFields(d: Value, r: JournalRecord.Record, parameters: seq<Keyed<Json>>, content: string)
    requires Claimed(r, parameters, content) && GetString(d, "canonical_record") == Some(content) && RecordBound(d)
    ensures GetString(d, "operation") == Some(r.frozen.operation)
    ensures GetString(d, "repository_full_name") == Some(r.frozen.repositoryFullName)
    ensures var request := Loads(r.frozen.canonicalRequest);
            && request.Some? && Get(request.value, "parameters").Some?
            && Same(Get(request.value, "parameters").value, GetOrNull(d, "parameters"))
  {
    hide CanonicalText, Acceptable, JournalRecord.Consistent, ByteLength, Find, Loads, Printed;
    var es := RecordEntries(r);
    assert es[2] == Named("repository_full_name", TextJson(r.frozen.repositoryFullName));
    assert es[8] == Named("operation", TextJson(r.frozen.operation));
    assert es[9] == Named("canonical_request", TextJson(r.frozen.canonicalRequest));
    hide RecordEntries;
    RecordText(content, es, 2, "repository_full_name", r.frozen.repositoryFullName);
    RecordText(content, es, 8, "operation", r.frozen.operation);
    RecordText(content, es, 9, "canonical_request", r.frozen.canonicalRequest);
    var record := Loads(content).value;
    assert BOUND_FIELDS[2] == "operation" && BOUND_FIELDS[4] == "repository_full_name";
    assert Same(GetOrNull(record, BOUND_FIELDS[2]), GetOrNull(d, BOUND_FIELDS[2]));
    assert Same(GetOrNull(record, BOUND_FIELDS[4]), GetOrNull(d, BOUND_FIELDS[4]));
  }

  lemma RecordText(content: string, es: seq<Keyed<Json>>, k: nat, name: string, s: string)
    requires CanonicalText(content, Object(es)) && k < |es| && es[k] == Named(name, TextJson(s))
    ensures Loads(content).Some? && Get(Loads(content).value, name) == Some(VString(s))
  {
    hide Loads, CanonicalText, Printed, Get;
    LoadedField(content, es, k);
    LoadedText(name, s);
    TextOfScalars(name);
  }

  lemma QuietIdentity(d: Value, t: string)
    requires BundleDict(d) && MarkText(t)
    ensures !TellsAt(d, "kind", t) && !TellsAt(d, "request_id", t) && !TellsAt(d, "request_digest", t)
    ensures !TellsAt(d, "execution_id", t) && !TellsAt(d, "accepted_revision", t) && !TellsAt(d, "claim_revision", t)
  {
    hide MarkText, TellsAt, Contains, Get, HasKeys, Same, Positive, AllChars, Free, BUNDLE_KEYS;
    WordsAreFree(GetString(d, "request_id").value);
    WordsAreFree(GetString(d, "execution_id").value);
    HexIsFree(GetString(d, "request_digest").value, 64);
    HexIsFree(GetString(d, "accepted_revision").value, 40);
    HexIsFree(GetString(d, "claim_revision").value, 40);
    KindsAreFree();
    QuietField(d, "kind", t);
    QuietField(d, "request_id", t);
    QuietField(d, "execution_id", t);
    QuietField(d, "request_digest", t);
    QuietField(d, "accepted_revision", t);
    QuietField(d, "claim_revision", t);
  }

  lemma KindsAreFree()
    ensures Free("actions.execution.bundle", '<') && Free("actions.publisher.intent", '<')
    ensures Free("actions.publisher.prepare", '<') && Free("actions.publisher.publication", '<')
    ensures Free("actions.publisher.published", '<') && Free("granted", '<') && Free("reconciliation_required", '<')
  {
  }

  lemma QuietIntegers(d: Value, t: string)
    requires BundleDict(d)
    ensures !TellsAt(d, "schema_version", t) && !TellsAt(d, "repository_id", t)
    ensures !TellsAt(d, "issue_id", t) && !TellsAt(d, "issue_number", t)
  {
    hide Contains, Find, HasKeys, AllChars;
  }

  lemma BundleByName(d: Value, t: string)
    requires Ordered(d) && BundleDict(d) && MarkText(t)
    ensures Tells(d, t) <==> TellsAt(d, "operation", t) || TellsAt(d, "repository_full_name", t)
                             || TellsAt(d, "canonical_record", t) || TellsAt(d, "parameters", t)
  {
    hide MarkText, TellsAt, Contains, Get, Ordered, Tells, Free;
    QuietIdentity(d, t);
    QuietIntegers(d, t);
    forall n | n in BUNDLE_KEYS ensures Free(n, '<') { BundleKeysAreFree(n); }
    assert HasKeys(d, BUNDLE_KEYS);
    hide BundleDict, HasKeys;
    TellsByName(d, BUNDLE_KEYS, t);
  }

  /** A bundle contains a marker's prefix exactly when the canonical request in its record does. */
  lemma BundleTells(d: Value, r: JournalRecord.Record, parameters: seq<Keyed<Json>>, content: string, t: string)
    requires Ordered(d) && BundleDict(d) && RecordBound(d) && MarkText(t)
    requires GetString(d, "canonical_record") == Some(content) && Claimed(r, parameters, content)
    ensures Tells(d, t) <==> Contains(r.frozen.canonicalRequest, t)
  {
    hide MarkText, TellsAt, Contains, RecordBound, Get, Ordered, Same, Tells, Loads, Free, BundleDict;
    BundleByName(d, t);
    BoundFields(d, r, parameters, content);
    RecordTells(r, parameters, content, t);
    RequestTells(r.frozen, parameters, t);
    FrozenIsUnmarked(r.frozen, parameters);
    hide Claimed;
    QuietField(d, "operation", t);
    QuietField(d, "repository_full_name", t);
    ToldField(d, "canonical_record", t);
    var request := Loads(r.frozen.canonicalRequest).value;
    SameTells(Get(request, "parameters").value, GetOrNull(d, "parameters"), t);
    ParametersField(d, t);
  }

  lemma ParametersField(d: Value, t: string)
    ensures TellsAt(d, "parameters", t) <==> Tells(GetOrNull(d, "parameters"), t)
  {
    hide Get, Contains;
  }

  // ----- publications

  lemma {:induction false} SplitIsFree(s: string, sep: char)
    requires sep != '<' && AllFree(Split(s, sep), '<')
    ensures Free(s, '<')
  {
    hide Split, Join, Free;
    JoinOfSplit(s, sep);
    JoinedIsFree(Split(s, sep), sep, '<');
  }

  lemma BranchIsFree(s: string)
    requires TaskBranch(s)
    ensures Free(s, '<')
  {
    hide Split;
    var parts := Split(s[5..], '-');
    forall i | 0 <= i < |parts| ensures Free(parts[i], '<') {
      assert i >= 2 ==> AllChars(parts[i], LowerOrDigit);
    }
    SplitIsFree(s[5..], '-');
    assert forall i | 0 <= i < |s| :: s[i] == if i < 5 then s[..5][i] else s[5..][i - 5];
  }

  lemma RepositoryIsFree(s: string)
    requires RepositoryName(s)
    ensures Free(s, '<')
  {
    hide Split;
    SplitIsFree(s, '/');
  }

  lemma ArtifactKeysAreFree(n: string)
    requires n in ARTIFACT_KEYS || n in PUBLICATION_KEYS
    ensures Free(n, '<')
  {
  }

  lemma QuietNumberField(d: Value, name: string, t: string)
    requires Positive(d, name)
    ensures !TellsAt(d, name, t)
  {
    hide Contains, Get;
  }

  lemma QuietArtifact(d: Value, t: string)
    requires Ordered(d) && ArtifactOk(d) && MarkText(t)
    ensures !Tells(d, t)
  {
    hide MarkText, TellsAt, Contains, Get, Ordered, Tells, Free, HasKeys, RepositoryName, AllChars, Positive;
    RepositoryIsFree(GetString(d, "repository_full_name").value);
    HexIsFree(GetString(d, "archive_sha256").value, 64);
    HexIsFree(GetString(d, "content_sha256").value, 64);
    QuietField(d, "repository_full_name", t);
    QuietField(d, "archive_sha256", t);
    QuietField(d, "content_sha256", t);
    QuietNumberField(d, "repository_id", t);
    QuietNumberField(d, "run_id", t);
    QuietNumberField(d, "run_attempt", t);
    QuietNumberField(d, "artifact_id", t);
    forall n | n in ARTIFACT_KEYS ensures Free(n, '<') { ArtifactKeysAreFree(n); }
    TellsByName(d, ARTIFACT_KEYS, t);
  }

  lemma FieldIsOrdered(d: Value, name: string)
    requires Ordered(d)
    ensures Ordered(GetOrNull(d, name))
  {
    hide NameLess;
    if Get(d, name).Some? { FoundIsOrdered(d.members, name); }
  }

  lemma QuietValue(d: Value, name: string, t: string)
    requires !Tells(GetOrNull(d, name), t)
    ensures !TellsAt(d, name, t)
  {
    hide Contains, Tells, Get;
  }

  lemma OwnRepositoryIsFree()
    ensures Free("shockerqt/workspace-governance", '<')
  {
  }

  /** A ledger publication contains no marker's prefix. */
  lemma QuietPublication(d: Value, p: Value, t: string)
    requires LedgerPublication(d, p) && Ordered(p) && MarkText(t)
    ensures !Tells(p, t)
  {
    hide MarkText, TellsAt, Contains, Get, Ordered, Tells, Free, HasKeys, ArtifactOk, AllChars, RecordBound,
         TaskBranch;
    BranchIsFree(GetString(p, "branch").value);
    HexIsFree(GetString(p, "base_sha").value, 40);
    HexIsFree(GetString(p, "tree_sha").value, 40);
    HexIsFree(GetString(p, "commit_sha").value, 40);
    OwnRepositoryIsFree();
    FieldIsOrdered(p, "artifact_reference");
    QuietArtifact(GetOrNull(p, "artifact_reference"), t);
    QuietValue(p, "artifact_reference", t);
    QuietField(p, "branch", t);
    QuietField(p, "base_sha", t);
    QuietField(p, "tree_sha", t);
    QuietField(p, "commit_sha", t);
    QuietField(p, "repository_full_name", t);
    QuietNumberField(p, "repository_id", t);
    forall n | n in PUBLICATION_KEYS ensures Free(n, '<') { ArtifactKeysAreFree(n); }
    TellsByName(p, PUBLICATION_KEYS, t);
  }

  // ----- envelopes that carry a bundle

  lemma EnvelopeNamesAreFree()
    ensures Free("schema_version", '<') && Free("kind", '<') && Free("bundle", '<') && Free("disposition", '<')
    ensures Free("publication", '<')
  {
  }

  lemma KindIsFree(k: Kind)
    ensures Free("actions.publisher." + KindName(k), '<')
  {
  }

  lemma EnvelopeByName(k: Kind, e: Value, t: string)
    requires Ordered(e) && BundleEnvelope(k, e) && MarkText(t)
    ensures Tells(e, t) <==> TellsAt(e, "bundle", t) || TellsAt(e,
                                                                if k.PrepareKind? then "disposition" else "publication", t)
  {
    hide MarkText, TellsAt, Contains, Get, Ordered, Tells, Free, HasKeys, KindName;
    var last := if k.PrepareKind? then "disposition" else "publication";
    EnvelopeNamesAreFree();
    KindIsFree(k);
    QuietField(e, "kind", t);
    QuietVersion(e, t);
    TellsByName(e, {"schema_version", "kind", "bundle", last}, t);
  }

  lemma QuietVersion(e: Value, t: string)
    requires Get(e, "schema_version") == Some(VInt(1))
    ensures !TellsAt(e, "schema_version", t)
  {
    hide Contains, Get;
  }

  /** The record that the bundle of an envelope carries. */
  function CarriedRecord(e: Value): Option<string> {
    match Get(e, "bundle") case None => None case Some(d) => GetString(d, "canonical_record")
  }

  /** A comment that carries a bundle contains a marker's prefix exactly when the canonical request
      in the bundle's record does. */
  lemma EnvelopeTells(k: Kind, e: Value, r: JournalRecord.Record, parameters: seq<Keyed<Json>>, content: string,
                      t: string)
    requires !k.IntentKind? && WellFormedPublisher(k, e) && MarkText(t)
    requires CarriedRecord(e) == Some(content) && Claimed(r, parameters, content)
    ensures Tells(e, t) <==> Contains(r.frozen.canonicalRequest, t)
  {
    hide MarkText, TellsAt, Contains, Get, Ordered, Tells, Free, HasKeys, KindName, BundleDict, RecordBound,
         LedgerPublication, MarkerFields, PublisherFields, Claimed;
    var d := Get(e, "bundle").value;
    EnvelopeByName(k, e, t);
    FieldIsOrdered(e, "bundle");
    BundleTells(d, r, parameters, content, t);
    BundleField(e, t);
    if k.PrepareKind? {
      KindsAreFree();
      QuietField(e, "disposition", t);
    } else {
      FieldIsOrdered(e, "publication");
      QuietPublication(d, GetOrNull(e, "publication"), t);
      QuietValue(e, "publication", t);
    }
  }

  lemma BundleField(e: Value, t: string)
    requires Get(e, "bundle").Some?
    ensures TellsAt(e, "bundle", t) <==> Tells(Get(e, "bundle").value, t)
  {
    hide Get, Contains;
  }

  // ----- scanning for one kind what was formatted as another

  lemma KindNamesDiffer(k: Kind, own: Kind)
    requires k != own
    ensures var a, b := KindName(k), KindName(own);
            exists i :: 0 <= i < |a| && i < |b| && a[i] != b[i]
  {
    var a, b := KindName(k), KindName(own);
    var i := if k.IntentKind? || own.IntentKind? then 0 else if k.PrepareKind? || own.PrepareKind? then 1 else 5;
    assert a[i] != b[i];
  }

  lemma PrefixesDiffer(k: Kind, own: Kind, rest: string)
    requires k != own
    ensures !OccursAt(PublisherPrefix(own) + rest, PublisherPrefix(k), 0)
    ensures PublisherPrefix(own) + "request_id" != PublisherPrefix(k) + "request_id"
  {
    KindNamesDiffer(k, own);
    hide KindName;
    var a, b := KindName(k), KindName(own);
    var i :| 0 <= i < |a| && i < |b| && a[i] != b[i];
    var n := |"<" + START + "publisher-"|;
    assert PublisherPrefix(k)[n + i] == a[i] && (PublisherPrefix(own) + rest)[n + i] == b[i];
    assert (PublisherPrefix(k) + "request_id")[n + i] == a[i] && (PublisherPrefix(own) + "request_id")[n + i] == b[i];
  }

  /** A framed comment contains another kind's prefix exactly when its JSON text does. */
  lemma OtherPrefixInside(k: Kind, own: Kind, rest: string, json: string)
    requires k != own && Free(rest, '<')
    ensures Contains(Frame(PublisherPrefix(own) + rest, json), PublisherPrefix(k)) <==> Contains(json,
        PublisherPrefix(k))
  {
    hide PublisherPrefix, Free, Contains;
    PublisherConstants(k);
    PublisherConstants(own);
    PrefixesDiffer(k, own, rest + "\n" + OPEN + json + CLOSE);
    assert Frame(PublisherPrefix(own) + rest, json) == PublisherPrefix(own) + (rest + "\n" + OPEN + json + CLOSE);
    hide Frame, OccursAt;
    InsideOnly(PublisherPrefix(own), rest, json, PublisherPrefix(k));
  }

  lemma InsideOnly(own: string, rest: string, json: string, t: string)
    requires own != "" && Free(own[1..], '<') && Free(rest, '<') && t != "" && t[0] == '<' && Free(t, '\n')
    requires !OccursAt(Frame(own + rest, json), t, 0)
    ensures Contains(Frame(own + rest, json), t) <==> Contains(json, t)
  {
    hide Free;
    var body, start := Frame(own + rest, json), |own + rest| + 9;
    WhereBracketsAre(own, rest, json);
    hide Frame;
    if i :| 0 <= i <= |body| && OccursAt(body, t, i) { OtherPrefixAt(own, rest, json, t, i); }
    if i :| 0 <= i <= |json| && OccursAt(json, t, i) {
      assert body[start + i..start + i + |t|] == body[start..start + |json|][i..i + |t|];
      assert OccursAt(body, t, start + i);
    }
  }

  /** Wherever but at its very beginning a text that starts with the bracket occurs, it is in the JSON. */
  lemma OtherPrefixAt(own: string, rest: string, json: string, t: string, j: nat)
    requires own != "" && Free(own[1..], '<') && Free(rest, '<')
    requires t != "" && t[0] == '<' && Free(t, '\n') && j > 0 && OccursAt(Frame(own + rest, json), t, j)
    ensures Contains(json, t)
  {
    var body := Frame(own + rest, json);
    var start := |own + rest| + 9;
    var end := start + |json|;
    WhereBracketsAre(own, rest, json);
    hide Frame;
    CharacterOf(body, t, j, 0);
    if j + |t| > end { CharacterOf(body, t, j, end - j); }
    assert body[j..j + |t|] == body[start..end][j - start..j - start + |t|];
    assert OccursAt(json, t, j - start);
  }

  /** Scanning a formatted comment for any kind, for whatever request and execution: it fails when
      the JSON text contains the kind's prefix; otherwise a comment of another kind is passed over. */
  lemma ScannedAs(k: Kind, own: Kind, e: Value, execution: string, request: Option<string>)
    requires WellFormedPublisher(own, e) && FormatPublisher(own, e).Ok?
    ensures var parsed := ParsePublisher(FormatPublisher(own, e).value, k, execution, request);
            && (Contains(Pretty(e, 0), PublisherPrefix(k)) ==> parsed == Err(CanonicalMismatch))
            && (k != own && !Contains(Pretty(e, 0), PublisherPrefix(k)) ==> parsed == Ok(None))
  {
    hide DigestOf, Loads, PublicationEnvelope, FieldStrings, Count, Shaped, ByteLength, PublisherFault, Pretty,
         ReadFields, MarkerText, Free, Calm, KindName, PublisherLabels, MarkerFields, ExecutionOf, PublisherPrefix,
         Contains, AllChars, Ordered, Frame, FirstLine, Fenced;
    var fs := MarkerFields(own, e).value;
    var json, head := Pretty(e, 0), PublisherPrefix(own) + "request_id";
    PublisherConstants(own);
    LabelsAreFree(own);
    PublisherFieldsAreFree(own, fs);
    PrettyIsCalm(e, 0);
    FormattedShape(PublisherPrefix(own), fs, PublisherLabels(own), json);
    if k != own {
      var rest := MarkerShape(PublisherPrefix(own), fs, PublisherLabels(own));
      OtherPrefixInside(k, own, rest, json);
      OtherKindsMarker(FirstLine(FormatPublisher(own, e).value), k, own, fs);
    }
  }

  lemma OtherKindsMarker(line: string, k: Kind, own: Kind, fs: seq<string>)
    requires k != own && ReadFields(line, PublisherPrefix(own) + "request_id", PublisherLabels(own)) == Some(fs)
    ensures ReadFields(line, PublisherPrefix(k) + "request_id", PublisherLabels(k)).None?
  {
    PrefixesDiffer(k, own, "");
    hide PublisherPrefix, PublisherLabels, Split, EndsWith;
  }

  /** A scan for a kind fails on a comment that carries a bundle, whichever request and execution it
      asks for, if the canonical request in the bundle's record contains the kind's prefix. Otherwise
      it passes over comments of the other kinds and reads its own back. */
  lemma UnreadableExactly(k: Kind, own: Kind, e: Value, execution: string, request: Option<string>,
                          r: JournalRecord.Record, parameters: seq<Keyed<Json>>, content: string)
    requires !own.IntentKind? && WellFormedPublisher(own, e) && FormatPublisher(own, e).Ok?
    requires CarriedRecord(e) == Some(content) && Claimed(r, parameters, content)
    ensures var parsed := ParsePublisher(FormatPublisher(own, e).value, k, execution, request);
            var planted := Contains(r.frozen.canonicalRequest, PublisherPrefix(k));
            && (planted ==> parsed == Err(CanonicalMismatch))
            && (!planted && k != own ==> parsed == Ok(None))
            && (!planted && k == own && Some(execution) == ExecutionOf(own, e)
                && request == Some(MarkerFields(own, e).value[0])
                ==> parsed == Ok(Some(e)))
  {
    hide Contains, Pretty, ParsePublisher, FormatPublisher, MarkerFields, ExecutionOf, PublisherPrefix, Claimed,
         CarriedRecord, PublisherFault, PublisherFields, Tells, MarkText, Ordered;
    PrefixIsMark(k);
    EnvelopeTells(own, e, r, parameters, content, PublisherPrefix(k));
    PrettyTells(e, PublisherPrefix(k));
    ScannedAs(k, own, e, execution, request);
    PublisherRoundTrip(own, e);
  }
}
