/** Receipt and Publisher comments: how they are formatted and how strictly they are parsed
    (scripts/actions_request_handler.py). */
module MachineComments {
  import opened Common
  import opened Text
  import opened CommentFraming
  import opened CommentJson
  import opened Envelopes
  import opened Markers

  // ----- marker lines: labelled fields that contain no equals sign

  function Labelled(fields: seq<string>, labels: seq<string>): (parts: seq<string>)
    requires |fields| == |labels|
    ensures |parts| == |fields|
  {
    seq(|fields|, i requires 0 <= i < |fields| => fields[i] + labels[i])
  }

  function MarkerText(head: string, fields: seq<string>, labels: seq<string>): string
    requires |fields| == |labels|
  {
    Join([head] + Labelled(fields, labels), '=')
  }

  predicate EndsWith(s: string, t: string) {
    |t| <= |s| && s[|s| - |t|..] == t
  }

  /** The fields of a marker line. */
  function ReadFields(line: string, head: string, labels: seq<string>): (r: Option<seq<string>>)
    ensures r.Some? ==> |r.value| == |labels|
  {
    var parts := Split(line, '=');
    if |parts| != |labels| + 1 || parts[0] != head || exists i | 0 <= i < |labels| :: !EndsWith(parts[i + 1], labels[i]) then None
    else Some(seq(|labels|, i requires 0 <= i < |labels| => parts[i + 1][..|parts[i + 1]| - |labels[i]|]))
  }

  predicate AllFree(parts: seq<string>, sep: char) {
    forall i | 0 <= i < |parts| :: Free(parts[i], sep)
  }

  lemma ReadFieldsMakeTheLine(line: string, head: string, labels: seq<string>, fields: seq<string>)
    requires ReadFields(line, head, labels) == Some(fields)
    ensures |fields| == |labels| && AllFree(fields, '=') && MarkerText(head, fields, labels) == line
  {
    var parts := Split(line, '=');
    JoinOfSplit(line, '=');
    hide Split, Join;
    forall i | 0 <= i < |labels| ensures fields[i] + labels[i] == parts[i + 1] && Free(fields[i], '=') {
      assert parts[i + 1] == parts[i + 1][..|fields[i]|] + parts[i + 1][|fields[i]|..];
      assert Free(parts[i + 1], '=');
    }
    assert parts == [head] + Labelled(fields, labels);
  }

  lemma MarkerIsRead(head: string, labels: seq<string>, fields: seq<string>)
    requires Free(head, '=') && AllFree(labels, '=') && |fields| == |labels| && AllFree(fields, '=')
    ensures ReadFields(MarkerText(head, fields, labels), head, labels) == Some(fields)
  {
    hide Split, Join;
    var whole := [head] + Labelled(fields, labels);
    forall i | 0 <= i < |whole| ensures Free(whole[i], '=') {
      if i > 0 { assert whole[i] == fields[i - 1] + labels[i - 1]; }
    }
    SplitOfJoin(whole, '=');
    hide Free;
    forall i | 0 <= i < |labels| ensures EndsWith(whole[i + 1], labels[i]) && whole[i + 1][..|whole[i + 1]| - |labels[i]|] == fields[i] {
      assert whole[i + 1] == fields[i] + labels[i];
    }
    assert ReadFields(MarkerText(head, fields, labels), head, labels).value == fields;
  }

  /** Reading a marker line finds fields exactly when the line is those fields' marker. */
  lemma FieldsAreExact(line: string, head: string, labels: seq<string>, fields: seq<string>)
    requires Free(head, '=') && AllFree(labels, '=')
    ensures ReadFields(line, head, labels) == Some(fields) <==>
              |fields| == |labels| && AllFree(fields, '=') && MarkerText(head, fields, labels) == line
  {
    hide ReadFields, MarkerText, AllFree;
    if ReadFields(line, head, labels) == Some(fields) { ReadFieldsMakeTheLine(line, head, labels, fields); }
    if |fields| == |labels| && AllFree(fields, '=') { MarkerIsRead(head, labels, fields); }
  }

  datatype CommentError =
    | CanonicalMismatch | BindingMismatch | RevisionMismatch | JsonInvalid | EnvelopeInvalid | VersionUnsupported
    | KindInvalid | StateInvalid | LedgerHandoff | CodeInvalid | ResultInvalid | TooLarge | MissingField
    | InvalidCheckpoint | InvalidExecutionId

  // ----- what every marker begins with

  lemma FreeTogether(s: string, t: string, c: char)
    requires Free(s, c) && Free(t, c)
    ensures Free(s + t, c)
  {
  }

  lemma StartIsFree(c: char)
    requires c == '=' || c == '<' || c == '\n'
    ensures Free(START, c) && Free(":v1:", c) && (c != '<' ==> Free("<", c))
  {
  }

  lemma MarkerPrefixIsFree(name: string)
    requires Free(name, '=') && Free(name, '<') && Free(name, '\n')
    ensures var p := MarkerPrefix(name);
            p != "" && p[0] == '<' && Free(p, '\n') && Free(p[1..], '<') && Free(p, '=')
  {
    hide Free;
    var tail := START + (name + ":v1:");
    assert MarkerPrefix(name)[1..] == tail;
    forall c | c == '=' || c == '<' || c == '\n' ensures Free(tail, c) && (c != '<' ==> Free("<" + tail, c)) {
      StartIsFree(c);
      FreeTogether(name, ":v1:", c);
      FreeTogether(START, name + ":v1:", c);
      if c != '<' { FreeTogether("<", tail, c); }
    }
  }

  // ----- receipts

  const RECEIPT := MarkerPrefix("receipt")
  const RECEIPT_HEAD := RECEIPT + "request_id"
  const RECEIPT_LABELS := [":digest", ":op", ":accepted_revision", ":claim_revision", " -->"]
  const MAX_ENVELOPE_BYTES := 32768
  const MAX_BODY_BYTES := 65536

  predicate ReceiptFields(fs: seq<string>) {
    && |fs| == 5 && 1 <= |fs[0]| <= 128 && AllChars(fs[0], IdChar) && LowerHex(fs[1], 64)
    && 1 <= |fs[2]| <= 64 && AllChars(fs[2], OperationChar) && LowerHex(fs[3], 40) && LowerHex(fs[4], 40)
  }

  function FieldStrings(e: Value, names: seq<string>): (r: Option<seq<string>>)
    ensures r.Some? ==> |r.value| == |names|
  {
    if exists i | 0 <= i < |names| :: GetString(e, names[i]).None? then None
    else Some(seq(|names|, i requires 0 <= i < |names| => GetString(e, names[i]).value))
  }

  const RECEIPT_NAMES := ["request_id", "request_digest", "operation", "accepted_revision", "claim_revision"]

  function FormatReceipt(e: Value): Result<string, CommentError> {
    var json := Pretty(e, 0);
    if ByteLength(json) > MAX_ENVELOPE_BYTES then Err(TooLarge)
    else match FieldStrings(e, RECEIPT_NAMES)
      case None => Err(MissingField)
      case Some(fs) =>
        var body := Frame(MarkerText(RECEIPT_HEAD, fs, RECEIPT_LABELS), json);
        if ByteLength(body) > MAX_BODY_BYTES then Err(TooLarge) else Ok(body)
  }

  datatype Binding = Binding(requestId: string, digest: string, operation: string, accepted: Option<string>, claim: Option<string>)

  predicate Profile(stage: string, name: string, run: int) {
    || (stage == "candidate-ready" && name == "workspace-ledger-candidate-" + IntegerText(run) + "-1")
    || (stage == "integration-observed" && name == "workspace-integration-observation-" + IntegerText(run) + "-1")
  }

  predicate HandoffOk(r: Value) {
    && HasKeys(r, {"stage", "producer_run_id", "producer_run_attempt", "artifact_name", "content_sha256"})
    && GetString(r, "stage").Some? && GetString(r, "artifact_name").Some? && GetString(r, "content_sha256").Some?
    && LowerHex(GetString(r, "content_sha256").value, 64)
    && match Get(r, "producer_run_id")
       case Some(VInt(run)) =>
         && 0 < run <= 9007199254740991 && Get(r, "producer_run_attempt") == Some(VInt(1))
         && Profile(GetString(r, "stage").value, GetString(r, "artifact_name").value, run)
       case _ => false
  }

  /** The checks on a parsed receipt, in the order they are made; `fs` are the marker's fields. */
  function ReceiptFault(e: Value, b: Binding, fs: seq<string>): Option<CommentError>
    requires |fs| == 5
  {
    if !e.VObject? then Some(EnvelopeInvalid)
    else if Get(e, "schema_version") != Some(VInt(1)) then Some(VersionUnsupported)
    else if GetString(e, "kind") != Some("actions.request.receipt") then Some(KindInvalid)
    else if GetString(e, "request_id") != Some(b.requestId) then Some(BindingMismatch)
    else if GetString(e, "request_digest") != Some(b.digest) then Some(BindingMismatch)
    else if GetString(e, "operation") != Some(b.operation) then Some(BindingMismatch)
    else if GetString(e, "accepted_revision") != Some(fs[3]) || GetString(e, "claim_revision") != Some(fs[4]) then Some(RevisionMismatch)
    else if (b.accepted.Some? && b.accepted.value != fs[3]) || (b.claim.Some? && b.claim.value != fs[4]) then Some(RevisionMismatch)
    else
      var state := GetString(e, "terminal_state");
      if state != Some("succeeded") && state != Some("rejected") && state != Some("candidate_ready") then Some(StateInvalid)
      else if b.operation == "governance.ledger" && state == Some("succeeded") then Some(LedgerHandoff)
      else
        var code := GetString(e, "terminal_code");
        if code.None? || !(1 <= |code.value| <= 128) then Some(CodeInvalid)
        else match Get(e, "result")
          case Some(VObject(r)) =>
            if state == Some("candidate_ready")
               && (b.operation != "governance.ledger" || code != Some("ledger_candidate_ready") || !HandoffOk(VObject(r)))
            then Some(LedgerHandoff) else None
          case _ => Some(ResultInvalid)
  }

  function ParseReceipt(body: string, b: Binding): Result<Option<Value>, CommentError> {
    if !Contains(body, RECEIPT) then Ok(None)
    else if Count(body, RECEIPT) != 1 || Count(body, OPEN) != 1 || Count(body, CLOSE) != 1 then Err(CanonicalMismatch)
    else match ReadFields(FirstLine(body), RECEIPT_HEAD, RECEIPT_LABELS)
      case None => Err(CanonicalMismatch)
      case Some(fs) =>
        if !ReceiptFields(fs) then Err(CanonicalMismatch)
        else if fs[0] != b.requestId then Ok(None)
        else if fs[1] != b.digest || fs[2] != b.operation then Err(BindingMismatch)
        else if (b.accepted.Some? && b.accepted.value != fs[3]) || (b.claim.Some? && b.claim.value != fs[4]) then Err(RevisionMismatch)
        else if !Shaped(body) then Err(CanonicalMismatch)
        else match Loads(Fenced(body))
          case None => Err(JsonInvalid)
          case Some(e) =>
            match ReceiptFault(e, b, fs)
            case Some(fault) => Err(fault)
            case None =>
              match FormatReceipt(e)
              case Err(error) => Err(error)
              case Ok(text) => if body != text then Err(CanonicalMismatch) else Ok(Some(e))
  }

  // ----- the round trip of receipts

  /** The bindings an envelope carries itself. */
  function OwnBinding(fs: seq<string>): Binding
    requires |fs| == 5
  {
    Binding(fs[0], fs[1], fs[2], Some(fs[3]), Some(fs[4]))
  }

  /** A Python dictionary that the parser's checks pass. */
  predicate WellFormedReceipt(e: Value) {
    Ordered(e) &&
    var fs := FieldStrings(e, RECEIPT_NAMES);
    fs.Some? && ReceiptFields(fs.value) && ReceiptFault(e, OwnBinding(fs.value), fs.value).None?
  }

  lemma ReceiptFieldsAreFree(fs: seq<string>)
    requires ReceiptFields(fs)
    ensures AllFree(fs, '=') && AllFree(fs, '<') && AllFree(fs, '\n')
  {
  }

  /** A marker begins with its prefix and keeps to one line. */
  lemma {:induction false} JoinedIsFree(parts: seq<string>, sep: char, c: char)
    requires c != sep && AllFree(parts, c)
    ensures Free(Join(parts, sep), c)
  {
    if |parts| > 1 { JoinedIsFree(parts[1..], sep, c); }
  }

  lemma MarkerShape(prefix: string, fields: seq<string>, labels: seq<string>) returns (rest: string)
    requires |fields| == |labels| > 0 && labels[|labels| - 1] == " -->"
    requires AllFree(fields, '<') && AllFree(fields, '\n') && AllFree(labels, '<') && AllFree(labels, '\n')
    ensures MarkerText(prefix + "request_id", fields, labels) == prefix + rest
    ensures Free(rest, '<') && Free(rest, '\n') && |rest| > 0 && rest[|rest| - 1] == '>'
  {
    var parts := Labelled(fields, labels);
    rest := "request_id" + "=" + Join(parts, '=');
    assert ([prefix + "request_id"] + parts)[1..] == parts;
    assert prefix + "request_id" + "=" + Join(parts, '=') == prefix + rest;
    forall i | 0 <= i < |parts| ensures Free(parts[i], '<') && Free(parts[i], '\n') { assert parts[i] == fields[i] + labels[i]; }
    JoinedIsFree(parts, '=', '<');
    JoinedIsFree(parts, '=', '\n');
    JoinEnds(parts, '=');
    assert parts[|parts| - 1] == fields[|parts| - 1] + " -->";
  }

  lemma {:induction false} JoinEnds(parts: seq<string>, sep: char)
    requires parts != [] && parts[|parts| - 1] != ""
    ensures Join(parts, sep) != ""
    ensures Join(parts, sep)[|Join(parts, sep)| - 1] == parts[|parts| - 1][|parts[|parts| - 1]| - 1]
  {
    if |parts| > 1 { JoinEnds(parts[1..], sep); }
  }

  /** What the frame and the marker guarantee of any formatted comment. */
  lemma FormattedShape(prefix: string, fields: seq<string>, labels: seq<string>, json: string)
    requires prefix != "" && prefix[0] == '<' && Free(prefix, '\n') && Free(prefix[1..], '<') && Free(prefix, '=')
    requires |fields| == |labels| > 0 && labels[|labels| - 1] == " -->" && AllFree(labels, '=')
    requires AllFree(fields, '=') && AllFree(fields, '<') && AllFree(fields, '\n') && AllFree(labels, '<') && AllFree(labels, '\n')
    requires Calm(json)
    ensures var head := prefix + "request_id";
            var body := Frame(MarkerText(head, fields, labels), json);
            && Contains(body, prefix) && (Count(body, prefix) == 1 <==> !Contains(json, prefix))
            && Shaped(body) && Fenced(body) == json && ReadFields(FirstLine(body), head, labels) == Some(fields)
  {
    hide MarkerText, ReadFields, Calm, Shaped, Fenced, FirstLine, Count;
    var head := prefix + "request_id";
    var marker := MarkerText(head, fields, labels);
    var rest := MarkerShape(prefix, fields, labels);
    assert Free(marker, '\n') && marker[|marker| - 1] == rest[|rest| - 1];
    FrameReadsBack(marker, json);
    PrefixCount(prefix, rest, json);
    FieldsAreExact(marker, head, labels, fields);
    PrefixIsIn(prefix, rest, json);
  }

  lemma PrefixIsIn(prefix: string, rest: string, json: string)
    ensures Contains(Frame(prefix + rest, json), prefix)
  {
    assert OccursAt(Frame(prefix + rest, json), prefix, 0);
  }

  lemma LabelsAreWords(c: char)
    requires c == '=' || c == '<' || c == '\n'
    ensures Free(":digest", c) && Free(":op", c) && Free(" -->", c)
    ensures Free(":accepted_revision", c) && Free(":claim_revision", c) && Free(":execution_digest", c)
  {
  }

  lemma ReceiptLabelsAreFree(c: char)
    requires c == '=' || c == '<' || c == '\n'
    ensures AllFree(RECEIPT_LABELS, c)
  {
    LabelsAreWords(c);
    hide Free;
  }

  lemma ReceiptIsFree(c: char)
    requires c == '=' || c == '<' || c == '\n'
    ensures Free("receipt", c)
  {
  }

  lemma ReceiptConstants()
    ensures RECEIPT != "" && RECEIPT[0] == '<' && Free(RECEIPT, '\n') && Free(RECEIPT[1..], '<') && Free(RECEIPT, '=')
    ensures AllFree(RECEIPT_LABELS, '=') && AllFree(RECEIPT_LABELS, '<') && AllFree(RECEIPT_LABELS, '\n')
  {
    hide AllFree, Free;
    ReceiptIsFree('=');
    ReceiptIsFree('<');
    ReceiptIsFree('\n');
    MarkerPrefixIsFree("receipt");
    hide MarkerPrefix;
    ReceiptLabelsAreFree('=');
    ReceiptLabelsAreFree('<');
    ReceiptLabelsAreFree('\n');
  }

  /** Parsing a formatted, well-formed receipt under its own bindings gives it back exactly when
      its JSON text does not itself contain the marker's prefix. */
  lemma ReceiptRoundTrip(e: Value)
    requires WellFormedReceipt(e) && FormatReceipt(e).Ok?
    ensures var b := OwnBinding(FieldStrings(e, RECEIPT_NAMES).value);
            ParseReceipt(FormatReceipt(e).value, b) == Ok(Some(e)) <==> !Contains(Pretty(e, 0), RECEIPT)
  {
    hide Pretty, ReadFields, MarkerText, ByteLength, Count, Split, Join, ReceiptFault, Calm, Free, Loads, Ordered;
    var fs := FieldStrings(e, RECEIPT_NAMES).value;
    ReceiptFieldsAreFree(fs);
    ReceiptConstants();
    PrettyIsCalm(e, 0);
    LoadsPretty(e);
    FormattedShape(RECEIPT, fs, RECEIPT_LABELS, Pretty(e, 0));
  }

  /** A receipt without fault carries the fields of its marker and the bindings asked for. */
  lemma FaultFreeReceipt(e: Value, b: Binding, fs: seq<string>)
    requires ReceiptFields(fs) && fs[0] == b.requestId && fs[1] == b.digest && fs[2] == b.operation
    requires ReceiptFault(e, b, fs).None? && Ordered(e)
    ensures FieldStrings(e, RECEIPT_NAMES) == Some(fs) && WellFormedReceipt(e)
    ensures GetString(e, "request_id") == Some(b.requestId) && GetString(e, "request_digest") == Some(b.digest)
    ensures GetString(e, "operation") == Some(b.operation)
    ensures b.accepted.Some? ==> GetString(e, "accepted_revision") == b.accepted
    ensures b.claim.Some? ==> GetString(e, "claim_revision") == b.claim
  {
    hide Find, AllChars, HandoffOk;
    var got := FieldStrings(e, RECEIPT_NAMES).value;
    assert got[0] == fs[0] && got[1] == fs[1] && got[2] == fs[2] && got[3] == fs[3] && got[4] == fs[4];
    assert got == fs;
  }

  /** Whatever parses is, byte for byte, what the formatter makes of it, and is bound to the
      request that was asked for. */
  lemma ParsedReceiptIsFormatted(body: string, b: Binding, e: Value)
    requires ParseReceipt(body, b) == Ok(Some(e))
    ensures FormatReceipt(e) == Ok(body) && Shaped(body) && Loads(Fenced(body)) == Some(e)
    ensures WellFormedReceipt(e)
    ensures GetString(e, "request_id") == Some(b.requestId) && GetString(e, "request_digest") == Some(b.digest)
    ensures GetString(e, "operation") == Some(b.operation)
    ensures b.accepted.Some? ==> GetString(e, "accepted_revision") == b.accepted
    ensures b.claim.Some? ==> GetString(e, "claim_revision") == b.claim
  {
    hide Loads, Ordered, Contains, Count, Shaped, ReceiptFault, ReceiptFields, Frame, MarkerText, WellFormedReceipt,
         FieldStrings;
    var fs := ReadFields(FirstLine(body), RECEIPT_HEAD, RECEIPT_LABELS).value;
    hide ReadFields, FirstLine;
    LoadedIsOrdered(Fenced(body));
    FaultFreeReceipt(e, b, fs);
  }

  // ----- Publisher comments

  const INTENT_LABELS := [":digest", ":execution_digest", " -->"]
  const BUNDLE_LABELS := [":digest", ":execution_digest", ":accepted_revision", ":claim_revision", " -->"]

  function PublisherLabels(k: Kind): seq<string> {
    if k.IntentKind? then INTENT_LABELS else BUNDLE_LABELS
  }

  predicate PublisherFields(k: Kind, fs: seq<string>) {
    && |fs| == |PublisherLabels(k)|
    && 8 <= |fs[0]| <= 128 && AllChars(fs[0], WordChar) && LowerHex(fs[1], 64) && LowerHex(fs[2], 64)
    && (!k.IntentKind? ==> LowerHex(fs[3], 40) && LowerHex(fs[4], 40))
  }

  const INTENT_KEYS := {
    "schema_version", "kind", "request_id", "request_digest", "operation", "repository_id", "repository_full_name",
    "issue_id", "issue_number", "execution_id", "accepted_revision", "policy_revision"}

  predicate BundleEnvelope(k: Kind, e: Value) {
    && HasKeys(e, {"schema_version", "kind", "bundle", if k.PrepareKind? then "disposition" else "publication"})
    && GetString(e, "kind") == Some("actions.publisher." + KindName(k)) && Get(e, "schema_version") == Some(VInt(1))
  }

  /** What the formatter demands of an envelope that records a publication. */
  predicate PublicationEnvelope(k: Kind, e: Value) {
    && BundleEnvelope(k, e)
    && var bundle := GetOrNull(e, "bundle");
       && Get(bundle, "schema_version") == Some(VInt(1)) && BundleDict(bundle)
       && LedgerPublication(bundle, GetOrNull(e, "publication"))
  }

  /** The marker's fields as the formatter takes them from an envelope. */
  function MarkerFields(k: Kind, e: Value): Result<seq<string>, CommentError> {
    var source := if k.IntentKind? then Some(e) else Get(e, "bundle");
    if source.None? || GetString(source.value, "execution_id").None? then Err(MissingField)
    else
      var execution := GetString(source.value, "execution_id").value;
      if !ExecutionId(execution) then Err(InvalidExecutionId)
      else
        match FieldStrings(source.value, if k.IntentKind? then ["request_id", "request_digest"]
                                         else ["request_id", "request_digest", "accepted_revision", "claim_revision"])
        case None => Err(MissingField)
        case Some(fs) => Ok([fs[0], fs[1], DigestOf(execution)] + fs[2..])
  }

  function FormatPublisher(k: Kind, e: Value): Result<string, CommentError> {
    if (k.PublicationKind? || k.PublishedKind?) && !PublicationEnvelope(k, e) then Err(InvalidCheckpoint)
    else match MarkerFields(k, e)
      case Err(error) => Err(error)
      case Ok(fs) =>
        if |fs| != |PublisherLabels(k)| then Err(MissingField)
        else
          var body := Frame(MarkerText(PublisherPrefix(k) + "request_id", fs, PublisherLabels(k)), Pretty(e, 0));
          if ByteLength(body) > MAX_BODY_BYTES then Err(TooLarge) else Ok(body)
  }

  /** The checks on a parsed Publisher envelope; `fs` are the marker's fields. */
  function PublisherFault(k: Kind, e: Value, execution: string, fs: seq<string>): Option<CommentError>
    requires PublisherFields(k, fs)
  {
    if !e.VObject? then Some(InvalidCheckpoint)
    else if k.IntentKind? then
      if !HasKeys(e, INTENT_KEYS) || GetString(e, "kind") != Some("actions.publisher.intent") then Some(InvalidCheckpoint)
      else if !Same(GetOrNull(e, "schema_version"), VInt(1))
              || GetString(e, "request_id") != Some(fs[0])
              || GetString(e, "request_digest") != Some(fs[1]) || GetString(e, "execution_id") != Some(execution)
              || GetString(e, "operation").None? || GetString(e, "accepted_revision").None? || GetString(e, "policy_revision").None?
              || !LowerHex(GetString(e, "accepted_revision").value, 40) || !LowerHex(GetString(e, "policy_revision").value, 40)
      then Some(BindingMismatch) else None
    else if !BundleEnvelope(k, e) then Some(InvalidCheckpoint)
    else if k.PrepareKind? && GetString(e, "disposition") != Some("granted") && GetString(e, "disposition") != Some("reconciliation_required")
    then Some(InvalidCheckpoint)
    else
      var bundle := Get(e, "bundle");
      if bundle.None? || !BundleDict(bundle.value) then Some(InvalidCheckpoint)
      else if (k.PublicationKind? || k.PublishedKind?) && !LedgerPublication(bundle.value, GetOrNull(e, "publication"))
      then Some(InvalidCheckpoint)
      else if !RecordBound(bundle.value) then Some(BindingMismatch)
      else if GetString(bundle.value, "request_id") != Some(fs[0]) || GetString(bundle.value, "request_digest") != Some(fs[1])
              || GetString(bundle.value, "execution_id") != Some(execution)
              || GetString(bundle.value, "accepted_revision") != Some(fs[3]) || GetString(bundle.value, "claim_revision") != Some(fs[4])
      then Some(BindingMismatch) else None
  }

  function ParsePublisher(body: string, k: Kind, execution: string, request: Option<string>)
    : Result<Option<Value>, CommentError> {
    var prefix := PublisherPrefix(k);
    if !Contains(body, prefix) then Ok(None)
    else if ByteLength(body) > MAX_BODY_BYTES then Err(TooLarge)
    else if Count(body, prefix) != 1 || !Shaped(body) then Err(CanonicalMismatch)
    else match ReadFields(FirstLine(body), prefix + "request_id", PublisherLabels(k))
      case None => Err(CanonicalMismatch)
      case Some(fs) =>
        if !PublisherFields(k, fs) then Err(CanonicalMismatch)
        else if request.Some? && fs[0] != request.value then Ok(None)
        else if !ExecutionId(execution) then Err(InvalidExecutionId)
        else if fs[2] != DigestOf(execution) then Ok(None)
        else match Loads(Fenced(body))
          case None => Err(JsonInvalid)
          case Some(e) =>
            match PublisherFault(k, e, execution, fs)
            case Some(fault) => Err(fault)
            case None =>
              match FormatPublisher(k, e)
              case Err(error) => Err(error)
              case Ok(text) => if body != text then Err(CanonicalMismatch) else Ok(Some(e))
  }

  /** The execution an envelope names. */
  function ExecutionOf(k: Kind, e: Value): Option<string> {
    if k.IntentKind? then GetString(e, "execution_id")
    else match Get(e, "bundle")
      case None => None
      case Some(b) => GetString(b, "execution_id")
  }

  predicate WellFormedPublisher(k: Kind, e: Value) {
    var fs := MarkerFields(k, e);
    && Ordered(e) && fs.Ok? && PublisherFields(k, fs.value) && ExecutionOf(k, e).Some?
    && PublisherFault(k, e, ExecutionOf(k, e).value, fs.value).None?
  }

  lemma KindNameIsFree(k: Kind)
    ensures var name := "publisher-" + KindName(k); Free(name, '\n') && Free(name, '<') && Free(name, '=')
  {
  }

  lemma IntentLabelsAreFree(c: char)
    requires c == '=' || c == '<' || c == '\n'
    ensures AllFree(INTENT_LABELS, c)
  {
    LabelsAreWords(c);
    hide Free;
  }

  lemma BundleLabelsAreFree(c: char)
    requires c == '=' || c == '<' || c == '\n'
    ensures AllFree(BUNDLE_LABELS, c)
  {
    LabelsAreWords(c);
    hide Free;
  }

  lemma LabelsAreFree(k: Kind)
    ensures var ls := PublisherLabels(k);
            AllFree(ls, '=') && AllFree(ls, '<') && AllFree(ls, '\n') && |ls| > 0 && ls[|ls| - 1] == " -->"
  {
    hide AllFree, Free;
    IntentLabelsAreFree('=');
    IntentLabelsAreFree('<');
    IntentLabelsAreFree('\n');
    BundleLabelsAreFree('=');
    BundleLabelsAreFree('<');
    BundleLabelsAreFree('\n');
  }

  lemma PublisherConstants(k: Kind)
    ensures var p := PublisherPrefix(k);
            p != "" && p[0] == '<' && Free(p, '\n') && Free(p[1..], '<') && Free(p, '=')
  {
    KindNameIsFree(k);
    hide KindName, Free;
    MarkerPrefixIsFree("publisher-" + KindName(k));
  }

  lemma PublisherFieldsAreFree(k: Kind, fs: seq<string>)
    requires PublisherFields(k, fs)
    ensures AllFree(fs, '=') && AllFree(fs, '<') && AllFree(fs, '\n')
  {
  }

  /** The same for Publisher comments: parsing what was formatted, for the request and execution
      it names, gives it back exactly when its JSON text is free of the marker's prefix. */
  lemma PublisherRoundTrip(k: Kind, e: Value)
    requires WellFormedPublisher(k, e) && FormatPublisher(k, e).Ok?
    ensures var body := FormatPublisher(k, e).value;
            var request := Some(MarkerFields(k, e).value[0]);
            ParsePublisher(body, k, ExecutionOf(k, e).value, request) == Ok(Some(e))
            <==> !Contains(Pretty(e, 0), PublisherPrefix(k))
  {
    hide DigestOf, BundleDict, LedgerPublication, RecordBound, Same, Loads, Ordered, PublicationEnvelope,
         FieldStrings, INTENT_LABELS, Count, Shaped, ByteLength, PublisherFault, Pretty, ReadFields, MarkerText, Free,
         Calm, KindName;
    var fs := MarkerFields(k, e).value;
    PublisherConstants(k);
    LabelsAreFree(k);
    PublisherFieldsAreFree(k, fs);
    PrettyIsCalm(e, 0);
    LoadsPretty(e);
    FormattedShape(PublisherPrefix(k), fs, PublisherLabels(k), Pretty(e, 0));
  }

  /** An envelope without fault yields the marker it was found under. */
  lemma FaultFreeMarker(k: Kind, e: Value, execution: string, fs: seq<string>)
    requires PublisherFields(k, fs) && PublisherFault(k, e, execution, fs).None?
    requires ExecutionId(execution) && fs[2] == DigestOf(execution)
    requires MarkerFields(k, e).Ok?
    ensures MarkerFields(k, e) == Ok(fs) && ExecutionOf(k, e) == Some(execution)
  {
    hide DigestOf, BundleDict, LedgerPublication, RecordBound, Same, Loads, Ordered, PublicationEnvelope, HasKeys,
         Find, AllChars;
    var got := MarkerFields(k, e).value;
    if k.IntentKind? {
      assert got[0] == fs[0] && got[1] == fs[1] && |got| == 3;
    } else {
      assert got[0] == fs[0] && got[1] == fs[1] && got[3] == fs[3] && got[4] == fs[4] && |got| == 5;
    }
    assert got == fs;
  }

  /** Whatever parses as a Publisher comment is what the formatter makes of it, and names the
      execution and the request that were asked for. */
  lemma ParsedPublisherIsFormatted(body: string, k: Kind, execution: string, request: Option<string>, e: Value)
    requires ParsePublisher(body, k, execution, request) == Ok(Some(e))
    ensures FormatPublisher(k, e) == Ok(body) && Shaped(body) && Loads(Fenced(body)) == Some(e)
    ensures ExecutionOf(k, e) == Some(execution) && WellFormedPublisher(k, e)
    ensures request.Some? ==> MarkerFields(k, e).value[0] == request.value
  {
    hide DigestOf, BundleDict, LedgerPublication, RecordBound, Same, Loads, Ordered, PublicationEnvelope, Contains,
         Count, Shaped, ByteLength, PublisherFault, MarkerFields, PublisherFields;
    var fs := ReadFields(FirstLine(body), PublisherPrefix(k) + "request_id", PublisherLabels(k)).value;
    hide ReadFields, FirstLine, PublisherLabels, PublisherPrefix;
    LoadedIsOrdered(Fenced(body));
    FaultFreeMarker(k, e, execution, fs);
  }
}
