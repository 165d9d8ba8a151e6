/** What the checks on receipts, bundles and publications demand, field by field and character by
    character, and which comments a scan passes over (scripts/actions_request_handler.py). */
module CommentChecks {
  import opened Common
  import opened Text
  import opened CommentFraming
  import opened CommentJson
  import opened CommentTexts
  import opened Envelopes
  import opened MachineComments
  import opened Markers

  // ----- Python's equality

  /** The value with `true` and `false` replaced by the numbers they equal. */
  function AsNumbers(v: Value): Value
    decreases v
  {
    match v
    case VBool(flag) => VInt(if flag then 1 else 0)
    case VList(items) => VList(seq(|items|, i requires 0 <= i < |items| => AsNumbers(items[i])))
    case VObject(ms) => VObject(seq(|ms|, i requires 0 <= i < |ms| => MemberAsNumbers(ms[i])))
    case _ => v
  }

  function MemberAsNumbers(m: Member): Member
    decreases m
  {
    Member(m.name, AsNumbers(m.value))
  }

  lemma SameLists(xs: seq<Value>, ys: seq<Value>)
    requires |xs| == |ys|
    ensures AsNumbers(VList(xs)) == AsNumbers(VList(ys))
            <==> forall i | 0 <= i < |xs| :: AsNumbers(xs[i]) == AsNumbers(ys[i])
  {
    var us, ws := AsNumbers(VList(xs)).items, AsNumbers(VList(ys)).items;
    assert forall i | 0 <= i < |xs| :: us[i] == AsNumbers(xs[i]) && ws[i] == AsNumbers(ys[i]);
    assert us == ws <==> forall i | 0 <= i < |xs| :: us[i] == ws[i];
  }

  lemma SameObjects(xs: seq<Member>, ys: seq<Member>)
    requires |xs| == |ys|
    ensures AsNumbers(VObject(xs)) == AsNumbers(VObject(ys))
            <==> forall i | 0 <= i < |xs| :: MemberAsNumbers(xs[i]) == MemberAsNumbers(ys[i])
  {
    var us, ws := AsNumbers(VObject(xs)).members, AsNumbers(VObject(ys)).members;
    assert forall i | 0 <= i < |xs| :: us[i] == MemberAsNumbers(xs[i]) && ws[i] == MemberAsNumbers(ys[i]);
    assert us == ws <==> forall i | 0 <= i < |xs| :: us[i] == ws[i];
  }

  /** Two values compare equal exactly when they are the same with booleans counted as numbers. */
  lemma {:induction false} SameIsEqualAsNumbers(v: Value, w: Value)
    ensures Same(v, w) <==> AsNumbers(v) == AsNumbers(w)
    decreases v
  {
    match v
    case VList(items) =>
      if w.VList? && |items| == |w.items| {
        forall i | 0 <= i < |items| ensures Same(items[i], w.items[i]) <==> AsNumbers(items[i]) == AsNumbers(w.items[i]) {
          SameIsEqualAsNumbers(items[i], w.items[i]);
        }
        SameLists(items, w.items);
      } else if w.VList? {
        assert |AsNumbers(v).items| == |items| && |AsNumbers(w).items| == |w.items|;
      }
    case VObject(ms) =>
      if w.VObject? && |ms| == |w.members| {
        forall i | 0 <= i < |ms|
          ensures SameMember(ms[i], w.members[i]) <==> MemberAsNumbers(ms[i]) == MemberAsNumbers(w.members[i])
        {
          SameIsEqualAsNumbers(ms[i].value, w.members[i].value);
        }
        SameObjects(ms, w.members);
      } else if w.VObject? {
        assert |AsNumbers(v).members| == |ms| && |AsNumbers(w).members| == |w.members|;
      }
    case _ =>
  }

  lemma NumbersStay(n: int)
    ensures AsNumbers(VInt(n)) == VInt(n)
  {
  }

  // ----- texts

  /** Exactly `n` lower-case hexadecimal digits. */
  predicate IsHexText(s: string, n: nat) {
    |s| == n && forall i | 0 <= i < n :: 0x30 <= s[i] as int <= 0x39 || 0x61 <= s[i] as int <= 0x66
  }

  predicate IsWord(c: char) {
    0x61 <= c as int <= 0x7A || 0x41 <= c as int <= 0x5A || 0x30 <= c as int <= 0x39 || c == '_' || c == '-'
  }

  /** The classes of characters, and the lengths, that the marker expressions allow. */
  lemma FieldTextsMean(s: string, n: nat)
    ensures LowerHex(s, n) <==> IsHexText(s, n)
    ensures RequestId(s) <==> 8 <= |s| < 129 && forall i | 0 <= i < |s| :: IsWord(s[i])
    ensures ExecutionId(s) <==> 0 < |s| < 129 && forall i | 0 <= i < |s| :: IsWord(s[i]) || s[i] == '.' || s[i] == ':'
  {
  }

  /** A task branch is `task/`, an upper-case id, three digits and at least one lower-case word, joined
      by hyphens. */
  predicate IsTaskBranch(s: string, id: string, digits: string, words: seq<string>) {
    && s == "task/" + Join([id, digits] + words, '-')
    && id != "" && 0x41 <= id[0] as int <= 0x5A
    && (forall i | 0 <= i < |id| :: 0x41 <= id[i] as int <= 0x5A || 0x30 <= id[i] as int <= 0x39)
    && |digits| == 3 && (forall i | 0 <= i < 3 :: 0x30 <= digits[i] as int <= 0x39)
    && words != [] && forall k | 0 <= k < |words| :: IsLowerWord(words[k])
  }

  predicate IsLowerWord(word: string) {
    word != "" && forall i | 0 <= i < |word| :: 0x61 <= word[i] as int <= 0x7A || 0x30 <= word[i] as int <= 0x39
  }

  lemma TaskBranchMeans(s: string)
    ensures TaskBranch(s) <==> exists id, digits, words :: IsTaskBranch(s, id, digits, words)
  {
    if TaskBranch(s) {
      var parts := Split(s[5..], '-');
      JoinOfSplit(s[5..], '-');
      assert parts == [parts[0], parts[1]] + parts[2..];
      assert s == s[..5] + s[5..];
      hide Join, Split;
      assert IsTaskBranch(s, parts[0], parts[1], parts[2..]);
    }
    if id, digits, words :| IsTaskBranch(s, id, digits, words) {
      var parts := [id, digits] + words;
      assert s[..5] == "task/" && s[5..] == Join(parts, '-');
      forall i | 0 <= i < |parts| ensures Free(parts[i], '-') {
        if i >= 2 { assert IsLowerWord(words[i - 2]); }
      }
      SplitOfJoin(parts, '-');
      hide Join, Split;
      forall i | 2 <= i < |parts| ensures parts[i] != "" && AllChars(parts[i], LowerOrDigit) {
        assert IsLowerWord(words[i - 2]);
      }
    }
  }

  /** A repository name: an owner and a name, each of its characters and neither beginning badly. */
  lemma RepositoryNameMeans(s: string)
    ensures RepositoryName(s) <==> exists owner, name :: IsRepository(s, owner, name)
  {
    if RepositoryName(s) {
      var parts := Split(s, '/');
      JoinOfSplit(s, '/');
      assert parts == [parts[0], parts[1]] && Join(parts, '/') == parts[0] + "/" + Join(parts[1..], '/');
      assert parts[1..] == [parts[1]];
      hide Split;
      assert IsRepository(s, parts[0], parts[1]);
    }
    if owner, name :| IsRepository(s, owner, name) {
      assert Free(owner, '/') && Free(name, '/');
      SplitFree(name, '/');
      SplitFirst(owner, name, '/');
      assert owner + ['/'] + name == s;
    }
  }

  predicate IsRepository(s: string, owner: string, name: string) {
    && s == owner + "/" + name && owner != "" && owner[0] != '-' && name != "" && name[0] != '.' && name[0] != '-'
    && (forall i | 0 <= i < |owner| :: IsWord(owner[i]) && owner[i] != '_')
    && forall i | 0 <= i < |name| :: IsWord(name[i]) || name[i] == '.'
  }

  // ----- receipts

  /** Control's handoff: five fields, a run whose id is a positive safe integer, its first attempt, and
      the artifact that belongs to the stage. */
  predicate IsHandoff(r: Value) {
    && HasKeys(r, {"stage", "producer_run_id", "producer_run_attempt", "artifact_name", "content_sha256"})
    && GetString(r, "content_sha256").Some? && IsHexText(GetString(r, "content_sha256").value, 64)
    && Get(r, "producer_run_attempt") == Some(VInt(1))
    && Get(r, "producer_run_id").Some? && Get(r, "producer_run_id").value.VInt?
    && var run := Get(r, "producer_run_id").value.number;
       && 1 <= run <= 9007199254740991
       && ((GetString(r, "stage") == Some("candidate-ready")
            && GetString(r, "artifact_name") == Some("workspace-ledger-candidate-" + IntegerText(run) + "-1"))
           || (GetString(r, "stage") == Some("integration-observed")
               && GetString(r, "artifact_name") == Some("workspace-integration-observation-" + IntegerText(run) + "-1")))
  }

  /** A parsed receipt passes exactly when it is one of this version and kind, bound to the request and to
      its marker, with an allowed state, a code of 1 to 128 characters and a result; a candidate is for a
      ledger request only, a final success never. */
  lemma FaultFreeExactly(e: Value, b: Binding, fs: seq<string>)
    requires |fs| == 5
    ensures ReceiptFault(e, b, fs).None? <==>
              && e.VObject? && Get(e, "schema_version") == Some(VInt(1))
              && GetString(e, "kind") == Some("actions.request.receipt") && GetString(e, "request_id") == Some(b.requestId)
              && GetString(e, "request_digest") == Some(b.digest) && GetString(e, "operation") == Some(b.operation)
              && GetString(e, "accepted_revision") == Some(fs[3]) && GetString(e, "claim_revision") == Some(fs[4])
              && (b.accepted.Some? ==> b.accepted.value == fs[3]) && (b.claim.Some? ==> b.claim.value == fs[4])
              && GetString(e, "terminal_code").Some? && 0 < |GetString(e, "terminal_code").value| < 129
              && Get(e, "result").Some? && Get(e, "result").value.VObject?
              && (|| GetString(e, "terminal_state") == Some("rejected")
                  || (GetString(e, "terminal_state") == Some("succeeded") && b.operation != "governance.ledger")
                  || (GetString(e, "terminal_state") == Some("candidate_ready") && b.operation == "governance.ledger"
                      && GetString(e, "terminal_code") == Some("ledger_candidate_ready")
                      && IsHandoff(Get(e, "result").value)))
  {
    hide Find, HasKeys, IntegerText, LowerHex, IsHexText;
    if Get(e, "result").Some? {
      var sha := GetString(Get(e, "result").value, "content_sha256");
      if sha.Some? { FieldTextsMean(sha.value, 64); }
    }
  }

  // ----- bundles and publications

  predicate IsText(v: Value, name: string) {
    GetString(v, name).Some?
  }

  predicate IsPositive(v: Value, name: string) {
    Get(v, name).Some? && Get(v, name).value.VInt? && Get(v, name).value.number > 0
  }

  /** The fields of an execution bundle. */
  lemma BundleDictMeans(d: Value)
    ensures BundleDict(d) <==>
              && HasKeys(d, {"schema_version", "kind", "request_id", "request_digest", "operation", "repository_id",
                             "repository_full_name", "issue_id", "issue_number", "execution_id", "canonical_record",
                             "accepted_revision", "claim_revision", "parameters"})
              && AsNumbers(GetOrNull(d, "schema_version")) == VInt(1)
              && GetString(d, "kind") == Some("actions.execution.bundle")
              && IsText(d, "request_id") && RequestId(GetString(d, "request_id").value)
              && IsText(d, "request_digest") && IsHexText(GetString(d, "request_digest").value, 64)
              && IsPositive(d, "repository_id") && IsPositive(d, "issue_id") && IsPositive(d, "issue_number")
              && IsText(d, "repository_full_name") && '/' in GetString(d, "repository_full_name").value
              && IsText(d, "execution_id") && ExecutionId(GetString(d, "execution_id").value) && IsText(d, "canonical_record")
              && IsText(d, "accepted_revision") && IsHexText(GetString(d, "accepted_revision").value, 40)
              && IsText(d, "claim_revision") && IsHexText(GetString(d, "claim_revision").value, 40)
              && Get(d, "parameters").Some? && Get(d, "parameters").value.VObject?
  {
    SameIsEqualAsNumbers(GetOrNull(d, "schema_version"), VInt(1));
    hide Find, HasKeys, RequestId, ExecutionId, Same, AsNumbers, LowerHex, IsHexText;
    assert AsNumbers(VInt(1)) == VInt(1) by { NumbersStay(1); }
    if IsText(d, "request_digest") { FieldTextsMean(GetString(d, "request_digest").value, 64); }
    if IsText(d, "accepted_revision") { FieldTextsMean(GetString(d, "accepted_revision").value, 40); }
    if IsText(d, "claim_revision") { FieldTextsMean(GetString(d, "claim_revision").value, 40); }
  }

  /** The record carries the field as the bundle does. */
  predicate Agrees(record: Value, d: Value, name: string) {
    AsNumbers(GetOrNull(record, name)) == AsNumbers(GetOrNull(d, name))
  }

  /** The bundle's record is a JSON object of at most 65536 bytes, in state executing, that agrees with it
      in eight fields and whose canonical request has the bundle's parameters. */
  predicate IsBoundTo(d: Value, record: Value, request: Value) {
    && record.VObject? && GetString(d, "canonical_record").Some?
    && ByteLength(GetString(d, "canonical_record").value) <= 65536
    && Loads(GetString(d, "canonical_record").value) == Some(record)
    && Agrees(record, d, "request_id") && Agrees(record, d, "request_digest") && Agrees(record, d, "operation")
    && Agrees(record, d, "repository_id") && Agrees(record, d, "repository_full_name") && Agrees(record, d, "issue_id")
    && Agrees(record, d, "issue_number") && Agrees(record, d, "execution_id")
    && GetString(record, "state") == Some("executing") && GetString(record, "canonical_request").Some?
    && Loads(GetString(record, "canonical_request").value) == Some(request)
    && Get(request, "parameters").Some? && AsNumbers(Get(request, "parameters").value) == AsNumbers(GetOrNull(d, "parameters"))
  }

  lemma BoundFieldsAre()
    ensures |BOUND_FIELDS| == 8 && BOUND_FIELDS[0] == "request_id" && BOUND_FIELDS[1] == "request_digest"
    ensures BOUND_FIELDS[2] == "operation" && BOUND_FIELDS[3] == "repository_id" && BOUND_FIELDS[4] == "repository_full_name"
    ensures BOUND_FIELDS[5] == "issue_id" && BOUND_FIELDS[6] == "issue_number" && BOUND_FIELDS[7] == "execution_id"
  {
  }

  lemma FieldsAgree(record: Value, d: Value)
    ensures (forall i | 0 <= i < |BOUND_FIELDS| ::
               Same(GetOrNull(record, BOUND_FIELDS[i]), GetOrNull(d, BOUND_FIELDS[i])))
            <==> && Agrees(record, d, "request_id") && Agrees(record, d, "request_digest") && Agrees(record, d, "operation")
                 && Agrees(record, d, "repository_id") && Agrees(record, d, "repository_full_name")
                 && Agrees(record, d, "issue_id") && Agrees(record, d, "issue_number") && Agrees(record, d, "execution_id")
  {
    BoundFieldsAre();
    hide Same, AsNumbers, GetOrNull, BOUND_FIELDS;
    forall i | 0 <= i < |BOUND_FIELDS|
      ensures Same(GetOrNull(record, BOUND_FIELDS[i]), GetOrNull(d, BOUND_FIELDS[i])) <==> Agrees(record, d, BOUND_FIELDS[i])
    {
      SameIsEqualAsNumbers(GetOrNull(record, BOUND_FIELDS[i]), GetOrNull(d, BOUND_FIELDS[i]));
    }
    hide Agrees;
    assert (forall i | 0 <= i < |BOUND_FIELDS| :: Agrees(record, d, BOUND_FIELDS[i]))
           ==> && Agrees(record, d, BOUND_FIELDS[0]) && Agrees(record, d, BOUND_FIELDS[1]) && Agrees(record, d, BOUND_FIELDS[2])
               && Agrees(record, d, BOUND_FIELDS[3]) && Agrees(record, d, BOUND_FIELDS[4]) && Agrees(record, d, BOUND_FIELDS[5])
               && Agrees(record, d, BOUND_FIELDS[6]) && Agrees(record, d, BOUND_FIELDS[7]);
  }

  lemma RecordBoundMeans(d: Value)
    ensures RecordBound(d) <==> exists record, request :: IsBoundTo(d, record, request)
  {
    hide Loads, Find, Same, AsNumbers, ByteLength, BOUND_FIELDS;
    if GetString(d, "canonical_record").Some? {
      var content := GetString(d, "canonical_record").value;
      if Loads(content).Some? {
        var record := Loads(content).value;
        FieldsAgree(record, d);
        SameIsEqualAsNumbers(GetOrNull(record, "request_id"), GetOrNull(d, "request_id"));
        if GetString(record, "canonical_request").Some? && Loads(GetString(record, "canonical_request").value).Some? {
          var request := Loads(GetString(record, "canonical_request").value).value;
          if Get(request, "parameters").Some? {
            SameIsEqualAsNumbers(Get(request, "parameters").value, GetOrNull(d, "parameters"));
          }
          hide Agrees;
          assert RecordBound(d) ==> IsBoundTo(d, record, request);
          assert IsBoundTo(d, record, request) ==> RecordBound(d);
        }
      }
    }
  }

  /** A publication is of a ledger bundle bound to its record, on a task branch of the governance
      repository, from the base the bundle's parameters name, and of an artifact with its digests. */
  lemma LedgerPublicationMeans(d: Value, p: Value)
    ensures LedgerPublication(d, p) <==>
              && RecordBound(d) && GetString(d, "operation") == Some("governance.ledger")
              && HasKeys(p, {"repository_id", "repository_full_name", "branch", "base_sha", "tree_sha", "commit_sha",
                             "artifact_reference"})
              && Get(p, "repository_id") == Some(VInt(1260920764))
              && GetString(p, "repository_full_name") == Some("shockerqt/workspace-governance")
              && IsText(p, "branch") && TaskBranch(GetString(p, "branch").value)
              && IsText(p, "base_sha") && IsHexText(GetString(p, "base_sha").value, 40)
              && IsText(p, "tree_sha") && IsHexText(GetString(p, "tree_sha").value, 40)
              && IsText(p, "commit_sha") && IsHexText(GetString(p, "commit_sha").value, 40)
              && Get(d, "parameters").Some? && Get(Get(d, "parameters").value, "base_sha") == Get(p, "base_sha")
              && Get(p, "artifact_reference").Some? && IsArtifact(Get(p, "artifact_reference").value)
  {
    hide RecordBound, Find, HasKeys, TaskBranch, LowerHex, IsHexText, ArtifactOk, IsArtifact;
    ArtifactMeans(GetOrNull(p, "artifact_reference"));
    if IsText(p, "base_sha") { FieldTextsMean(GetString(p, "base_sha").value, 40); }
    if IsText(p, "tree_sha") { FieldTextsMean(GetString(p, "tree_sha").value, 40); }
    if IsText(p, "commit_sha") { FieldTextsMean(GetString(p, "commit_sha").value, 40); }
  }

  predicate IsArtifact(r: Value) {
    && HasKeys(r, {"repository_id", "repository_full_name", "run_id", "run_attempt", "artifact_id", "archive_sha256",
                   "content_sha256"})
    && IsPositive(r, "repository_id") && IsPositive(r, "run_id") && IsPositive(r, "run_attempt") && IsPositive(r, "artifact_id")
    && IsText(r, "repository_full_name") && RepositoryName(GetString(r, "repository_full_name").value)
    && IsText(r, "archive_sha256") && IsHexText(GetString(r, "archive_sha256").value, 64)
    && IsText(r, "content_sha256") && IsHexText(GetString(r, "content_sha256").value, 64)
  }

  lemma ArtifactMeans(r: Value)
    ensures ArtifactOk(r) <==> IsArtifact(r)
    ensures !ArtifactOk(VNull)
  {
    hide Find, RepositoryName, LowerHex, IsHexText;
    if IsText(r, "archive_sha256") { FieldTextsMean(GetString(r, "archive_sha256").value, 64); }
    if IsText(r, "content_sha256") { FieldTextsMean(GetString(r, "content_sha256").value, 64); }
  }

  /** A parsed Publisher envelope passes exactly when it is of its kind and version, names the marker's
      request and the execution asked for and, for a bundle, carries one that is well formed, bound to its
      record and to the marker's revisions, with an allowed disposition or a valid publication. */
  lemma PublisherFaultFreeExactly(k: Kind, e: Value, execution: string, fs: seq<string>)
    requires PublisherFields(k, fs)
    ensures PublisherFault(k, e, execution, fs).None? <==>
              && e.VObject? && GetString(e, "kind") == Some("actions.publisher." + NameOf(k))
              && if k.IntentKind? then
                   && HasKeys(e, {"schema_version", "kind", "request_id", "request_digest", "operation", "repository_id",
                                  "repository_full_name", "issue_id", "issue_number", "execution_id",
                                  "accepted_revision", "policy_revision"})
                   && AsNumbers(GetOrNull(e, "schema_version")) == VInt(1)
                   && GetString(e, "request_id") == Some(fs[0]) && GetString(e, "request_digest") == Some(fs[1])
                   && GetString(e, "execution_id") == Some(execution) && IsText(e, "operation")
                   && IsText(e, "accepted_revision") && IsHexText(GetString(e, "accepted_revision").value, 40)
                   && IsText(e, "policy_revision") && IsHexText(GetString(e, "policy_revision").value, 40)
                 else
                   && HasKeys(e, {"schema_version", "kind", "bundle",
                                  if k.PrepareKind? then "disposition" else "publication"})
                   && Get(e, "schema_version") == Some(VInt(1))
                   && (k.PrepareKind? ==> || GetString(e, "disposition") == Some("granted")
                                          || GetString(e, "disposition") == Some("reconciliation_required"))
                   && Get(e, "bundle").Some?
                   && var bundle := Get(e, "bundle").value;
                      && BundleDict(bundle) && RecordBound(bundle)
                      && (!k.PrepareKind? ==> LedgerPublication(bundle, GetOrNull(e, "publication")))
                      && GetString(bundle, "request_id") == Some(fs[0])
                      && GetString(bundle, "request_digest") == Some(fs[1])
                      && GetString(bundle, "execution_id") == Some(execution)
                      && GetString(bundle, "accepted_revision") == Some(fs[3])
                      && GetString(bundle, "claim_revision") == Some(fs[4])
  {
    SameIsEqualAsNumbers(GetOrNull(e, "schema_version"), VInt(1));
    NumbersStay(1);
    hide Find, HasKeys, Same, AsNumbers, LowerHex, IsHexText, BundleDict, RecordBound, LedgerPublication;
    if IsText(e, "accepted_revision") { FieldTextsMean(GetString(e, "accepted_revision").value, 40); }
    if IsText(e, "policy_revision") { FieldTextsMean(GetString(e, "policy_revision").value, 40); }
    assert "actions.publisher." + "intent" == "actions.publisher.intent";
  }

  // ----- what is passed over

  /** A formatted Publisher comment whose JSON is free of the prefix is read as follows: passed over for
      another request, passed over for another execution, unless the two execution ids have one digest,
      and given back for its own. */
  lemma OthersArePassedOver(k: Kind, e: Value, execution: string, request: Option<string>)
    requires WellFormedPublisher(k, e) && FormatPublisher(k, e).Ok? && !Contains(Pretty(e, 0), PublisherPrefix(k))
    requires ExecutionId(execution)
    ensures var parsed := ParsePublisher(FormatPublisher(k, e).value, k, execution, request);
            var id, own := MarkerFields(k, e).value[0], ExecutionOf(k, e).value;
            && (request.Some? && request.value != id ==> parsed == Ok(None))
            && (DigestOf(execution) != DigestOf(own) ==> parsed == Ok(None))
            && ((request.None? || request.value == id) && execution == own ==> parsed == Ok(Some(e)))
  {
    hide DigestOf, BundleDict, LedgerPublication, RecordBound, Same, Loads, Ordered, PublicationEnvelope,
         FieldStrings, INTENT_LABELS, Count, Shaped, ByteLength, PublisherFault, Pretty, ReadFields, MarkerText, Free,
         Calm, KindName, ExecutionId;
    var fs := MarkerFields(k, e).value;
    PublisherConstants(k);
    LabelsAreFree(k);
    PublisherFieldsAreFree(k, fs);
    PrettyIsCalm(e, 0);
    LoadsPretty(e);
    FormattedShape(PublisherPrefix(k), fs, PublisherLabels(k), Pretty(e, 0));
  }

  /** A formatted receipt whose JSON is free of the prefix is passed over for another request, and refused
      for its own under another digest, operation or revision. */
  lemma OtherReceiptsArePassedOver(e: Value, b: Binding)
    requires WellFormedReceipt(e) && FormatReceipt(e).Ok? && !Contains(Pretty(e, 0), RECEIPT)
    ensures var parsed := ParseReceipt(FormatReceipt(e).value, b);
            var own := OwnBinding(FieldStrings(e, RECEIPT_NAMES).value);
            if b.requestId != own.requestId then parsed == Ok(None)
            else if b.digest != own.digest || b.operation != own.operation then parsed == Err(BindingMismatch)
            else if (b.accepted.Some? && b.accepted != own.accepted) || (b.claim.Some? && b.claim != own.claim)
            then parsed == Err(RevisionMismatch)
            else parsed == Ok(Some(e))
  {
    hide Pretty, ReadFields, MarkerText, ByteLength, Count, Split, Join, ReceiptFault, Calm, Free, Loads, Ordered;
    var fs := FieldStrings(e, RECEIPT_NAMES).value;
    ReceiptFieldsAreFree(fs);
    ReceiptConstants();
    PrettyIsCalm(e, 0);
    LoadsPretty(e);
    FormattedShape(RECEIPT, fs, RECEIPT_LABELS, Pretty(e, 0));
    var own := OwnBinding(fs);
    if b.requestId == own.requestId && b.digest == own.digest && b.operation == own.operation
       && (b.accepted.Some? ==> b.accepted == own.accepted) && (b.claim.Some? ==> b.claim == own.claim)
    {
      FaultsAlike(e, own, b, fs);
    }
  }

  /** The faults found do not depend on which of the agreeing revisions were asked for. */
  lemma FaultsAlike(e: Value, own: Binding, b: Binding, fs: seq<string>)
    requires |fs| == 5 && own == OwnBinding(fs) && ReceiptFault(e, own, fs).None?
    requires b.requestId == own.requestId && b.digest == own.digest && b.operation == own.operation
    requires (b.accepted.Some? ==> b.accepted == own.accepted) && (b.claim.Some? ==> b.claim == own.claim)
    ensures ReceiptFault(e, b, fs).None?
  {
    hide Find, HandoffOk;
  }
}
