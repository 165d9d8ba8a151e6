/** Reading the fields of a JSON envelope, and the checks on the execution bundle and the ledger
    publication that Publisher comments carry (scripts/actions_request_handler.py). */
module Envelopes {
  import opened Common
  import opened Text
  import opened CommentFraming
  import opened CommentJson
  import Sha256

  // ----- the character classes of the marker expressions

  predicate WordChar(c: char) {
    'a' <= c <= 'z' || 'A' <= c <= 'Z' || '0' <= c <= '9' || c == '_' || c == '-'
  }

  predicate IdChar(c: char) {
    WordChar(c) || c == '.' || c == ':'
  }

  predicate OperationChar(c: char) {
    'a' <= c <= 'z' || '0' <= c <= '9' || c == '_' || c == '.' || c == '-'
  }

  predicate LowerHexChar(c: char) {
    '0' <= c <= '9' || 'a' <= c <= 'f'
  }

  predicate AllChars(s: string, test: char -> bool) {
    forall i | 0 <= i < |s| :: test(s[i])
  }

  predicate LowerHex(s: string, length: nat) {
    |s| == length && AllChars(s, LowerHexChar)
  }

  predicate ExecutionId(s: string) {
    1 <= |s| <= 128 && AllChars(s, IdChar)
  }

  function Get(v: Value, name: string): Option<Value> {
    if v.VObject? then Find(v.members, name) else None
  }

  function Find(ms: seq<Member>, name: string): Option<Value> {
    if ms == [] then None else if ms[0].name == name then Some(ms[0].value) else Find(ms[1..], name)
  }

  function GetString(v: Value, name: string): Option<string> {
    match Get(v, name)
    case Some(VString(s)) => Some(s)
    case _ => None
  }

  predicate HasKeys(v: Value, names: set<string>) {
    v.VObject? && (set m | m in v.members :: m.name) == names
  }

  // ----- Python's equality

  /** Booleans count as the numbers zero and one. */
  function NumberOf(v: Value): Option<int> {
    match v
    case VInt(n) => Some(n)
    case VBool(flag) => Some(if flag then 1 else 0)
    case _ => None
  }

  predicate Same(v: Value, w: Value)
    decreases v
  {
    match v
    case VInt(_) => NumberOf(v) == NumberOf(w)
    case VBool(_) => NumberOf(v) == NumberOf(w)
    case VList(items) => w.VList? && |items| == |w.items| && forall i | 0 <= i < |items| :: Same(items[i], w.items[i])
    case VObject(ms) => w.VObject? && |ms| == |w.members| && forall i | 0 <= i < |ms| :: SameMember(ms[i], w.members[i])
    case _ => v == w
  }

  predicate SameMember(m: Member, n: Member)
    decreases m
  {
    m.name == n.name && Same(m.value, n.value)
  }

  /** Python's `v.get(name)`: a missing field is `None`, which a JSON null is read as, too. */
  function GetOrNull(v: Value, name: string): Value {
    match Get(v, name) case Some(w) => w case None => VNull
  }

  predicate Positive(v: Value, name: string) {
    match Get(v, name)
    case Some(VInt(n)) => n > 0
    case _ => false
  }

  predicate IsString(v: Value, name: string, test: string -> bool) {
    match GetString(v, name)
    case Some(s) => test(s)
    case None => false
  }

  // ----- execution bundles

  const BUNDLE_KEYS := {
    "schema_version", "kind", "request_id", "request_digest", "operation", "repository_id", "repository_full_name",
    "issue_id", "issue_number", "execution_id", "canonical_record", "accepted_revision", "claim_revision", "parameters"}

  predicate RequestId(s: string) {
    8 <= |s| <= 128 && AllChars(s, WordChar)
  }

  /** A dictionary that `ExecutionBundle.from_dict` accepts. */
  predicate BundleDict(d: Value) {
    && HasKeys(d, BUNDLE_KEYS) && Same(GetOrNull(d, "schema_version"), VInt(1))
    && GetString(d, "kind") == Some("actions.execution.bundle")
    && IsString(d, "request_id", RequestId) && IsString(d, "request_digest", s => LowerHex(s, 64))
    && Positive(d, "repository_id") && IsString(d, "repository_full_name", s => '/' in s)
    && Positive(d, "issue_id") && Positive(d, "issue_number")
    && IsString(d, "execution_id", ExecutionId) && GetString(d, "canonical_record").Some?
    && IsString(d, "accepted_revision", s => LowerHex(s, 40)) && IsString(d, "claim_revision", s => LowerHex(s, 40))
    && GetOrNull(d, "parameters").VObject?
  }

  const MAX_RECORD_BYTES := 65536

  function ParseRecord(content: string, requestId: Value): Option<Value> {
    if ByteLength(content) > MAX_RECORD_BYTES then None
    else match Loads(content)
      case Some(VObject(ms)) => if Same(GetOrNull(VObject(ms), "request_id"), requestId) then Some(VObject(ms)) else None
      case _ => None
  }

  const BOUND_FIELDS := [
    "request_id", "request_digest", "operation", "repository_id", "repository_full_name", "issue_id", "issue_number",
    "execution_id"]

  /** The parameters of the canonical request that a record holds. */
  function RequestParameters(record: Value): Option<Value> {
    match GetString(record, "canonical_request")
    case None => None
    case Some(text) => match Loads(text) case None => None case Some(request) => Get(request, "parameters")
  }

  /** The bundle is bound to the record it carries: identity, execution and parameters. */
  predicate RecordBound(d: Value) {
    match GetString(d, "canonical_record")
    case None => false
    case Some(content) =>
      match ParseRecord(content, GetOrNull(d, "request_id"))
      case None => false
      case Some(record) =>
        && (forall i | 0 <= i < |BOUND_FIELDS| :: Same(GetOrNull(record, BOUND_FIELDS[i]), GetOrNull(d, BOUND_FIELDS[i])))
        && GetString(record, "state") == Some("executing")
        && RequestParameters(record).Some? && Same(RequestParameters(record).value, GetOrNull(d, "parameters"))
  }

  // ----- ledger publications

  predicate UpperOrDigit(c: char) {
    'A' <= c <= 'Z' || '0' <= c <= '9'
  }

  predicate LowerOrDigit(c: char) {
    'a' <= c <= 'z' || '0' <= c <= '9'
  }

  /** A task branch: `task/`, the task id and at least one lower-case word, joined by hyphens. */
  predicate TaskBranch(s: string) {
    && |s| >= 5 && s[..5] == "task/"
    && var parts := Split(s[5..], '-');
       && |parts| >= 3
       && parts[0] != "" && 'A' <= parts[0][0] <= 'Z' && AllChars(parts[0], UpperOrDigit)
       && |parts[1]| == 3 && AllChars(parts[1], c => '0' <= c <= '9')
       && forall i | 2 <= i < |parts| :: parts[i] != "" && AllChars(parts[i], LowerOrDigit)
  }

  predicate OwnerChar(c: char) {
    'a' <= c <= 'z' || 'A' <= c <= 'Z' || '0' <= c <= '9' || c == '-'
  }

  predicate RepositoryName(s: string) {
    var parts := Split(s, '/');
    && |parts| == 2
    && parts[0] != "" && parts[0][0] != '-' && AllChars(parts[0], OwnerChar)
    && parts[1] != "" && parts[1][0] != '.' && parts[1][0] != '-' && AllChars(parts[1], c => WordChar(c) || c == '.')
  }

  const PUBLICATION_KEYS := {
    "repository_id", "repository_full_name", "branch", "base_sha", "tree_sha", "commit_sha", "artifact_reference"}
  const ARTIFACT_KEYS := {
    "repository_id", "repository_full_name", "run_id", "run_attempt", "artifact_id", "archive_sha256", "content_sha256"}

  predicate ArtifactOk(r: Value) {
    && HasKeys(r, ARTIFACT_KEYS)
    && Positive(r, "repository_id") && Positive(r, "run_id") && Positive(r, "run_attempt") && Positive(r, "artifact_id")
    && IsString(r, "repository_full_name", RepositoryName)
    && IsString(r, "archive_sha256", s => LowerHex(s, 64)) && IsString(r, "content_sha256", s => LowerHex(s, 64))
  }

  /** A publication that the bundle may record: on a task branch of the governance repository,
      from the base its parameters name. */
  predicate LedgerPublication(d: Value, p: Value) {
    && RecordBound(d) && GetString(d, "operation") == Some("governance.ledger")
    && HasKeys(p, PUBLICATION_KEYS) && Get(p, "repository_id") == Some(VInt(1260920764))
    && GetString(p, "repository_full_name") == Some("shockerqt/workspace-governance")
    && IsString(p, "branch", TaskBranch)
    && IsString(p, "base_sha", s => LowerHex(s, 40)) && IsString(p, "tree_sha", s => LowerHex(s, 40))
    && IsString(p, "commit_sha", s => LowerHex(s, 40))
    && GetOrNull(p, "base_sha") == GetOrNull(GetOrNull(d, "parameters"), "base_sha")
    && ArtifactOk(GetOrNull(p, "artifact_reference"))
  }

  // ----- the digest of an execution id

  function DigestOf(execution: string): string {
    TextOf(Sha256.HexText(Sha256.Digest(BytesOf(execution))))
  }

  lemma DigestIsHex(execution: string)
    ensures LowerHex(DigestOf(execution), 64)
  {
    hide BytesOf;
    var t := Sha256.HexText(Sha256.Digest(BytesOf(execution)));
    forall i | 0 <= i < |t| ensures LowerHexChar(TextOf(t)[i]) {
      assert 0x30 <= t[i] <= 0x39 || 0x61 <= t[i] <= 0x66;
    }
  }
}
