/** The Publisher as a step system over the journal, the Issue's authenticated comments and
    the task branch (scripts/actions_request_handler.py, scripts/actions_ledger_publication.py).
    Any number of prepare and finalize runs, for any requests, are in progress at once and
    each may stop after any step. A comment POST or a ref PATCH takes effect when the server
    applies it, which may be after its sender has given up, or never. */
module PublisherProtocol {
  import opened Common
  import opened JournalRecord
  import opened JournalProtocol
  import opened Markers
  import opened Text
  import Decimal

  type ProcId = nat

  // ----- what is exchanged

  datatype Identity = Identity(
    requestId: string, requestDigest: string, operation: string, repositoryId: nat,
    repositoryFullName: string, issueId: nat, issueNumber: nat)

  datatype Intent = Intent(identity: Identity, executionId: string, acceptedRevision: Sha, policyRevision: string)

  datatype Bundle = Bundle(
    identity: Identity, executionId: string, canonicalRecord: Record, acceptedRevision: Sha, claimRevision: Sha)

  datatype Artifact = Artifact(runId: nat, runAttempt: nat, artifactId: nat, archiveSha256: string, contentSha256: string)

  datatype Publication = Publication(branch: string, base: Sha, tree: Sha, commit: Sha, artifact: Artifact)

  datatype Handoff = Handoff(runId: nat, runAttempt: nat, contentSha256: string)

  datatype Verdict = CandidateReady(handoff: Handoff) | Final(state: State, code: string)

  datatype Receipt = Receipt(identity: Identity, acceptedRevision: Sha, claimRevision: Sha, verdict: Verdict)

  /** A comment: by the Publisher App, by the Control App, or by anybody else on an Issue. */
  datatype Body =
    | IntentBody(intent: Intent)
    | PrepareBody(bundle: Bundle, disposition: Disposition)
    | PublicationBody(bundle: Bundle, publication: Publication)
    | PublishedBody(bundle: Bundle, publication: Publication)
    | ReceiptBody(receipt: Receipt)
    | OtherBody(repository: string, issue: nat)

  /** What a Publisher comment is searched by: its kind, the Issue it is on, and the request
      and execution its marker names. */
  datatype Key = Key(kind: Kind, repository: string, issue: nat, requestId: string, executionId: string)

  function KeyOf(body: Body): Option<Key> {
    match body
    case IntentBody(i) => Some(IntentKey(i.identity, i.executionId))
    case PrepareBody(b, _) => Some(BundleKey(PrepareKind, b))
    case PublicationBody(b, _) => Some(BundleKey(PublicationKind, b))
    case PublishedBody(b, _) => Some(BundleKey(PublishedKind, b))
    case _ => None
  }

  function IntentKey(identity: Identity, executionId: string): Key {
    Key(IntentKind, identity.repositoryFullName, identity.issueNumber, identity.requestId, executionId)
  }

  function BundleKey(kind: Kind, b: Bundle): Key {
    Key(kind, b.identity.repositoryFullName, b.identity.issueNumber, b.identity.requestId, b.executionId)
  }

  function IssueOf(body: Body): (string, nat) {
    match body
    case IntentBody(i) => (i.identity.repositoryFullName, i.identity.issueNumber)
    case PrepareBody(b, _) => (b.identity.repositoryFullName, b.identity.issueNumber)
    case PublicationBody(b, _) => (b.identity.repositoryFullName, b.identity.issueNumber)
    case PublishedBody(b, _) => (b.identity.repositoryFullName, b.identity.issueNumber)
    case ReceiptBody(r) => (r.identity.repositoryFullName, r.identity.issueNumber)
    case OtherBody(repository, issue) => (repository, issue)
  }

  // ----- scans: positions in the log, which stand for comment ids

  function Matches(log: seq<Body>, key: Key): (ms: seq<nat>)
    ensures forall m | m in ms :: m < |log| && KeyOf(log[m]) == Some(key)
  {
    if log == [] then []
    else
      var rest := Matches(log[..|log| - 1], key);
      if KeyOf(log[|log| - 1]) == Some(key) then rest + [|log| - 1] else rest
  }

  function ReceiptMatches(log: seq<Body>, b: Bundle): (ms: seq<nat>)
    ensures forall m | m in ms :: m < |log| && log[m].ReceiptBody?
              && log[m].receipt == Receipt(b.identity, b.acceptedRevision, b.claimRevision, log[m].receipt.verdict)
  {
    if log == [] then []
    else
      var rest := ReceiptMatches(log[..|log| - 1], b);
      var last := log[|log| - 1];
      if last.ReceiptBody? && last.receipt.identity == b.identity
         && last.receipt.acceptedRevision == b.acceptedRevision && last.receipt.claimRevision == b.claimRevision
      then rest + [|log| - 1] else rest
  }

  function CountOnIssue(log: seq<Body>, issue: (string, nat)): nat {
    if log == [] then 0
    else CountOnIssue(log[..|log| - 1], issue) + if IssueOf(log[|log| - 1]) == issue then 1 else 0
  }

  /** A scan reads at most ten pages of a hundred and fails on a tenth full page. */
  const SCAN_LIMIT := 1000

  predicate Countable(log: seq<Body>, issue: (string, nat)) {
    CountOnIssue(log, issue) < SCAN_LIMIT
  }

  /** The canonical request in the record of the bundle that a comment carries. */
  function RequestText(body: Body): Option<string> {
    match body
    case PrepareBody(b, _) => Some(b.canonicalRecord.frozen.canonicalRequest)
    case PublicationBody(b, _) => Some(b.canonicalRecord.frozen.canonicalRequest)
    case PublishedBody(b, _) => Some(b.canonicalRecord.frozen.canonicalRequest)
    case _ => None
  }

  /** Parsing the comment as one of the kind raises, whichever request is asked for: the prefix
      that the kind is recognized by stands in the request text. */
  predicate Clogs(body: Body, kind: Kind) {
    RequestText(body).Some? && Contains(RequestText(body).value, PublisherPrefix(kind))
  }

  predicate Readable(log: seq<Body>, kind: Kind, issue: (string, nat)) {
    forall body | body in log && IssueOf(body) == issue :: !Clogs(body, kind)
  }

  /** A scan for a kind reads every Publisher comment of the Issue as one of that kind. */
  predicate Scannable(log: seq<Body>, key: Key) {
    var issue := (key.repository, key.issue);
    Countable(log, issue) && Readable(log, key.kind, issue)
  }

  predicate Unique(log: seq<Body>, key: Key, id: nat) {
    Scannable(log, key) && id < |log| && Matches(log, key) == [id]
  }

  function Reference(identity: Identity, id: nat): string {
    "https://github.com/" + identity.repositoryFullName + "/issues/" + Decimal.Text(identity.issueNumber)
    + "#issuecomment-" + Decimal.Text(id + 1)
  }

  // ----- binding a bundle to the journal

  function IdentityOf(f: Frozen): Identity {
    Identity(f.requestId, f.requestDigest, f.operation, f.repositoryId, f.repositoryFullName, f.issueId, f.issueNumber)
  }

  predicate ValidBundle(b: Bundle) {
    && b.identity == IdentityOf(b.canonicalRecord.frozen)
    && b.canonicalRecord.executionId == Some(b.executionId)
    && b.canonicalRecord.state.Executing?
  }

  /** The record with everything execution adds taken away. */
  function Reset(r: Record): Record {
    NewRecord(r.frozen)
  }

  function RecordIn(store: map<Sha, Commit>, c: Sha, q: RequestId): Option<Record> {
    if c in store then Lookup(store[c].tree, q) else None
  }

  /** The read-only check shared by finalization and the published-receipt reader. */
  predicate VerifyBundle(j: Journal, b: Bundle, head: Sha, current: Record) {
    && ValidBundle(b)
    && current.frozen == b.canonicalRecord.frozen && current.executionId == b.canonicalRecord.executionId
    && Ancestor(j.store, b.acceptedRevision, b.claimRevision)
    && Ancestor(j.store, b.claimRevision, head)
    && RecordIn(j.store, b.claimRevision, b.identity.requestId) == Some(b.canonicalRecord)
    && RecordIn(j.store, b.acceptedRevision, b.identity.requestId)
       == Some(b.canonicalRecord.(state := Accepted, executionId := None, terminalCode := None, terminalReference := None))
  }

  function BundleFrom(r: Record, executionId: string, acceptedRevision: Sha, claimRevision: Sha): Bundle {
    Bundle(IdentityOf(r.frozen), executionId, r, acceptedRevision, claimRevision)
  }

  function IntentFrom(r: Record, executionId: string, acceptedRevision: Sha): Intent {
    Intent(IdentityOf(r.frozen), executionId, acceptedRevision, r.frozen.policyRevision)
  }

  /** The intent names this record's acceptance, and the journal held it there. */
  predicate IntentMatches(j: Journal, i: Intent, current: Record) {
    && i.identity == IdentityOf(current.frozen) && i.policyRevision == current.frozen.policyRevision
    && RecordIn(j.store, i.acceptedRevision, i.identity.requestId) == Some(Reset(current))
  }

  // ----- processes

  datatype TerminalResult = TerminalResult(state: State, code: string, reference: string)

  /** What a comment is being ensured for, and so what happens once it is there. */
  datatype Goal =
    | IntentGoal(intent: Intent)
    | PrepareGoal(bundle: Bundle, disposition: Disposition)
    | PublicationGoal(bundle: Bundle, ambiguous: bool, handoff: Handoff, publication: Publication)
    | PublishedGoal(bundle: Bundle, ambiguous: bool, publication: Publication, replayed: bool)

  datatype Proc =
    // prepare
    | Accepting(executionId: string, frozen: Frozen, durable: bool, w: WorkerId)
    | Ensuring(goal: Goal, posted: bool)
    | FindingIntent(executionId: string, record: Record)
    | ReadyToClaim(intent: Intent)
    | Claiming(intent: Intent, w: WorkerId)
    | ClaimingDirectly(executionId: string, requestId: RequestId, acceptedRevision: Sha, w: WorkerId)
    | Resuming(intent: Intent, record: Record, revision: Sha)
    | Prepared(bundle: Bundle, durable: bool)
    | AlreadyFinished(record: Record, revision: Sha)
    // finalize; `ambiguous` is whether the record was ambiguous when it was loaded
    | Finalizing(bundle: Bundle)
    | Bound(bundle: Bundle, ambiguous: bool)
    | Recovering(bundle: Bundle, ambiguous: bool, handoff: Handoff)
    | Found(bundle: Bundle, ambiguous: bool, handoff: Handoff, publication: Publication, id: nat)
    | Building(bundle: Bundle, ambiguous: bool, handoff: Handoff)
    | Based(bundle: Bundle, ambiguous: bool, handoff: Handoff, branch: string, base: Sha)
    | Confirming(bundle: Bundle, ambiguous: bool, handoff: Handoff, publication: Publication, id: nat)
    | Checkpointed(bundle: Bundle, ambiguous: bool, handoff: Handoff, publication: Publication, id: nat)
    | Reloaded(bundle: Bundle, ambiguous: bool, handoff: Handoff, publication: Publication, id: nat)
    | Publishing(bundle: Bundle, ambiguous: bool, handoff: Handoff, publication: Publication, id: nat)
    | ReadingBack(bundle: Bundle, ambiguous: bool, handoff: Handoff, publication: Publication, id: nat)
    | Proven(bundle: Bundle, ambiguous: bool, handoff: Handoff, publication: Publication, id: nat, replayed: bool)
    | ConfirmingPublished(bundle: Bundle, ambiguous: bool, publication: Publication, replayed: bool, id: nat)
    | Concluding(bundle: Bundle, ambiguous: bool, result: TerminalResult, effect: Option<Publication>)
    | Terminalizing(bundle: Bundle, ambiguous: bool, result: TerminalResult, effect: Option<Publication>, w: WorkerId)
    | Finalized(bundle: Bundle, result: TerminalResult, effect: Option<Publication>)
    | Stopped

  datatype TaskCommit = TaskCommit(parents: seq<Sha>, tree: Sha)

  /** `posts` are comment POSTs not yet applied, `taskPatches` the task-ref PATCHes sent (one
      at most per process), `taskHeads` every value each task branch has had, `taskWriters` the
      processes that wrote Git objects or asked a task ref to move, `readBacks` the effects read
      back from the remote, and `confirmed` the published comments found to be the only ones. */
  datatype World = World(
    journal: Journal, log: seq<Body>, posts: multiset<Body>,
    taskCommits: map<Sha, TaskCommit>, taskHeads: map<string, seq<Sha>>,
    taskPatches: map<ProcId, (Bundle, Publication)>, taskWriters: set<ProcId>,
    readBacks: set<Publication>, confirmed: set<(Bundle, Publication, nat)>,
    procs: map<ProcId, Proc>)

  function BodyFor(g: Goal): Body {
    match g
    case IntentGoal(i) => IntentBody(i)
    case PrepareGoal(b, d) => PrepareBody(b, d)
    case PublicationGoal(b, _, _, p) => PublicationBody(b, p)
    case PublishedGoal(b, _, p, _) => PublishedBody(b, p)
  }

  function GoalKey(g: Goal): Key {
    match g
    case IntentGoal(i) => IntentKey(i.identity, i.executionId)
    case PrepareGoal(b, _) => BundleKey(PrepareKind, b)
    case PublicationGoal(b, _, _, _) => BundleKey(PublicationKind, b)
    case PublishedGoal(b, _, _, _) => BundleKey(PublishedKind, b)
  }

  function Achieved(g: Goal, id: nat): Proc {
    match g
    case IntentGoal(i) => ReadyToClaim(i)
    case PrepareGoal(b, _) => Prepared(b, true)
    case PublicationGoal(b, ambiguous, h, p) => Confirming(b, ambiguous, h, p, id)
    case PublishedGoal(b, ambiguous, p, replayed) => ConfirmingPublished(b, ambiguous, p, replayed, id)
  }

  /** Before a publication is recorded, its own comment is parsed once. */
  predicate Detached(g: Goal) {
    g.PublicationGoal? ==> !Clogs(BodyFor(g), PublicationKind)
  }

  function TaskHead(s: World, branch: string): Option<Sha> {
    if branch in s.taskHeads && s.taskHeads[branch] != []
    then Some(s.taskHeads[branch][|s.taskHeads[branch]| - 1]) else None
  }

  function CodeFor(p: Publication): string {
    if p.commit == p.base then "ledger_no_change" else "ledger_published"
  }

  predicate Linked(p: Publication, h: Handoff) {
    p.artifact.runId == h.runId && p.artifact.runAttempt == h.runAttempt && p.artifact.contentSha256 == h.contentSha256
  }

  /** The recorded effect is what the remote shows: the commit object and the branch head. */
  predicate ReadsBack(s: World, p: Publication) {
    && p.commit in s.taskCommits && s.taskCommits[p.commit].tree == p.tree
    && (p.commit != p.base ==> s.taskCommits[p.commit].parents == [p.base])
    && TaskHead(s, p.branch) == Some(p.commit)
  }

  // ----- steps

  datatype Step =
    // the environment
    | JournalStep(l: Label)
    | Comment(body: Body)
    | PostLands(body: Body)
    | BranchMoves(branch: string, sha: Sha)
    | TaskPatchLands(p: ProcId)
    // both phases
    | FindComment(p: ProcId, id: nat)
    | PostComment(p: ProcId)
    | AckComment(p: ProcId, id: nat)
    | Stop(p: ProcId)
    // prepare
    | StartPrepare(p: ProcId, w: WorkerId, frozen: Frozen, executionId: string, durable: bool)
    | TakeAcceptance(p: ProcId, w: WorkerId)
    | FindIntent(p: ProcId, id: nat)
    | StartClaim(p: ProcId, w: WorkerId)
    | TakeClaim(p: ProcId)
    | FindCheckpoint(p: ProcId, id: nat)
    | RebuildBundle(p: ProcId)
    // finalize
    | StartFinalize(p: ProcId, bundle: Bundle)
    | BindBundle(p: ProcId)
    | TakeReceipt(p: ProcId, id: nat)
    | Recover(p: ProcId, id: nat)
    | ReadRecovered(p: ProcId)
    | NothingToRecover(p: ProcId)
    | ReadBase(p: ProcId, branch: string, base: Sha)
    | Build(p: ProcId, publication: Publication)
    | Confirm(p: ProcId)
    | ReloadCheckpoint(p: ProcId, id: nat)
    | ReadTaskHead(p: ProcId)
    | SendTaskPatch(p: ProcId)
    | ReadTaskBack(p: ProcId)
    | CheckResult(p: ProcId)
    | ConfirmPublished(p: ProcId)
    | Terminalize(p: ProcId, w: WorkerId)
    | TakeMutation(p: ProcId)

  predicate Is(s: World, p: ProcId, test: Proc -> bool) {
    p in s.procs && test(s.procs[p])
  }

  /** The call is finished and answered. */
  function Answered(j: Journal, w: WorkerId): Option<CallResult> {
    if w !in j.workers then None
    else match j.workers[w].stage
      case Returned(_, result) => Some(result)
      case Published(_, result) => Some(result)
      case _ => None
  }

  function TerminalOp(b: Bundle, ambiguous: bool, r: TerminalResult): Op {
    if ambiguous then ReconcileOp(b.executionId, r.state, r.code, Some(r.reference))
    else CompleteOp(b.executionId, r.state, r.code, Some(r.reference))
  }

  function CurrentRecord(j: Journal, q: RequestId): Option<Record>
    requires Usable(j)
  {
    RecordIn(j.store, Head(j), q)
  }

  predicate Finalizes(l: Step) {
    || l.StartFinalize? || l.BindBundle? || l.TakeReceipt? || l.Recover? || l.ReadRecovered? || l.NothingToRecover?
    || l.ReadBase? || l.Build? || l.Confirm? || l.ReloadCheckpoint? || l.ReadTaskHead? || l.SendTaskPatch?
    || l.ReadTaskBack? || l.CheckResult? || l.ConfirmPublished? || l.Terminalize? || l.TakeMutation?
  }

  /** A finalize run may take this step. */
  predicate CanFinalize(s: World, l: Step)
    requires Usable(s.journal) && Finalizes(l)
  {
    match l
    case StartFinalize(p, _) => p !in s.procs
    case BindBundle(p) =>
      && Is(s, p, (x: Proc) => x.Finalizing?)
      && var b := s.procs[p].bundle;
         var current := CurrentRecord(s.journal, b.identity.requestId);
         current.Some? && VerifyBundle(s.journal, b, Head(s.journal), current.value) && !current.value.state.Accepted?
    case TakeReceipt(p, id) =>
      && Is(s, p, (x: Proc) => x.Bound?)
      && var b := s.procs[p].bundle;
         Countable(s.log, (b.identity.repositoryFullName, b.identity.issueNumber))
         && id < |s.log| && ReceiptMatches(s.log, b) == [id]
         && s.log[id].ReceiptBody?
         && var v := s.log[id].receipt.verdict;
            if v.CandidateReady? then b.identity.operation == "governance.ledger"
            else Terminal(v.state) && (b.identity.operation == "governance.ledger" ==> v.state.Rejected?)
    case Recover(p, id) =>
      && Is(s, p, (x: Proc) => x.Recovering?)
      && var b := s.procs[p].bundle;
         Unique(s.log, BundleKey(PublicationKind, b), id)
         && s.log[id].PublicationBody? && s.log[id].bundle == b
         && Linked(s.log[id].publication, s.procs[p].handoff)
    case ReadRecovered(p) => Is(s, p, (x: Proc) => x.Found?) && ReadsBack(s, s.procs[p].publication)
    case NothingToRecover(p) =>
      && Is(s, p, (x: Proc) => x.Recovering?)
      && var key := BundleKey(PublicationKind, s.procs[p].bundle);
         Scannable(s.log, key) && Matches(s.log, key) == []
    case ReadBase(p, branch, base) => Is(s, p, (x: Proc) => x.Building?) && TaskHead(s, branch) == Some(base)
    case Build(p, publication) =>
      && Is(s, p, (x: Proc) => x.Based?)
      && Linked(publication, s.procs[p].handoff)
      && publication.branch == s.procs[p].branch && publication.base == s.procs[p].base
      && publication.base in s.taskCommits
      && (if publication.commit == publication.base
          then publication.tree == s.taskCommits[publication.base].tree
          else publication.commit in s.taskCommits ==>
                 s.taskCommits[publication.commit] == TaskCommit([publication.base], publication.tree))
    case Confirm(p) =>
      && Is(s, p, (x: Proc) => x.Confirming?)
      && var x := s.procs[p];
         Unique(s.log, BundleKey(PublicationKind, x.bundle), x.id) && s.log[x.id] == PublicationBody(x.bundle, x.publication)
    case ReloadCheckpoint(p, id) =>
      && Is(s, p, (x: Proc) => x.Checkpointed?)
      && var x := s.procs[p];
         Unique(s.log, BundleKey(PublicationKind, x.bundle), id) && s.log[id] == PublicationBody(x.bundle, x.publication)
    case ReadTaskHead(p) =>
      && Is(s, p, (x: Proc) => x.Reloaded?)
      && TaskHead(s, s.procs[p].publication.branch) == Some(s.procs[p].publication.base)
    case SendTaskPatch(p) => Is(s, p, (x: Proc) => x.Publishing?)
    case ReadTaskBack(p) => Is(s, p, (x: Proc) => x.ReadingBack?) && ReadsBack(s, s.procs[p].publication)
    case CheckResult(p) =>
      && Is(s, p, (x: Proc) => x.Proven?)
      && var x := s.procs[p];
         Unique(s.log, BundleKey(PublicationKind, x.bundle), x.id) && s.log[x.id] == PublicationBody(x.bundle, x.publication)
         && Linked(x.publication, x.handoff)
    case ConfirmPublished(p) =>
      && Is(s, p, (x: Proc) => x.ConfirmingPublished?)
      && var x := s.procs[p];
         Unique(s.log, BundleKey(PublishedKind, x.bundle), x.id) && s.log[x.id] == PublishedBody(x.bundle, x.publication)
    case Terminalize(p, w) =>
      && Is(s, p, (x: Proc) => x.Concluding?)
      && var x := s.procs[p];
         Enabled(s.journal, Begin(w, x.bundle.identity.requestId, TerminalOp(x.bundle, x.ambiguous, x.result)))
    case TakeMutation(p) =>
      Is(s, p, (x: Proc) => x.Terminalizing? && Answered(s.journal, x.w).Some?)
  }

  predicate CanStep(s: World, l: Step) {
    Usable(s.journal) &&
    if Finalizes(l) then CanFinalize(s, l) else
    match l
    case JournalStep(jl) => Enabled(s.journal, jl) && (jl.Begin? ==> jl.op.AmbiguousOp?)
    case Comment(body) => body.ReceiptBody? || body.OtherBody?
    case PostLands(body) => body in s.posts
    case BranchMoves(_, _) => true
    case TaskPatchLands(p) => p in s.taskPatches
    case FindComment(p, id) =>
      && Is(s, p, (x: Proc) => x.Ensuring?)
      && var g := s.procs[p].goal;
         Detached(g) && Unique(s.log, GoalKey(g), id) && s.log[id] == BodyFor(g)
    case PostComment(p) =>
      && Is(s, p, (x: Proc) => x.Ensuring? && !x.posted)
      && Detached(s.procs[p].goal) && Scannable(s.log, GoalKey(s.procs[p].goal)) && Matches(s.log, GoalKey(s.procs[p].goal)) == []
    case AckComment(p, id) =>
      && Is(s, p, (x: Proc) => x.Ensuring? && x.posted)
      && id < |s.log| && s.log[id] == BodyFor(s.procs[p].goal)
    case Stop(p) => p in s.procs && !s.procs[p].Prepared? && !s.procs[p].Finalized?
    case StartPrepare(p, w, frozen, _, _) =>
      p !in s.procs && Enabled(s.journal, Begin(w, frozen.requestId, AcceptOp(frozen)))
    case TakeAcceptance(p, w) =>
      && Is(s, p, (x: Proc) => x.Accepting?)
      && Answered(s.journal, s.procs[p].w).Some?
      && Enabled(s.journal, Begin(w, s.procs[p].frozen.requestId, ClaimOp(s.procs[p].executionId)))
    case FindIntent(p, id) =>
      && Is(s, p, (x: Proc) => x.FindingIntent?)
      && Unique(s.log, IntentKey(IdentityOf(s.procs[p].record.frozen), s.procs[p].executionId), id)
      && s.log[id].IntentBody? && IntentMatches(s.journal, s.log[id].intent, s.procs[p].record)
    case StartClaim(p, w) =>
      && Is(s, p, (x: Proc) => x.ReadyToClaim?)
      && Enabled(s.journal, Begin(w, s.procs[p].intent.identity.requestId, ClaimOp(s.procs[p].intent.executionId)))
    case TakeClaim(p) =>
      Is(s, p, (x: Proc) => (x.Claiming? || x.ClaimingDirectly?) && Answered(s.journal, x.w).Some?)
    case FindCheckpoint(p, id) =>
      && Is(s, p, (x: Proc) => x.Resuming?)
      && var x := s.procs[p];
         Unique(s.log, BundleKey(PrepareKind, BundleFrom(x.record, x.intent.executionId, 0, 0)), id)
         && s.log[id].PrepareBody?
         && ValidBundle(s.log[id].bundle)
         && s.log[id].bundle.canonicalRecord.frozen == x.record.frozen
         && s.log[id].bundle.canonicalRecord.executionId == x.record.executionId
    case RebuildBundle(p) =>
      && Is(s, p, (x: Proc) => x.Resuming? && x.record.state.Executing?)
      && var x := s.procs[p];
         var key := BundleKey(PrepareKind, BundleFrom(x.record, x.intent.executionId, 0, 0));
         Scannable(s.log, key) && Matches(s.log, key) == [] && IntentMatches(s.journal, x.intent, x.record)
  }

  /** After a durable acceptance: replay a terminal record, record an intent for an accepted
      one, or look up the intent of one that has been claimed. Without durable handoffs the
      claim follows at once. */
  function AfterAcceptance(x: Proc, r: CallResult): Proc
    requires x.Accepting?
  {
    if Terminal(r.record.state) then AlreadyFinished(r.record, r.revision)
    else if r.record.state.Accepted? then Ensuring(IntentGoal(IntentFrom(r.record, x.executionId, r.revision)), false)
    else FindingIntent(x.executionId, r.record)
  }

  function AfterClaim(x: Proc, r: CallResult): Proc
    requires x.Claiming?
  {
    match r.disposition
    case Grant =>
      Ensuring(PrepareGoal(BundleFrom(r.record, x.intent.executionId, x.intent.acceptedRevision, r.revision), Grant), false)
    case NeedsReconciliation =>
      if r.record.executionId == Some(x.intent.executionId) then Resuming(x.intent, r.record, r.revision) else Stopped
    case _ => AlreadyFinished(r.record, r.revision)
  }

  function AfterDirectClaim(x: Proc, r: CallResult): Proc
    requires x.ClaimingDirectly?
  {
    match r.disposition
    case Grant => Prepared(BundleFrom(r.record, x.executionId, x.acceptedRevision, r.revision), false)
    case NeedsReconciliation => Stopped
    case _ => AlreadyFinished(r.record, r.revision)
  }

  function AfterReceipt(b: Bundle, ambiguous: bool, v: Verdict, id: nat): Proc {
    match v
    case CandidateReady(h) => Recovering(b, ambiguous, h)
    case Final(state, code) => Concluding(b, ambiguous, TerminalResult(state, code, Reference(b.identity, id)), None)
  }

  function AddHead(heads: map<string, seq<Sha>>, branch: string, sha: Sha): map<string, seq<Sha>> {
    heads[branch := (if branch in heads then heads[branch] else []) + [sha]]
  }

  /** The journal step a step takes, if any. */
  function JournalLabel(s: World, l: Step): Option<Label>
    requires CanStep(s, l)
  {
    match l
    case JournalStep(jl) => Some(jl)
    case StartPrepare(_, w, frozen, _, _) => Some(Begin(w, frozen.requestId, AcceptOp(frozen)))
    case TakeAcceptance(p, w) =>
      var x := s.procs[p];
      if x.durable then None else Some(Begin(w, x.frozen.requestId, ClaimOp(x.executionId)))
    case StartClaim(p, w) =>
      var i := s.procs[p].intent;
      Some(Begin(w, i.identity.requestId, ClaimOp(i.executionId)))
    case Terminalize(p, w) =>
      var x := s.procs[p];
      Some(Begin(w, x.bundle.identity.requestId, TerminalOp(x.bundle, x.ambiguous, x.result)))
    case _ => None
  }

  function LogAfter(s: World, l: Step): seq<Body> {
    match l
    case Comment(body) => s.log + [body]
    case PostLands(body) => s.log + [body]
    case _ => s.log
  }

  function PostsAfter(s: World, l: Step): multiset<Body> {
    match l
    case PostLands(body) => s.posts - multiset{body}
    case PostComment(p) =>
      if p in s.procs && s.procs[p].Ensuring? then s.posts + multiset{BodyFor(s.procs[p].goal)} else s.posts
    case _ => s.posts
  }

  function TaskHeadsAfter(s: World, l: Step): map<string, seq<Sha>> {
    match l
    case BranchMoves(branch, sha) => AddHead(s.taskHeads, branch, sha)
    case TaskPatchLands(p) =>
      if p in s.taskPatches then AddHead(s.taskHeads, s.taskPatches[p].1.branch, s.taskPatches[p].1.commit)
      else s.taskHeads
    case _ => s.taskHeads
  }

  function TaskCommitsAfter(s: World, l: Step): map<Sha, TaskCommit> {
    match l
    case Build(_, e) =>
      if e.commit == e.base then s.taskCommits else s.taskCommits[e.commit := TaskCommit([e.base], e.tree)]
    case _ => s.taskCommits
  }

  function TaskPatchesAfter(s: World, l: Step): map<ProcId, (Bundle, Publication)> {
    match l
    case SendTaskPatch(p) =>
      if p in s.procs && s.procs[p].Publishing? && s.procs[p].publication.commit != s.procs[p].publication.base
      then s.taskPatches[p := (s.procs[p].bundle, s.procs[p].publication)]
      else s.taskPatches
    case _ => s.taskPatches
  }

  function TaskWritersAfter(s: World, l: Step): set<ProcId> {
    match l
    case Build(p, _) => s.taskWriters + {p}
    case SendTaskPatch(p) => s.taskWriters + {p}
    case _ => s.taskWriters
  }

  function ReadBacksAfter(s: World, l: Step): set<Publication>
    requires CanStep(s, l)
  {
    match l
    case ReadRecovered(p) => s.readBacks + {s.procs[p].publication}
    case ReadTaskBack(p) => s.readBacks + {s.procs[p].publication}
    case _ => s.readBacks
  }

  function ConfirmedAfter(s: World, l: Step): set<(Bundle, Publication, nat)>
    requires CanStep(s, l)
  {
    match l
    case ConfirmPublished(p) => s.confirmed + {(s.procs[p].bundle, s.procs[p].publication, s.procs[p].id)}
    case _ => s.confirmed
  }

  /** The process that acts in a step. */
  function Actor(l: Step): Option<ProcId> {
    match l
    case JournalStep(_) => None
    case Comment(_) => None
    case PostLands(_) => None
    case BranchMoves(_, _) => None
    case TaskPatchLands(_) => None
    case _ => Some(l.p)
  }

  /** Where a finalize run is after its step. */
  function FinalizeAfter(s: World, l: Step): Proc
    requires Usable(s.journal) && Finalizes(l) && CanFinalize(s, l)
  {
    match l
    case StartFinalize(_, b) => Finalizing(b)
    case BindBundle(p) =>
      var b := s.procs[p].bundle;
      var r := CurrentRecord(s.journal, b.identity.requestId).value;
      if Terminal(r.state) then AlreadyFinished(r, Head(s.journal)) else Bound(b, r.state.Ambiguous?)
    case TakeReceipt(p, id) =>
      AfterReceipt(s.procs[p].bundle, s.procs[p].ambiguous, s.log[id].receipt.verdict, id)
    case Recover(p, id) =>
      var x := s.procs[p];
      Found(x.bundle, x.ambiguous, x.handoff, s.log[id].publication, id)
    case ReadRecovered(p) =>
      var x := s.procs[p];
      Proven(x.bundle, x.ambiguous, x.handoff, x.publication, x.id, true)
    case NothingToRecover(p) => Building(s.procs[p].bundle, s.procs[p].ambiguous, s.procs[p].handoff)
    case ReadBase(p, branch, base) =>
      Based(s.procs[p].bundle, s.procs[p].ambiguous, s.procs[p].handoff, branch, base)
    case Build(p, e) =>
      Ensuring(PublicationGoal(s.procs[p].bundle, s.procs[p].ambiguous, s.procs[p].handoff, e), false)
    case Confirm(p) =>
      var x := s.procs[p];
      Checkpointed(x.bundle, x.ambiguous, x.handoff, x.publication, x.id)
    case ReloadCheckpoint(p, _) =>
      var x := s.procs[p];
      Reloaded(x.bundle, x.ambiguous, x.handoff, x.publication, x.id)
    case ReadTaskHead(p) =>
      var x := s.procs[p];
      Publishing(x.bundle, x.ambiguous, x.handoff, x.publication, x.id)
    case SendTaskPatch(p) =>
      var x := s.procs[p];
      ReadingBack(x.bundle, x.ambiguous, x.handoff, x.publication, x.id)
    case ReadTaskBack(p) =>
      var x := s.procs[p];
      Proven(x.bundle, x.ambiguous, x.handoff, x.publication, x.id, false)
    case CheckResult(p) =>
      var x := s.procs[p];
      Ensuring(PublishedGoal(x.bundle, x.ambiguous, x.publication, x.replayed), false)
    case ConfirmPublished(p) =>
      var x := s.procs[p];
      Concluding(x.bundle, x.ambiguous,
        TerminalResult(Succeeded, CodeFor(x.publication), Reference(x.bundle.identity, x.id)), Some(x.publication))
    case Terminalize(p, w) =>
      var x := s.procs[p];
      Terminalizing(x.bundle, x.ambiguous, x.result, x.effect, w)
    case TakeMutation(p) => Finalized(s.procs[p].bundle, s.procs[p].result, s.procs[p].effect)
  }

  /** Where the acting process is after its step. */
  function ProcAfter(s: World, l: Step): Proc
    requires CanStep(s, l) && Actor(l).Some?
  {
    if Finalizes(l) then FinalizeAfter(s, l) else
    match l
    case FindComment(p, id) => Achieved(s.procs[p].goal, id)
    case PostComment(p) => s.procs[p].(posted := true)
    case AckComment(p, id) => Achieved(s.procs[p].goal, id)
    case Stop(_) => Stopped
    case StartPrepare(_, w, frozen, executionId, durable) => Accepting(executionId, frozen, durable, w)
    case TakeAcceptance(p, w) =>
      var x := s.procs[p];
      var r := Answered(s.journal, x.w).value;
      if x.durable then AfterAcceptance(x, r) else ClaimingDirectly(x.executionId, x.frozen.requestId, r.revision, w)
    case FindIntent(_, id) => ReadyToClaim(s.log[id].intent)
    case StartClaim(p, w) => Claiming(s.procs[p].intent, w)
    case TakeClaim(p) =>
      var x := s.procs[p];
      var r := Answered(s.journal, x.w).value;
      if x.Claiming? then AfterClaim(x, r) else AfterDirectClaim(x, r)
    case FindCheckpoint(_, id) => Prepared(s.log[id].bundle, true)
    case RebuildBundle(p) =>
      var x := s.procs[p];
      Ensuring(PrepareGoal(
        BundleFrom(x.record, x.intent.executionId, x.intent.acceptedRevision, x.revision), NeedsReconciliation), false)
  }

  function WorldNext(s: World, l: Step): World
    requires CanStep(s, l)
  {
    World(
      match JournalLabel(s, l) { case None => s.journal case Some(jl) => Next(s.journal, jl) },
      LogAfter(s, l), PostsAfter(s, l), TaskCommitsAfter(s, l), TaskHeadsAfter(s, l),
      TaskPatchesAfter(s, l), TaskWritersAfter(s, l), ReadBacksAfter(s, l), ConfirmedAfter(s, l),
      if Actor(l).Some? then s.procs[Actor(l).value := ProcAfter(s, l)] else s.procs)
  }

  /** Nothing has happened yet: an empty journal, no comments, nobody running. */
  ghost predicate Start(s: World) {
    && JournalProtocol.Initial(s.journal) && s.journal.store[s.journal.heads[0]].tree == map[]
    && s.log == [] && s.posts == multiset{} && s.taskPatches == map[] && s.taskWriters == {}
    && s.readBacks == {} && s.confirmed == {} && s.procs == map[]
  }

  ghost predicate WorldRun(states: seq<World>, steps: seq<Step>) {
    && |states| == |steps| + 1
    && Start(states[0])
    && forall i | 0 <= i < |steps| :: CanStep(states[i], steps[i]) && states[i + 1] == WorldNext(states[i], steps[i])
  }
}
