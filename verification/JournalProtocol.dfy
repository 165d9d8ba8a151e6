/** The shared journal as a step system (scripts/actions_git_journal.py and
    scripts/actions_journal_coordinator.py). The remote is a commit store and one ref that
    only fast-forwards. A worker is one coordinator call, run in some process that may stop
    at any point; a PATCH it has sent may land at once, later, or never. Everything a call
    reads below a commit id is immutable, so one step reads the ref and what hangs below it. */
module JournalProtocol {
  import opened Common
  import opened JournalRecord

  type Sha = nat
  type WorkerId = nat
  type RequestId = string

  /** `generation` is the commit's distance from the root; Git derives it the same way. */
  datatype Commit = Commit(parent: Option<Sha>, generation: nat, tree: map<RequestId, Record>)

  datatype Snapshot = Snapshot(head: Sha, tree: map<RequestId, Record>, record: Option<Record>)

  datatype Op =
    | AcceptOp(frozen: Frozen)
    | ClaimOp(executionId: string)
    | CompleteOp(executionId: string, state: State, code: string, reference: Option<string>)
    | AmbiguousOp(executionId: string)
    | ReconcileOp(executionId: string, state: State, code: string, reference: Option<string>)

  datatype Disposition = Acceptance | Grant | NeedsReconciliation | AlreadyTerminal | Mutation

  datatype CallResult = CallResult(disposition: Disposition, revision: Sha, record: Record, replayed: bool)

  datatype CallError = Refused | StaleSnapshot | AmbiguousPublication(candidate: Sha, base: Sha) | OtherFailure | Crashed

  datatype Stage =
    | Begun
    | Loaded(snapshot: Snapshot, record: Record)
    | Rechecked(snapshot: Snapshot, record: Record)
    | Created(snapshot: Snapshot, record: Record, candidate: Sha)
    | Sent(snapshot: Snapshot, record: Record, candidate: Sha)
    | Returned(snapshot: Snapshot, result: CallResult)   // answered from what was read
    | Published(snapshot: Snapshot, result: CallResult)  // receipt of a verified publication
    | Failed(error: CallError)

  /** `since` is how many values the ref had had when the call began. */
  datatype Worker = Worker(request: RequestId, op: Op, since: nat, stage: Stage)

  /** `heads` lists every value the ref has had, oldest first; `writers` are the calls that
      have written anything at all to the remote. */
  datatype Journal = Journal(
    store: map<Sha, Commit>, heads: seq<Sha>, patches: map<WorkerId, Sha>,
    writers: set<WorkerId>, workers: map<WorkerId, Worker>)

  function Lookup(tree: map<RequestId, Record>, request: RequestId): Option<Record> {
    if request in tree then Some(tree[request]) else None
  }

  function Head(s: Journal): Sha
    requires s.heads != []
  {
    s.heads[|s.heads| - 1]
  }

  predicate Finished(stage: Stage) {
    stage.Returned? || stage.Published? || stage.Failed?
  }

  // ----- what a call decides from the record it has loaded

  datatype Decision = Refuse | Answer(disposition: Disposition) | Publish(record: Record)

  function PublishOrRefuse(r: Result<Record, RecordError>): Decision {
    if r.Ok? then Publish(r.value) else Refuse
  }

  function Decide(op: Op, stored: Option<Record>): Decision {
    match stored
    case None => if op.AcceptOp? then Publish(NewRecord(op.frozen)) else Refuse
    case Some(r) =>
      match op
      case AcceptOp(frozen) => if SameRequest(r.frozen, frozen) then Answer(Acceptance) else Refuse
      case ClaimOp(e) =>
        (match Claim(r, e)
         case Err(_) => Refuse
         case Ok((Granted, granted)) => Publish(granted)
         case Ok((ReconciliationRequired, _)) => Answer(NeedsReconciliation)
         case Ok((TerminalReplay, _)) => Answer(AlreadyTerminal))
      case CompleteOp(e, state, code, reference) =>
        if r.executionId != Some(e) then Refuse else PublishOrRefuse(Complete(r, state, code, reference))
      case AmbiguousOp(e) =>
        if r.executionId != Some(e) then Refuse else PublishOrRefuse(MarkAmbiguous(r))
      case ReconcileOp(e, state, code, reference) =>
        if r.executionId != Some(e) then Refuse else PublishOrRefuse(Resolve(r, state, code, reference))
  }

  function PublishedDisposition(op: Op): Disposition {
    match op
    case AcceptOp(_) => Acceptance
    case ClaimOp(_) => Grant
    case _ => Mutation
  }

  // ----- the remote

  /** The commit `publish` derives: one parent, one path changed. */
  function Derived(store: map<Sha, Commit>, base: Sha, request: RequestId, record: Record): Commit
    requires base in store
  {
    Commit(Some(base), store[base].generation + 1, store[base].tree[request := record])
  }

  predicate Ancestor(store: map<Sha, Commit>, a: Sha, c: Sha)
    decreases if c in store then store[c].generation else 0
  {
    c in store &&
    (a == c ||
     var p := store[c].parent;
     p.Some? && p.value in store && store[p.value].generation < store[c].generation && Ancestor(store, a, p.value))
  }

  function ReadSnapshot(s: Journal, request: RequestId): Snapshot
    requires s.heads != [] && Head(s) in s.store
  {
    var tree := s.store[Head(s)].tree;
    Snapshot(Head(s), tree, Lookup(tree, request))
  }

  // ----- steps

  datatype Label =
    | Begin(w: WorkerId, request: RequestId, op: Op)
    | Load(w: WorkerId)
    | Recheck(w: WorkerId)
    | Create(w: WorkerId, id: Sha)  // the id a commit gets: fresh, or that of the identical commit
    | Send(w: WorkerId)
    | Land(w: WorkerId)             // the server applies a PATCH, whatever became of its sender
    | ReadBack(w: WorkerId)
    | LoseReadBack(w: WorkerId)
    | Fail(w: WorkerId)
    | Crash(w: WorkerId)

  predicate At(s: Journal, w: WorkerId, stages: Stage -> bool) {
    w in s.workers && stages(s.workers[w].stage)
  }

  predicate Usable(s: Journal) {
    s.heads != [] && Head(s) in s.store
  }

  predicate Enabled(s: Journal, l: Label) {
    Usable(s) &&
    match l
    case Begin(w, request, op) => w !in s.workers && (op.AcceptOp? ==> op.frozen.requestId == request)
    case Load(w) => At(s, w, (x: Stage) => x.Begun?)
    case Recheck(w) => At(s, w, (x: Stage) => x.Loaded?)
    case Create(w, id) =>
      && At(s, w, (x: Stage) => x.Rechecked?)
      && var x := s.workers[w].stage;
         x.snapshot.head in s.store &&
         (id !in s.store || s.store[id] == Derived(s.store, x.snapshot.head, s.workers[w].request, x.record))
    case Send(w) => At(s, w, (x: Stage) => x.Created?)
    case Land(w) => w in s.patches && Ancestor(s.store, Head(s), s.patches[w])
    case ReadBack(w) => At(s, w, (x: Stage) => x.Sent?)
    case LoseReadBack(w) => At(s, w, (x: Stage) => x.Sent?)
    case Fail(w) => At(s, w, (x: Stage) => x.Begun? || x.Loaded? || x.Rechecked? || x.Created?)
    case Crash(w) => At(s, w, (x: Stage) => !Finished(x))
  }

  function Put(s: Journal, w: WorkerId, stage: Stage): Journal
    requires w in s.workers
  {
    s.(workers := s.workers[w := s.workers[w].(stage := stage)])
  }

  function AfterLoad(op: Op, snapshot: Snapshot): Stage {
    match Decide(op, snapshot.record)
    case Refuse => Failed(Refused)
    case Answer(d) =>
      if snapshot.record.Some?
      then Returned(snapshot, CallResult(d, snapshot.head, snapshot.record.value, true))
      else Failed(Refused)
    case Publish(record) => Loaded(snapshot, record)
  }

  function AfterRecheck(op: Op, snapshot: Snapshot, record: Record, again: Snapshot): Stage {
    if again.head != snapshot.head then Failed(StaleSnapshot)
    else if again != snapshot then Failed(OtherFailure)
    else if snapshot.record == Some(record)
    then Returned(snapshot, CallResult(PublishedDisposition(op), snapshot.head, record, true))
    else Rechecked(snapshot, record)
  }

  function AfterReadBack(op: Op, x: Stage, head: Sha): Stage
    requires x.Sent?
  {
    if head == x.candidate
    then Published(x.snapshot, CallResult(PublishedDisposition(op), x.candidate, x.record, false))
    else Failed(AmbiguousPublication(x.candidate, x.snapshot.head))
  }

  function Next(s: Journal, l: Label): Journal
    requires Enabled(s, l)
  {
    match l
    case Begin(w, request, op) => s.(workers := s.workers[w := Worker(request, op, |s.heads|, Begun)])
    case Load(w) =>
      Put(s, w, AfterLoad(s.workers[w].op, ReadSnapshot(s, s.workers[w].request)))
    case Recheck(w) =>
      var x := s.workers[w].stage;
      Put(s, w, AfterRecheck(s.workers[w].op, x.snapshot, x.record, ReadSnapshot(s, s.workers[w].request)))
    case Create(w, id) =>
      var x := s.workers[w].stage;
      Put(s, w, Created(x.snapshot, x.record, id)).(
        store := s.store[id := Derived(s.store, x.snapshot.head, s.workers[w].request, x.record)],
        writers := s.writers + {w})
    case Send(w) =>
      var x := s.workers[w].stage;
      Put(s, w, Sent(x.snapshot, x.record, x.candidate)).(
        patches := s.patches[w := x.candidate], writers := s.writers + {w})
    case Land(w) => if s.patches[w] == Head(s) then s else s.(heads := s.heads + [s.patches[w]])
    case ReadBack(w) => Put(s, w, AfterReadBack(s.workers[w].op, s.workers[w].stage, Head(s)))
    case LoseReadBack(w) =>
      var x := s.workers[w].stage;
      Put(s, w, Failed(AmbiguousPublication(x.candidate, x.snapshot.head)))
    case Fail(w) => Put(s, w, Failed(OtherFailure))
    case Crash(w) => Put(s, w, Failed(Crashed))
  }

  ghost predicate ValidTree(tree: map<RequestId, Record>) {
    forall q | q in tree :: tree[q].frozen.requestId == q && Consistent(tree[q])
  }

  /** The branch is provisioned with some valid tree and nobody has started. */
  ghost predicate Initial(s: Journal) {
    && |s.heads| == 1
    && s.store.Keys == {s.heads[0]}
    && s.store[s.heads[0]].parent.None? && s.store[s.heads[0]].generation == 0
    && ValidTree(s.store[s.heads[0]].tree)
    && s.patches == map[] && s.writers == {} && s.workers == map[]
  }

  /** A run: any interleaving of any workers' steps, landings and crashes. */
  ghost predicate Run(states: seq<Journal>, labels: seq<Label>) {
    && |states| == |labels| + 1
    && Initial(states[0])
    && forall i | 0 <= i < |labels| :: Enabled(states[i], labels[i]) && states[i + 1] == Next(states[i], labels[i])
  }

  // ----- the inductive invariant

  /** The two trees differ at one path, by a permitted transition of the record there. */
  ghost predicate OneChange(before: map<RequestId, Record>, after: map<RequestId, Record>, q: RequestId) {
    && q in after && after == before[q := after[q]]
    && Permitted(Lookup(before, q), after[q])
    && Lookup(before, q) != Some(after[q])
  }

  ghost predicate OneRecordChanged(before: map<RequestId, Record>, after: map<RequestId, Record>) {
    exists q :: OneChange(before, after, q)
  }

  /** Each stored commit is the root or changes exactly one record of its single parent, by a
      permitted transition. */
  ghost predicate ChangesOneRecord(store: map<Sha, Commit>, c: Sha)
    requires c in store
  {
    match store[c].parent
    case None => store[c].generation == 0
    case Some(p) =>
      && p in store
      && store[c].generation == store[p].generation + 1
      && OneRecordChanged(store[p].tree, store[c].tree)
  }

  ghost predicate StoreInv(store: map<Sha, Commit>) {
    && (forall c | c in store :: ValidTree(store[c].tree))
    && forall c {:trigger ChangesOneRecord(store, c)} | c in store :: ChangesOneRecord(store, c)
  }

  ghost predicate ParentBefore(s: Journal, i: nat)
    requires 0 < i < |s.heads| && s.heads[i] in s.store
  {
    s.store[s.heads[i]].parent == Some(s.heads[i - 1])
  }

  ghost predicate HeadsInv(s: Journal) {
    && s.heads != []
    && (forall i | 0 <= i < |s.heads| :: s.heads[i] in s.store && s.store[s.heads[i]].generation == i)
    && s.store[s.heads[0]].parent.None?
    && forall i {:trigger ParentBefore(s, i)} | 0 < i < |s.heads| :: ParentBefore(s, i)
  }

  /** The snapshot is what the journal held at a commit that was its head after the call began. */
  ghost predicate SnapshotInv(s: Journal, x: Worker, snapshot: Snapshot) {
    && snapshot.head in s.heads && snapshot.head in s.store
    && x.since <= s.store[snapshot.head].generation + 1
    && snapshot.tree == s.store[snapshot.head].tree
    && snapshot.record == Lookup(snapshot.tree, x.request)
  }

  ghost predicate CandidateInv(s: Journal, x: Worker, snapshot: Snapshot, record: Record, c: Sha) {
    && SnapshotInv(s, x, snapshot)
    && Decide(x.op, snapshot.record) == Publish(record)
    && snapshot.record != Some(record)
    && c in s.store && s.store[c] == Derived(s.store, snapshot.head, x.request, record)
  }

  ghost predicate WorkerInv(s: Journal, w: WorkerId)
    requires w in s.workers
  {
    var x := s.workers[w];
    x.since <= |s.heads| &&
    (x.op.AcceptOp? ==> x.op.frozen.requestId == x.request) &&
    match x.stage
    case Begun => w !in s.patches && w !in s.writers
    case Loaded(snapshot, record) =>
      && w !in s.patches && w !in s.writers
      && SnapshotInv(s, x, snapshot) && Decide(x.op, snapshot.record) == Publish(record)
    case Rechecked(snapshot, record) =>
      && w !in s.patches && w !in s.writers
      && SnapshotInv(s, x, snapshot) && Decide(x.op, snapshot.record) == Publish(record)
      && snapshot.record != Some(record)
    case Created(snapshot, record, c) => w !in s.patches && CandidateInv(s, x, snapshot, record, c)
    case Sent(snapshot, record, c) =>
      w in s.patches && s.patches[w] == c && CandidateInv(s, x, snapshot, record, c)
    case Returned(snapshot, result) =>
      && w !in s.patches && w !in s.writers
      && SnapshotInv(s, x, snapshot)
      && result.revision == snapshot.head && snapshot.record == Some(result.record) && result.replayed
      && (Decide(x.op, snapshot.record) == Answer(result.disposition)
          || (Decide(x.op, snapshot.record) == Publish(result.record)
              && result.disposition == PublishedDisposition(x.op)))
    case Published(snapshot, result) =>
      && CandidateInv(s, x, snapshot, result.record, result.revision)
      && result.revision in s.heads && !result.replayed
      && result.disposition == PublishedDisposition(x.op)
    case Failed(error) =>
      && (w in s.patches ==> error.AmbiguousPublication? || error.Crashed?)
      && (error.StaleSnapshot? || error.Refused? ==> w !in s.writers)
      && (error.AmbiguousPublication? ==> w in s.patches && s.patches[w] == error.candidate)
  }

  ghost predicate PatchInv(s: Journal, w: WorkerId)
    requires w in s.patches
  {
    && w in s.workers
    && s.patches[w] in s.store
    && s.store[s.patches[w]].parent.Some? && s.store[s.patches[w]].parent.value in s.heads
  }

  ghost predicate Inv(s: Journal) {
    && StoreInv(s.store) && HeadsInv(s)
    && (forall w | w in s.workers :: WorkerInv(s, w))
    && (forall w | w in s.patches :: PatchInv(s, w))
    && s.writers <= s.workers.Keys
  }

  // ----- the invariant is monotone in what only ever grows

  /** What every step preserves: commits stay, the ref's past stays, a call keeps its request
      and its operation, and a finished call stays as it finished. */
  ghost predicate Extends(s: Journal, t: Journal) {
    && (forall c | c in s.store :: c in t.store && t.store[c] == s.store[c])
    && s.heads <= t.heads
    && forall w | w in s.workers ::
         && w in t.workers && t.workers[w].request == s.workers[w].request && t.workers[w].op == s.workers[w].op
         && t.workers[w].since == s.workers[w].since
         && (Finished(s.workers[w].stage) ==> t.workers[w] == s.workers[w])
  }

  lemma SnapshotPersists(s: Journal, t: Journal, x: Worker, snapshot: Snapshot)
    requires Extends(s, t) && SnapshotInv(s, x, snapshot)
    ensures SnapshotInv(t, x, snapshot)
  {
    var i :| 0 <= i < |s.heads| && s.heads[i] == snapshot.head;
    assert t.heads[i] == snapshot.head;
  }

  lemma WorkerPersists(s: Journal, t: Journal, w: WorkerId)
    requires w in s.workers && WorkerInv(s, w) && Extends(s, t)
    requires w in t.workers && t.workers[w] == s.workers[w]
    requires w in s.patches <==> w in t.patches
    requires w in s.patches ==> t.patches[w] == s.patches[w]
    requires w in s.writers <==> w in t.writers
    ensures WorkerInv(t, w)
  {
    var x := s.workers[w];
    if x.stage.Loaded? || x.stage.Rechecked? || x.stage.Created? || x.stage.Sent? || x.stage.Returned? || x.stage.Published? {
      SnapshotPersists(s, t, x, x.stage.snapshot);
    }
    if x.stage.Published? {
      var i :| 0 <= i < |s.heads| && s.heads[i] == x.stage.result.revision;
      assert t.heads[i] == x.stage.result.revision;
    }
  }

  lemma PatchPersists(s: Journal, t: Journal, w: WorkerId)
    requires w in s.patches && PatchInv(s, w) && Extends(s, t)
    requires w in t.patches && t.patches[w] == s.patches[w]
    ensures PatchInv(t, w)
  {
    var p := s.store[s.patches[w]].parent.value;
    var i :| 0 <= i < |s.heads| && s.heads[i] == p;
    assert t.heads[i] == p;
  }

  lemma {:induction false} AncestorGeneration(store: map<Sha, Commit>, a: Sha, c: Sha)
    requires Ancestor(store, a, c)
    ensures a in store && c in store && store[a].generation <= store[c].generation
    ensures store[a].generation == store[c].generation ==> a == c
    decreases store[c].generation
  {
    if a != c {
      AncestorGeneration(store, a, store[c].parent.value);
    }
  }

  /** A non-forced PATCH of a candidate lands only on the head the candidate was built on
      (or when it is the head already): this is what stands in for a compare-and-swap. */
  lemma LandsOnlyOnItsBase(s: Journal, w: WorkerId)
    requires HeadsInv(s) && StoreInv(s.store) && w in s.patches && PatchInv(s, w)
    requires Ancestor(s.store, Head(s), s.patches[w])
    ensures s.patches[w] == Head(s) || s.store[s.patches[w]].parent == Some(Head(s))
  {
    var c := s.patches[w];
    if c != Head(s) {
      var p := s.store[c].parent.value;
      AncestorGeneration(s.store, Head(s), p);
      var i :| 0 <= i < |s.heads| && s.heads[i] == p;
    }
  }

  lemma StepExtends(s: Journal, l: Label)
    requires Enabled(s, l)
    ensures Extends(s, Next(s, l))
  {
  }
}
