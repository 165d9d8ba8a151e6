/** The inductive invariant of the Publisher's step system. Every fact a process relies on is
    about a past that only grows, so it survives the steps of all the others. */
module PublisherInvariant {
  import opened Common
  import opened JournalRecord
  import opened JournalProtocol
  import opened Markers
  import opened PublisherProtocol

  // ----- facts that only ever become true

  /** The journal once had head `c` and held `r` for `q` there. */
  ghost predicate OnChain(j: Journal, c: Sha, q: RequestId, r: Record) {
    c in j.heads && RecordIn(j.store, c, q) == Some(r)
  }

  ghost predicate IntentOk(j: Journal, i: Intent) {
    && j.heads != [] && i.acceptedRevision in j.heads
    && var r := RecordIn(j.store, i.acceptedRevision, i.identity.requestId);
       r.Some? && r.value == Reset(r.value)
       && i.identity == IdentityOf(r.value.frozen) && i.policyRevision == r.value.frozen.policyRevision
  }

  /** A bundle bound to the journal: both its revisions were heads, the request was accepted
      at the one and is executing, exactly as recorded, at the other. */
  ghost predicate BundleOk(j: Journal, b: Bundle) {
    && ValidBundle(b)
    && OnChain(j, b.acceptedRevision, b.identity.requestId, Reset(b.canonicalRecord))
    && OnChain(j, b.claimRevision, b.identity.requestId, b.canonicalRecord)
  }

  /** The first comment under the key, which later comments cannot change. */
  function First(log: seq<Body>, key: Key): Option<Body> {
    var ms := Matches(log, key);
    if ms == [] then None else assert ms[0] in ms; Some(log[ms[0]])
  }

  ghost predicate FirstPublication(log: seq<Body>, b: Bundle, p: Publication) {
    First(log, BundleKey(PublicationKind, b)) == Some(PublicationBody(b, p))
  }

  /** The publication is recorded first, in a comment that a scan has read. */
  ghost predicate Recorded(log: seq<Body>, b: Bundle, p: Publication) {
    FirstPublication(log, b, p) && !Clogs(PublicationBody(b, p), PublicationKind)
  }

  /** The effect has been read back: the recorded commit has been a value of the task branch and
      is the recorded object. */
  ghost predicate Observed(s: World, p: Publication) {
    && p in s.readBacks
    && p.branch in s.taskHeads && p.commit in s.taskHeads[p.branch]
    && p.commit in s.taskCommits && s.taskCommits[p.commit].tree == p.tree
    && (p.commit != p.base ==> s.taskCommits[p.commit].parents == [p.base])
  }

  /** The effect of a ledger request is recorded first and has been seen on its branch. */
  ghost predicate EffectOk(s: World, b: Bundle, p: Publication) {
    Recorded(s.log, b, p) && Observed(s, p)
  }

  /** The comment at `id` is the first published comment for the request, was once found to be
      the only one, and proves it. */
  ghost predicate PublishedAt(s: World, b: Bundle, p: Publication, id: nat) {
    && EffectOk(s, b, p) && (b, p, id) in s.confirmed && id < |s.log| && s.log[id] == PublishedBody(b, p)
    && !Clogs(PublishedBody(b, p), PublishedKind)
    && Matches(s.log, BundleKey(PublishedKind, b)) != [] && Matches(s.log, BundleKey(PublishedKind, b))[0] == id
  }

  ghost predicate LedgerSuccessOk(s: World, b: Bundle, p: Publication, r: TerminalResult) {
    exists id :: PublishedAt(s, b, p, id) && r == TerminalResult(Succeeded, CodeFor(p), Reference(b.identity, id))
  }

  /** The receipt at `id` is the first that Control published for exactly this bundle. */
  ghost predicate ReceiptAt(s: World, b: Bundle, v: Verdict, id: nat) {
    && id < |s.log| && s.log[id] == ReceiptBody(Receipt(b.identity, b.acceptedRevision, b.claimRevision, v))
    && ReceiptMatches(s.log, b) != [] && ReceiptMatches(s.log, b)[0] == id
  }

  /** Control handed this candidate over. */
  ghost predicate HandedOver(s: World, b: Bundle, h: Handoff) {
    exists id :: ReceiptAt(s, b, CandidateReady(h), id)
  }

  /** The publication is of the candidate that Control handed over. */
  ghost predicate Delegated(s: World, b: Bundle, p: Publication) {
    exists h :: HandedOver(s, b, h) && Linked(p, h)
  }

  /** The terminal result is Control's verdict, by reference to the receipt that gives it. */
  ghost predicate Reported(s: World, b: Bundle, r: TerminalResult) {
    exists id :: ReceiptAt(s, b, Final(r.state, r.code), id) && r.reference == Reference(b.identity, id)
  }

  /** What a terminal result in the journal rests on: for a ledger request success only with
      proof, everything else only on Control's verdict. */
  ghost predicate OutcomeOk(s: World, b: Bundle, r: TerminalResult, effect: Option<Publication>) {
    if effect.Some? then IsLedger(b) && LedgerSuccessOk(s, b, effect.value, r)
    else Terminal(r.state) && (IsLedger(b) ==> r.state.Rejected?) && Reported(s, b, r)
  }

  ghost predicate OutcomeFor(s: World, b: Bundle, effect: Option<Publication>, q: RequestId, executionId: string, r: TerminalResult) {
    BundleOk(s.journal, b) && b.identity.requestId == q && b.executionId == executionId && OutcomeOk(s, b, r, effect)
  }

  ghost predicate Justified(s: World, q: RequestId, executionId: string, r: TerminalResult) {
    exists b, effect :: OutcomeFor(s, b, effect, q, executionId, r)
  }

  ghost predicate BodyOk(s: World, body: Body) {
    match body
    case IntentBody(i) => IntentOk(s.journal, i)
    case PrepareBody(b, _) => BundleOk(s.journal, b)
    case PublicationBody(b, p) => BundleOk(s.journal, b) && IsLedger(b) && Delegated(s, b, p)
    case PublishedBody(b, p) => BundleOk(s.journal, b) && IsLedger(b) && EffectOk(s, b, p)
    case _ => true
  }

  ghost predicate Calls(j: Journal, w: WorkerId, q: RequestId, op: Op) {
    w in j.workers && j.workers[w].request == q && j.workers[w].op == op
  }

  ghost predicate IsLedger(b: Bundle) {
    b.identity.operation == "governance.ledger"
  }

  // ----- the invariant

  ghost predicate GoalOk(s: World, g: Goal) {
    BodyOk(s, BodyFor(g))
  }

  predicate InFinalize(x: Proc) {
    || x.Bound? || x.Recovering? || x.Found? || x.Building? || x.Based? || x.Confirming? || x.Checkpointed?
    || x.Reloaded? || x.Publishing? || x.ReadingBack? || x.Proven? || x.ConfirmingPublished? || x.Concluding?
    || x.Terminalizing? || x.Finalized?
  }

  /** What a finalize run relies on. */
  ghost predicate FinalizeOk(s: World, x: Proc)
    requires InFinalize(x)
  {
    match x
    case Bound(b, _) => BundleOk(s.journal, b)
    case Recovering(b, _, h) => BundleOk(s.journal, b) && IsLedger(b) && HandedOver(s, b, h)
    case Found(b, _, _, p, _) => BundleOk(s.journal, b) && IsLedger(b) && Recorded(s.log, b, p)
    case Building(b, _, h) => BundleOk(s.journal, b) && IsLedger(b) && HandedOver(s, b, h)
    case Based(b, _, h, _, _) => BundleOk(s.journal, b) && IsLedger(b) && HandedOver(s, b, h)
    case Confirming(b, _, _, p, _) => BundleOk(s.journal, b) && IsLedger(b)
    case Checkpointed(b, _, _, p, _) => BundleOk(s.journal, b) && IsLedger(b) && Recorded(s.log, b, p)
    case Reloaded(b, _, _, p, _) => BundleOk(s.journal, b) && IsLedger(b) && Recorded(s.log, b, p)
    case Publishing(b, _, _, p, _) => BundleOk(s.journal, b) && IsLedger(b) && Recorded(s.log, b, p)
    case ReadingBack(b, _, _, p, _) => BundleOk(s.journal, b) && IsLedger(b) && Recorded(s.log, b, p)
    case Proven(b, _, _, p, _, _) => BundleOk(s.journal, b) && IsLedger(b) && EffectOk(s, b, p)
    case ConfirmingPublished(b, _, p, _, _) => BundleOk(s.journal, b) && IsLedger(b) && EffectOk(s, b, p)
    case Concluding(b, _, r, effect) => BundleOk(s.journal, b) && OutcomeOk(s, b, r, effect)
    case Terminalizing(b, ambiguous, r, effect, w) =>
      && BundleOk(s.journal, b) && OutcomeOk(s, b, r, effect)
      && Calls(s.journal, w, b.identity.requestId, TerminalOp(b, ambiguous, r))
    case Finalized(b, r, effect) =>
      && BundleOk(s.journal, b) && OutcomeOk(s, b, r, effect)
      && exists c, rec :: OnChain(s.journal, c, b.identity.requestId, rec) && rec.state == r.state
                          && rec.terminalCode == Some(r.code) && rec.terminalReference == Some(r.reference)
  }

  ghost predicate ProcOk(s: World, x: Proc) {
    if InFinalize(x) then FinalizeOk(s, x) else
    match x
    case Accepting(_, frozen, _, w) => Calls(s.journal, w, frozen.requestId, AcceptOp(frozen))
    case Ensuring(g, _) => GoalOk(s, g)
    case ReadyToClaim(i) => IntentOk(s.journal, i)
    case Claiming(i, w) =>
      IntentOk(s.journal, i) && Calls(s.journal, w, i.identity.requestId, ClaimOp(i.executionId))
    case ClaimingDirectly(e, q, revision, w) =>
      && Calls(s.journal, w, q, ClaimOp(e))
      && revision in s.journal.heads && RecordIn(s.journal.store, revision, q).Some?
      && s.journal.store[revision].generation < s.journal.workers[w].since
    case Resuming(i, r, revision) =>
      && IntentOk(s.journal, i) && r.executionId == Some(i.executionId)
      && OnChain(s.journal, revision, i.identity.requestId, r)
    case Prepared(b, durable) => BundleOk(s.journal, b) && (durable ==> exists d :: PrepareBody(b, d) in s.log)
    case FindingIntent(_, _) => true
    case AlreadyFinished(_, _) => true
    case Finalizing(_) => true
    case Stopped => true
  }

  /** Stages in which a run has written neither Git objects nor the task ref: all those before
      it builds a commit, and all those of a run that found the effect recorded. */
  predicate HasNotWritten(x: Proc) {
    || x.Finalizing? || x.Bound? || x.Recovering? || x.Building? || x.Based? || x.Found?
    || (x.Proven? && x.replayed) || (x.Ensuring? && x.goal.PublishedGoal? && x.goal.replayed)
    || (x.ConfirmingPublished? && x.replayed)
  }

  ghost predicate OpOk(s: World, x: Worker) {
    x.op.CompleteOp? || x.op.ReconcileOp? ==>
      && x.op.reference.Some?
      && Justified(s, x.request, x.op.executionId, TerminalResult(x.op.state, x.op.code, x.op.reference.value))
  }

  ghost predicate RecordOk(s: World, q: RequestId, r: Record) {
    Terminal(r.state) ==>
      && r.executionId.Some? && r.terminalCode.Some? && r.terminalReference.Some?
      && Justified(s, q, r.executionId.value, TerminalResult(r.state, r.terminalCode.value, r.terminalReference.value))
  }

  ghost predicate TaskPatchOk(s: World, patch: (Bundle, Publication)) {
    BundleOk(s.journal, patch.0) && FirstPublication(s.log, patch.0, patch.1)
  }

  ghost predicate JournalOk(s: World) {
    && Inv(s.journal)
    && (forall c, q | c in s.journal.store && q in s.journal.store[c].tree :: RecordOk(s, q, s.journal.store[c].tree[q]))
    && forall w | w in s.journal.workers :: OpOk(s, s.journal.workers[w])
  }

  ghost predicate WorldInv(s: World) {
    && JournalOk(s)
    && (forall body | body in s.log :: BodyOk(s, body))
    && (forall body | body in s.posts :: BodyOk(s, body))
    && (forall p | p in s.procs :: ProcOk(s, s.procs[p]))
    && (forall p | p in s.taskPatches :: TaskPatchOk(s, s.taskPatches[p]))
    && (forall p | p in s.procs && HasNotWritten(s.procs[p]) :: p !in s.taskWriters)
    && s.taskWriters <= s.procs.Keys
  }

  // ----- persistence

  ghost predicate Grows(s: World, t: World) {
    && Extends(s.journal, t.journal)
    && s.log <= t.log && s.readBacks <= t.readBacks && s.confirmed <= t.confirmed
    && (forall c | c in s.taskCommits :: c in t.taskCommits && t.taskCommits[c] == s.taskCommits[c])
    && forall branch | branch in s.taskHeads ::
         branch in t.taskHeads && s.taskHeads[branch] <= t.taskHeads[branch]
  }

  lemma {:induction false} MatchesGrow(log: seq<Body>, more: seq<Body>, key: Key)
    requires log <= more
    ensures Matches(log, key) <= Matches(more, key)
    decreases |more|
  {
    if |log| < |more| {
      MatchesGrow(log, more[..|more| - 1], key);
    } else {
      assert log == more;
    }
  }

  lemma FirstPersists(log: seq<Body>, more: seq<Body>, key: Key)
    requires log <= more && First(log, key).Some?
    ensures First(more, key) == First(log, key) && Matches(more, key) != []
    ensures Matches(more, key)[0] == Matches(log, key)[0]
  {
    MatchesGrow(log, more, key);
    assert Matches(log, key)[0] in Matches(log, key);
  }

  lemma OnChainPersists(j: Journal, k: Journal, c: Sha, q: RequestId, r: Record)
    requires Extends(j, k) && OnChain(j, c, q, r)
    ensures OnChain(k, c, q, r)
  {
    InHeadsPersists(j, k, c);
  }

  lemma InHeadsPersists(j: Journal, k: Journal, c: Sha)
    requires Extends(j, k) && c in j.heads
    ensures c in k.heads
  {
    var i :| 0 <= i < |j.heads| && j.heads[i] == c;
    assert k.heads[i] == c;
  }

  lemma BundlePersists(j: Journal, k: Journal, b: Bundle)
    requires Extends(j, k) && BundleOk(j, b)
    ensures BundleOk(k, b)
  {
    OnChainPersists(j, k, b.acceptedRevision, b.identity.requestId, Reset(b.canonicalRecord));
    OnChainPersists(j, k, b.claimRevision, b.identity.requestId, b.canonicalRecord);
  }

  lemma IntentPersists(j: Journal, k: Journal, i: Intent)
    requires Extends(j, k) && IntentOk(j, i)
    ensures IntentOk(k, i)
  {
    InHeadsPersists(j, k, i.acceptedRevision);
  }

  lemma EffectPersists(s: World, t: World, b: Bundle, p: Publication)
    requires Grows(s, t) && EffectOk(s, b, p)
    ensures EffectOk(t, b, p)
  {
    FirstPersists(s.log, t.log, BundleKey(PublicationKind, b));
    var i :| 0 <= i < |s.taskHeads[p.branch]| && s.taskHeads[p.branch][i] == p.commit;
    assert t.taskHeads[p.branch][i] == p.commit;
  }

  lemma SuccessPersists(s: World, t: World, b: Bundle, p: Publication, r: TerminalResult)
    requires Grows(s, t) && LedgerSuccessOk(s, b, p, r)
    ensures LedgerSuccessOk(t, b, p, r)
  {
    var id :| PublishedAt(s, b, p, id) && r == TerminalResult(Succeeded, CodeFor(p), Reference(b.identity, id));
    EffectPersists(s, t, b, p);
    FirstPersists(s.log, t.log, BundleKey(PublishedKind, b));
    assert PublishedAt(t, b, p, id);
  }

  lemma {:induction false} ReceiptMatchesGrow(log: seq<Body>, more: seq<Body>, b: Bundle)
    requires log <= more
    ensures ReceiptMatches(log, b) <= ReceiptMatches(more, b)
    decreases |more|
  {
    if |log| < |more| {
      ReceiptMatchesGrow(log, more[..|more| - 1], b);
    } else {
      assert log == more;
    }
  }

  lemma ReceiptPersists(s: World, t: World, b: Bundle, v: Verdict, id: nat)
    requires Grows(s, t) && ReceiptAt(s, b, v, id)
    ensures ReceiptAt(t, b, v, id)
  {
    ReceiptMatchesGrow(s.log, t.log, b);
  }

  lemma HandedOverPersists(s: World, t: World, b: Bundle, h: Handoff)
    requires Grows(s, t) && HandedOver(s, b, h)
    ensures HandedOver(t, b, h)
  {
    var id :| ReceiptAt(s, b, CandidateReady(h), id);
    ReceiptPersists(s, t, b, CandidateReady(h), id);
  }

  lemma DelegatedPersists(s: World, t: World, b: Bundle, p: Publication)
    requires Grows(s, t) && Delegated(s, b, p)
    ensures Delegated(t, b, p)
  {
    var h :| HandedOver(s, b, h) && Linked(p, h);
    HandedOverPersists(s, t, b, h);
  }

  lemma OutcomePersists(s: World, t: World, b: Bundle, r: TerminalResult, effect: Option<Publication>)
    requires Grows(s, t) && OutcomeOk(s, b, r, effect)
    ensures OutcomeOk(t, b, r, effect)
  {
    if effect.Some? {
      SuccessPersists(s, t, b, effect.value, r);
    } else {
      var id :| ReceiptAt(s, b, Final(r.state, r.code), id) && r.reference == Reference(b.identity, id);
      ReceiptPersists(s, t, b, Final(r.state, r.code), id);
    }
  }

  lemma JustifiedPersists(s: World, t: World, q: RequestId, e: string, r: TerminalResult)
    requires Grows(s, t) && Justified(s, q, e, r)
    ensures Justified(t, q, e, r)
  {
    var b, effect :| OutcomeFor(s, b, effect, q, e, r);
    BundlePersists(s.journal, t.journal, b);
    OutcomePersists(s, t, b, r, effect);
    assert OutcomeFor(t, b, effect, q, e, r);
  }

  lemma BodyPersists(s: World, t: World, body: Body)
    requires Grows(s, t) && BodyOk(s, body)
    ensures BodyOk(t, body)
  {
    match body
    case IntentBody(i) => IntentPersists(s.journal, t.journal, i);
    case PrepareBody(b, _) => BundlePersists(s.journal, t.journal, b);
    case PublicationBody(b, p) => BundlePersists(s.journal, t.journal, b); DelegatedPersists(s, t, b, p);
    case PublishedBody(b, p) => BundlePersists(s.journal, t.journal, b); EffectPersists(s, t, b, p);
    case _ =>
  }

  function BundleOf(x: Proc): Option<Bundle> {
    match x
    case Prepared(b, _) => Some(b)
    case Bound(b, _) => Some(b)
    case Recovering(b, _, _) => Some(b)
    case Found(b, _, _, _, _) => Some(b)
    case Building(b, _, _) => Some(b)
    case Based(b, _, _, _, _) => Some(b)
    case Confirming(b, _, _, _, _) => Some(b)
    case Checkpointed(b, _, _, _, _) => Some(b)
    case Reloaded(b, _, _, _, _) => Some(b)
    case Publishing(b, _, _, _, _) => Some(b)
    case ReadingBack(b, _, _, _, _) => Some(b)
    case Proven(b, _, _, _, _, _) => Some(b)
    case ConfirmingPublished(b, _, _, _, _) => Some(b)
    case Concluding(b, _, _, _) => Some(b)
    case Terminalizing(b, _, _, _, _) => Some(b)
    case Finalized(b, _, _) => Some(b)
    case _ => None
  }

  lemma PreparePhasePersists(s: World, t: World, x: Proc)
    requires Grows(s, t) && ProcOk(s, x)
    requires x.Accepting? || x.Ensuring? || x.ReadyToClaim? || x.Claiming? || x.ClaimingDirectly? || x.Resuming? || x.Prepared?
    ensures ProcOk(t, x)
  {
    hide FinalizeOk;
    if x.Ensuring? {
      BodyPersists(s, t, BodyFor(x.goal));
    } else if x.ReadyToClaim? || x.Claiming? {
      IntentPersists(s.journal, t.journal, x.intent);
    } else if x.ClaimingDirectly? {
      InHeadsPersists(s.journal, t.journal, x.acceptedRevision);
    } else if x.Resuming? {
      IntentPersists(s.journal, t.journal, x.intent);
      OnChainPersists(s.journal, t.journal, x.revision, x.intent.identity.requestId, x.record);
    } else if x.Prepared? {
      BundlePersists(s.journal, t.journal, x.bundle);
      if x.durable {
        var d :| PrepareBody(x.bundle, d) in s.log;
        InLogPersists(s.log, t.log, PrepareBody(x.bundle, d));
      }
    }
  }

  lemma InLogPersists(log: seq<Body>, more: seq<Body>, body: Body)
    requires log <= more && body in log
    ensures body in more
  {
    var i :| 0 <= i < |log| && log[i] == body;
    assert more[i] == body;
  }

  lemma FinalizePhasePersists(s: World, t: World, x: Proc)
    requires Grows(s, t) && ProcOk(s, x) && BundleOf(x).Some? && !x.Prepared?
    ensures ProcOk(t, x)
  {
    var b := BundleOf(x).value;
    BundlePersists(s.journal, t.journal, b);
    if x.Recovering? || x.Building? || x.Based? {
      HandedOverPersists(s, t, b, x.handoff);
    } else if x.Found? || x.Checkpointed? || x.Reloaded? || x.Publishing? || x.ReadingBack? {
      FirstPersists(s.log, t.log, BundleKey(PublicationKind, b));
    } else if x.Proven? || x.ConfirmingPublished? {
      EffectPersists(s, t, b, x.publication);
    } else if x.Concluding? || x.Terminalizing? || x.Finalized? {
      OutcomePersists(s, t, b, x.result, x.effect);
      if x.Finalized? {
        var c, rec :| OnChain(s.journal, c, b.identity.requestId, rec) && rec.state == x.result.state
                      && rec.terminalCode == Some(x.result.code) && rec.terminalReference == Some(x.result.reference);
        OnChainPersists(s.journal, t.journal, c, b.identity.requestId, rec);
      }
    }
  }

  lemma ProcPersists(s: World, t: World, x: Proc)
    requires Grows(s, t) && ProcOk(s, x)
    ensures ProcOk(t, x)
  {
    hide FinalizeOk;
    if x.Accepting? || x.Ensuring? || x.ReadyToClaim? || x.Claiming? || x.ClaimingDirectly? || x.Resuming? || x.Prepared? {
      PreparePhasePersists(s, t, x);
    } else if BundleOf(x).Some? {
      FinalizePhasePersists(s, t, x);
    }
  }
}
