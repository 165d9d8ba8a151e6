/** Every step of the Publisher's system keeps its invariant. */
module PublisherSteps {
  import opened Common
  import opened JournalRecord
  import opened JournalProtocol
  import opened JournalSafety
  import opened Markers
  import opened PublisherProtocol
  import opened PublisherInvariant

  // ----- bundles and the chain of heads

  /** Below a head there are exactly the heads before it. */
  lemma {:induction false} AncestorsOfHeads(j: Journal, a: Sha, k: nat)
    requires HeadsInv(j) && k < |j.heads|
    ensures Ancestor(j.store, a, j.heads[k]) <==> a in j.heads[..k + 1]
  {
    if k > 0 {
      AncestorsOfHeads(j, a, k - 1);
      assert ParentBefore(j, k);
      assert j.heads[..k + 1] == j.heads[..k] + [j.heads[k]];
    }
  }

  lemma IndexOfHead(j: Journal, c: Sha) returns (i: nat)
    requires c in j.heads
    ensures i < |j.heads| && j.heads[i] == c
  {
    i :| 0 <= i < |j.heads| && j.heads[i] == c;
  }

  lemma SameFrozen(j: Journal, c: Sha, d: Sha, q: RequestId, r: Record, u: Record)
    requires Chain(j) && OnChain(j, c, q, r) && OnChain(j, d, q, u)
    ensures r.frozen == u.frozen && r.frozen.requestId == q && Consistent(r)
    ensures r.executionId.Some? && u.executionId.Some? ==> r.executionId == u.executionId
    ensures Terminal(r.state) && Terminal(u.state) ==> r == u
    ensures j.store[c].generation <= j.store[d].generation ==> Evolves(Some(r), Some(u))
  {
    var i := IndexOfHead(j, c);
    var k := IndexOfHead(j, d);
    LookupIsConsistent(j.store[c].tree, q);
    if i <= k { HeadsEvolve(j, i, k, q); } else { HeadsEvolve(j, k, i, q); }
  }

  /** The check a bundle must pass at the current head is equivalent to its two revisions
      being heads that held the accepted and the executing record, the owner not having been
      replaced; so it never stops passing. */
  lemma VerificationIsStable(j: Journal, b: Bundle)
    requires Inv(j)
    ensures BundleOk(j, b) <==>
              CurrentRecord(j, b.identity.requestId).Some? &&
              VerifyBundle(j, b, Head(j), CurrentRecord(j, b.identity.requestId).value)
  {
    var n := |j.heads| - 1;
    var q := b.identity.requestId;
    assert j.heads[..n + 1] == j.heads;
    AncestorsOfHeads(j, b.claimRevision, n);
    if b.claimRevision in j.heads {
      var k := IndexOfHead(j, b.claimRevision);
      AncestorsOfHeads(j, b.acceptedRevision, k);
      if BundleOk(j, b) {
        OkBundleVerifies(j, b, k);
      }
    }
  }

  lemma OkBundleVerifies(j: Journal, b: Bundle, k: nat)
    requires Chain(j) && BundleOk(j, b) && k < |j.heads| && j.heads[k] == b.claimRevision
    ensures b.acceptedRevision in j.heads[..k + 1]
    ensures var now := CurrentRecord(j, b.identity.requestId);
            && now.Some? && now.value.frozen == b.canonicalRecord.frozen
            && now.value.executionId == b.canonicalRecord.executionId
  {
    var q := b.identity.requestId;
    var i := IndexOfHead(j, b.acceptedRevision);
    HeadsEvolve(j, k, |j.heads| - 1, q);
    if k < i { HeadsEvolve(j, k, i, q); }
    assert j.heads[..k + 1][i] == b.acceptedRevision;
  }

  /** All bundles of one request name the same execution. */
  lemma OneOwner(j: Journal, b: Bundle, d: Bundle)
    requires Inv(j) && BundleOk(j, b) && BundleOk(j, d) && b.identity.requestId == d.identity.requestId
    ensures b.executionId == d.executionId && b.identity == d.identity
  {
    SameFrozen(j, b.claimRevision, d.claimRevision, b.identity.requestId, b.canonicalRecord, d.canonicalRecord);
  }

  lemma BundleFromIntent(j: Journal, i: Intent, r: Record, revision: Sha)
    requires Inv(j) && IntentOk(j, i) && OnChain(j, revision, i.identity.requestId, r)
    requires r.state.Executing? && r.executionId == Some(i.executionId)
    ensures BundleOk(j, BundleFrom(r, i.executionId, i.acceptedRevision, revision))
    ensures BundleFrom(r, i.executionId, i.acceptedRevision, revision).identity == i.identity
  {
    var q := i.identity.requestId;
    var a := RecordIn(j.store, i.acceptedRevision, q).value;
    SameFrozen(j, revision, i.acceptedRevision, q, r, a);
  }

  // ----- what the answered journal calls say

  lemma AnswersAreOnChain(j: Journal, w: WorkerId)
    requires Inv(j) && Answered(j, w).Some?
    ensures var r := Answered(j, w).value;
            OnChain(j, r.revision, j.workers[w].request, r.record)
  {
    assert WorkerInv(j, w);
    if j.workers[w].stage.Published? {
      assert j.store[j.workers[w].stage.result.revision].tree[j.workers[w].request] == j.workers[w].stage.result.record;
    }
  }

  lemma ClaimAnswers(j: Journal, w: WorkerId)
    requires Inv(j) && Answered(j, w).Some? && j.workers[w].op.ClaimOp?
    ensures var x, r := j.workers[w], Answered(j, w).value;
            && (r.disposition.Grant? || r.disposition.NeedsReconciliation? || r.disposition.AlreadyTerminal?)
            && (r.disposition.Grant? ==>
                  && IsGranted(j, w, x.request) && r.record.state.Executing? && r.record.executionId == Some(x.op.executionId)
                  && r.revision in j.store && x.since <= j.store[r.revision].generation)
            && (r.disposition.NeedsReconciliation? ==> r.record.state.Executing? || r.record.state.Ambiguous?)
  {
    var x := j.workers[w];
    assert WorkerInv(j, w);
    LookupIsConsistent(x.stage.snapshot.tree, x.request);
    DecisionsArePermitted(x.op, x.stage.snapshot.record, x.request);
  }

  /** The acceptance revision read before a granted claim held the record the claim reset gives. */
  lemma AcceptedBeforeGrant(j: Journal, q: RequestId, a: Sha, c: Sha)
    requires Inv(j) && a in j.heads && RecordIn(j.store, a, q).Some?
    requires c in j.heads && j.store[c].parent.Some? && j.store[c].parent.value in j.store
    requires RecordAt(j, j.store[c].parent.value, q).Some? && RecordAt(j, j.store[c].parent.value, q).value.state.Accepted?
    requires RecordAt(j, c, q).Some? && j.store[a].generation < j.store[c].generation
    ensures OnChain(j, a, q, Reset(RecordAt(j, c, q).value))
  {
    var k := IndexOfHead(j, c);
    var i := IndexOfHead(j, a);
    assert ParentBefore(j, k);
    HeadsEvolve(j, i, k - 1, q);
    NextHeadEvolves(j, k - 1, q);
    LookupIsConsistent(j.store[a].tree, q);
  }

  lemma DirectBundle(j: Journal, e: string, q: RequestId, acceptedRevision: Sha, w: WorkerId)
    requires Inv(j) && Answered(j, w).Some? && Answered(j, w).value.disposition.Grant?
    requires Calls(j, w, q, ClaimOp(e)) && acceptedRevision in j.heads && RecordIn(j.store, acceptedRevision, q).Some?
    requires j.store[acceptedRevision].generation < j.workers[w].since
    ensures BundleOk(j, BundleFrom(Answered(j, w).value.record, e, acceptedRevision, Answered(j, w).value.revision))
  {
    var r := Answered(j, w).value;
    ClaimAnswers(j, w);
    AnswersAreOnChain(j, w);
    GrantIsTheClaimCommit(j, w, q);
    AcceptedBeforeGrant(j, q, acceptedRevision, r.revision);
    SameFrozen(j, r.revision, r.revision, q, r.record, r.record);
    hide StoreInv, HeadsInv, Answered;
  }

  /** A terminal record was put there by the call whose operation says exactly so. */
  lemma TerminalComesFromTheOperation(op: Op, stored: Option<Record>, r: Record)
    requires Decide(op, stored) == Publish(r) && stored != Some(r) && Terminal(r.state)
    ensures (op.CompleteOp? || op.ReconcileOp?) && op.state == r.state
    ensures r.terminalCode == Some(op.code) && r.terminalReference == op.reference && r.executionId == Some(op.executionId)
  {
  }

  // ----- growth

  lemma LabelIsEnabled(s: World, l: Step)
    requires CanStep(s, l) && JournalLabel(s, l).Some?
    ensures Enabled(s.journal, JournalLabel(s, l).value)
  {
    hide Enabled;
  }

  lemma StepGrows(s: World, l: Step)
    requires CanStep(s, l)
    ensures Grows(s, WorldNext(s, l))
  {
    hide Extends, ProcAfter, JournalLabel, CanStep, LogAfter, TaskHeadsAfter, TaskCommitsAfter;
    var jl := JournalLabel(s, l);
    if jl.Some? {
      LabelIsEnabled(s, l);
      StepExtends(s.journal, jl.value);
    } else {
      SameExtends(s.journal);
    }
    CommitsGrow(s, l);
    LogAndHeadsGrow(s, l);
  }

  lemma LogAndHeadsGrow(s: World, l: Step)
    ensures s.log <= LogAfter(s, l)
    ensures forall branch | branch in s.taskHeads ::
              branch in TaskHeadsAfter(s, l) && s.taskHeads[branch] <= TaskHeadsAfter(s, l)[branch]
  {
  }

  lemma SameExtends(j: Journal)
    ensures Extends(j, j)
  {
  }

  lemma CommitsGrow(s: World, l: Step)
    requires CanStep(s, l)
    ensures forall c | c in s.taskCommits :: c in TaskCommitsAfter(s, l) && TaskCommitsAfter(s, l)[c] == s.taskCommits[c]
  {
    hide Enabled;
  }

  // ----- the journal part

  lemma RecordPersists(s: World, t: World, q: RequestId, r: Record)
    requires Grows(s, t) && RecordOk(s, q, r)
    ensures RecordOk(t, q, r)
  {
    if Terminal(r.state) {
      JustifiedPersists(s, t, q, r.executionId.value,
                        TerminalResult(r.state, r.terminalCode.value, r.terminalReference.value));
    }
  }

  lemma OpPersists(s: World, t: World, x: Worker, y: Worker)
    requires Grows(s, t) && OpOk(s, x) && y.op == x.op && y.request == x.request
    ensures OpOk(t, y)
  {
    if x.op.CompleteOp? || x.op.ReconcileOp? {
      JustifiedPersists(s, t, x.request, x.op.executionId, TerminalResult(x.op.state, x.op.code, x.op.reference.value));
    }
  }

  /** What one journal step does to the store and to the calls. */
  lemma JournalStepKeepsOk(s: World, jl: Label, t: World)
    requires JournalOk(s) && Enabled(s.journal, jl) && t.journal == Next(s.journal, jl) && Grows(s, t)
    requires jl.Begin? ==> OpOk(t, Worker(jl.request, jl.op, |s.journal.heads|, Begun))
    ensures JournalOk(t)
  {
    StepKeepsInv(s.journal, jl);
    forall c, q | c in t.journal.store && q in t.journal.store[c].tree
      ensures RecordOk(t, q, t.journal.store[c].tree[q])
    {
      if c in s.journal.store {
        RecordPersists(s, t, q, s.journal.store[c].tree[q]);
      } else {
        CreatedRecordOk(s, jl, t, c, q);
      }
    }
    forall w | w in t.journal.workers ensures OpOk(t, t.journal.workers[w]) {
      if w in s.journal.workers { OpPersists(s, t, s.journal.workers[w], t.journal.workers[w]); }
    }
  }

  lemma CreatedRecordOk(s: World, jl: Label, t: World, c: Sha, q: RequestId)
    requires JournalOk(s) && Enabled(s.journal, jl) && t.journal == Next(s.journal, jl) && Grows(s, t)
    requires c !in s.journal.store && c in t.journal.store && q in t.journal.store[c].tree
    ensures RecordOk(t, q, t.journal.store[c].tree[q])
  {
    var w := jl.w;
    assert jl.Create? && jl.id == c;
    var x := s.journal.workers[w];
    assert WorkerInv(s.journal, w) && OpOk(s, x);
    var r := t.journal.store[c].tree[q];
    if q == x.request {
      if Terminal(r.state) {
        TerminalComesFromTheOperation(x.op, x.stage.snapshot.record, r);
        OpPersists(s, t, x, x);
      }
    } else {
      assert x.stage.snapshot.head in s.journal.store && q in s.journal.store[x.stage.snapshot.head].tree;
      RecordPersists(s, t, q, r);
    }
  }

  lemma JournalUnchanged(s: World, t: World)
    requires JournalOk(s) && Grows(s, t) && t.journal == s.journal
    ensures JournalOk(t)
  {
    forall c, q | c in t.journal.store && q in t.journal.store[c].tree
      ensures RecordOk(t, q, t.journal.store[c].tree[q])
    {
      RecordPersists(s, t, q, t.journal.store[c].tree[q]);
    }
    forall w | w in t.journal.workers ensures OpOk(t, t.journal.workers[w]) {
      OpPersists(s, t, s.journal.workers[w], t.journal.workers[w]);
    }
  }

  lemma TerminalOpOk(s: World, t: World, x: Proc)
    requires Grows(s, t) && x.Concluding? && ProcOk(s, x)
    ensures OpOk(t, Worker(x.bundle.identity.requestId, TerminalOp(x.bundle, x.ambiguous, x.result), |s.journal.heads|, Begun))
  {
    hide Extends;
    BundlePersists(s.journal, t.journal, x.bundle);
    OutcomePersists(s, t, x.bundle, x.result, x.effect);
    hide OutcomeOk, BundleOk;
    assert OutcomeFor(t, x.bundle, x.effect, x.bundle.identity.requestId, x.bundle.executionId, x.result);
  }

  /** Only the Terminalize step begins a call that ends a record. */
  lemma BegunOpOk(s: World, l: Step, t: World, jl: Label)
    requires CanStep(s, l) && Grows(s, t) && JournalLabel(s, l) == Some(jl) && jl.Begin?
    requires l.Terminalize? ==> ProcOk(s, s.procs[l.p])
    ensures OpOk(t, Worker(jl.request, jl.op, |s.journal.heads|, Begun))
  {
    hide Grows, ProcOk, Enabled;
    if l.Terminalize? { TerminalOpOk(s, t, s.procs[l.p]); }
    hide Justified;
  }

  lemma StepKeepsJournalOk(s: World, l: Step)
    requires WorldInv(s) && CanStep(s, l)
    ensures JournalOk(WorldNext(s, l))
  {
    var t := WorldNext(s, l);
    StepGrows(s, l);
    assert l.Terminalize? ==> l.p in s.procs;
    hide CanStep, JournalLabel, ProcAfter, JournalOk, Grows;
    match JournalLabel(s, l)
    case Some(jl) =>
      LabelIsEnabled(s, l);
      if jl.Begin? { BegunOpOk(s, l, t, jl); }
      JournalStepKeepsOk(s, jl, t);
    case None => JournalUnchanged(s, t);
  }

  // ----- the acting process

  /** `AfterStep` collects what a step's lemma may use: the invariant before, and the state
      after, which extends it. */
  ghost predicate AfterStep(s: World, l: Step, t: World) {
    && WorldInv(s) && CanStep(s, l) && t == WorldNext(s, l) && Grows(s, t) && JournalOk(t)
    && t.readBacks == ReadBacksAfter(s, l) && t.confirmed == ConfirmedAfter(s, l)
  }

  /** What the lemma about one acting process needs of it. */
  ghost predicate Acting(s: World, l: Step, t: World) {
    CanStep(s, l) && Grows(s, t) && Actor(l).Some? && (l.p in s.procs ==> ProcOk(s, s.procs[l.p]))
  }

  lemma UniqueIsFirst(log: seq<Body>, key: Key, id: nat)
    requires Unique(log, key, id)
    ensures First(log, key) == Some(log[id]) && KeyOf(log[id]) == Some(key) && !Clogs(log[id], key.kind)
  {
    assert id in Matches(log, key);
    hide Clogs;
    assert log[id] in log;
  }

  lemma EnsuringIsOk(s: World, x: Proc)
    requires x.Ensuring?
    ensures ProcOk(s, x) <==> BodyOk(s, BodyFor(x.goal))
  {
    hide BodyOk;
  }

  lemma AchievedGoalIsOk(s: World, g: Goal, id: nat)
    requires BodyOk(s, BodyFor(g)) && id < |s.log| && s.log[id] == BodyFor(g)
    ensures ProcOk(s, Achieved(g, id))
  {
    hide BundleOk, IntentOk, EffectOk, Delegated;
    if g.PrepareGoal? { assert PrepareBody(g.bundle, g.disposition) in s.log; }
  }

  lemma AchievedIsOk(s: World, l: Step, t: World)
    requires Acting(s, l, t) && (l.FindComment? || l.AckComment?)
    ensures ProcOk(t, ProcAfter(s, l))
  {
    hide CanFinalize, FinalizeAfter, Achieved, ProcOk, BodyOk, Extends, Enabled;
    var x := s.procs[l.p];
    EnsuringIsOk(s, x);
    BodyPersists(s, t, BodyFor(x.goal));
    AchievedGoalIsOk(t, x.goal, l.id);
  }

  lemma PostedIsOk(s: World, l: Step, t: World)
    requires Acting(s, l, t) && l.PostComment?
    ensures ProcOk(t, ProcAfter(s, l))
  {
    hide CanFinalize, FinalizeAfter, ProcOk, BodyOk, Extends, Enabled;
    var x := s.procs[l.p];
    EnsuringIsOk(s, x);
    BodyPersists(s, t, BodyFor(x.goal));
    EnsuringIsOk(t, ProcAfter(s, l));
  }

  lemma StoppedIsOk(s: World, l: Step, t: World)
    requires CanStep(s, l) && (l.Stop? || l.StartFinalize?)
    ensures ProcOk(t, ProcAfter(s, l))
  {
    hide Enabled;
  }

  lemma PrepareStarts(s: World, l: Step, t: World)
    requires CanStep(s, l) && t == WorldNext(s, l) && l.StartPrepare?
    ensures ProcOk(t, ProcAfter(s, l))
  {
    hide CanFinalize, FinalizeAfter, FinalizeOk;
  }

  lemma ClaimStarts(s: World, l: Step, t: World)
    requires Acting(s, l, t) && t == WorldNext(s, l) && l.StartClaim?
    ensures ProcOk(t, ProcAfter(s, l))
  {
    hide CanFinalize, FinalizeAfter, FinalizeOk, LogAfter, PostsAfter, TaskHeadsAfter, TaskCommitsAfter,
         TaskPatchesAfter, TaskWritersAfter, ReadBacksAfter, ConfirmedAfter, IntentOk, Extends;
    ProcPersists(s, t, s.procs[l.p]);
  }

  lemma TerminalStarts(s: World, l: Step, t: World)
    requires Acting(s, l, t) && t == WorldNext(s, l) && l.Terminalize?
    ensures ProcOk(t, ProcAfter(s, l))
  {
    hide LogAfter, PostsAfter, TaskHeadsAfter, TaskCommitsAfter, TaskPatchesAfter, TaskWritersAfter, ReadBacksAfter,
         ConfirmedAfter, OutcomeOk, BundleOk, Extends;
    ProcPersists(s, t, s.procs[l.p]);
  }

  lemma AcceptanceIsOk(s: World, l: Step, t: World)
    requires Acting(s, l, t) && Inv(s.journal) && t == WorldNext(s, l) && l.TakeAcceptance?
    ensures ProcOk(t, ProcAfter(s, l))
  {
    hide CanFinalize, FinalizeAfter, FinalizeOk;
    var x := s.procs[l.p];
    var r := Answered(s.journal, x.w).value;
    AcceptanceAnswers(s, x, t);
    if x.durable {
      AcceptedIsOk(t, x, r);
    } else {
      DirectClaimIsOk(s, l, t, r);
    }
  }

  lemma AcceptedIsOk(t: World, x: Proc, r: CallResult)
    requires x.Accepting? && OnChain(t.journal, r.revision, x.frozen.requestId, r.record)
    requires r.record.frozen.requestId == x.frozen.requestId && (r.record.state.Accepted? ==> r.record == Reset(r.record))
    ensures ProcOk(t, AfterAcceptance(x, r))
  {
  }

  lemma DirectClaimIsOk(s: World, l: Step, t: World, r: CallResult)
    requires CanStep(s, l) && t == WorldNext(s, l) && l.TakeAcceptance? && !s.procs[l.p].durable
    requires Some(r) == Answered(s.journal, s.procs[l.p].w)
    requires OnChain(t.journal, r.revision, s.procs[l.p].frozen.requestId, r.record)
    requires t.journal.store[r.revision].generation < |s.journal.heads|
    ensures ProcOk(t, ProcAfter(s, l))
  {
    hide CanFinalize, FinalizeAfter, FinalizeOk;
  }

  lemma AcceptanceAnswers(s: World, x: Proc, t: World)
    requires Grows(s, t) && Inv(s.journal) && ProcOk(s, x) && x.Accepting? && Answered(s.journal, x.w).Some?
    ensures var r := Answered(s.journal, x.w).value;
            && OnChain(s.journal, r.revision, x.frozen.requestId, r.record)
            && OnChain(t.journal, r.revision, x.frozen.requestId, r.record)
            && s.journal.store[r.revision].generation < |s.journal.heads|
            && t.journal.store[r.revision].generation == s.journal.store[r.revision].generation
            && r.record.frozen.requestId == x.frozen.requestId
            && (r.record.state.Accepted? ==> r.record == Reset(r.record))
  {
    var r := Answered(s.journal, x.w).value;
    AnswersAreOnChain(s.journal, x.w);
    OnChainPersists(s.journal, t.journal, r.revision, x.frozen.requestId, r.record);
    var i := IndexOfHead(s.journal, r.revision);
    LookupIsConsistent(s.journal.store[r.revision].tree, x.frozen.requestId);
  }

  lemma ClaimIsOk(s: World, l: Step, t: World)
    requires Acting(s, l, t) && Inv(s.journal) && Inv(t.journal) && l.TakeClaim? && s.procs[l.p].Claiming?
    ensures ProcOk(t, ProcAfter(s, l))
  {
    hide CanFinalize, FinalizeAfter, FinalizeOk, Extends, Inv, IntentOk, BundleOk, Answered;
    var x := s.procs[l.p];
    var r := Answered(s.journal, x.w).value;
    ClaimAnswers(s.journal, x.w);
    AnswersAreOnChain(s.journal, x.w);
    IntentPersists(s.journal, t.journal, x.intent);
    OnChainPersists(s.journal, t.journal, r.revision, x.intent.identity.requestId, r.record);
    if r.disposition.Grant? { BundleFromIntent(t.journal, x.intent, r.record, r.revision); }
  }

  lemma GrantIsOk(s: World, l: Step, t: World)
    requires Acting(s, l, t) && Inv(s.journal) && l.TakeClaim? && s.procs[l.p].ClaimingDirectly?
    ensures ProcOk(t, ProcAfter(s, l))
  {
    hide CanFinalize, FinalizeAfter, FinalizeOk, Extends, Inv, IntentOk, BundleOk, Answered;
    var x := s.procs[l.p];
    var r := Answered(s.journal, x.w).value;
    ClaimAnswers(s.journal, x.w);
    if r.disposition.Grant? {
      DirectBundle(s.journal, x.executionId, x.requestId, x.acceptedRevision, x.w);
      BundlePersists(s.journal, t.journal, BundleFrom(r.record, x.executionId, x.acceptedRevision, r.revision));
    }
  }

  lemma RebuiltIsOk(s: World, l: Step, t: World)
    requires Acting(s, l, t) && l.RebuildBundle? && Inv(t.journal)
    ensures ProcOk(t, ProcAfter(s, l))
  {
    hide CanFinalize, FinalizeAfter, FinalizeOk, Extends, Inv, Enabled, IntentOk, BundleOk, OnChain;
    var x := s.procs[l.p];
    IntentPersists(s.journal, t.journal, x.intent);
    OnChainPersists(s.journal, t.journal, x.revision, x.intent.identity.requestId, x.record);
    BundleFromIntent(t.journal, x.intent, x.record, x.revision);
    EnsuringIsOk(t, ProcAfter(s, l));
  }

  lemma FoundIntentIsOk(s: World, l: Step, t: World)
    requires Acting(s, l, t) && l.FindIntent? && BodyOk(s, s.log[l.id])
    ensures ProcOk(t, ProcAfter(s, l))
  {
    hide CanFinalize, FinalizeAfter, FinalizeOk, Extends, Inv, Enabled;
    BodyPersists(s, t, s.log[l.id]);
  }

  lemma PreparedIsOk(s: World, b: Bundle, d: Disposition)
    requires BundleOk(s.journal, b) && PrepareBody(b, d) in s.log
    ensures ProcOk(s, Prepared(b, true))
  {
    hide BundleOk;
  }

  lemma FoundCheckpointIsOk(s: World, l: Step, t: World)
    requires Acting(s, l, t) && l.FindCheckpoint? && BodyOk(s, s.log[l.id])
    ensures ProcOk(t, ProcAfter(s, l))
  {
    hide CanFinalize, FinalizeAfter, ProcOk, BundleOk, Extends, Enabled;
    var body := s.log[l.id];
    BundlePersists(s.journal, t.journal, body.bundle);
    InLogPersists(s.log, t.log, body);
    PreparedIsOk(t, body.bundle, body.disposition);
  }

  lemma BindingIsOk(s: World, l: Step, t: World)
    requires Acting(s, l, t) && Inv(s.journal) && (l.BindBundle? || l.TakeReceipt?)
    ensures ProcOk(t, ProcAfter(s, l))
  {
    if l.BindBundle? { BoundIsOk(s, l, t); } else { ReceivedIsOk(s, l, t); }
  }

  lemma BoundIsOk(s: World, l: Step, t: World)
    requires Acting(s, l, t) && Inv(s.journal) && l.BindBundle?
    ensures ProcOk(t, ProcAfter(s, l))
  {
    hide Extends, Inv, VerifyBundle, BundleOk;
    VerificationIsStable(s.journal, s.procs[l.p].bundle);
    BundlePersists(s.journal, t.journal, s.procs[l.p].bundle);
  }

  lemma ReceiptFound(s: World, t: World, b: Bundle, id: nat)
    requires Grows(s, t) && ReceiptMatches(s.log, b) == [id]
    ensures id < |s.log| && s.log[id].ReceiptBody? && ReceiptAt(t, b, s.log[id].receipt.verdict, id)
  {
    assert id in ReceiptMatches(s.log, b);
    ReceiptPersists(s, t, b, s.log[id].receipt.verdict, id);
  }

  lemma ReceivedIsOk(s: World, l: Step, t: World)
    requires Acting(s, l, t) && l.TakeReceipt?
    ensures ProcOk(t, ProcAfter(s, l))
  {
    var b := s.procs[l.p].bundle;
    ProcPersists(s, t, s.procs[l.p]);
    ReceiptFound(s, t, b, l.id);
    hide ReceiptAt, BundleOk;
    var v := s.log[l.id].receipt.verdict;
    VerdictIsOk(t, b, s.procs[l.p].ambiguous, v, l.id);
  }

  lemma VerdictIsOk(t: World, b: Bundle, ambiguous: bool, v: Verdict, id: nat)
    requires BundleOk(t.journal, b) && ReceiptAt(t, b, v, id)
    requires if v.CandidateReady? then IsLedger(b) else Terminal(v.state) && (IsLedger(b) ==> v.state.Rejected?)
    ensures ProcOk(t, AfterReceipt(b, ambiguous, v, id))
  {
    hide ReceiptAt, BundleOk, Reference;
    if v.Final? { assert Reported(t, b, TerminalResult(v.state, v.code, Reference(b.identity, id))); }
  }

  lemma UnrecoveredIsOk(s: World, l: Step, t: World)
    requires Acting(s, l, t) && (l.NothingToRecover? || l.ReadBase?)
    ensures ProcOk(t, ProcAfter(s, l))
  {
    hide Extends, BundleOk, Enabled, VerifyBundle, IntentMatches;
    ProcPersists(s, t, s.procs[l.p]);
  }

  lemma BuiltIsOk(s: World, l: Step, t: World)
    requires Acting(s, l, t) && l.Build?
    ensures ProcOk(t, ProcAfter(s, l))
  {
    hide Extends, BundleOk, Enabled, VerifyBundle, IntentMatches;
    ProcPersists(s, t, s.procs[l.p]);
    assert Delegated(t, s.procs[l.p].bundle, l.publication);
  }

  lemma SentIsOk(s: World, l: Step, t: World)
    requires Acting(s, l, t) && (l.ReloadCheckpoint? || l.ReadTaskHead? || l.SendTaskPatch?)
    ensures ProcOk(t, ProcAfter(s, l))
  {
    hide Extends, BundleOk, Enabled, VerifyBundle, IntentMatches;
    ProcPersists(s, t, s.procs[l.p]);
  }

  lemma ConfirmedIsOk(s: World, l: Step, t: World)
    requires Acting(s, l, t) && l.Confirm?
    ensures ProcOk(t, ProcAfter(s, l))
  {
    hide Extends, BundleOk, Enabled, VerifyBundle, IntentMatches;
    var x := s.procs[l.p];
    ProcPersists(s, t, x);
    UniqueIsFirst(s.log, BundleKey(PublicationKind, x.bundle), x.id);
    FirstPersists(s.log, t.log, BundleKey(PublicationKind, x.bundle));
  }

  /** A successful readback of the effect recorded first proves it from then on. */
  lemma ReadBackProves(s: World, t: World, b: Bundle, e: Publication)
    requires Recorded(s.log, b, e) && ReadsBack(s, e) && Grows(s, t) && e in t.readBacks
    ensures EffectOk(t, b, e)
  {
    FirstPersists(s.log, t.log, BundleKey(PublicationKind, b));
    var before := s.taskHeads[e.branch];
    assert t.taskHeads[e.branch][|before| - 1] == e.commit;
  }

  lemma RecoveredIsOk(s: World, l: Step, t: World)
    requires Acting(s, l, t) && l.Recover?
    ensures ProcOk(t, ProcAfter(s, l))
  {
    hide Extends, BundleOk, Enabled, VerifyBundle, IntentMatches;
    var x := s.procs[l.p];
    ProcPersists(s, t, x);
    UniqueIsFirst(s.log, BundleKey(PublicationKind, x.bundle), l.id);
    FirstPersists(s.log, t.log, BundleKey(PublicationKind, x.bundle));
  }

  lemma ReadTaskBackIsOk(s: World, l: Step, t: World)
    requires Acting(s, l, t) && (l.ReadTaskBack? || l.ReadRecovered?) && t.readBacks == ReadBacksAfter(s, l)
    ensures ProcOk(t, ProcAfter(s, l))
  {
    hide Extends, BundleOk, ReadsBack, EffectOk, Enabled;
    var x := s.procs[l.p];
    BundlePersists(s.journal, t.journal, x.bundle);
    ReadBackProves(s, t, x.bundle, x.publication);
  }

  lemma CheckedIsOk(s: World, l: Step, t: World)
    requires Acting(s, l, t) && l.CheckResult?
    ensures ProcOk(t, ProcAfter(s, l))
  {
    hide Observed, Extends, BundleOk, Enabled, VerifyBundle, IntentMatches;
    ProcPersists(s, t, s.procs[l.p]);
  }

  lemma ConclusionIsOk(s: World, l: Step, t: World)
    requires Acting(s, l, t) && l.ConfirmPublished? && t.confirmed == ConfirmedAfter(s, l)
    ensures ProcOk(t, ProcAfter(s, l))
  {
    hide Extends, BundleOk, EffectOk, Enabled, Reference;
    var x := s.procs[l.p];
    var key := BundleKey(PublishedKind, x.bundle);
    UniqueIsFirst(s.log, key, x.id);
    FirstPersists(s.log, t.log, key);
    BundlePersists(s.journal, t.journal, x.bundle);
    EffectPersists(s, t, x.bundle, x.publication);
    assert PublishedAt(t, x.bundle, x.publication, x.id);
  }

  lemma MutationAnswers(j: Journal, w: WorkerId)
    requires Inv(j) && Answered(j, w).Some? && (j.workers[w].op.CompleteOp? || j.workers[w].op.ReconcileOp?)
    ensures var r, op := Answered(j, w).value, j.workers[w].op;
            && OnChain(j, r.revision, j.workers[w].request, r.record)
            && r.record.state == op.state && r.record.terminalCode == Some(op.code)
            && r.record.terminalReference == op.reference
  {
    hide Decide;
    AnswersAreOnChain(j, w);
    assert WorkerInv(j, w);
    TerminalAnswer(j.workers[w].op, j.workers[w].stage.snapshot.record, Answered(j, w).value.record);
  }

  lemma MutationIsOk(s: World, l: Step, t: World)
    requires Acting(s, l, t) && Inv(s.journal) && l.TakeMutation?
    ensures ProcOk(t, ProcAfter(s, l))
  {
    hide Extends, Inv, OutcomeOk, BundleOk, Answered, OnChain;
    var x := s.procs[l.p];
    var q := x.bundle.identity.requestId;
    ProcPersists(s, t, x);
    MutationAnswers(s.journal, x.w);
    var r := Answered(s.journal, x.w).value;
    OnChainPersists(s.journal, t.journal, r.revision, q, r.record);
  }

  lemma TerminalAnswer(op: Op, stored: Option<Record>, r: Record)
    requires op.CompleteOp? || op.ReconcileOp?
    ensures !Decide(op, stored).Answer?
    ensures Decide(op, stored) == Publish(r) ==>
              r.state == op.state && r.terminalCode == Some(op.code) && r.terminalReference == op.reference
  {
  }

  lemma FinalizerIsOk(s: World, l: Step, t: World)
    requires AfterStep(s, l, t) && Actor(l).Some? && Finalizes(l)
    ensures ProcOk(t, ProcAfter(s, l))
  {
    hide ReadBacksAfter, ConfirmedAfter, ProcAfter, WorldNext, Grows, JournalLabel;
    if l.StartFinalize? { StoppedIsOk(s, l, t); }
    else if l.BindBundle? || l.TakeReceipt? { BindingIsOk(s, l, t); }
    else if l.Recover? { RecoveredIsOk(s, l, t); }
    else if l.NothingToRecover? || l.ReadBase? { UnrecoveredIsOk(s, l, t); }
    else if l.Build? { BuiltIsOk(s, l, t); }
    else if l.Confirm? { ConfirmedIsOk(s, l, t); }
    else if l.ReloadCheckpoint? || l.ReadTaskHead? || l.SendTaskPatch? { SentIsOk(s, l, t); }
    else if l.ReadTaskBack? || l.ReadRecovered? { ReadTaskBackIsOk(s, l, t); }
    else if l.CheckResult? { CheckedIsOk(s, l, t); }
    else if l.ConfirmPublished? { ConclusionIsOk(s, l, t); }
    else if l.Terminalize? { TerminalStarts(s, l, t); }
    else { MutationIsOk(s, l, t); }
  }

  /** After its step the acting process may rely on everything its stage says. */
  lemma ActorIsOk(s: World, l: Step, t: World)
    requires AfterStep(s, l, t) && Actor(l).Some?
    ensures ProcOk(t, ProcAfter(s, l))
  {
    hide ReadBacksAfter, ConfirmedAfter, ProcAfter, WorldNext, Grows, JournalLabel;
    if Finalizes(l) { FinalizerIsOk(s, l, t); }
    else if l.FindComment? || l.AckComment? { AchievedIsOk(s, l, t); }
    else if l.PostComment? { PostedIsOk(s, l, t); }
    else if l.Stop? { StoppedIsOk(s, l, t); }
    else if l.StartPrepare? { PrepareStarts(s, l, t); }
    else if l.TakeAcceptance? { AcceptanceIsOk(s, l, t); }
    else if l.FindIntent? { FoundIntentIsOk(s, l, t); }
    else if l.StartClaim? { ClaimStarts(s, l, t); }
    else if l.TakeClaim? { if s.procs[l.p].Claiming? { ClaimIsOk(s, l, t); } else { GrantIsOk(s, l, t); } }
    else if l.FindCheckpoint? { FoundCheckpointIsOk(s, l, t); }
    else { RebuiltIsOk(s, l, t); }
  }

  // ----- the whole invariant

  /** A comment in the log was there, was posted, or is the environment's. */
  lemma LoggedComesFrom(s: World, l: Step, body: Body)
    requires CanStep(s, l) && body in LogAfter(s, l)
    ensures body in s.log || body in s.posts || body.ReceiptBody? || body.OtherBody?
  {
    hide Enabled, CanFinalize;
  }

  lemma PostedComesFrom(s: World, l: Step, body: Body)
    requires CanStep(s, l) && body in PostsAfter(s, l)
    ensures body in s.posts
            || (l.PostComment? && l.p in s.procs && s.procs[l.p].Ensuring? && body == BodyFor(s.procs[l.p].goal))
  {
    hide Enabled, CanFinalize;
  }

  lemma CommentsStayOk(s: World, l: Step, t: World)
    requires AfterStep(s, l, t)
    ensures forall body | body in t.log :: BodyOk(t, body)
    ensures forall body | body in t.posts :: BodyOk(t, body)
  {
    hide CanStep, ProcAfter, ProcOk, JournalOk, TaskPatchOk, LogAfter, PostsAfter, EffectOk, BundleOk, IntentOk,
         Delegated, Grows;
    forall body | body in t.log ensures BodyOk(t, body) {
      LoggedComesFrom(s, l, body);
      if body in s.log || body in s.posts { BodyPersists(s, t, body); }
    }
    hide BodyOk;
    forall body | body in t.posts ensures BodyOk(t, body) {
      PostedComesFrom(s, l, body);
      if body !in s.posts { EnsuringIsOk(s, s.procs[l.p]); }
      BodyPersists(s, t, body);
    }
  }

  lemma PatchIsSent(s: World, l: Step, p: ProcId)
    requires CanStep(s, l) && p in TaskPatchesAfter(s, l)
    ensures (p in s.taskPatches && s.taskPatches[p] == TaskPatchesAfter(s, l)[p])
            || (p in s.procs && s.procs[p].Publishing?
                && TaskPatchesAfter(s, l)[p] == (s.procs[p].bundle, s.procs[p].publication))
  {
    hide Enabled;
  }

  lemma PatchesStayOk(s: World, l: Step, t: World)
    requires AfterStep(s, l, t)
    ensures forall p | p in t.taskPatches :: TaskPatchOk(t, t.taskPatches[p])
  {
    hide Extends, BundleOk, JournalOk, BodyOk, CanStep, ProcAfter, JournalLabel, TaskPatchesAfter;
    forall p | p in t.taskPatches ensures TaskPatchOk(t, t.taskPatches[p]) {
      var (b, e) := t.taskPatches[p];
      PatchIsSent(s, l, p);
      assert p in s.procs ==> ProcOk(s, s.procs[p]);
      assert p in s.taskPatches ==> TaskPatchOk(s, s.taskPatches[p]);
      BundlePersists(s.journal, t.journal, b);
      FirstPersists(s.log, t.log, BundleKey(PublicationKind, b));
    }
  }

  /** Only building a commit or sending the PATCH makes a run a writer, and no run gets from
      there to a stage that claims it has written nothing. */
  lemma WritersAreMarked(s: World, l: Step, t: World)
    requires AfterStep(s, l, t)
    ensures forall p | p in t.procs && HasNotWritten(t.procs[p]) :: p !in t.taskWriters
    ensures t.taskWriters <= t.procs.Keys
  {
    hide ProcAfter, JournalLabel, Next, JournalOk, Extends, BodyOk, ProcOk;
    if Actor(l).Some? {
      var p := Actor(l).value;
      if HasNotWritten(t.procs[p]) { ActorHadNotWritten(s, l); }
    }
  }

  lemma FinalizerHadNotWritten(s: World, l: Step)
    requires Usable(s.journal) && Finalizes(l) && CanFinalize(s, l) && HasNotWritten(FinalizeAfter(s, l))
    ensures !l.Build? && !l.SendTaskPatch?
    ensures !l.StartFinalize? ==> l.p in s.procs && HasNotWritten(s.procs[l.p])
    ensures l.StartFinalize? ==> l.p !in s.procs
  {
    hide Enabled, Scannable, Matches, ReadsBack, VerifyBundle, Reference;
  }

  lemma ActorHadNotWritten(s: World, l: Step)
    requires CanStep(s, l) && Actor(l).Some? && HasNotWritten(ProcAfter(s, l))
    ensures !l.Build? && !l.SendTaskPatch?
    ensures l.StartFinalize? || (l.p in s.procs && HasNotWritten(s.procs[l.p]))
    ensures l.StartFinalize? ==> l.p !in s.procs
  {
    if Finalizes(l) { FinalizerHadNotWritten(s, l); }
    hide CanFinalize, FinalizeAfter, Enabled, Matches, IntentMatches;
  }

  lemma StepKeepsWorldInv(s: World, l: Step)
    requires WorldInv(s) && CanStep(s, l)
    ensures WorldInv(WorldNext(s, l))
  {
    hide ProcAfter, ProcOk, BodyOk, TaskPatchOk, JournalOk, Grows, CanStep, JournalLabel, LogAfter, PostsAfter,
         TaskHeadsAfter, TaskCommitsAfter, TaskPatchesAfter, TaskWritersAfter, ReadBacksAfter, ConfirmedAfter;
    var t := WorldNext(s, l);
    StepGrows(s, l);
    StepKeepsJournalOk(s, l);
    CommentsStayOk(s, l, t);
    PatchesStayOk(s, l, t);
    WritersAreMarked(s, l, t);
    if Actor(l).Some? { ActorIsOk(s, l, t); }
    forall p | p in t.procs ensures ProcOk(t, t.procs[p]) {
      if Actor(l) != Some(p) { ProcPersists(s, t, s.procs[p]); }
    }
  }

  lemma StartIsOk(s: World)
    requires Start(s)
    ensures WorldInv(s)
  {
  }

  /** Every state of every run of the whole system satisfies the invariant. */
  lemma {:induction false} WorldRunKeepsInv(states: seq<World>, steps: seq<Step>, n: nat)
    requires WorldRun(states, steps) && n < |states|
    ensures WorldInv(states[n])
  {
    hide WorldInv, WorldNext, CanStep, Start;
    if n == 0 {
      StartIsOk(states[0]);
    } else {
      WorldRunKeepsInv(states, steps, n - 1);
      StepKeepsWorldInv(states[n - 1], steps[n - 1]);
    }
  }

  lemma GrowsReflexive(s: World)
    ensures Grows(s, s)
  {
  }

  lemma GrowsTransitive(s: World, t: World, u: World)
    requires Grows(s, t) && Grows(t, u)
    ensures Grows(s, u)
  {
    ExtendsTransitive(s.journal, t.journal, u.journal);
    assert s.log <= u.log;
    forall branch | branch in s.taskHeads ensures branch in u.taskHeads && s.taskHeads[branch] <= u.taskHeads[branch] {
    }
  }

  lemma {:induction false} WorldRunGrows(states: seq<World>, steps: seq<Step>, m: nat, n: nat)
    requires WorldRun(states, steps) && m <= n < |states|
    ensures Grows(states[m], states[n])
    decreases n
  {
    hide Grows, WorldNext, CanStep;
    if m < n {
      WorldRunGrows(states, steps, m, n - 1);
      StepGrows(states[n - 1], steps[n - 1]);
      GrowsTransitive(states[m], states[n - 1], states[n]);
    } else {
      GrowsReflexive(states[m]);
    }
  }
}
