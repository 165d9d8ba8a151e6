/** What the Publisher guarantees over every run, whatever the interleaving, the crashes and
    the requests that land late or never. */
module PublisherSafety {
  import opened Common
  import opened JournalRecord
  import opened JournalProtocol
  import opened Markers
  import opened PublisherProtocol
  import opened PublisherInvariant
  import opened PublisherSteps
  import opened Text
  import Decimal

  // ----- bundles

  /** The bundle has been handed out: by a finished prepare run, or in a prepare comment. */
  ghost predicate Handed(s: World, b: Bundle) {
    || (exists p :: p in s.procs && s.procs[p].Prepared? && s.procs[p].bundle == b)
    || (exists d :: PrepareBody(b, d) in s.log)
  }

  lemma HandedBundlesAreOk(s: World, b: Bundle)
    requires WorldInv(s) && Handed(s, b)
    ensures BundleOk(s.journal, b)
  {
    hide JournalOk, TaskPatchOk, EffectOk, Delegated, FinalizeOk, GoalOk, IntentOk;
    if p :| p in s.procs && s.procs[p].Prepared? && s.procs[p].bundle == b {
      assert ProcOk(s, s.procs[p]);
    } else {
      var d :| PrepareBody(b, d) in s.log;
      assert BodyOk(s, PrepareBody(b, d));
    }
  }

  /** A bundle that prepare hands out, whether granted, resumed or rebuilt after a crash,
      passes finalization's check at every later head of the journal. */
  lemma BundlesVerifyForEver(states: seq<World>, steps: seq<Step>, m: nat, n: nat, b: Bundle)
    requires WorldRun(states, steps) && m <= n < |states| && Handed(states[m], b)
    ensures var j := states[n].journal;
            && Usable(j)
            && CurrentRecord(j, b.identity.requestId).Some?
            && VerifyBundle(j, b, Head(j), CurrentRecord(j, b.identity.requestId).value)
  {
    hide WorldRun;
    WorldRunKeepsInv(states, steps, m);
    WorldRunKeepsInv(states, steps, n);
    WorldRunGrows(states, steps, m, n);
    HandedBundlesAreOk(states[m], b);
    BundlePersists(states[m].journal, states[n].journal, b);
    VerificationIsStable(states[n].journal, b);
  }

  // ----- the task ref

  lemma OneEffect(s: World, b: Bundle, p: Publication, d: Bundle, e: Publication)
    requires Inv(s.journal) && BundleOk(s.journal, b) && BundleOk(s.journal, d)
    requires b.identity.requestId == d.identity.requestId
    requires FirstPublication(s.log, b, p) && FirstPublication(s.log, d, e)
    ensures b == d && p == e
  {
    OneOwner(s.journal, b, d);
  }

  /** All requests ever sent to move a task ref for one ledger request ask for the same
      commit, on the same branch, on behalf of the same bundle. */
  lemma TaskPatchesAgree(states: seq<World>, steps: seq<Step>, n: nat, p: ProcId, q: ProcId)
    requires WorldRun(states, steps) && n < |states|
    requires p in states[n].taskPatches && q in states[n].taskPatches
    requires states[n].taskPatches[p].0.identity.requestId == states[n].taskPatches[q].0.identity.requestId
    ensures states[n].taskPatches[p] == states[n].taskPatches[q]
  {
    hide WorldRun;
    WorldRunKeepsInv(states, steps, n);
    var s := states[n];
    assert TaskPatchOk(s, s.taskPatches[p]) && TaskPatchOk(s, s.taskPatches[q]);
    OneEffect(s, s.taskPatches[p].0, s.taskPatches[p].1, s.taskPatches[q].0, s.taskPatches[q].1);
  }

  /** The comment at `id` records the publication and no other comment of its key does. */
  ghost predicate Alone(log: seq<Body>, b: Bundle, e: Publication, id: nat) {
    Unique(log, BundleKey(PublicationKind, b), id) && log[id] == PublicationBody(b, e)
  }

  ghost predicate FoundAlone(log: seq<Body>, b: Bundle, e: Publication) {
    exists id :: Alone(log, b, e, id)
  }

  lemma ReloadsOrReadsHead(s: World, l: Step)
    requires Usable(s.journal) && Finalizes(l) && CanFinalize(s, l)
    ensures FinalizeAfter(s, l).Reloaded? ==>
              var y := FinalizeAfter(s, l);
              l.ReloadCheckpoint? && Alone(s.log, y.bundle, y.publication, l.id)
    ensures FinalizeAfter(s, l).Publishing? ==>
              var y := FinalizeAfter(s, l);
              && l.p in s.procs && s.procs[l.p] == Reloaded(y.bundle, y.ambiguous, y.handoff, y.publication, y.id)
              && TaskHead(s, y.publication.branch) == Some(y.publication.base)
  {
    hide Enabled, Unique, ReadsBack, VerifyBundle, Matches, Scannable, Reference;
  }

  lemma OnlyFinalizersReload(s: World, l: Step)
    requires CanStep(s, l) && Actor(l).Some? && !Finalizes(l)
    ensures ProcAfter(s, l).Reloaded? || ProcAfter(s, l).Publishing? ==>
              l.p in s.procs && ProcAfter(s, l) == s.procs[l.p]
  {
    hide Enabled, Unique, Matches, Scannable, IntentMatches, Answered;
  }

  /** A run that has re-read its recorded intent got there by a scan that found it alone. */
  lemma EntersReloaded(s: World, l: Step, p: ProcId)
    requires CanStep(s, l) && p in WorldNext(s, l).procs && WorldNext(s, l).procs[p].Reloaded?
    ensures var y := WorldNext(s, l).procs[p];
            (p in s.procs && s.procs[p] == y) || FoundAlone(s.log, y.bundle, y.publication)
  {
    if Finalizes(l) { ReloadsOrReadsHead(s, l); } else if Actor(l) == Some(p) { OnlyFinalizersReload(s, l); }
    hide CanFinalize, FinalizeAfter, CanStep, JournalLabel, Alone;
  }

  /** A run that is about to send the PATCH got there by reading the branch at its base. */
  lemma EntersPublishing(s: World, l: Step, p: ProcId)
    requires CanStep(s, l) && p in WorldNext(s, l).procs && WorldNext(s, l).procs[p].Publishing?
    ensures var y := WorldNext(s, l).procs[p];
            && p in s.procs
            && (s.procs[p] == y
                || (s.procs[p] == Reloaded(y.bundle, y.ambiguous, y.handoff, y.publication, y.id)
                    && TaskHead(s, y.publication.branch) == Some(y.publication.base)))
  {
    if Finalizes(l) { ReloadsOrReadsHead(s, l); } else if Actor(l) == Some(p) { OnlyFinalizersReload(s, l); }
    hide CanFinalize, FinalizeAfter, CanStep, JournalLabel, Alone, TaskHead;
  }

  lemma {:induction false} ReloadedOnce(states: seq<World>, steps: seq<Step>, n: nat, p: ProcId) returns (k: nat,
      id: nat)
    requires WorldRun(states, steps) && n < |states| && p in states[n].procs && states[n].procs[p].Reloaded?
    ensures var x := states[n].procs[p];
            k < n && Alone(states[k].log, x.bundle, x.publication, id)
  {
    hide CanStep, WorldNext, Alone;
    assert n > 0;
    EntersReloaded(states[n - 1], steps[n - 1], p);
    var x := states[n].procs[p];
    if p in states[n - 1].procs && states[n - 1].procs[p] == x {
      k, id := ReloadedOnce(states, steps, n - 1, p);
    } else {
      k := n - 1;
      id :| Alone(states[k].log, x.bundle, x.publication, id);
    }
  }

  lemma {:induction false} PublishingOnce(states: seq<World>, steps: seq<Step>, n: nat, p: ProcId) returns (k: nat)
    requires WorldRun(states, steps) && n < |states| && p in states[n].procs && states[n].procs[p].Publishing?
    ensures var x := states[n].procs[p];
            && k < n && TaskHead(states[k], x.publication.branch) == Some(x.publication.base)
            && p in states[k].procs
            && states[k].procs[p] == Reloaded(x.bundle, x.ambiguous, x.handoff, x.publication, x.id)
  {
    hide CanStep, WorldNext, TaskHead;
    assert n > 0;
    EntersPublishing(states[n - 1], steps[n - 1], p);
    if states[n - 1].procs[p] == states[n].procs[p] {
      k := PublishingOnce(states, steps, n - 1, p);
    } else {
      k := n - 1;
    }
  }

  lemma PatchStep(s: World, l: Step, p: ProcId)
    requires CanStep(s, l) && p in WorldNext(s, l).taskPatches && p !in s.taskPatches
    ensures l == SendTaskPatch(p) && p in s.procs && s.procs[p].Publishing?
    ensures WorldNext(s, l).taskPatches[p] == (s.procs[p].bundle, s.procs[p].publication)
    ensures s.procs[p].publication.commit != s.procs[p].publication.base
  {
    hide Enabled, Unique, ReadsBack, VerifyBundle, IntentMatches;
  }

  /** Before a task ref is asked to move, at separate earlier moments, a scan found the intent
      naming exactly that commit to be the only one of the request, and after that the branch was
      read at the intent's base. When the PATCH is sent that intent is still the first one in the
      log; that it is still alone, or the branch still there, is not known: the non-forced PATCH
      and the later read-back are what guards against a move in between. */
  lemma IntentBeforeEffect(states: seq<World>, steps: seq<Step>, i: nat, p: ProcId) returns (k1: nat, k2: nat, id: nat)
    requires WorldRun(states, steps) && i < |steps|
    requires p in states[i + 1].taskPatches && p !in states[i].taskPatches
    ensures var (b, e) := states[i + 1].taskPatches[p];
            && steps[i] == SendTaskPatch(p) && e.commit != e.base
            && FirstPublication(states[i].log, b, e)
            && k1 < k2 < i
            && Alone(states[k1].log, b, e, id)
            && TaskHead(states[k2], e.branch) == Some(e.base)
  {
    hide CanStep, WorldNext, Alone, TaskHead, FirstPublication, BundleOk, JournalOk, BodyOk;
    PatchStep(states[i], steps[i], p);
    WorldRunKeepsInv(states, steps, i);
    assert ProcOk(states[i], states[i].procs[p]);
    k2 := PublishingOnce(states, steps, i, p);
    k1, id := ReloadedOnce(states, steps, k2, p);
  }

  predicate Writes(l: Step, p: ProcId) {
    (l.Build? && l.p == p) || l == SendTaskPatch(p)
  }

  /** Where a run can be once it has found the effect recorded. */
  predicate AfterRecovery(x: Proc) {
    || x.Found? || (x.Proven? && x.replayed) || (x.Ensuring? && x.goal.PublishedGoal? && x.goal.replayed)
    || (x.ConfirmingPublished? && x.replayed)
    || x.Concluding? || x.Terminalizing? || x.Finalized? || x.Stopped?
  }

  lemma RecoveryIsClosed(s: World, l: Step, p: ProcId)
    requires CanStep(s, l) && p in s.procs && AfterRecovery(s.procs[p])
    ensures !Writes(l, p)
    ensures p in WorldNext(s, l).procs && AfterRecovery(WorldNext(s, l).procs[p])
  {
    hide ReadBacksAfter, ConfirmedAfter, LogAfter, PostsAfter, TaskHeadsAfter, TaskCommitsAfter, TaskPatchesAfter,
         TaskWritersAfter;
    if Actor(l) == Some(p) { ActsAfterRecovery(s, l); }
    hide CanStep, ProcAfter, JournalLabel, AfterRecovery;
  }

  lemma FinalizesAfterRecovery(s: World, l: Step)
    requires Usable(s.journal) && Finalizes(l) && CanFinalize(s, l)
    requires l.p in s.procs && AfterRecovery(s.procs[l.p])
    ensures !l.Build? && !l.SendTaskPatch? && AfterRecovery(FinalizeAfter(s, l))
  {
    hide Enabled, Scannable, Matches, ReadsBack, VerifyBundle, Reference;
  }

  lemma ActsAfterRecovery(s: World, l: Step)
    requires CanStep(s, l) && Actor(l).Some? && l.p in s.procs && AfterRecovery(s.procs[l.p])
    ensures !l.Build? && !l.SendTaskPatch? && AfterRecovery(ProcAfter(s, l))
  {
    if Finalizes(l) { FinalizesAfterRecovery(s, l); }
    hide CanFinalize, FinalizeAfter, Enabled, Scannable, Matches;
  }

  lemma {:induction false} RecoveryStaysClosed(states: seq<World>, steps: seq<Step>, i: nat, j: nat, p: ProcId)
    requires WorldRun(states, steps) && i <= j < |steps| && p in states[i].procs && AfterRecovery(states[i].procs[p])
    ensures p in states[j].procs && AfterRecovery(states[j].procs[p]) && !Writes(steps[j], p)
    decreases j
  {
    hide CanStep, WorldNext;
    if i < j {
      RecoveryStaysClosed(states, steps, i, j - 1, p);
      RecoveryIsClosed(states[j - 1], steps[j - 1], p);
    }
    RecoveryIsClosed(states[j], steps[j], p);
  }

  lemma WritersRemain(s: World, l: Step, p: ProcId)
    requires CanStep(s, l) && (Writes(l, p) || p in s.taskWriters)
    ensures p in WorldNext(s, l).taskWriters
  {
    hide Enabled, Next, Matches, ProcAfter, ReadsBack, VerifyBundle;
  }

  lemma {:induction false} WritingMarks(states: seq<World>, steps: seq<Step>, i: nat, j: nat, p: ProcId)
    requires WorldRun(states, steps) && i < j < |states| && Writes(steps[i], p)
    ensures p in states[j].taskWriters
    decreases j
  {
    hide CanStep, WorldNext;
    if i + 1 < j { WritingMarks(states, steps, i, j - 1, p); }
    WritersRemain(states[j - 1], steps[j - 1], p);
  }

  lemma RecoverNeedsReading(s: World, p: ProcId, id: nat)
    requires CanStep(s, Recover(p, id))
    ensures p in s.procs && HasNotWritten(s.procs[p])
    ensures p in WorldNext(s, Recover(p, id)).procs && AfterRecovery(WorldNext(s, Recover(p, id)).procs[p])
  {
  }

  /** A run that starts by finding the intent writes neither Git objects nor the task ref,
      before or after. */
  lemma RecoveryNeverWrites(states: seq<World>, steps: seq<Step>, i: nat, j: nat, p: ProcId, id: nat)
    requires WorldRun(states, steps) && i < |steps| && j < |steps| && steps[i] == Recover(p, id)
    ensures !Writes(steps[j], p)
  {
    hide CanStep, WorldNext;
    RecoverNeedsReading(states[i], p, id);
    if j > i {
      RecoveryStaysClosed(states, steps, i + 1, j, p);
    } else if j < i {
      WorldRunKeepsInv(states, steps, i);
      assert p !in states[i].taskWriters;
      if Writes(steps[j], p) { WritingMarks(states, steps, j, i, p); }
    }
  }

  // ----- what the scans find

  /** The comment is of the kind and names the request and the execution, on the request's Issue. */
  predicate IsOf(body: Body, kind: Kind, identity: Identity, executionId: string) {
    match body
    case IntentBody(i) => kind.IntentKind? && SamePlace(i.identity, identity) && i.executionId == executionId
    case PrepareBody(b, _) => kind.PrepareKind? && SamePlace(b.identity, identity) && b.executionId == executionId
    case PublicationBody(b, _) => kind.PublicationKind? && SamePlace(b.identity, identity)
    && b.executionId == executionId
    case PublishedBody(b, _) => kind.PublishedKind? && SamePlace(b.identity, identity) && b.executionId == executionId
    case _ => false
  }

  predicate SamePlace(i: Identity, k: Identity) {
    i.repositoryFullName == k.repositoryFullName && i.issueNumber == k.issueNumber && i.requestId == k.requestId
  }

  function KeyFor(kind: Kind, identity: Identity, executionId: string): Key {
    Key(kind, identity.repositoryFullName, identity.issueNumber, identity.requestId, executionId)
  }

  predicate Ascending(ms: seq<nat>) {
    forall i, k | 0 <= i < k < |ms| :: ms[i] < ms[k]
  }

  lemma AscendingPush(ms: seq<nat>, last: nat)
    requires Ascending(ms) && forall m | m in ms :: m < last
    ensures Ascending(ms + [last])
  {
    assert forall i | 0 <= i < |ms| :: ms[i] in ms;
  }

  lemma AscendingMeans(ms: seq<nat>, id: nat)
    requires Ascending(ms)
    ensures ms != [] ==> forall m | m in ms :: ms[0] <= m
    ensures |ms| > 1 ==> exists m :: m in ms && m != id
  {
    if |ms| > 1 { assert ms[0] in ms && ms[1] in ms; }
  }

  lemma KeyMeans(body: Body, kind: Kind, identity: Identity, executionId: string)
    ensures KeyOf(body) == Some(KeyFor(kind, identity, executionId)) <==> IsOf(body, kind, identity, executionId)
  {
  }

  /** A scan for a request's comments of one kind finds all of them and nothing else, oldest first. */
  lemma {:induction false} MatchesMean(log: seq<Body>, kind: Kind, identity: Identity, executionId: string)
    ensures var ms := Matches(log, KeyFor(kind, identity, executionId));
            && (forall m | 0 <= m < |log| :: m in ms <==> IsOf(log[m], kind, identity, executionId))
            && (forall m | m in ms :: m < |log|) && Ascending(ms)
  {
    if log != [] {
      var init := log[..|log| - 1];
      MatchesMean(init, kind, identity, executionId);
      AscendingPush(Matches(init, KeyFor(kind, identity, executionId)), |init|);
      KeyMeans(log[|log| - 1], kind, identity, executionId);
      forall m | 0 <= m < |log|
        ensures m in Matches(log, KeyFor(kind, identity, executionId)) <==> IsOf(log[m], kind, identity, executionId)
      {
        assert m < |init| ==> init[m] == log[m];
      }
    }
  }

  /** The receipt is Control's for exactly this bundle. */
  predicate Answers(body: Body, b: Bundle) {
    && body.ReceiptBody? && body.receipt.identity == b.identity
    && body.receipt.acceptedRevision == b.acceptedRevision && body.receipt.claimRevision == b.claimRevision
  }

  lemma {:induction false} ReceiptsMean(log: seq<Body>, b: Bundle)
    ensures var ms := ReceiptMatches(log, b);
            && (forall m | 0 <= m < |log| :: m in ms <==> Answers(log[m], b))
            && (forall m | m in ms :: m < |log|) && Ascending(ms)
  {
    if log != [] {
      var init := log[..|log| - 1];
      ReceiptsMean(init, b);
      AscendingPush(ReceiptMatches(init, b), |init|);
      forall m | 0 <= m < |log| ensures m in ReceiptMatches(log, b) <==> Answers(log[m], b) {
        assert m < |init| ==> init[m] == log[m];
      }
    }
  }

  /** The comment stands on the Issue. */
  predicate StandsOn(body: Body, issue: (string, nat)) {
    match body
    case IntentBody(i) => i.identity.repositoryFullName == issue.0 && i.identity.issueNumber == issue.1
    case ReceiptBody(r) => r.identity.repositoryFullName == issue.0 && r.identity.issueNumber == issue.1
    case OtherBody(repository, number) => repository == issue.0 && number == issue.1
    case _ => body.bundle.identity.repositoryFullName == issue.0 && body.bundle.identity.issueNumber == issue.1
  }

  /** The positions of an Issue's comments. */
  function OnIssue(log: seq<Body>, issue: (string, nat)): set<nat> {
    set m: nat | m < |log| && StandsOn(log[m], issue)
  }

  lemma IssueMeans(body: Body, issue: (string, nat))
    ensures IssueOf(body) == issue <==> StandsOn(body, issue)
    ensures RequestText(body) == if body.PrepareBody? || body.PublicationBody? || body.PublishedBody?
                                 then Some(body.bundle.canonicalRecord.frozen.canonicalRequest) else None
  {
  }

  lemma {:induction false} CountMeans(log: seq<Body>, issue: (string, nat))
    ensures CountOnIssue(log, issue) == |OnIssue(log, issue)|
  {
    if log == [] {
      assert OnIssue(log, issue) == {};
    } else {
      var init := log[..|log| - 1];
      CountMeans(init, issue);
      IssueMeans(log[|log| - 1], issue);
      if IssueOf(log[|log| - 1]) == issue {
        assert OnIssue(log, issue) == OnIssue(init, issue) + {|log| - 1};
      } else {
        assert OnIssue(log, issue) == OnIssue(init, issue);
      }
    }
  }

  /** The Issue has at most 999 comments, and none of them carries a request with the prefix of the
      kind. */
  predicate Quiet(log: seq<Body>, kind: Kind, identity: Identity) {
    var issue := (identity.repositoryFullName, identity.issueNumber);
    && |OnIssue(log, issue)| <= 999
    && forall m | 0 <= m < |log| && StandsOn(log[m], issue) ::
         log[m].PrepareBody? || log[m].PublicationBody? || log[m].PublishedBody? ==>
           !Contains(log[m].bundle.canonicalRecord.frozen.canonicalRequest, PublisherPrefix(kind))
  }

  /** A comment is found alone exactly when it is the only one of its kind, request and execution, on
      an Issue that can be scanned for the kind; none is found exactly when there is none. */
  lemma AloneMeans(log: seq<Body>, kind: Kind, identity: Identity, executionId: string, id: nat)
    ensures Unique(log, KeyFor(kind, identity, executionId), id) <==>
              && Quiet(log, kind, identity) && id < |log|
              && forall m | 0 <= m < |log| :: IsOf(log[m], kind, identity, executionId) <==> m == id
    ensures Scannable(log, KeyFor(kind, identity, executionId))
            && Matches(log, KeyFor(kind, identity, executionId)) == [] <==>
              && Quiet(log, kind, identity)
              && forall m | 0 <= m < |log| :: !IsOf(log[m], kind, identity, executionId)
  {
    hide Contains, PublisherPrefix, IsOf, Matches, CountOnIssue, IssueOf, RequestText, StandsOn;
    forall m | 0 <= m < |log|
      ensures IssueOf(log[m]) == (identity.repositoryFullName, identity.issueNumber)
              <==> StandsOn(log[m], (identity.repositoryFullName, identity.issueNumber))
      ensures RequestText(log[m]) == if log[m].PrepareBody? || log[m].PublicationBody? || log[m].PublishedBody?
                                     then Some(log[m].bundle.canonicalRecord.frozen.canonicalRequest) else None
    {
      IssueMeans(log[m], (identity.repositoryFullName, identity.issueNumber));
    }
    MatchesMean(log, kind, identity, executionId);
    CountMeans(log, (identity.repositoryFullName, identity.issueNumber));
    var ms := Matches(log, KeyFor(kind, identity, executionId));
    AscendingMeans(ms, id);
    assert ms == [id] ==> id in ms;
    assert id < |log| ==> (id in ms <==> IsOf(log[id], kind, identity, executionId));
    assert ms != [] ==> ms[0] in ms;
  }

  // ----- which call a finalize run makes

  /** The bundle a finalize run is bound to, and whether it takes the record for ambiguous. */
  function Holds(x: Proc): Option<(Bundle, bool)> {
    match x
    case Ensuring(PublicationGoal(b, a, _, _), _) => Some((b, a))
    case Ensuring(PublishedGoal(b, a, _, _), _) => Some((b, a))
    case Bound(b, a) => Some((b, a))
    case Recovering(b, a, _) => Some((b, a))
    case Found(b, a, _, _, _) => Some((b, a))
    case Building(b, a, _) => Some((b, a))
    case Based(b, a, _, _, _) => Some((b, a))
    case Confirming(b, a, _, _, _) => Some((b, a))
    case Checkpointed(b, a, _, _, _) => Some((b, a))
    case Reloaded(b, a, _, _, _) => Some((b, a))
    case Publishing(b, a, _, _, _) => Some((b, a))
    case ReadingBack(b, a, _, _, _) => Some((b, a))
    case Proven(b, a, _, _, _, _) => Some((b, a))
    case ConfirmingPublished(b, a, _, _, _) => Some((b, a))
    case Concluding(b, a, _, _) => Some((b, a))
    case Terminalizing(b, a, _, _, _) => Some((b, a))
    case _ => None
  }

  /** The step binds the process to the bundle, with the flag, from the record at the head. */
  predicate BindsFrom(s: World, l: Step, p: ProcId, b: Bundle, a: bool) {
    && l == BindBundle(p) && Usable(s.journal) && CurrentRecord(s.journal, b.identity.requestId).Some?
    && var r := CurrentRecord(s.journal, b.identity.requestId).value;
       if a then r.state.Ambiguous? else r.state.Executing?
  }

  lemma FinalizerHolds(s: World, l: Step)
    requires Usable(s.journal) && Finalizes(l) && CanFinalize(s, l) && Holds(FinalizeAfter(s, l)).Some?
    ensures var (b, a) := Holds(FinalizeAfter(s, l)).value;
            || (l.p in s.procs && Holds(s.procs[l.p]) == Some((b, a)))
            || BindsFrom(s, l, l.p, b, a)
  {
    hide Enabled, Unique, Scannable, Matches, ReadsBack, VerifyBundle, Reference, Linked, TaskHead, Countable,
         ReceiptMatches, CurrentRecord, TerminalOp, Answered;
  }

  lemma OthersHold(s: World, l: Step)
    requires CanStep(s, l) && !Finalizes(l) && Actor(l).Some? && Holds(ProcAfter(s, l)).Some?
    ensures l.p in s.procs && Holds(s.procs[l.p]) == Holds(ProcAfter(s, l))
  {
    hide Enabled, Unique, Matches, Scannable, IntentMatches, Answered;
  }

  lemma ProcIsNext(s: World, l: Step, p: ProcId)
    requires CanStep(s, l) && p in WorldNext(s, l).procs
    ensures Actor(l) == Some(p) ==> l.p == p && WorldNext(s, l).procs[p] == ProcAfter(s, l)
    ensures Actor(l) != Some(p) ==> p in s.procs && WorldNext(s, l).procs[p] == s.procs[p]
  {
    hide CanStep, JournalLabel, ProcAfter, Next, LogAfter, PostsAfter, TaskHeadsAfter, TaskCommitsAfter,
         TaskPatchesAfter, TaskWritersAfter, ReadBacksAfter, ConfirmedAfter;
  }

  lemma FinalizerIsNext(s: World, l: Step)
    requires CanStep(s, l) && Finalizes(l)
    ensures Usable(s.journal) && CanFinalize(s, l) && Actor(l) == Some(l.p) && ProcAfter(s, l) == FinalizeAfter(s, l)
  {
    hide CanFinalize, FinalizeAfter;
  }

  lemma HeldFrom(s: World, l: Step, p: ProcId)
    requires CanStep(s, l) && p in WorldNext(s, l).procs && Holds(WorldNext(s, l).procs[p]).Some?
    ensures var (b, a) := Holds(WorldNext(s, l).procs[p]).value;
            || (p in s.procs && Holds(s.procs[p]) == Some((b, a)))
            || BindsFrom(s, l, p, b, a)
  {
    hide CanFinalize, FinalizeAfter, CanStep, Holds, BindsFrom, ProcAfter, WorldNext, Actor, Finalizes;
    ProcIsNext(s, l, p);
    var held := Holds(WorldNext(s, l).procs[p]).value;
    assert held == (held.0, held.1);
    if Actor(l) == Some(p) {
      if Finalizes(l) {
        FinalizerIsNext(s, l);
        FinalizerHolds(s, l);
      } else {
        OthersHold(s, l);
      }
    }
  }

  lemma {:induction false} BoundOnce(states: seq<World>, steps: seq<Step>, n: nat, p: ProcId, b: Bundle,
                                     a: bool) returns (i: nat)
    requires WorldRun(states, steps) && n < |states| && p in states[n].procs
             && Holds(states[n].procs[p]) == Some((b, a))
    ensures i < n && BindsFrom(states[i], steps[i], p, b, a)
  {
    hide CanStep, WorldNext, Holds, BindsFrom;
    assert n > 0;
    HeldFrom(states[n - 1], steps[n - 1], p);
    if p in states[n - 1].procs && Holds(states[n - 1].procs[p]) == Some((b, a)) {
      i := BoundOnce(states, steps, n - 1, p, b, a);
    } else {
      i := n - 1;
    }
  }

  /** Whenever a finalize run has begun its journal call, it loaded the record at an earlier step,
      and the call is the one for what was loaded: it reconciles exactly when that record was
      ambiguous, and completes exactly when it was executing. */
  lemma CallMatchesTheRecord(states: seq<World>, steps: seq<Step>, n: nat, p: ProcId) returns (i: nat, r: Record)
    requires WorldRun(states, steps) && n < |states| && p in states[n].procs && states[n].procs[p].Terminalizing?
    ensures var x := states[n].procs[p];
            && i < n && steps[i] == BindBundle(p) && Usable(states[i].journal)
            && CurrentRecord(states[i].journal, x.bundle.identity.requestId) == Some(r)
            && (r.state.Ambiguous? || r.state.Executing?)
            && x.w in states[n].journal.workers
            && var call := states[n].journal.workers[x.w];
               && call.request == x.bundle.identity.requestId
               && (call.op == ReconcileOp(x.bundle.executionId, x.result.state, x.result.code, Some(x.result.reference))
                   <==> r.state.Ambiguous?)
               && (call.op == CompleteOp(x.bundle.executionId, x.result.state, x.result.code, Some(x.result.reference))
                   <==> r.state.Executing?)
  {
    hide WorldRun, CurrentRecord, OutcomeOk, BundleOk;
    var x := states[n].procs[p];
    WorldRunKeepsInv(states, steps, n);
    assert ProcOk(states[n], x);
    i := BoundOnce(states, steps, n, p, x.bundle, x.ambiguous);
    r := CurrentRecord(states[i].journal, x.bundle.identity.requestId).value;
  }

  // ----- success implies effect

  /** Two proofs of success for one request are the same proof: same bundle, publication,
      comment and terminal result. */
  lemma OneOutcome(s: World, b: Bundle, p: Publication, r: TerminalResult, d: Bundle, e: Publication, u: TerminalResult)
    requires Inv(s.journal) && BundleOk(s.journal, b) && BundleOk(s.journal, d)
    requires b.identity.requestId == d.identity.requestId
    requires LedgerSuccessOk(s, b, p, r) && LedgerSuccessOk(s, d, e, u)
    ensures b == d && p == e && r == u
  {
    OneEffect(s, b, p, d, e);
  }

  lemma ReadBackStep(s: World, l: Step, e: Publication)
    requires CanStep(s, l) && e in WorldNext(s, l).readBacks
    ensures e in s.readBacks || ReadsBack(s, e)
  {
    hide Enabled, Matches, VerifyBundle;
  }

  /** An effect counts as read back only if, at some moment, the remote showed exactly it. */
  lemma {:induction false} ReadBackOnce(states: seq<World>, steps: seq<Step>, n: nat, e: Publication) returns (i: nat)
    requires WorldRun(states, steps) && n < |states| && e in states[n].readBacks
    ensures i < n && ReadsBack(states[i], e)
  {
    hide CanStep, WorldNext, ReadsBack;
    assert n > 0;
    ReadBackStep(states[n - 1], steps[n - 1], e);
    if e in states[n - 1].readBacks {
      i := ReadBackOnce(states, steps, n - 1, e);
    } else {
      i := n - 1;
    }
  }

  lemma ConfirmedStep(s: World, l: Step, b: Bundle, e: Publication, id: nat)
    requires WorldInv(s) && CanStep(s, l) && (b, e, id) in WorldNext(s, l).confirmed
    ensures (b, e, id) in s.confirmed
            || (e in s.readBacks && Unique(s.log, BundleKey(PublishedKind, b), id) && s.log[id] == PublishedBody(b, e))
  {
    hide ProcAfter, JournalLabel, ReadBacksAfter, BodyOk, TaskPatchOk, Enabled, Matches, VerifyBundle, JournalOk;
    if l.ConfirmPublished? { assert ProcOk(s, s.procs[l.p]); }
  }

  /** A comment counts as confirmed only if, at some moment, it was the only published comment of
      its request, after the effect had been read back. */
  lemma {:induction false} ConfirmedOnce(states: seq<World>, steps: seq<Step>, n: nat, b: Bundle, e: Publication,
                                         id: nat)
      returns (i: nat)
    requires WorldRun(states, steps) && n < |states| && (b, e, id) in states[n].confirmed
    ensures i < n && e in states[i].readBacks
    ensures Unique(states[i].log, BundleKey(PublishedKind, b), id) && states[i].log[id] == PublishedBody(b, e)
  {
    hide CanStep, WorldNext, WorldInv, Unique;
    assert n > 0;
    WorldRunKeepsInv(states, steps, n - 1);
    ConfirmedStep(states[n - 1], steps[n - 1], b, e, id);
    if (b, e, id) in states[n - 1].confirmed {
      i := ConfirmedOnce(states, steps, n - 1, b, e, id);
    } else {
      i := n - 1;
    }
  }

  /** Whenever the journal has said, at any of its heads, that a ledger request succeeded, then
      earlier in the run the remote showed the recorded effect (the commit object, and the task
      branch at it), after that exactly one published comment for the request existed, and it is
      the one the journal refers to. The intent recorded first names that same effect. */
  lemma SuccessImpliesEffect(states: seq<World>, steps: seq<Step>, n: nat, c: Sha, q: RequestId, r: Record)
      returns (b: Bundle, e: Publication, id: nat, i: nat, j: nat)
    requires WorldRun(states, steps) && n < |states|
    requires OnChain(states[n].journal, c, q, r)
    requires r.state.Succeeded? && r.frozen.operation == "governance.ledger"
    ensures BundleOk(states[n].journal, b) && b.identity == IdentityOf(r.frozen) && Some(b.executionId) == r.executionId
    ensures FirstPublication(states[n].log, b, e) && Delegated(states[n], b, e)
    ensures i < j < n && ReadsBack(states[i], e)
    ensures Unique(states[j].log, BundleKey(PublishedKind, b), id) && states[j].log[id] == PublishedBody(b, e)
    ensures r.terminalCode == Some(CodeFor(e)) && r.terminalReference == Some(Reference(b.identity, id))
  {
    hide WorldRun, ReadsBack, Unique, BundleOk, Reference;
    WorldRunKeepsInv(states, steps, n);
    b, e, id := RecordIsJustified(states[n], c, q, r);
    FirstIsDelegated(states[n], b, e);
    j := ConfirmedOnce(states, steps, n, b, e, id);
    i := ReadBackOnce(states, steps, j, e);
  }

  /** The same in the program's own words, without the names used to prove it: which objects the
      remote showed, which comment was alone, which candidate Control had handed over, and what the
      record says. */
  lemma SuccessSpelledOut(states: seq<World>, steps: seq<Step>, n: nat, c: Sha, q: RequestId, r: Record)
      returns (b: Bundle, e: Publication, id: nat, receipt: nat, i: nat, j: nat)
    requires WorldRun(states, steps) && n < |states|
    requires c in states[n].journal.heads && c in states[n].journal.store && q in states[n].journal.store[c].tree
    requires states[n].journal.store[c].tree[q] == r && r.state.Succeeded? && r.frozen.operation == "governance.ledger"
    ensures b.identity.requestId == r.frozen.requestId && Some(b.executionId) == r.executionId
    ensures i < j < n && e.commit in states[i].taskCommits && states[i].taskCommits[e.commit].tree == e.tree
    ensures e.commit != e.base ==> states[i].taskCommits[e.commit].parents == [e.base]
    ensures e.branch in states[i].taskHeads
            && var heads := states[i].taskHeads[e.branch]; heads != [] && heads[|heads| - 1] == e.commit
    ensures id < |states[j].log| && states[j].log[id] == PublishedBody(b, e)
    ensures forall m | 0 <= m < |states[j].log|
            && IsOf(states[j].log[m], PublishedKind, b.identity, b.executionId) :: m == id
    ensures receipt < |states[n].log| && Answers(states[n].log[receipt], b)
            && var v := states[n].log[receipt].receipt.verdict;
               && v.CandidateReady? && v.handoff.runId == e.artifact.runId
               && v.handoff.runAttempt == e.artifact.runAttempt
               && v.handoff.contentSha256 == e.artifact.contentSha256
    ensures forall m | 0 <= m < receipt :: !Answers(states[n].log[m], b)
    ensures r.terminalCode == Some(if e.commit == e.base then "ledger_no_change" else "ledger_published")
    ensures r.terminalReference
            == Some("https://github.com/" + b.identity.repositoryFullName + "/issues/" + Decimal.Text(b.identity.issueNumber)
                    + "#issuecomment-" + Decimal.Text(id + 1))
  {
    hide WorldRun, BundleOk, FirstPublication, Decimal.Text, IsOf, Answers, Matches, ReceiptMatches;
    b, e, id, i, j := SuccessImpliesEffect(states, steps, n, c, q, r);
    AloneMeans(states[j].log, PublishedKind, b.identity, b.executionId, id);
    receipt := DelegatedMeans(states[n], b, e);
  }

  lemma DelegatedMeans(s: World, b: Bundle, e: Publication) returns (receipt: nat)
    requires Delegated(s, b, e)
    ensures receipt < |s.log| && Answers(s.log[receipt], b)
            && var v := s.log[receipt].receipt.verdict;
               && v.CandidateReady? && v.handoff.runId == e.artifact.runId
               && v.handoff.runAttempt == e.artifact.runAttempt
               && v.handoff.contentSha256 == e.artifact.contentSha256
    ensures forall m | 0 <= m < receipt :: !Answers(s.log[m], b)
  {
    hide ReceiptMatches;
    var h :| HandedOver(s, b, h) && Linked(e, h);
    receipt :| ReceiptAt(s, b, CandidateReady(h), receipt);
    FirstReceipt(s.log, b, receipt);
  }

  lemma FirstReceipt(log: seq<Body>, b: Bundle, id: nat)
    requires id < |log| && ReceiptMatches(log, b) != [] && ReceiptMatches(log, b)[0] == id
    ensures Answers(log[id], b) && forall m | 0 <= m < id :: !Answers(log[m], b)
  {
    hide Answers, ReceiptMatches;
    ReceiptsMean(log, b);
    var ms := ReceiptMatches(log, b);
    AscendingMeans(ms, id);
    assert ms[0] in ms;
  }

  lemma FirstIsDelegated(s: World, b: Bundle, e: Publication)
    requires WorldInv(s) && FirstPublication(s.log, b, e)
    ensures Delegated(s, b, e)
  {
    hide JournalOk;
    var ms := Matches(s.log, BundleKey(PublicationKind, b));
    assert ms[0] in ms && s.log[ms[0]] in s.log;
    assert BodyOk(s, PublicationBody(b, e));
  }

  /** Every other terminal record is Control's verdict: the state and the code are those of the
      first receipt that Control published for a bundle bound to the journal, and the record
      refers to that receipt. */
  lemma ResultsAreReported(states: seq<World>, steps: seq<Step>, n: nat, c: Sha, q: RequestId, r: Record)
      returns (b: Bundle, id: nat)
    requires WorldRun(states, steps) && n < |states|
    requires OnChain(states[n].journal, c, q, r)
    requires Terminal(r.state) && (r.frozen.operation == "governance.ledger" ==> !r.state.Succeeded?)
    ensures BundleOk(states[n].journal, b) && b.identity == IdentityOf(r.frozen) && Some(b.executionId) == r.executionId
    ensures r.terminalCode.Some? && id < |states[n].log| && Answers(states[n].log[id], b)
            && states[n].log[id].receipt.verdict == Final(r.state, r.terminalCode.value)
    ensures forall m | 0 <= m < id :: !Answers(states[n].log[m], b)
    ensures r.terminalReference
            == Some("https://github.com/" + b.identity.repositoryFullName + "/issues/" + Decimal.Text(b.identity.issueNumber)
                    + "#issuecomment-" + Decimal.Text(id + 1))
  {
    hide WorldRun, ReceiptMatches, BundleOk, Decimal.Text;
    WorldRunKeepsInv(states, steps, n);
    b, id := RecordIsReported(states[n], c, q, r);
    FirstReceipt(states[n].log, b, id);
  }

  lemma RecordIsReported(s: World, c: Sha, q: RequestId, r: Record) returns (b: Bundle, id: nat)
    requires WorldInv(s) && OnChain(s.journal, c, q, r)
    requires Terminal(r.state) && (r.frozen.operation == "governance.ledger" ==> !r.state.Succeeded?)
    ensures BundleOk(s.journal, b) && b.identity == IdentityOf(r.frozen) && Some(b.executionId) == r.executionId
    ensures r.terminalCode.Some? && ReceiptAt(s, b, Final(r.state, r.terminalCode.value), id)
    ensures r.terminalReference == Some(Reference(b.identity, id))
  {
    hide ProcOk, BodyOk, TaskPatchOk, Reference;
    assert RecordOk(s, q, r);
    var result := TerminalResult(r.state, r.terminalCode.value, r.terminalReference.value);
    var effect;
    b, effect :| OutcomeFor(s, b, effect, q, r.executionId.value, result);
    SameFrozen(s.journal, b.claimRevision, c, q, b.canonicalRecord, r);
    id :| ReceiptAt(s, b, Final(r.state, r.terminalCode.value), id) && result.reference == Reference(b.identity, id);
  }

  lemma RecordIsJustified(s: World, c: Sha, q: RequestId, r: Record) returns (b: Bundle, e: Publication, id: nat)
    requires WorldInv(s) && OnChain(s.journal, c, q, r)
    requires r.state.Succeeded? && r.frozen.operation == "governance.ledger"
    ensures BundleOk(s.journal, b) && b.identity == IdentityOf(r.frozen) && Some(b.executionId) == r.executionId
    ensures PublishedAt(s, b, e, id)
    ensures r.terminalCode == Some(CodeFor(e)) && r.terminalReference == Some(Reference(b.identity, id))
  {
    hide ProcOk, BodyOk, TaskPatchOk, Reference, EffectOk;
    assert RecordOk(s, q, r);
    var result := TerminalResult(Succeeded, r.terminalCode.value, r.terminalReference.value);
    var effect;
    b, effect :| OutcomeFor(s, b, effect, q, r.executionId.value, result);
    SameFrozen(s.journal, b.claimRevision, c, q, b.canonicalRecord, r);
    e := effect.value;
    id :| PublishedAt(s, b, e, id) && result == TerminalResult(Succeeded, CodeFor(e), Reference(b.identity, id));
  }

  /** All successful terminalizations of a ledger request refer to one comment: whichever runs
      conclude, and whatever the journal says, the terminal result is the same. */
  lemma TerminalizationsAgree(states: seq<World>, steps: seq<Step>, m: nat, n: nat, p: ProcId, q: ProcId)
    requires WorldRun(states, steps) && m < |states| && n < |states|
    requires p in states[m].procs && q in states[n].procs
    requires var x := states[m].procs[p]; (x.Terminalizing? || x.Finalized?) && x.effect.Some?
    requires var y := states[n].procs[q]; (y.Terminalizing? || y.Finalized?) && y.effect.Some?
    requires states[m].procs[p].bundle.identity.requestId == states[n].procs[q].bundle.identity.requestId
    ensures states[m].procs[p].result == states[n].procs[q].result
    ensures states[m].procs[p].bundle == states[n].procs[q].bundle
    ensures states[m].procs[p].effect == states[n].procs[q].effect
  {
    hide WorldRun;
    var k := if m <= n then n else m;
    OutcomeLater(states, steps, m, k, p);
    OutcomeLater(states, steps, n, k, q);
    WorldRunKeepsInv(states, steps, k);
    var x, y := states[m].procs[p], states[n].procs[q];
    OneOutcome(states[k], x.bundle, x.effect.value, x.result, y.bundle, y.effect.value, y.result);
  }

  lemma OutcomeLater(states: seq<World>, steps: seq<Step>, m: nat, n: nat, p: ProcId)
    requires WorldRun(states, steps) && m <= n < |states| && p in states[m].procs
    requires var x := states[m].procs[p]; (x.Terminalizing? || x.Finalized?) && x.effect.Some?
    ensures var x := states[m].procs[p];
            && BundleOk(states[n].journal, x.bundle) && IsLedger(x.bundle)
            && LedgerSuccessOk(states[n], x.bundle, x.effect.value, x.result)
  {
    hide WorldRun, Grows;
    WorldRunKeepsInv(states, steps, m);
    WorldRunGrows(states, steps, m, n);
    var x := states[m].procs[p];
    assert ProcOk(states[m], x);
    ProcPersists(states[m], states[n], x);
  }
}
