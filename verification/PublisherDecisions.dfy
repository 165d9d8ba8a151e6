/** When the Publisher's runs may take the steps that depend on what is recorded, written out on the
    comments, the objects and the fields themselves (scripts/actions_request_handler.py). */
module PublisherDecisions {
  import opened Common
  import opened JournalRecord
  import opened JournalProtocol
  import opened Markers
  import opened PublisherProtocol
  import opened PublisherReader
  import opened PublisherSafety
  import opened Text
  import Decimal

  // ----- what is there

  /** The comment at `id` is the only one of its kind for the request and execution, on an Issue that
      can be scanned for the kind. */
  predicate OnlyAt(log: seq<Body>, kind: Kind, identity: Identity, executionId: string, id: nat) {
    && Quiet(log, kind, identity) && id < |log|
    && forall m | 0 <= m < |log| :: IsOf(log[m], kind, identity, executionId) <==> m == id
  }

  predicate NoneOf(log: seq<Body>, kind: Kind, identity: Identity, executionId: string) {
    Quiet(log, kind, identity) && forall m | 0 <= m < |log| :: !IsOf(log[m], kind, identity, executionId)
  }

  /** Control's only receipt for exactly this bundle, on an Issue with at most 999 comments. */
  predicate OnlyReceiptAt(log: seq<Body>, b: Bundle, id: nat) {
    && |OnIssue(log, (b.identity.repositoryFullName, b.identity.issueNumber))| <= 999 && id < |log|
    && forall m | 0 <= m < |log| :: Answers(log[m], b) <==> m == id
  }

  /** The remote shows the effect: the recorded object, at the head of the recorded branch. */
  predicate IsShown(s: World, e: Publication) {
    && e.commit in s.taskCommits && s.taskCommits[e.commit].tree == e.tree
    && (e.commit == e.base || s.taskCommits[e.commit].parents == [e.base])
    && HeadIs(s, e.branch, e.commit)
  }

  predicate HeadIs(s: World, branch: string, commit: Sha) {
    branch in s.taskHeads && var heads := s.taskHeads[branch]; heads != [] && heads[|heads| - 1] == commit
  }

  /** The effect is of the artifact that Control handed over. */
  predicate IsOfArtifact(e: Publication, h: Handoff) {
    e.artifact.runId == h.runId && e.artifact.runAttempt == h.runAttempt && e.artifact.contentSha256 == h.contentSha256
  }

  lemma ReceiptMeans(log: seq<Body>, b: Bundle, id: nat)
    ensures Countable(log, (b.identity.repositoryFullName, b.identity.issueNumber)) && id < |log|
            && ReceiptMatches(log, b) == [id]
            <==> OnlyReceiptAt(log, b, id)
  {
    hide Answers, ReceiptMatches, IssueOf, CountOnIssue;
    CountMeans(log, (b.identity.repositoryFullName, b.identity.issueNumber));
    ReceiptsMean(log, b);
    var ms := ReceiptMatches(log, b);
    AscendingMeans(ms, id);
    assert ms == [id] ==> id in ms;
    assert id < |log| ==> (id in ms <==> Answers(log[id], b));
    assert ms != [] ==> ms[0] in ms;
  }

  // ----- finalize

  /** A receipt is taken exactly when it is alone and its verdict is allowed: for a ledger request a
      candidate or a rejection, for any other request a final result. */
  lemma ReceivesExactly(s: World, p: ProcId, id: nat)
    requires Usable(s.journal) && p in s.procs && s.procs[p].Bound?
    ensures var b := s.procs[p].bundle;
            CanStep(s, TakeReceipt(p, id)) <==>
              && OnlyReceiptAt(s.log, b, id)
              && match s.log[id].receipt.verdict
                 case CandidateReady(_) => b.identity.operation == "governance.ledger"
                 case Final(state, _) => state.Rejected? || (state.Succeeded?
                                                             && b.identity.operation != "governance.ledger")
  {
    hide Countable, ReceiptMatches, OnIssue;
    ReceiptMeans(s.log, s.procs[p].bundle, id);
  }

  /** A recorded effect is taken up exactly when it is recorded once, for this very bundle and of this
      very artifact; the effect is built anew exactly when none is recorded. */
  lemma RecoversExactly(s: World, p: ProcId, id: nat)
    requires Usable(s.journal) && p in s.procs && s.procs[p].Recovering?
    ensures var b, h := s.procs[p].bundle, s.procs[p].handoff;
            && (CanStep(s, Recover(p, id)) <==>
                  && OnlyAt(s.log, PublicationKind, b.identity, b.executionId, id)
                  && s.log[id].bundle == b && IsOfArtifact(s.log[id].publication, h))
            && (CanStep(s, NothingToRecover(p)) <==> NoneOf(s.log, PublicationKind, b.identity, b.executionId))
  {
    hide Unique, Scannable, Matches, Quiet;
    var b := s.procs[p].bundle;
    AloneMeans(s.log, PublicationKind, b.identity, b.executionId, id);
  }

  /** The commit built stands on the base that was read, is new or the very same object, and is of the
      artifact handed over; without a change it is the base itself. */
  lemma BuildsExactly(s: World, p: ProcId, e: Publication)
    requires Usable(s.journal) && p in s.procs && s.procs[p].Based?
    ensures var x := s.procs[p];
            CanStep(s, Build(p, e)) <==>
              && e.branch == x.branch && e.base == x.base && e.base in s.taskCommits && IsOfArtifact(e, x.handoff)
              && (e.commit == e.base ==> e.tree == s.taskCommits[e.base].tree)
              && (e.commit == e.base || e.commit !in s.taskCommits
                  || s.taskCommits[e.commit] == TaskCommit([e.base], e.tree))
  {
  }

  /** The recorded effect is confirmed, loaded again and checked again, each time only if it is still
      the only one recorded. */
  lemma ChecksExactly(s: World, p: ProcId, id: nat)
    requires Usable(s.journal) && p in s.procs
    requires s.procs[p].Confirming? || s.procs[p].Checkpointed? || s.procs[p].Proven?
    ensures var x := s.procs[p];
            var alone := (k: nat) => && OnlyAt(s.log, PublicationKind, x.bundle.identity, x.bundle.executionId, k)
                                     && s.log[k] == PublicationBody(x.bundle, x.publication);
            && (CanStep(s, Confirm(p)) <==> x.Confirming? && alone(x.id))
            && (CanStep(s, ReloadCheckpoint(p, id)) <==> x.Checkpointed? && alone(id))
            && (CanStep(s, CheckResult(p)) <==> x.Proven? && alone(x.id) && IsOfArtifact(x.publication, x.handoff))
  {
    hide Unique, Quiet;
    var x := s.procs[p];
    AloneMeans(s.log, PublicationKind, x.bundle.identity, x.bundle.executionId, id);
    AloneMeans(s.log, PublicationKind, x.bundle.identity, x.bundle.executionId, x.id);
  }

  /** The remote is read before and after: the PATCH is sent only from the recorded base, and an effect
      is proven only when the remote shows it. */
  lemma ReadsExactly(s: World, p: ProcId)
    requires Usable(s.journal) && p in s.procs && (s.procs[p].Found? || s.procs[p].Reloaded? || s.procs[p].ReadingBack?)
    ensures var x := s.procs[p];
            && (CanStep(s, ReadRecovered(p)) <==> x.Found? && IsShown(s, x.publication))
            && (CanStep(s, ReadTaskHead(p)) <==> x.Reloaded? && HeadIs(s, x.publication.branch, x.publication.base))
            && (CanStep(s, ReadTaskBack(p)) <==> x.ReadingBack? && IsShown(s, x.publication))
  {
  }

  /** The result is concluded only when the published comment is the only one. */
  lemma ConcludesExactly(s: World, p: ProcId)
    requires Usable(s.journal) && p in s.procs && s.procs[p].ConfirmingPublished?
    ensures var x := s.procs[p];
            CanStep(s, ConfirmPublished(p)) <==>
              && OnlyAt(s.log, PublishedKind, x.bundle.identity, x.bundle.executionId, x.id)
              && s.log[x.id] == PublishedBody(x.bundle, x.publication)
  {
    hide Unique, Quiet;
    var x := s.procs[p];
    AloneMeans(s.log, PublishedKind, x.bundle.identity, x.bundle.executionId, x.id);
  }

  // ----- comments

  function KindOf(g: Goal): Kind {
    match g
    case IntentGoal(_) => IntentKind
    case PrepareGoal(_, _) => PrepareKind
    case PublicationGoal(_, _, _, _) => PublicationKind
    case PublishedGoal(_, _, _, _) => PublishedKind
  }

  function PlaceOf(g: Goal): (Identity, string) {
    match g
    case IntentGoal(i) => (i.identity, i.executionId)
    case PrepareGoal(b, _) => (b.identity, b.executionId)
    case PublicationGoal(b, _, _, _) => (b.identity, b.executionId)
    case PublishedGoal(b, _, _, _) => (b.identity, b.executionId)
  }

  /** What the comment for a goal says. */
  predicate Says(body: Body, g: Goal) {
    match g
    case IntentGoal(i) => body.IntentBody? && body.intent == i
    case PrepareGoal(b, d) => body.PrepareBody? && body.bundle == b && body.disposition == d
    case PublicationGoal(b, _, _, e) => body.PublicationBody? && body.bundle == b && body.publication == e
    case PublishedGoal(b, _, e, _) => body.PublishedBody? && body.bundle == b && body.publication == e
  }

  /** A comment is posted exactly when there is none of its kind yet, and taken for made exactly when
      the only one says the same; a publication must be readable as one. */
  lemma EnsuresExactly(s: World, p: ProcId, id: nat)
    requires Usable(s.journal) && p in s.procs && s.procs[p].Ensuring?
    ensures var g := s.procs[p].goal;
            var (identity, e) := PlaceOf(g);
            var readable := g.PublicationGoal? ==> !Contains(g.bundle.canonicalRecord.frozen.canonicalRequest,
                                                             PublisherPrefix(PublicationKind));
            && (CanStep(s, PostComment(p)) <==> !s.procs[p].posted && readable && NoneOf(s.log, KindOf(g), identity, e))
            && (CanStep(s, FindComment(p, id)) <==>
                  readable && OnlyAt(s.log, KindOf(g), identity, e, id) && Says(s.log[id], g))
            && (CanStep(s, AckComment(p, id)) <==> s.procs[p].posted && id < |s.log| && Says(s.log[id], g))
  {
    hide Unique, Scannable, Matches, Quiet, Contains, PublisherPrefix;
    var (identity, e) := PlaceOf(s.procs[p].goal);
    AloneMeans(s.log, KindOf(s.procs[p].goal), identity, e, id);
    assert GoalKey(s.procs[p].goal) == KeyFor(KindOf(s.procs[p].goal), identity, e);
  }

  // ----- the environment

  /** Nothing the remote may do is ruled out: a POST or a PATCH that was sent may land at any time, or
      never, and branches move and others comment as they like. */
  lemma CommentsLand(s: World, body: Body)
    requires Usable(s.journal)
    ensures CanStep(s, PostLands(body)) <==> body in s.posts
    ensures CanStep(s, PostLands(body)) ==>
              WorldNext(s, PostLands(body)) == s.(log := s.log + [body], posts := s.posts - multiset{body})
    ensures CanStep(s, Comment(body)) <==> body.ReceiptBody? || body.OtherBody?
    ensures CanStep(s, Comment(body)) ==> WorldNext(s, Comment(body)) == s.(log := s.log + [body])
  {
    hide CanFinalize, FinalizeAfter, Enabled, Next;
  }

  lemma BranchesMove(s: World, branch: string, sha: Sha, p: ProcId)
    requires Usable(s.journal)
    ensures CanStep(s, TaskPatchLands(p)) <==> p in s.taskPatches
    ensures CanStep(s, TaskPatchLands(p)) ==>
              var t := WorldNext(s, TaskPatchLands(p));
              t == s.(taskHeads := t.taskHeads) && HeadIs(t, s.taskPatches[p].1.branch, s.taskPatches[p].1.commit)
    ensures CanStep(s, BranchMoves(branch, sha)) && HeadIs(WorldNext(s, BranchMoves(branch, sha)), branch, sha)
  {
    hide CanFinalize, FinalizeAfter, Enabled, Next;
  }

  /** Any run may stop, any coordinator call may go on, fail or crash, and any record may be marked
      ambiguous. */
  lemma AnybodyStops(s: World, p: ProcId, l: Label)
    requires Usable(s.journal)
    ensures CanStep(s, Stop(p)) <==> p in s.procs && !s.procs[p].Prepared? && !s.procs[p].Finalized?
    ensures CanStep(s, Stop(p)) ==> WorldNext(s, Stop(p)) == s.(procs := s.procs[p := Stopped])
    ensures CanStep(s, JournalStep(l)) <==> Enabled(s.journal, l) && (l.Begin? ==> l.op.AmbiguousOp?)
    ensures CanStep(s, JournalStep(l)) ==> WorldNext(s, JournalStep(l)) == s.(journal := Next(s.journal, l))
  {
    hide CanFinalize, FinalizeAfter, Enabled, Next;
  }

  // ----- prepare

  /** The intent is of this record: its Issue and request, its policy, and an acceptance that the journal
      holds, at the revision named, as nothing but accepted. */
  predicate IsIntentOf(j: Journal, i: Intent, f: Frozen) {
    && i.identity.requestId == f.requestId && i.identity.requestDigest == f.requestDigest
    && i.identity.operation == f.operation && i.identity.repositoryId == f.repositoryId
    && i.identity.repositoryFullName == f.repositoryFullName && i.identity.issueId == f.issueId
    && i.identity.issueNumber == f.issueNumber && i.policyRevision == f.policyRevision
    && i.acceptedRevision in j.store && i.identity.requestId in j.store[i.acceptedRevision].tree
    && j.store[i.acceptedRevision].tree[i.identity.requestId] == Record(f, Accepted, None, None, None)
  }

  lemma IntentMeans(j: Journal, i: Intent, r: Record)
    ensures IntentMatches(j, i, r) <==> IsIntentOf(j, i, r.frozen)
  {
  }

  /** Prepare goes on from an intent exactly when it is the only one for the request and execution and is
      of the record that was answered. */
  lemma FindsIntentExactly(s: World, p: ProcId, id: nat)
    requires Usable(s.journal) && p in s.procs && s.procs[p].FindingIntent?
    ensures var f, e := s.procs[p].record.frozen, s.procs[p].executionId;
            CanStep(s, FindIntent(p, id)) <==>
              OnlyAt(s.log, IntentKind, IdentityOf(f), e, id) && IsIntentOf(s.journal, s.log[id].intent, f)
  {
    hide Unique, Quiet, IntentMatches, IsIntentOf;
    var x := s.procs[p];
    AloneMeans(s.log, IntentKind, IdentityOf(x.record.frozen), x.executionId, id);
    assert IntentKey(IdentityOf(x.record.frozen), x.executionId) == KeyFor(IntentKind, IdentityOf(x.record.frozen),
        x.executionId);
    if id < |s.log| && s.log[id].IntentBody? { IntentMeans(s.journal, s.log[id].intent, x.record); }
  }

  /** After a claim of its own execution, prepare hands the recorded bundle out exactly when it is the
      only one, of the same record and execution; it rebuilds the bundle exactly when none is recorded,
      the record is still executing and the intent is of it. */
  lemma ResumesExactly(s: World, p: ProcId, id: nat)
    requires Usable(s.journal) && p in s.procs && s.procs[p].Resuming?
    ensures var r, i := s.procs[p].record, s.procs[p].intent;
            && (CanStep(s, FindCheckpoint(p, id)) <==>
                  && OnlyAt(s.log, PrepareKind, IdentityOf(r.frozen), i.executionId, id)
                  && var b := s.log[id].bundle;
                     && b.identity == IdentityOf(r.frozen) && b.canonicalRecord.frozen == r.frozen
                     && b.canonicalRecord.executionId == r.executionId == Some(b.executionId)
                     && b.canonicalRecord.state.Executing?)
            && (CanStep(s, RebuildBundle(p)) <==>
                  && NoneOf(s.log, PrepareKind, IdentityOf(r.frozen), i.executionId)
                  && r.state.Executing? && IsIntentOf(s.journal, i, r.frozen))
  {
    hide Unique, Scannable, Matches, Quiet, IntentMatches, IsIntentOf;
    var r, i := s.procs[p].record, s.procs[p].intent;
    AloneMeans(s.log, PrepareKind, IdentityOf(r.frozen), i.executionId, id);
    assert BundleKey(PrepareKind, BundleFrom(r, i.executionId, 0, 0)) == KeyFor(PrepareKind, IdentityOf(r.frozen),
        i.executionId);
    IntentMeans(s.journal, i, r);
  }

  // ----- the reader

  /** The Issue of the governance repository and the request that the reader is asked for. */
  function Wanted(issue: nat, q: RequestId): Identity {
    Identity(q, "", "", 0, "shockerqt/workspace-governance", 0, issue)
  }

  /** The comments at these places are the only ones of their kinds, agree on the bundle and on a
      publication that changes something, and the journal holds the success they prove. */
  predicate Proves(log: seq<Body>, j: Journal, issue: nat, e: string, q: RequestId, prepare: nat, publication: nat,
                   published: nat)
    requires Usable(j)
  {
    && OnlyAt(log, PrepareKind, Wanted(issue, q), e, prepare)
    && OnlyAt(log, PublicationKind, Wanted(issue, q), e, publication)
    && OnlyAt(log, PublishedKind, Wanted(issue, q), e, published)
    && var b := log[published].bundle;
       var p := log[published].publication;
       && log[prepare].bundle == b && log[publication].bundle == b && log[publication].publication == p
       && p.commit != p.base && b.identity.repositoryId == 1260920764
       && q in j.store[Head(j)].tree
       && var r := j.store[Head(j)].tree[q];
          && VerifyBundle(j, b, Head(j), r) && r.state.Succeeded? && r.terminalCode == Some("ledger_published")
          && r.terminalReference
             == Some("https://github.com/" + b.identity.repositoryFullName + "/issues/" + Decimal.Text(b.identity.issueNumber)
                     + "#issuecomment-" + Decimal.Text(published + 1))
  }

  lemma OnlyMeans(log: seq<Body>, kind: Kind, issue: nat, e: string, q: RequestId)
    ensures var ms := Matches(log, Key(kind, GOVERNANCE, issue, q, e));
            && ((Scannable(log, Key(kind, GOVERNANCE, issue, q, e)) && |ms| == 1) ==>
                  OnlyAt(log, kind, Wanted(issue, q), e, ms[0]))
            && forall id: nat | OnlyAt(log, kind, Wanted(issue, q), e, id) ::
                 Scannable(log, Key(kind, GOVERNANCE, issue, q, e)) && ms == [id]
  {
    hide Quiet, Matches, Scannable, IsOf;
    var key := Key(kind, GOVERNANCE, issue, q, e);
    assert key == KeyFor(kind, Wanted(issue, q), e);
    var ms := Matches(log, key);
    if |ms| == 1 {
      assert ms == [ms[0]] && ms[0] in ms;
      AloneMeans(log, kind, Wanted(issue, q), e, ms[0]);
    }
    forall id: nat | OnlyAt(log, kind, Wanted(issue, q), e, id) ensures Scannable(log, key) && ms == [id] {
      AloneMeans(log, kind, Wanted(issue, q), e, id);
    }
  }

  /** The reader returns a receipt exactly when there are three such comments, and it is theirs. */
  lemma ReaderIsExact(log: seq<Body>, j: Journal, issue: nat, e: string, q: RequestId)
    requires Usable(j)
    ensures var r := LoadPublished(log, j, issue, e, q);
            && (r.Ok? ==> exists prepare: nat, publication: nat,
                published: nat :: Proves(log, j, issue, e, q, prepare, publication, published))
            && forall prepare: nat, publication: nat,
            published: nat | Proves(log, j, issue, e, q, prepare, publication, published) ::
                 r == Ok(DurableReceipt(log[published].bundle, log[published].publication, published, Head(j)))
  {
    OnlyMeans(log, PrepareKind, issue, e, q);
    OnlyMeans(log, PublicationKind, issue, e, q);
    OnlyMeans(log, PublishedKind, issue, e, q);
    hide OnlyAt, Countable, Readable, VerifyBundle, Decimal.Text, IsOf;
    var prepares := Matches(log, Key(PrepareKind, GOVERNANCE, issue, q, e));
    var publications := Matches(log, Key(PublicationKind, GOVERNANCE, issue, q, e));
    var publisheds := Matches(log, Key(PublishedKind, GOVERNANCE, issue, q, e));
    hide Matches;
    if LoadPublished(log, j, issue, e, q).Ok? {
      OnlyShape(log, PrepareKind, issue, e, q, prepares[0]);
      OnlyShape(log, PublicationKind, issue, e, q, publications[0]);
      OnlyShape(log, PublishedKind, issue, e, q, publisheds[0]);
      assert Proves(log, j, issue, e, q, prepares[0], publications[0], publisheds[0]);
    }
  }

  lemma OnlyShape(log: seq<Body>, kind: Kind, issue: nat, e: string, q: RequestId, id: nat)
    requires OnlyAt(log, kind, Wanted(issue, q), e, id)
    ensures id < |log| && IsOf(log[id], kind, Wanted(issue, q), e)
  {
    hide IsOf, Quiet;
  }
}
