/** What can always be finished: from any state that has been reached, a fresh finalize run ends a
    request whose record is executing or ambiguous, by the journal command its state calls for
    (scripts/actions_request_handler.py). */
module PublisherRecovery {
  import opened Common
  import opened JournalRecord
  import opened JournalProtocol
  import opened Markers
  import opened PublisherProtocol
  import opened PublisherMoves

  // ----- what the moves of a finalize run leave behind

  function Built(s: World, p: ProcId, e: Publication): World {
    s.(taskCommits := s.taskCommits[e.commit := TaskCommit([e.base], e.tree)], taskWriters := s.taskWriters + {p})
  }

  function Patched(s: World, p: ProcId, b: Bundle, e: Publication): World {
    s.(taskPatches := s.taskPatches[p := (b, e)], taskWriters := s.taskWriters + {p})
  }

  function Landed(s: World, e: Publication): World {
    s.(taskHeads := AddHead(s.taskHeads, e.branch, e.commit))
  }

  function Shown(s: World, e: Publication): World {
    s.(readBacks := s.readBacks + {e})
  }

  function Settled(s: World, b: Bundle, e: Publication, id: nat): World {
    s.(confirmed := s.confirmed + {(b, e, id)})
  }

  // ----- from the bundle to Control's receipt

  lemma Binds(o: World, s: World, p: ProcId, b: Bundle, r: Record)
    requires Leads(o, s) && Usable(s.journal) && p !in s.procs && Open(r)
    requires CurrentRecord(s.journal, b.identity.requestId) == Some(r) && VerifyBundle(s.journal, b, Head(s.journal), r)
    ensures Leads(o, With(s, p, Bound(b, r.state.Ambiguous?)))
  {
    hide VerifyBundle, Usable, CanFinalize, FinalizeAfter, Open;
    CanStart(s, p, b);
    Moves(o, s, StartFinalize(p, b), Finalizing(b));
    CanBind(With(s, p, Finalizing(b)), p, b, r);
    MovesOn(o, s, p, Finalizing(b), BindBundle(p), Bound(b, r.state.Ambiguous?));
  }

  lemma CanStart(s: World, p: ProcId, b: Bundle)
    requires Usable(s.journal) && p !in s.procs
    ensures CanFinalize(s, StartFinalize(p, b)) && FinalizeAfter(s, StartFinalize(p, b)) == Finalizing(b)
  {
  }

  lemma CanBind(s: World, p: ProcId, b: Bundle, r: Record)
    requires Usable(s.journal) && p in s.procs && s.procs[p] == Finalizing(b) && Open(r)
    requires CurrentRecord(s.journal, b.identity.requestId) == Some(r) && VerifyBundle(s.journal, b, Head(s.journal), r)
    ensures CanFinalize(s, BindBundle(p)) && FinalizeAfter(s, BindBundle(p)) == Bound(b, r.state.Ambiguous?)
  {
    hide VerifyBundle;
  }

  /** Exactly one receipt for the bundle, on an Issue that can be scanned. */
  predicate OneReceipt(s: World, b: Bundle, v: Verdict, id: nat) {
    && Countable(s.log, (b.identity.repositoryFullName, b.identity.issueNumber)) && id < |s.log|
    && ReceiptMatches(s.log, b) == [id] && s.log[id].ReceiptBody? && s.log[id].receipt.verdict == v
  }

  lemma HearsResult(o: World, s: World, p: ProcId, b: Bundle, a: bool, state: State, code: string, id: nat)
    requires Leads(o, With(s, p, Bound(b, a))) && Usable(s.journal) && OneReceipt(s, b, Final(state, code), id)
    requires Terminal(state) && (b.identity.operation == "governance.ledger" ==> state.Rejected?)
    ensures Leads(o, With(s, p, Concluding(b, a, TerminalResult(state, code, Reference(b.identity, id)), None)))
  {
    hide Countable, ReceiptMatches, Usable, Reference;
    MovesOn(o, s, p, Bound(b, a), TakeReceipt(p, id),
            Concluding(b, a, TerminalResult(state, code, Reference(b.identity, id)), None));
  }

  lemma HearsCandidate(o: World, s: World, p: ProcId, b: Bundle, a: bool, h: Handoff, id: nat)
    requires Leads(o, With(s, p, Bound(b, a))) && Usable(s.journal) && OneReceipt(s, b, CandidateReady(h), id)
    requires b.identity.operation == "governance.ledger"
    ensures Leads(o, With(s, p, Recovering(b, a, h)))
  {
    hide Countable, ReceiptMatches, Usable;
    MovesOn(o, s, p, Bound(b, a), TakeReceipt(p, id), Recovering(b, a, h));
  }

  // ----- the effect

  /** Nothing is recorded for the bundle, and the effect can be built on its branch. */
  predicate Buildable(s: World, b: Bundle, h: Handoff, e: Publication) {
    && Scannable(s.log, BundleKey(PublicationKind, b)) && Matches(s.log, BundleKey(PublicationKind, b)) == []
    && Linked(e, h) && TaskHead(s, e.branch) == Some(e.base)
    && e.base in s.taskCommits && e.commit !in s.taskCommits && e.commit != e.base
  }

  lemma Builds(o: World, s: World, p: ProcId, b: Bundle, a: bool, h: Handoff, e: Publication)
    requires Leads(o, With(s, p, Recovering(b, a, h))) && Usable(s.journal) && Buildable(s, b, h, e)
    ensures Leads(o, With(Built(s, p, e), p, Ensuring(PublicationGoal(b, a, h, e), false)))
  {
    hide Scannable, Matches, Usable, CanFinalize, FinalizeAfter;
    CanFindNothing(With(s, p, Recovering(b, a, h)), p, b, a, h);
    MovesOn(o, s, p, Recovering(b, a, h), NothingToRecover(p), Building(b, a, h));
    CanReadBase(With(s, p, Building(b, a, h)), p, b, a, h, e.branch, e.base);
    MovesOn(o, s, p, Building(b, a, h), ReadBase(p, e.branch, e.base), Based(b, a, h, e.branch, e.base));
    hide Buildable, TaskHead;
    BuildsCommit(o, s, p, b, a, h, e) by { assert Buildable(s, b, h, e); }
  }

  lemma CanFindNothing(s: World, p: ProcId, b: Bundle, a: bool, h: Handoff)
    requires Usable(s.journal) && p in s.procs && s.procs[p] == Recovering(b, a, h)
    requires Scannable(s.log, BundleKey(PublicationKind, b)) && Matches(s.log, BundleKey(PublicationKind, b)) == []
    ensures CanFinalize(s, NothingToRecover(p)) && FinalizeAfter(s, NothingToRecover(p)) == Building(b, a, h)
  {
    hide Scannable, Matches;
  }

  lemma CanReadBase(s: World, p: ProcId, b: Bundle, a: bool, h: Handoff, branch: string, base: Sha)
    requires Usable(s.journal) && p in s.procs && s.procs[p] == Building(b, a, h) && TaskHead(s, branch) == Some(base)
    ensures CanFinalize(s, ReadBase(p, branch, base))
    ensures FinalizeAfter(s, ReadBase(p, branch, base)) == Based(b, a, h, branch, base)
  {
    hide TaskHead;
  }

  lemma BuildsCommit(o: World, s: World, p: ProcId, b: Bundle, a: bool, h: Handoff, e: Publication)
    requires Leads(o, With(s, p, Based(b, a, h, e.branch, e.base))) && Usable(s.journal) && Buildable(s, b, h, e)
    ensures Leads(o, With(Built(s, p, e), p, Ensuring(PublicationGoal(b, a, h, e), false)))
  {
    hide Scannable, Matches, Usable;
    var x, y := Based(b, a, h, e.branch, e.base), Ensuring(PublicationGoal(b, a, h, e), false);
    Acts(o, With(s, p, x), Build(p, e), With(Built(With(s, p, x), p, e), p, y));
    WithAgain(Built(s, p, e), p, x, y);
  }

  /** The publication is the only one recorded for the bundle. */
  predicate OnlyRecord(log: seq<Body>, b: Bundle, e: Publication, id: nat) {
    Unique(log, BundleKey(PublicationKind, b), id) && id < |log| && log[id] == PublicationBody(b, e)
  }

  lemma Proceeds(o: World, s: World, p: ProcId, b: Bundle, a: bool, h: Handoff, e: Publication, id: nat)
    requires Leads(o, With(s, p, Confirming(b, a, h, e, id))) && Usable(s.journal)
    requires OnlyRecord(s.log, b, e, id) && TaskHead(s, e.branch) == Some(e.base)
    ensures Leads(o, With(s, p, Publishing(b, a, h, e, id)))
  {
    hide OnlyRecord, Usable, CanFinalize, FinalizeAfter, TaskHead;
    CanConfirm(With(s, p, Confirming(b, a, h, e, id)), p, b, a, h, e, id);
    MovesOn(o, s, p, Confirming(b, a, h, e, id), Confirm(p), Checkpointed(b, a, h, e, id));
    CanReload(With(s, p, Checkpointed(b, a, h, e, id)), p, b, a, h, e, id);
    MovesOn(o, s, p, Checkpointed(b, a, h, e, id), ReloadCheckpoint(p, id), Reloaded(b, a, h, e, id));
    CanReadHead(With(s, p, Reloaded(b, a, h, e, id)), p, b, a, h, e,
                id) by { SameHead(s, p, Reloaded(b, a, h, e, id), e.branch); }
    MovesOn(o, s, p, Reloaded(b, a, h, e, id), ReadTaskHead(p), Publishing(b, a, h, e, id));
  }

  lemma SameHead(s: World, p: ProcId, x: Proc, branch: string)
    ensures TaskHead(With(s, p, x), branch) == TaskHead(s, branch)
  {
  }

  lemma CanConfirm(s: World, p: ProcId, b: Bundle, a: bool, h: Handoff, e: Publication, id: nat)
    requires Usable(s.journal) && p in s.procs && s.procs[p] == Confirming(b, a, h, e, id)
             && OnlyRecord(s.log, b, e, id)
    ensures CanFinalize(s, Confirm(p)) && FinalizeAfter(s, Confirm(p)) == Checkpointed(b, a, h, e, id)
  {
    hide Unique;
  }

  lemma CanReload(s: World, p: ProcId, b: Bundle, a: bool, h: Handoff, e: Publication, id: nat)
    requires Usable(s.journal) && p in s.procs && s.procs[p] == Checkpointed(b, a, h, e, id)
             && OnlyRecord(s.log, b, e, id)
    ensures CanFinalize(s, ReloadCheckpoint(p, id))
    ensures FinalizeAfter(s, ReloadCheckpoint(p, id)) == Reloaded(b, a, h, e, id)
  {
    hide Unique;
  }

  lemma CanReadHead(s: World, p: ProcId, b: Bundle, a: bool, h: Handoff, e: Publication, id: nat)
    requires Usable(s.journal) && p in s.procs && s.procs[p] == Reloaded(b, a, h, e, id)
    requires TaskHead(s, e.branch) == Some(e.base)
    ensures CanFinalize(s, ReadTaskHead(p)) && FinalizeAfter(s, ReadTaskHead(p)) == Publishing(b, a, h, e, id)
  {
    hide TaskHead;
  }

  lemma Sends(o: World, s: World, p: ProcId, b: Bundle, a: bool, h: Handoff, e: Publication, id: nat)
    requires Leads(o, With(s, p, Publishing(b, a, h, e, id))) && Usable(s.journal) && e.commit != e.base
    ensures Leads(o, With(Patched(s, p, b, e), p, ReadingBack(b, a, h, e, id)))
  {
    hide Usable;
    var x, y := Publishing(b, a, h, e, id), ReadingBack(b, a, h, e, id);
    Acts(o, With(s, p, x), SendTaskPatch(p), With(Patched(With(s, p, x), p, b, e), p, y));
    WithAgain(Patched(s, p, b, e), p, x, y);
  }

  lemma Lands(o: World, s: World, p: ProcId, x: Proc, b: Bundle, e: Publication)
    requires Leads(o, With(s, p, x)) && Usable(s.journal) && p in s.taskPatches && s.taskPatches[p] == (b, e)
    ensures Leads(o, With(Landed(s, e), p, x))
  {
    hide CanFinalize, Usable;
    Steps(o, With(s, p, x), TaskPatchLands(p), With(Landed(s, e), p, x));
  }

  lemma ReadsItBack(o: World, s: World, p: ProcId, b: Bundle, a: bool, h: Handoff, e: Publication, id: nat)
    requires Leads(o, With(s, p, ReadingBack(b, a, h, e, id))) && Usable(s.journal) && ReadsBack(s, e)
    ensures Leads(o, With(Shown(s, e), p, Proven(b, a, h, e, id, false)))
  {
    hide Usable;
    var x, y := ReadingBack(b, a, h, e, id), Proven(b, a, h, e, id, false);
    Acts(o, With(s, p, x), ReadTaskBack(p), With(Shown(With(s, p, x), e), p, y));
    WithAgain(Shown(s, e), p, x, y);
  }

  /** What the run has done to the world once its own commit is on the branch and read back. */
  function Done(s: World, p: ProcId, b: Bundle, e: Publication): World {
    Shown(Landed(Patched(s, p, b, e), e), e)
  }

  lemma Publishes(o: World, s: World, p: ProcId, b: Bundle, a: bool, h: Handoff, e: Publication, id: nat)
    requires Leads(o, With(s, p, Confirming(b, a, h, e, id))) && Usable(s.journal) && e.commit != e.base
    requires OnlyRecord(s.log, b, e, id) && TaskHead(s, e.branch) == Some(e.base)
    requires e.commit in s.taskCommits && s.taskCommits[e.commit] == TaskCommit([e.base], e.tree)
    ensures Leads(o, With(Done(s, p, b, e), p, Proven(b, a, h, e, id, false)))
  {
    hide Unique, Usable;
    Proceeds(o, s, p, b, a, h, e, id);
    Sends(o, s, p, b, a, h, e, id);
    var s1 := Patched(s, p, b, e);
    Lands(o, s1, p, ReadingBack(b, a, h, e, id), b, e);
    var s2 := Landed(s1, e);
    assert ReadsBack(s2, e);
    ReadsItBack(o, s2, p, b, a, h, e, id);
  }

  /** A recorded effect that the remote shows is taken over without writing anything. */
  lemma Recovers(o: World, s: World, p: ProcId, b: Bundle, a: bool, h: Handoff, e: Publication, id: nat)
    requires Leads(o, With(s, p, Recovering(b, a, h))) && Usable(s.journal)
    requires OnlyRecord(s.log, b, e, id) && Linked(e, h) && ReadsBack(s, e)
    ensures Leads(o, With(Shown(s, e), p, Proven(b, a, h, e, id, true)))
  {
    hide Unique, Usable, CanFinalize, FinalizeAfter;
    CanRecover(With(s, p, Recovering(b, a, h)), p, b, a, h, e, id);
    MovesOn(o, s, p, Recovering(b, a, h), Recover(p, id), Found(b, a, h, e, id));
    hide OnlyRecord, Linked;
    TakesOver(o, s, p, b, a, h, e, id);
  }

  lemma CanRecover(s: World, p: ProcId, b: Bundle, a: bool, h: Handoff, e: Publication, id: nat)
    requires Usable(s.journal) && p in s.procs && s.procs[p] == Recovering(b, a, h) && OnlyRecord(s.log, b, e, id)
             && Linked(e, h)
    ensures CanFinalize(s, Recover(p, id)) && FinalizeAfter(s, Recover(p, id)) == Found(b, a, h, e, id)
  {
    hide Unique;
  }

  lemma TakesOver(o: World, s: World, p: ProcId, b: Bundle, a: bool, h: Handoff, e: Publication, id: nat)
    requires Leads(o, With(s, p, Found(b, a, h, e, id))) && Usable(s.journal) && ReadsBack(s, e)
    ensures Leads(o, With(Shown(s, e), p, Proven(b, a, h, e, id, true)))
  {
    hide Usable;
    var x, y := Found(b, a, h, e, id), Proven(b, a, h, e, id, true);
    Acts(o, With(s, p, x), ReadRecovered(p), With(Shown(With(s, p, x), e), p, y));
    WithAgain(Shown(s, e), p, x, y);
  }

  // ----- the published comment

  function Success(b: Bundle, e: Publication, id: nat): TerminalResult {
    TerminalResult(Succeeded, if e.commit == e.base then "ledger_no_change" else "ledger_published",
                   Reference(b.identity, id))
  }

  lemma ChecksResult(o: World, s: World, p: ProcId, b: Bundle, a: bool, h: Handoff, e: Publication, id: nat,
                     again: bool)
    requires Leads(o, With(s, p, Proven(b, a, h, e, id, again))) && Usable(s.journal) && OnlyRecord(s.log, b, e, id)
             && Linked(e, h)
    ensures Leads(o, With(s, p, Ensuring(PublishedGoal(b, a, e, again), false)))
  {
    hide Unique, Usable;
    MovesOn(o, s, p, Proven(b, a, h, e, id, again), CheckResult(p), Ensuring(PublishedGoal(b, a, e, again), false));
  }

  lemma ConfirmsIt(o: World, s: World, p: ProcId, b: Bundle, a: bool, e: Publication, again: bool, id: nat)
    requires Leads(o, With(s, p, ConfirmingPublished(b, a, e, again, id))) && Usable(s.journal)
    requires Unique(s.log, BundleKey(PublishedKind, b), id) && id < |s.log| && s.log[id] == PublishedBody(b, e)
    ensures Leads(o, With(Settled(s, b, e, id), p, Concluding(b, a, Success(b, e, id), Some(e))))
  {
    hide Unique, Usable, Reference;
    var x, y := ConfirmingPublished(b, a, e, again, id), Concluding(b, a, Success(b, e, id), Some(e));
    Acts(o, With(s, p, x), ConfirmPublished(p), With(Settled(With(s, p, x), b, e, id), p, y));
    WithAgain(Settled(s, b, e, id), p, x, y);
  }

  /** There is none yet, and one more leaves the Issue scannable. */
  predicate Unannounced(s: World, b: Bundle, e: Publication) {
    && Scannable(s.log, BundleKey(PublishedKind, b)) && Matches(s.log, BundleKey(PublishedKind, b)) == []
    && Unique(s.log + [PublishedBody(b, e)], BundleKey(PublishedKind, b), |s.log|)
  }

  lemma Announces(o: World, s: World, p: ProcId, b: Bundle, a: bool, e: Publication, again: bool)
    requires Leads(o, With(s, p, Ensuring(PublishedGoal(b, a, e, again), false))) && Usable(s.journal)
             && Unannounced(s, b, e)
    ensures Leads(o, With(Settled(Noted(s, PublishedBody(b, e)), b, e, |s.log|), p,
                         Concluding(b, a, Success(b, e, |s.log|), Some(e))))
  {
    hide Unique, Usable, Reference, Scannable, Matches;
    EnsuresComment(o, s, p, PublishedGoal(b, a, e, again));
    ConfirmsIt(o, Noted(s, PublishedBody(b, e)), p, b, a, e, again, |s.log|);
  }

  lemma FindsItAnnounced(o: World, s: World, p: ProcId, b: Bundle, a: bool, e: Publication, again: bool, id: nat)
    requires Leads(o, With(s, p, Ensuring(PublishedGoal(b, a, e, again), false))) && Usable(s.journal)
    requires Unique(s.log, BundleKey(PublishedKind, b), id) && id < |s.log| && s.log[id] == PublishedBody(b, e)
    ensures Leads(o, With(Settled(s, b, e, id), p, Concluding(b, a, Success(b, e, id), Some(e))))
  {
    hide Unique, Usable, Reference;
    FindsComment(o, s, p, PublishedGoal(b, a, e, again), id);
    ConfirmsIt(o, s, p, b, a, e, again, id);
  }

  // ----- the journal call

  /** The operation that ends an open record: only an ambiguous one is reconciled. */
  function Ending(r: Record, b: Bundle, t: TerminalResult): Op {
    if r.state.Ambiguous? then ReconcileOp(b.executionId, t.state, t.code, Some(t.reference))
    else CompleteOp(b.executionId, t.state, t.code, Some(t.reference))
  }

  function Ended(r: Record, t: TerminalResult): Record {
    r.(state := t.state, terminalCode := Some(t.code), terminalReference := Some(t.reference))
  }

  predicate Storable(t: TerminalResult) {
    Terminal(t.state) && ValidTerminalCode(t.code) && ValidTerminalReference(Some(t.reference))
  }

  /** The journal once call `w` has ended the record by commit `c`. */
  function Closed(j: Journal, w: WorkerId, c: Sha, b: Bundle, r: Record, t: TerminalResult): Journal
    requires Usable(j)
  {
    Called(Asked(j, w, b.identity.requestId, Ending(r, b, t)), w, c, Ended(r, t))
  }

  lemma CallsIt(o: World, s: World, p: ProcId, w: WorkerId, b: Bundle, a: bool, t: TerminalResult,
                effect: Option<Publication>)
    requires Leads(o, With(s, p, Concluding(b, a, t, effect))) && Usable(s.journal) && w !in s.journal.workers
    ensures Leads(o, With(s.(journal := Asked(s.journal, w, b.identity.requestId, TerminalOp(b, a, t))), p,
                          Terminalizing(b, a, t, effect, w)))
  {
    var x, y := Concluding(b, a, t, effect), Terminalizing(b, a, t, effect, w);
    var j := Asked(s.journal, w, b.identity.requestId, TerminalOp(b, a, t));
    CanCallIt(With(s, p, x), p, w, b, a, t, effect);
    hide CanFinalize, FinalizeAfter, JournalLabel, Next, TerminalOp, Asked, Usable;
    Acts(o, With(s, p, x), Terminalize(p, w), With(With(s, p, x).(journal := j), p, y));
    WithAgain(s.(journal := j), p, x, y);
  }

  lemma CanCallIt(s: World, p: ProcId, w: WorkerId, b: Bundle, a: bool, t: TerminalResult, effect: Option<Publication>)
    requires Usable(s.journal) && p in s.procs && s.procs[p] == Concluding(b, a, t, effect) && w !in s.journal.workers
    ensures CanFinalize(s, Terminalize(p, w))
            && FinalizeAfter(s, Terminalize(p, w)) == Terminalizing(b, a, t, effect, w)
    ensures var l := Begin(w, b.identity.requestId, TerminalOp(b, a, t));
            && JournalLabel(s, Terminalize(p, w)) == Some(l) && Enabled(s.journal, l)
            && Next(s.journal, l) == Asked(s.journal, w, b.identity.requestId, TerminalOp(b, a, t))
  {
  }

  lemma EndsIt(o: World, s: World, p: ProcId, w: WorkerId, c: Sha, b: Bundle, r: Record, t: TerminalResult,
               effect: Option<Publication>)
    requires Leads(o, With(s, p, Concluding(b, r.state.Ambiguous?, t, effect))) && Usable(s.journal)
    requires w !in s.journal.workers && c !in s.journal.store && Open(r) && Storable(t)
    requires CurrentRecord(s.journal, b.identity.requestId) == Some(r) && r.executionId == Some(b.executionId)
    ensures Leads(o, With(s.(journal := Closed(s.journal, w, c, b, r, t)), p, Finalized(b, t, effect)))
  {
    hide Open, Storable, CurrentRecord, Usable, CanCall, Called, Asked, CanFinalize, FinalizeAfter, Answered;
    var y := Terminalizing(b, r.state.Ambiguous?, t, effect, w);
    var s1 := s.(journal := Asked(s.journal, w, b.identity.requestId, Ending(r, b, t)));
    var s2 := s.(journal := Closed(s.journal, w, c, b, r, t));
    CallsIt(o, s, p, w, b, r.state.Ambiguous?, t, effect);
    CallEnds(s.journal, w, c, b, r, t);
    CallCompletes(o, With(s1, p, y), w, c, Ended(r, t));
    assert With(s1, p, y).(journal := s2.journal) == With(s2, p, y);
    CanTake(With(s2, p, y), p, b, r.state.Ambiguous?, t, effect, w);
    MovesOn(o, s2, p, y, TakeMutation(p), Finalized(b, t, effect));
  }

  lemma CanTake(s: World, p: ProcId, b: Bundle, a: bool, t: TerminalResult, effect: Option<Publication>, w: WorkerId)
    requires Usable(s.journal) && p in s.procs && s.procs[p] == Terminalizing(b, a, t, effect, w)
             && Answered(s.journal, w).Some?
    ensures CanFinalize(s, TakeMutation(p)) && FinalizeAfter(s, TakeMutation(p)) == Finalized(b, t, effect)
  {
    hide Answered;
  }

  lemma CallEnds(j: Journal, w: WorkerId, c: Sha, b: Bundle, r: Record, t: TerminalResult)
    requires Usable(j) && w !in j.workers && c !in j.store && Open(r) && Storable(t)
    requires CurrentRecord(j, b.identity.requestId) == Some(r) && r.executionId == Some(b.executionId)
    ensures CanCall(Asked(j, w, b.identity.requestId, Ending(r, b, t)), w, c, Ended(r, t))
    ensures var k := Closed(j, w, c, b, r, t);
            && Usable(k) && Head(k) == c && k.heads == j.heads + [c]
            && CurrentRecord(k, b.identity.requestId) == Some(Ended(r, t))
            && w in k.workers && k.workers[w].op == Ending(r, b, t) && k.workers[w].request == b.identity.requestId
            && Answered(k, w) == Some(CallResult(Mutation, c, Ended(r, t), false))
  {
    hide ValidTerminalCode, ValidTerminalReference;
  }

  // ----- every open request can be ended

  /** The bundle passes the check, and the record at the head is executing or ambiguous. */
  predicate Unfinished(s: World, b: Bundle, r: Record) {
    && Usable(s.journal) && CurrentRecord(s.journal, b.identity.requestId) == Some(r) && Open(r)
    && VerifyBundle(s.journal, b, Head(s.journal), r)
  }

  /** A process, a call and a commit id that have not been used. */
  predicate Fresh(s: World, p: ProcId, w: WorkerId, c: Sha) {
    p !in s.procs && w !in s.journal.workers && c !in s.journal.store
  }

  /** The request has been ended in `t`, with the result, by process `p`; the call it made reconciles
      an ambiguous record and completes an executing one. */
  predicate EndedBy(t: World, p: ProcId, w: WorkerId, b: Bundle, r: Record, result: TerminalResult,
                    effect: Option<Publication>) {
    && p in t.procs && t.procs[p] == Finalized(b, result, effect) && Usable(t.journal)
    && CurrentRecord(t.journal, b.identity.requestId)
       == Some(r.(state := result.state, terminalCode := Some(result.code),
                  terminalReference := Some(result.reference)))
    && w in t.journal.workers && t.journal.workers[w].request == b.identity.requestId
    && t.journal.workers[w].op
       == (if r.state.Ambiguous? then ReconcileOp(b.executionId, result.state, result.code, Some(result.reference))
           else CompleteOp(b.executionId, result.state, result.code, Some(result.reference)))
  }

  lemma Concludes(o: World, s: World, p: ProcId, w: WorkerId, c: Sha, b: Bundle, r: Record, result: TerminalResult,
                  effect: Option<Publication>) returns (t: World)
    requires Leads(o, With(s, p, Concluding(b, r.state.Ambiguous?, result, effect)))
    requires Unfinished(s, b, r) && w !in s.journal.workers && c !in s.journal.store && Storable(result)
    ensures Leads(o, t) && EndedBy(t, p, w, b, r, result, effect)
    ensures t == s.(journal := t.journal, procs := s.procs[p := Finalized(b, result, effect)])
    ensures t.journal.heads == s.journal.heads + [c]
  {
    hide Storable, Closed, Answered, Open, Usable;
    EndsIt(o, s, p, w, c, b, r, result, effect);
    CallEnds(s.journal, w, c, b, r, result);
    t := With(s.(journal := Closed(s.journal, w, c, b, r, result)), p, Finalized(b, result, effect));
  }

  /** From any state that has been reached: a request Control has given a final verdict on can be
      ended with that verdict by one fresh finalize run, whether its record is executing or ambiguous. */
  lemma ReportedRequestsCanEnd(s: World, p: ProcId, w: WorkerId, c: Sha, b: Bundle, r: Record, state: State,
                               code: string, id: nat)
      returns (t: World)
    requires Leads(s, s) && Fresh(s, p, w, c) && Unfinished(s, b, r) && OneReceipt(s, b, Final(state, code), id)
    requires b.identity.operation == "governance.ledger" ==> state.Rejected?
    requires Storable(TerminalResult(state, code, Reference(b.identity, id)))
    ensures Leads(s, t) && EndedBy(t, p, w, b, r, TerminalResult(state, code, Reference(b.identity, id)), None)
    ensures t == s.(journal := t.journal, procs := t.procs) && t.journal.heads == s.journal.heads + [c]
  {
    hide OneReceipt, VerifyBundle, EndedBy, Reference, ValidTerminalCode, ValidTerminalReference;
    Binds(s, s, p, b, r);
    HearsResult(s, s, p, b, r.state.Ambiguous?, state, code, id);
    t := Concludes(s, s, p, w, c, b, r, TerminalResult(state, code, Reference(b.identity, id)), None);
  }

  /** A fresh run binds the bundle and takes Control's candidate. */
  lemma TakesUp(o: World, s: World, p: ProcId, b: Bundle, r: Record, h: Handoff, receipt: nat)
    requires Leads(o, s) && p !in s.procs && Unfinished(s, b, r) && OneReceipt(s, b, CandidateReady(h), receipt)
    requires b.identity.operation == "governance.ledger"
    ensures Leads(o, With(s, p, Recovering(b, r.state.Ambiguous?, h)))
  {
    hide OneReceipt, VerifyBundle, Usable, Open;
    Binds(o, s, p, b, r);
    HearsCandidate(o, s, p, b, r.state.Ambiguous?, h, receipt);
  }

  /** The published comment exists already, or can be added. */
  predicate Announceable(s: World, b: Bundle, e: Publication, published: Option<nat>) {
    match published
    case None => Unannounced(s, b, e)
    case Some(id) => Unique(s.log, BundleKey(PublishedKind, b), id) && id < |s.log| && s.log[id] == PublishedBody(b, e)
  }

  function AnnouncedAt(s: World, published: Option<nat>): nat {
    if published.Some? then published.value else |s.log|
  }

  function AnnouncedLog(s: World, b: Bundle, e: Publication, published: Option<nat>): seq<Body> {
    if published.Some? then s.log else s.log + [PublishedBody(b, e)]
  }

  lemma AnnouncesOrFinds(o: World, s: World, p: ProcId, b: Bundle, a: bool, e: Publication, again: bool,
                         published: Option<nat>)
      returns (t: World)
    requires Leads(o, With(s, p, Ensuring(PublishedGoal(b, a, e, again), false))) && Usable(s.journal)
    requires Announceable(s, b, e, published)
    ensures var id := AnnouncedAt(s, published);
            && Leads(o, With(t, p, Concluding(b, a, Success(b, e, id), Some(e))))
            && t == s.(log := AnnouncedLog(s, b, e, published), confirmed := s.confirmed + {(b, e, id)})
  {
    hide Unique, Usable, Unannounced, Success;
    match published
    case None =>
      Announces(o, s, p, b, a, e, again);
      t := Settled(Noted(s, PublishedBody(b, e)), b, e, |s.log|);
    case Some(id) =>
      FindsItAnnounced(o, s, p, b, a, e, again, id);
      t := Settled(s, b, e, id);
  }

  lemma Succeeds(o: World, s: World, p: ProcId, w: WorkerId, c: Sha, b: Bundle, r: Record, e: Publication, again: bool,
                 published: Option<nat>) returns (t: World)
    requires Leads(o, With(s, p, Ensuring(PublishedGoal(b, r.state.Ambiguous?, e, again), false)))
    requires Unfinished(s, b, r) && w !in s.journal.workers && c !in s.journal.store && Announceable(s, b, e, published)
    requires Storable(Success(b, e, AnnouncedAt(s, published)))
    ensures Leads(o, t) && EndedBy(t, p, w, b, r, Success(b, e, AnnouncedAt(s, published)), Some(e))
    ensures t.log == AnnouncedLog(s, b, e, published) && t.taskCommits == s.taskCommits
            && t.taskPatches == s.taskPatches
    ensures t.taskHeads == s.taskHeads && t.taskWriters == s.taskWriters
    ensures t.journal.heads == s.journal.heads + [c]
    ensures t.procs == s.procs[p := Finalized(b, Success(b, e, AnnouncedAt(s, published)), Some(e))]
  {
    hide VerifyBundle, EndedBy, Storable, Usable, Success, Announceable, AnnouncedAt, AnnouncedLog, Open;
    var u := AnnouncesOrFinds(o, s, p, b, r.state.Ambiguous?, e, again, published);
    t := Concludes(o, u, p, w, c, b, r, Success(b, e, AnnouncedAt(s, published)), Some(e));
  }

  lemma SameAnnouncements(s: World, t: World, b: Bundle, e: Publication, published: Option<nat>)
    requires s.log == t.log
    ensures Announceable(s, b, e, published) <==> Announceable(t, b, e, published)
    ensures AnnouncedAt(s, published) == AnnouncedAt(t, published)
    ensures AnnouncedLog(s, b, e, published) == AnnouncedLog(t, b, e, published)
  {
    hide Unique, Scannable, Matches;
  }

  /** A ledger request whose recorded effect the remote shows can be ended without writing a Git
      object or moving a branch; its published comment is added if there is none yet. */
  lemma RecordedEffectsCanEnd(s: World, p: ProcId, w: WorkerId, c: Sha, b: Bundle, r: Record, h: Handoff,
                              e: Publication,
                              receipt: nat, record: nat, published: Option<nat>) returns (t: World)
    requires Leads(s, s) && Fresh(s, p, w, c) && Unfinished(s, b, r) && OneReceipt(s, b, CandidateReady(h), receipt)
    requires b.identity.operation == "governance.ledger" && OnlyRecord(s.log, b, e, record) && Linked(e, h)
             && ReadsBack(s, e)
    requires Announceable(s, b, e, published) && Storable(Success(b, e, AnnouncedAt(s, published)))
    ensures Leads(s, t) && EndedBy(t, p, w, b, r, Success(b, e, AnnouncedAt(s, published)), Some(e))
    ensures t.log == (if published.Some? then s.log else s.log + [PublishedBody(b, e)])
    ensures t.taskPatches == s.taskPatches && t.taskHeads == s.taskHeads && t.taskWriters == s.taskWriters
    ensures t.journal.heads == s.journal.heads + [c]
    ensures t.procs == s.procs[p := Finalized(b, Success(b, e, AnnouncedAt(s, published)), Some(e))]
  {
    hide OneReceipt, VerifyBundle, EndedBy, OnlyRecord, Linked, ReadsBack, Storable, Usable, Success, Announceable,
         AnnouncedAt, Open;
    TakesUp(s, s, p, b, r, h, receipt);
    Recovers(s, s, p, b, r.state.Ambiguous?, h, e, record);
    var u := Shown(s, e);
    ChecksResult(s, u, p, b, r.state.Ambiguous?, h, e, record, true);
    SameAnnouncements(s, u, b, e, published);
    t := Succeeds(s, u, p, w, c, b, r, e, true, published);
  }

  /** What building, recording, pushing and reading back the commit leaves behind. */
  function Established(s: World, p: ProcId, b: Bundle, e: Publication): World {
    Done(Noted(Built(s, p, e), PublicationBody(b, e)), p, b, e)
  }

  lemma Establishes(o: World, s: World, p: ProcId, b: Bundle, a: bool, h: Handoff, e: Publication)
    requires Leads(o, With(s, p, Recovering(b, a, h))) && Usable(s.journal) && Buildable(s, b, h, e)
    requires !Clogs(PublicationBody(b, e), PublicationKind)
             && OnlyRecord(s.log + [PublicationBody(b, e)], b, e, |s.log|)
    ensures Leads(o, With(Established(s, p, b, e), p, Ensuring(PublishedGoal(b, a, e, false), false)))
  {
    hide OnlyRecord, Usable, Scannable, Matches, Clogs;
    Builds(o, s, p, b, a, h, e);
    var s1 := Built(s, p, e);
    EnsuresComment(o, s1, p, PublicationGoal(b, a, h, e));
    Publishes(o, Noted(s1, PublicationBody(b, e)), p, b, a, h, e, |s.log|);
    ChecksResult(o, Established(s, p, b, e), p, b, a, h, e, |s.log|, false);
  }

  /** A ledger request for which nothing is recorded can be published from the start: the commit is
      built, recorded, pushed and read back, and the request ended. */
  lemma NewEffectsCanEnd(s: World, p: ProcId, w: WorkerId, c: Sha, b: Bundle, r: Record, h: Handoff, e: Publication,
                         receipt: nat)
      returns (t: World)
    requires Leads(s, s) && Fresh(s, p, w, c) && Unfinished(s, b, r) && OneReceipt(s, b, CandidateReady(h), receipt)
    requires b.identity.operation == "governance.ledger" && Buildable(s, b, h, e)
             && !Clogs(PublicationBody(b, e), PublicationKind)
    requires OnlyRecord(s.log + [PublicationBody(b, e)], b, e, |s.log|)
             && Unannounced(Noted(s, PublicationBody(b, e)), b, e)
    requires Storable(Success(b, e, |s.log| + 1))
    ensures Leads(s, t) && EndedBy(t, p, w, b, r, Success(b, e, |s.log| + 1), Some(e))
    ensures t.log == s.log + [PublicationBody(b, e), PublishedBody(b, e)]
    ensures t.taskHeads == s.taskHeads[e.branch := (if e.branch in s.taskHeads then s.taskHeads[e.branch] else []) + [e.commit]]
    ensures e.commit in t.taskCommits && t.taskCommits[e.commit] == TaskCommit([e.base], e.tree)
    ensures t.journal.heads == s.journal.heads + [c]
    ensures t.procs == s.procs[p := Finalized(b, Success(b, e, |s.log| + 1), Some(e))]
  {
    hide OneReceipt, VerifyBundle, EndedBy, OnlyRecord, Storable, Unannounced, Usable, Success, Buildable, Clogs,
         Open;
    TakesUp(s, s, p, b, r, h, receipt);
    Establishes(s, s, p, b, r.state.Ambiguous?, h, e);
    var u := Established(s, p, b, e);
    SameAnnouncements(Noted(s, PublicationBody(b, e)), u, b, e, None);
    t := Succeeds(s, u, p, w, c, b, r, e, false, None);
    assert s.log + [PublicationBody(b, e)] + [PublishedBody(b, e)] == s.log + [PublicationBody(b, e),
        PublishedBody(b, e)];
  }

  // ----- an execution that is given up

  function Marked(j: Journal, w: WorkerId, c: Sha, q: RequestId, r: Record, e: string): Journal
    requires Usable(j)
  {
    Called(Asked(j, w, q, AmbiguousOp(e)), w, c, r.(state := Ambiguous))
  }

  lemma MarkIsPublished(j: Journal, w: WorkerId, c: Sha, q: RequestId, r: Record, e: string)
    requires Usable(j) && w !in j.workers && c !in j.store && CurrentRecord(j, q) == Some(r)
    requires r.state.Executing? && r.executionId == Some(e)
    ensures CanCall(Asked(j, w, q, AmbiguousOp(e)), w, c, r.(state := Ambiguous))
    ensures var k := Marked(j, w, c, q, r, e);
            && Usable(k) && k.heads == j.heads + [c] && k.store.Keys == j.store.Keys + {c}
            && k.workers.Keys == j.workers.Keys + {w} && CurrentRecord(k, q) == Some(r.(state := Ambiguous))
  {
  }

  /** From any state that has been reached: the owner of an executing record can mark it ambiguous. */
  lemma ExecutingRequestsCanBeMarked(s: World, w: WorkerId, c: Sha, q: RequestId, r: Record,
                                     e: string) returns (t: World)
    requires Leads(s, s) && Usable(s.journal) && w !in s.journal.workers && c !in s.journal.store
    requires CurrentRecord(s.journal, q) == Some(r) && r.state.Executing? && r.executionId == Some(e)
    ensures Leads(s, t) && t == s.(journal := t.journal) && Usable(t.journal)
    ensures CurrentRecord(t.journal, q) == Some(r.(state := Ambiguous)) && t.journal.heads == s.journal.heads + [c]
    ensures t.journal.store.Keys == s.journal.store.Keys + {c} && t.journal.workers.Keys == s.journal.workers.Keys + {w}
  {
    hide CanFinalize, FinalizeAfter, CanCall, Called, CurrentRecord;
    MarkIsPublished(s.journal, w, c, q, r, e);
    var s1 := s.(journal := Asked(s.journal, w, q, AmbiguousOp(e)));
    Steps(s, s, JournalStep(Begin(w, q, AmbiguousOp(e))), s1);
    CallCompletes(s, s1, w, c, r.(state := Ambiguous));
    t := s.(journal := Marked(s.journal, w, c, q, r, e));
    assert s1.(journal := t.journal) == t;
  }

  // ----- what has ended is replayed

  lemma CanReplay(s: World, p: ProcId, b: Bundle, r: Record)
    requires Usable(s.journal) && p in s.procs && s.procs[p] == Finalizing(b) && Terminal(r.state)
    requires CurrentRecord(s.journal, b.identity.requestId) == Some(r) && VerifyBundle(s.journal, b, Head(s.journal), r)
    ensures CanFinalize(s, BindBundle(p)) && FinalizeAfter(s, BindBundle(p)) == AlreadyFinished(r, Head(s.journal))
  {
    hide VerifyBundle;
  }

  /** From any state that has been reached: a finalize run for a bundle whose record is terminal
      replays that record and changes nothing. */
  lemma FinishedBundlesAreReplayed(s: World, p: ProcId, b: Bundle, r: Record) returns (t: World)
    requires Leads(s, s) && Usable(s.journal) && p !in s.procs && Terminal(r.state)
    requires CurrentRecord(s.journal, b.identity.requestId) == Some(r) && VerifyBundle(s.journal, b, Head(s.journal), r)
    ensures Leads(s, t) && t == s.(procs := s.procs[p := AlreadyFinished(r, Head(s.journal))])
  {
    var head := Head(s.journal);
    hide VerifyBundle, Usable, CanFinalize, FinalizeAfter, CurrentRecord;
    CanStart(s, p, b);
    Moves(s, s, StartFinalize(p, b), Finalizing(b));
    CanReplay(With(s, p, Finalizing(b)), p, b, r);
    MovesOn(s, s, p, Finalizing(b), BindBundle(p), AlreadyFinished(r, head));
    t := With(s, p, AlreadyFinished(r, head));
  }

  /** The journal once call `w` has found its own record there already. */
  function Repeated(j: Journal, w: WorkerId, q: RequestId, op: Op, r: Record): Journal
    requires Usable(j)
  {
    Stand(Asked(j, w, q, op), w, Returned(ReadSnapshot(j, q), CallResult(PublishedDisposition(op), Head(j), r, true)))
  }

  lemma CallIsRepeated(o: World, s: World, w: WorkerId, q: RequestId, op: Op, r: Record)
    requires Usable(s.journal) && Leads(o, s.(journal := Asked(s.journal, w, q, op)))
    requires CurrentRecord(s.journal, q) == Some(r) && Decide(op, Some(r)) == Publish(r)
    ensures Leads(o, s.(journal := Repeated(s.journal, w, q, op, r)))
  {
    hide Decide;
    var j := Asked(s.journal, w, q, op);
    var snapshot := ReadSnapshot(j, q);
    var j1 := Stand(j, w, Loaded(snapshot, r));
    JournalSteps(o, s.(journal := j), Load(w), j1);
    var j2 := Repeated(s.journal, w, q, op, r);
    assert j1.workers[w := j1.workers[w].(stage := j2.workers[w].stage)] == j2.workers;
    JournalSteps(o, s.(journal := j1), Recheck(w), j2);
  }

  lemma RepeatStays(j: Journal, w: WorkerId, q: RequestId, op: Op, r: Record)
    requires Usable(j) && w !in j.workers
    ensures var k := Repeated(j, w, q, op, r);
            && Usable(k) && k.store == j.store && k.heads == j.heads && k.writers == j.writers
            && Answered(k, w) == Some(CallResult(PublishedDisposition(op), Head(j), r, true))
  {
  }

  lemma RepeatIsPublish(r: Record, b: Bundle, a: bool, t: TerminalResult)
    requires r.executionId == Some(b.executionId) && Storable(t) && r == Ended(r, t)
    ensures Decide(TerminalOp(b, a, t), Some(r)) == Publish(r)
  {
    hide ValidTerminalCode, ValidTerminalReference;
  }

  /** Two finalize runs may conclude the same; the one whose call comes second finds the record it
      wants there already and ends with the same result, without a write. */
  lemma RepeatedEndingsAreAnswered(s: World, p: ProcId, w: WorkerId, b: Bundle, a: bool, result: TerminalResult,
                                   effect: Option<Publication>, r: Record) returns (t: World)
    requires Leads(s, s) && Usable(s.journal) && w !in s.journal.workers
    requires p in s.procs && s.procs[p] == Concluding(b, a, result, effect) && Storable(result)
    requires CurrentRecord(s.journal, b.identity.requestId) == Some(r) && r.executionId == Some(b.executionId)
    requires r.state == result.state && r.terminalCode == Some(result.code)
             && r.terminalReference == Some(result.reference)
    ensures Leads(s, t) && t == s.(journal := t.journal, procs := s.procs[p := Finalized(b, result, effect)])
    ensures t.journal.heads == s.journal.heads && t.journal.store == s.journal.store
            && t.journal.writers == s.journal.writers
  {
    assert r == Ended(r, result);
    hide Storable, CurrentRecord, Usable, Asked, CanFinalize, FinalizeAfter, Answered, Ended, TerminalOp, Decide;
    var q, op := b.identity.requestId, TerminalOp(b, a, result);
    var x, y := Concluding(b, a, result, effect), Terminalizing(b, a, result, effect, w);
    assert With(s, p, x) == s;
    CallsIt(s, s, p, w, b, a, result, effect);
    RepeatIsPublish(r, b, a, result);
    CallIsRepeated(s, With(s, p, y), w, q, op, r);
    RepeatStays(s.journal, w, q, op, r);
    var s1 := s.(journal := Repeated(s.journal, w, q, op, r));
    CanTake(With(s1, p, y), p, b, a, result, effect, w);
    MovesOn(s, s1, p, y, TakeMutation(p), Finalized(b, result, effect));
    t := With(s1, p, Finalized(b, result, effect));
  }
}
