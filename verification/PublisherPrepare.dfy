/** What a fresh prepare run can always do, from any state that has been reached: hand out the bundle
    of a request that is new or accepted, resume one that was claimed, and replay one that has ended
    (scripts/actions_request_handler.py). */
module PublisherPrepare {
  import opened Common
  import opened JournalRecord
  import opened JournalProtocol
  import opened Markers
  import opened PublisherProtocol
  import opened PublisherMoves

  // ----- a call that is answered without a write

  /** The journal once call `w` has been answered from the record at the head. */
  function AnsweredCall(j: Journal, w: WorkerId, q: RequestId, op: Op, d: Disposition, r: Record): Journal
    requires Usable(j)
  {
    Stand(Asked(j, w, q, op), w, Returned(ReadSnapshot(j, q), CallResult(d, Head(j), r, true)))
  }

  lemma CallIsAnswered(o: World, s: World, w: WorkerId, q: RequestId, op: Op, d: Disposition, r: Record)
    requires Usable(s.journal) && Leads(o, s.(journal := Asked(s.journal, w, q, op)))
    requires CurrentRecord(s.journal, q) == Some(r) && Decide(op, Some(r)) == Answer(d)
    ensures Leads(o, s.(journal := AnsweredCall(s.journal, w, q, op, d, r)))
  {
    hide Decide;
    var j := Asked(s.journal, w, q, op);
    var k := AnsweredCall(s.journal, w, q, op, d, r);
    assert Next(j, Load(w)) == k;
    JournalSteps(o, s.(journal := j), Load(w), k);
  }

  lemma AnswerStays(j: Journal, w: WorkerId, q: RequestId, op: Op, d: Disposition, r: Record)
    requires Usable(j) && w !in j.workers
    ensures var k := AnsweredCall(j, w, q, op, d, r);
            && Usable(k) && k.store == j.store && k.heads == j.heads && k.workers.Keys == j.workers.Keys + {w}
            && Answered(k, w) == Some(CallResult(d, Head(j), r, true))
  {
  }

  /** The intent is the only one for the request and execution, and is of this record. */
  predicate OneIntent(s: World, r: Record, i: Intent, id: nat) {
    && Unique(s.log, IntentKey(IdentityOf(r.frozen), i.executionId), id) && id < |s.log| && s.log[id] == IntentBody(i)
    && IntentMatches(s.journal, i, r)
  }

  lemma StartsPrepare(o: World, s: World, p: ProcId, w: WorkerId, f: Frozen, e: string, durable: bool)
    requires Leads(o, s) && Usable(s.journal) && p !in s.procs && w !in s.journal.workers
    ensures Leads(o, With(s.(journal := Asked(s.journal, w, f.requestId, AcceptOp(f))), p, Accepting(e, f, durable, w)))
  {
    hide CanFinalize, FinalizeAfter;
    Steps(o, s, StartPrepare(p, w, f, e, durable),
          With(s.(journal := Asked(s.journal, w, f.requestId, AcceptOp(f))), p, Accepting(e, f, durable, w)));
  }

  lemma TakesAcceptance(o: World, s: World, p: ProcId, w: WorkerId, v: WorkerId, f: Frozen, e: string, r: CallResult)
    requires Leads(o, With(s, p, Accepting(e, f, true, w))) && Usable(s.journal) && v !in s.journal.workers
    requires Answered(s.journal, w) == Some(r) && Open(r.record)
    ensures Leads(o, With(s, p, FindingIntent(e, r.record)))
  {
    hide CanFinalize, FinalizeAfter, Answered;
    var x, y := Accepting(e, f, true, w), FindingIntent(e, r.record);
    Steps(o, With(s, p, x), TakeAcceptance(p, v), With(With(s, p, x), p, y));
    WithAgain(s, p, x, y);
  }

  lemma FindsIntent(o: World, s: World, p: ProcId, r: Record, i: Intent, id: nat)
    requires Leads(o, With(s, p, FindingIntent(i.executionId, r))) && Usable(s.journal) && OneIntent(s, r, i, id)
    ensures Leads(o, With(s, p, ReadyToClaim(i)))
  {
    hide CanFinalize, FinalizeAfter, Unique, IntentMatches;
    var x, y := FindingIntent(i.executionId, r), ReadyToClaim(i);
    Steps(o, With(s, p, x), FindIntent(p, id), With(With(s, p, x), p, y));
    WithAgain(s, p, x, y);
  }

  lemma StartsClaim(o: World, s: World, p: ProcId, w: WorkerId, i: Intent)
    requires Leads(o, With(s, p, ReadyToClaim(i))) && Usable(s.journal) && w !in s.journal.workers
    ensures Leads(o, With(s.(journal := Asked(s.journal, w, i.identity.requestId, ClaimOp(i.executionId))), p,
                          Claiming(i, w)))
  {
    hide CanFinalize, FinalizeAfter;
    var x, y := ReadyToClaim(i), Claiming(i, w);
    var s1 := s.(journal := Asked(s.journal, w, i.identity.requestId, ClaimOp(i.executionId)));
    Steps(o, With(s, p, x), StartClaim(p, w), With(With(s1, p, x), p, y));
    WithAgain(s1, p, x, y);
  }

  lemma TakesClaim(o: World, s: World, p: ProcId, w: WorkerId, i: Intent, r: CallResult)
    requires Leads(o, With(s, p, Claiming(i, w))) && Usable(s.journal) && Answered(s.journal, w) == Some(r)
    requires r.disposition.NeedsReconciliation? && r.record.executionId == Some(i.executionId)
    ensures Leads(o, With(s, p, Resuming(i, r.record, r.revision)))
  {
    hide CanFinalize, FinalizeAfter, Answered;
    var x, y := Claiming(i, w), Resuming(i, r.record, r.revision);
    Steps(o, With(s, p, x), TakeClaim(p), With(With(s, p, x), p, y));
    WithAgain(s, p, x, y);
  }

  /** The world once acceptance and claim have been answered without a write. */
  function Asking(s: World, w: WorkerId, v: WorkerId, f: Frozen, i: Intent, r: Record): World
    requires Usable(s.journal) && w !in s.journal.workers
  {
    AnswerStays(s.journal, w, f.requestId, AcceptOp(f), Acceptance, r);
    var j := AnsweredCall(s.journal, w, f.requestId, AcceptOp(f), Acceptance, r);
    s.(journal := AnsweredCall(j, v, f.requestId, ClaimOp(i.executionId), NeedsReconciliation, r))
  }

  lemma AcceptsAgain(o: World, s: World, p: ProcId, w: WorkerId, v: WorkerId, f: Frozen, e: string, r: Record)
    requires Leads(o, s) && Usable(s.journal) && p !in s.procs && w !in s.journal.workers && v !in s.journal.workers
             && v != w
    requires CurrentRecord(s.journal, f.requestId) == Some(r) && Open(r) && SameRequest(r.frozen, f)
             && ValidExecutionId(e)
    ensures Leads(o, With(s.(journal := AnsweredCall(s.journal, w, f.requestId, AcceptOp(f), Acceptance, r)), p,
                          FindingIntent(e, r)))
  {
    hide ValidExecutionId, Usable, CurrentRecord, AnsweredCall, Answered, Decide, Asked, SameRequest, Open;
    Decides(r, f, e);
    AnswerStays(s.journal, w, f.requestId, AcceptOp(f), Acceptance, r);
    StartsPrepare(o, s, p, w, f, e, true);
    CallIsAnswered(o, With(s, p, Accepting(e, f, true, w)), w, f.requestId, AcceptOp(f), Acceptance, r);
    TakesAcceptance(o, s.(journal := AnsweredCall(s.journal, w, f.requestId, AcceptOp(f), Acceptance, r)), p, w, v, f,
                    e,
                    CallResult(Acceptance, Head(s.journal), r, true));
  }

  lemma ClaimsAgain(o: World, s: World, p: ProcId, v: WorkerId, i: Intent, r: Record, id: nat)
    requires Leads(o, With(s, p, FindingIntent(i.executionId, r))) && Usable(s.journal) && v !in s.journal.workers
    requires CurrentRecord(s.journal, i.identity.requestId) == Some(r) && Open(r)
    requires r.executionId == Some(i.executionId) && ValidExecutionId(i.executionId) && OneIntent(s, r, i, id)
    ensures Leads(o, With(
      s.(journal := AnsweredCall(s.journal, v, i.identity.requestId, ClaimOp(i.executionId), NeedsReconciliation, r)),
      p,
      Resuming(i, r, Head(s.journal))))
  {
    hide ValidExecutionId, Usable, CurrentRecord, AnsweredCall, Answered, Decide, Asked, OneIntent, Open;
    var q, op := i.identity.requestId, ClaimOp(i.executionId);
    Decides(r, r.frozen, i.executionId);
    AnswerStays(s.journal, v, q, op, NeedsReconciliation, r);
    FindsIntent(o, s, p, r, i, id);
    StartsClaim(o, s, p, v, i);
    CallIsAnswered(o, With(s, p, Claiming(i, v)), v, q, op, NeedsReconciliation, r);
    TakesClaim(o, s.(journal := AnsweredCall(s.journal, v, q, op, NeedsReconciliation, r)), p, v, i,
               CallResult(NeedsReconciliation, Head(s.journal), r, true));
  }

  lemma Resumes(o: World, s: World, p: ProcId, w: WorkerId, v: WorkerId, f: Frozen, i: Intent, r: Record, id: nat)
    requires Leads(o, s) && Usable(s.journal) && p !in s.procs && w !in s.journal.workers && v !in s.journal.workers
             && v != w
    requires CurrentRecord(s.journal, f.requestId) == Some(r) && Open(r) && SameRequest(r.frozen, f)
    requires r.executionId == Some(i.executionId) && ValidExecutionId(i.executionId)
    requires OneIntent(s, r, i, id)
    ensures Leads(o, With(Asking(s, w, v, f, i, r), p, Resuming(i, r, Head(s.journal))))
  {
    hide OneIntent, ValidExecutionId, Usable, CurrentRecord, AnsweredCall, Open, SameRequest;
    AnswerStays(s.journal, w, f.requestId, AcceptOp(f), Acceptance, r);
    var s1 := s.(journal := AnsweredCall(s.journal, w, f.requestId, AcceptOp(f), Acceptance, r));
    AcceptsAgain(o, s, p, w, v, f, i.executionId, r);
    SameIntent(s, s1, r, i, id);
    Decides(r, f, i.executionId);
    SameRecord(s.journal, s1.journal, f.requestId);
    ClaimsAgain(o, s1, p, v, i, r, id);
  }

  lemma Decides(r: Record, f: Frozen, e: string)
    requires Open(r) && SameRequest(r.frozen, f) && ValidExecutionId(e)
    ensures Decide(AcceptOp(f), Some(r)) == Answer(Acceptance)
            && Decide(ClaimOp(e), Some(r)) == Answer(NeedsReconciliation)
    ensures r.frozen.requestId == f.requestId
  {
    hide ValidExecutionId;
  }

  lemma SameIntent(s: World, t: World, r: Record, i: Intent, id: nat)
    requires OneIntent(s, r, i, id) && t.log == s.log && t.journal.store == s.journal.store
    ensures OneIntent(t, r, i, id) && i.identity == IdentityOf(r.frozen)
  {
    hide Unique;
  }

  lemma SameRecord(j: Journal, k: Journal, q: RequestId)
    requires Usable(j) && Usable(k) && k.store == j.store && k.heads == j.heads
    ensures CurrentRecord(k, q) == CurrentRecord(j, q) && Head(k) == Head(j)
  {
  }

  lemma FindsCheckpoint(o: World, s: World, p: ProcId, i: Intent, r: Record, revision: Sha, b: Bundle, d: Disposition,
                        id: nat)
    requires Leads(o, With(s, p, Resuming(i, r, revision))) && Usable(s.journal)
    requires Unique(s.log, BundleKey(PrepareKind, BundleFrom(r, i.executionId, 0, 0)), id) && id < |s.log|
    requires s.log[id] == PrepareBody(b, d) && ValidBundle(b)
    requires b.canonicalRecord.frozen == r.frozen && b.canonicalRecord.executionId == r.executionId
    ensures Leads(o, With(s, p, Prepared(b, true)))
  {
    hide CanFinalize, FinalizeAfter, Unique, ValidBundle;
    var x, y := Resuming(i, r, revision), Prepared(b, true);
    Steps(o, With(s, p, x), FindCheckpoint(p, id), With(With(s, p, x), p, y));
    WithAgain(s, p, x, y);
  }

  lemma Rebuilds(o: World, s: World, p: ProcId, i: Intent, r: Record, revision: Sha)
    requires Leads(o, With(s, p, Resuming(i, r, revision))) && Usable(s.journal) && r.state.Executing?
    requires var key := BundleKey(PrepareKind, BundleFrom(r, i.executionId, 0, 0));
             Scannable(s.log, key) && Matches(s.log, key) == [] && IntentMatches(s.journal, i, r)
    ensures var b := BundleFrom(r, i.executionId, i.acceptedRevision, revision);
            Leads(o, With(Noted(s, PrepareBody(b, NeedsReconciliation)), p, Prepared(b, true)))
  {
    hide CanFinalize, FinalizeAfter, Scannable, Matches, IntentMatches;
    var b := BundleFrom(r, i.executionId, i.acceptedRevision, revision);
    var x, y := Resuming(i, r, revision), Ensuring(PrepareGoal(b, NeedsReconciliation), false);
    Steps(o, With(s, p, x), RebuildBundle(p), With(With(s, p, x), p, y));
    WithAgain(s, p, x, y);
    EnsuresComment(o, s, p, PrepareGoal(b, NeedsReconciliation));
  }

  /** From any state that has been reached: a fresh prepare run for the same Issue and execution gets
      past acceptance and claim without writing, finds the intent, and hands out the bundle that was
      recorded; if none was, it rebuilds one from the intent and the claimed record and records it. */
  lemma ClaimedRequestsCanResume(s: World, p: ProcId, w: WorkerId, v: WorkerId, f: Frozen, i: Intent, r: Record,
                                 id: nat,
                                 checkpoint: Option<nat>, b: Bundle) returns (t: World)
    requires Leads(s, s) && Usable(s.journal) && p !in s.procs && w !in s.journal.workers && v !in s.journal.workers
             && v != w
    requires CurrentRecord(s.journal, f.requestId) == Some(r) && Open(r) && SameRequest(r.frozen, f)
    requires r.executionId == Some(i.executionId) && ValidExecutionId(i.executionId)
    requires OneIntent(s, r, i, id)
    requires var key := BundleKey(PrepareKind, BundleFrom(r, i.executionId, 0, 0));
             match checkpoint
             case Some(k) =>
               && Unique(s.log, key, k) && k < |s.log| && s.log[k].PrepareBody? && s.log[k].bundle == b
               && ValidBundle(b)
               && b.canonicalRecord.frozen == r.frozen && b.canonicalRecord.executionId == r.executionId
             case None =>
               && Scannable(s.log, key) && Matches(s.log, key) == [] && r.state.Executing?
               && b == Bundle(i.identity, i.executionId, r, i.acceptedRevision, Head(s.journal))
    ensures Leads(s, t) && p in t.procs && t.procs[p] == Prepared(b, true)
    ensures t.journal.heads == s.journal.heads && t.journal.store == s.journal.store
    ensures t.log == (if checkpoint.Some? then s.log else s.log + [PrepareBody(b, NeedsReconciliation)])
  {
    var head := Head(s.journal);
    hide OneIntent, ValidExecutionId, Usable, CurrentRecord, AnsweredCall, Open, SameRequest, Unique, ValidBundle,
         Scannable, Matches, IntentMatches;
    Resumes(s, s, p, w, v, f, i, r, id);
    var s1 := Asking(s, w, v, f, i, r);
    AskingStays(s, w, v, f, i, r);
    SameIntent(s, s1, r, i, id);
    match checkpoint
    case Some(k) =>
      FindsCheckpoint(s, s1, p, i, r, head, b, s.log[k].disposition, k);
      t := With(s1, p, Prepared(b, true));
    case None =>
      MatchesToo(s1, r, i, id);
      Rebuilds(s, s1, p, i, r, head);
      t := With(Noted(s1, PrepareBody(b, NeedsReconciliation)), p, Prepared(b, true));
  }

  lemma MatchesToo(s: World, r: Record, i: Intent, id: nat)
    requires OneIntent(s, r, i, id)
    ensures IntentMatches(s.journal, i, r)
  {
    hide IntentMatches, Unique;
  }

  lemma AskingStays(s: World, w: WorkerId, v: WorkerId, f: Frozen, i: Intent, r: Record)
    requires Usable(s.journal) && w !in s.journal.workers && v !in s.journal.workers && v != w
    ensures var t := Asking(s, w, v, f, i, r);
            && Usable(t.journal) && t.log == s.log && t.procs == s.procs
            && t.journal.store == s.journal.store && t.journal.heads == s.journal.heads
  {
    hide AnsweredCall, Usable;
    AnswerStays(s.journal, w, f.requestId, AcceptOp(f), Acceptance, r);
    var j := AnsweredCall(s.journal, w, f.requestId, AcceptOp(f), Acceptance, r);
    AnswerStays(j, v, f.requestId, ClaimOp(i.executionId), NeedsReconciliation, r);
  }

  // ----- a request that has ended is replayed

  predicate Unclaimed(v: WorkerId, w: WorkerId, j: Journal) {
    v != w && v !in j.workers && w !in j.workers
  }

  lemma TakesFinished(o: World, s: World, p: ProcId, w: WorkerId, v: WorkerId, f: Frozen, e: string, r: CallResult)
    requires Leads(o, With(s, p, Accepting(e, f, true, w))) && Usable(s.journal) && v !in s.journal.workers
    requires Answered(s.journal, w) == Some(r) && Terminal(r.record.state)
    ensures Leads(o, With(s, p, AlreadyFinished(r.record, r.revision)))
  {
    hide CanFinalize, FinalizeAfter, Answered;
    var x, y := Accepting(e, f, true, w), AlreadyFinished(r.record, r.revision);
    Steps(o, With(s, p, x), TakeAcceptance(p, v), With(With(s, p, x), p, y));
    WithAgain(s, p, x, y);
  }

  /** Without durable handoffs the claim follows the acceptance at once. */
  lemma ClaimsDirectly(o: World, s: World, p: ProcId, w: WorkerId, v: WorkerId, f: Frozen, e: string, r: CallResult)
    requires Leads(o, With(s, p, Accepting(e, f, false, w))) && Usable(s.journal) && v !in s.journal.workers
    requires Answered(s.journal, w) == Some(r)
    ensures Leads(o, With(s.(journal := Asked(s.journal, v, f.requestId, ClaimOp(e))), p,
                          ClaimingDirectly(e, f.requestId, r.revision, v)))
  {
    hide CanFinalize, FinalizeAfter, Answered;
    var x, y := Accepting(e, f, false, w), ClaimingDirectly(e, f.requestId, r.revision, v);
    var s1 := s.(journal := Asked(s.journal, v, f.requestId, ClaimOp(e)));
    Steps(o, With(s, p, x), TakeAcceptance(p, v), With(With(s1, p, x), p, y));
    WithAgain(s1, p, x, y);
  }

  lemma TakesDirectClaim(o: World, s: World, p: ProcId, v: WorkerId, e: string, q: RequestId, c: Sha, r: CallResult,
                         y: Proc)
    requires Leads(o, With(s, p, ClaimingDirectly(e, q, c, v))) && Usable(s.journal)
             && Answered(s.journal, v) == Some(r)
    requires y == (match r.disposition
                   case Grant => Prepared(BundleFrom(r.record, e, c, r.revision), false)
                   case NeedsReconciliation => Stopped
                   case _ => AlreadyFinished(r.record, r.revision))
    ensures Leads(o, With(s, p, y))
  {
    hide CanFinalize, FinalizeAfter, Answered, AfterAcceptance, AfterClaim, BundleFrom;
    var x := ClaimingDirectly(e, q, c, v);
    Steps(o, With(s, p, x), TakeClaim(p), With(With(s, p, x), p, y));
    WithAgain(s, p, x, y);
  }

  /** The acceptance of a request the journal holds already is answered from its record. */
  function Known(s: World, w: WorkerId, f: Frozen, r: Record): World
    requires Usable(s.journal)
  {
    s.(journal := AnsweredCall(s.journal, w, f.requestId, AcceptOp(f), Acceptance, r))
  }

  lemma AcceptsKnown(o: World, s: World, p: ProcId, w: WorkerId, f: Frozen, e: string, durable: bool, r: Record)
    requires Leads(o, s) && Usable(s.journal) && p !in s.procs && w !in s.journal.workers
    requires CurrentRecord(s.journal, f.requestId) == Some(r) && SameRequest(r.frozen, f)
    ensures var t := Known(s, w, f, r);
            && Leads(o, With(t, p, Accepting(e, f, durable, w)))
            && Usable(t.journal) && t.journal.store == s.journal.store && t.journal.heads == s.journal.heads
            && t.journal.workers.Keys == s.journal.workers.Keys + {w}
            && Answered(t.journal, w) == Some(CallResult(Acceptance, Head(s.journal), r, true))
  {
    assert Decide(AcceptOp(f), Some(r)) == Answer(Acceptance);
    hide Usable, CurrentRecord, AnsweredCall, Answered, Decide, Asked, SameRequest;
    AnswerStays(s.journal, w, f.requestId, AcceptOp(f), Acceptance, r);
    StartsPrepare(o, s, p, w, f, e, durable);
    CallIsAnswered(o, With(s, p, Accepting(e, f, durable, w)), w, f.requestId, AcceptOp(f), Acceptance, r);
  }

  lemma ReplaysDirectly(o: World, s: World, p: ProcId, w: WorkerId, v: WorkerId, f: Frozen, e: string,
                        r: Record) returns (t: World)
    requires Leads(o, With(s, p, Accepting(e, f, false, w))) && Usable(s.journal) && v !in s.journal.workers
    requires Answered(s.journal, w) == Some(CallResult(Acceptance, Head(s.journal), r, true))
    requires CurrentRecord(s.journal, f.requestId) == Some(r) && Decide(ClaimOp(e), Some(r)) == Answer(AlreadyTerminal)
    ensures Leads(o, t) && t.procs == s.procs[p := AlreadyFinished(r, Head(s.journal))]
    ensures t.log == s.log && t.journal.heads == s.journal.heads && t.journal.store == s.journal.store
  {
    var head := Head(s.journal);
    hide Usable, CurrentRecord, AnsweredCall, Answered, Decide, Asked;
    var q, op := f.requestId, ClaimOp(e);
    ClaimsDirectly(o, s, p, w, v, f, e, CallResult(Acceptance, head, r, true));
    AnswerStays(s.journal, v, q, op, AlreadyTerminal, r);
    CallIsAnswered(o, With(s, p, ClaimingDirectly(e, q, head, v)), v, q, op, AlreadyTerminal, r);
    var s1 := s.(journal := AnsweredCall(s.journal, v, q, op, AlreadyTerminal, r));
    TakesDirectClaim(o, s1, p, v, e, q, head, CallResult(AlreadyTerminal, head, r, true), AlreadyFinished(r, head));
    t := With(s1, p, AlreadyFinished(r, head));
  }

  /** From any state that has been reached: a prepare run for a request whose record is terminal ends
      by replaying that record, with durable handoffs or without, and writes nothing. */
  lemma FinishedRequestsAreReplayed(s: World, p: ProcId, w: WorkerId, v: WorkerId, f: Frozen, e: string, durable: bool,
                                    r: Record)
      returns (t: World)
    requires Leads(s, s) && Usable(s.journal) && p !in s.procs && Unclaimed(v, w, s.journal)
    requires CurrentRecord(s.journal, f.requestId) == Some(r) && SameRequest(r.frozen, f) && Terminal(r.state)
    requires !durable ==> ValidExecutionId(e)
    ensures Leads(s, t) && t.procs == s.procs[p := AlreadyFinished(r, Head(s.journal))]
    ensures t.log == s.log && t.journal.heads == s.journal.heads && t.journal.store == s.journal.store
  {
    var head := Head(s.journal);
    assert ValidExecutionId(e) ==> Decide(ClaimOp(e), Some(r)) == Answer(AlreadyTerminal);
    hide Usable, CurrentRecord, AnsweredCall, Answered, Decide, Asked, SameRequest, ValidExecutionId;
    AcceptsKnown(s, s, p, w, f, e, durable, r);
    var s1 := Known(s, w, f, r);
    if durable {
      TakesFinished(s, s1, p, w, v, f, e, CallResult(Acceptance, head, r, true));
      t := With(s1, p, AlreadyFinished(r, head));
    } else {
      SameRecord(s.journal, s1.journal, f.requestId);
      t := ReplaysDirectly(s, s1, p, w, v, f, e, r);
    }
  }

  // ----- a request that is new or accepted is claimed

  /** The record as it stands accepted, and once `e` has claimed it. */
  predicate Waiting(r: Record) {
    r.state.Accepted?
  }

  function Granted(r: Record, e: string): Record {
    r.(state := Executing, executionId := Some(e))
  }

  /** The journal once call `v` has claimed the record by commit `d`. */
  function Owned(j: Journal, v: WorkerId, d: Sha, q: RequestId, e: string, r: Record): Journal
    requires Usable(j)
  {
    Called(Asked(j, v, q, ClaimOp(e)), v, d, Granted(r, e))
  }

  lemma ClaimIsGranted(j: Journal, v: WorkerId, d: Sha, q: RequestId, e: string, r: Record)
    requires Usable(j) && v !in j.workers && d !in j.store && CurrentRecord(j, q) == Some(r) && Waiting(r)
             && ValidExecutionId(e)
    ensures CanCall(Asked(j, v, q, ClaimOp(e)), v, d, Granted(r, e))
    ensures var k := Owned(j, v, d, q, e, r);
            && Usable(k) && k.heads == j.heads + [d] && k.store.Keys == j.store.Keys + {d}
            && k.workers.Keys == j.workers.Keys + {v} && CurrentRecord(k, q) == Some(Granted(r, e))
            && Answered(k, v) == Some(CallResult(Grant, d, Granted(r, e), false))
  {
    hide ValidExecutionId;
  }

  lemma ClaimsDirectlyToo(o: World, s: World, p: ProcId, w: WorkerId, v: WorkerId, d: Sha, f: Frozen, e: string,
                          r: Record, c: Sha)
    requires Leads(o, With(s, p, Accepting(e, f, false, w))) && Usable(s.journal) && v !in s.journal.workers
    requires d !in s.journal.store && ValidExecutionId(e) && CurrentRecord(s.journal, f.requestId) == Some(r)
             && Waiting(r)
    requires Answered(s.journal, w).Some? && Answered(s.journal, w).value.revision == c
    ensures Leads(o, With(s.(journal := Owned(s.journal, v, d, f.requestId, e, r)), p,
                          Prepared(BundleFrom(Granted(r, e), e, c, d), false)))
  {
    hide Usable, CurrentRecord, CanCall, Called, Asked, Answered, ValidExecutionId, Waiting, Granted;
    var q := f.requestId;
    var x := ClaimingDirectly(e, q, c, v);
    var s1 := s.(journal := Asked(s.journal, v, q, ClaimOp(e)));
    var s2 := s.(journal := Owned(s.journal, v, d, q, e, r));
    ClaimsDirectly(o, s, p, w, v, f, e, Answered(s.journal, w).value);
    ClaimIsGranted(s.journal, v, d, q, e, r);
    CallCompletes(o, With(s1, p, x), v, d, Granted(r, e));
    assert With(s1, p, x).(journal := s2.journal) == With(s2, p, x);
    TakesDirectClaim(o, s2, p, v, e, q, c, CallResult(Grant, d, Granted(r, e), false),
                     Prepared(BundleFrom(Granted(r, e), e, c, d), false));
  }

  /** No comment of its kind is there yet, and the Issue can be scanned for it. */
  predicate Unrecorded(log: seq<Body>, key: Key) {
    Scannable(log, key) && Matches(log, key) == []
  }

  lemma NotesIntent(o: World, s: World, p: ProcId, w: WorkerId, v: WorkerId, f: Frozen, e: string, r: CallResult)
    requires Leads(o, With(s, p, Accepting(e, f, true, w))) && Usable(s.journal) && v !in s.journal.workers
    requires Answered(s.journal, w) == Some(r) && Waiting(r.record)
    requires Unrecorded(s.log, IntentKey(IdentityOf(r.record.frozen), e))
    ensures Leads(o, With(Noted(s, IntentBody(IntentFrom(r.record, e, r.revision))), p,
                          ReadyToClaim(IntentFrom(r.record, e, r.revision))))
  {
    hide Usable, Answered, Scannable, Matches;
    TakesWaiting(o, s, p, w, v, f, e, r);
    EnsuresComment(o, s, p, IntentGoal(IntentFrom(r.record, e, r.revision)));
  }

  lemma TakesWaiting(o: World, s: World, p: ProcId, w: WorkerId, v: WorkerId, f: Frozen, e: string, r: CallResult)
    requires Leads(o, With(s, p, Accepting(e, f, true, w))) && Usable(s.journal) && v !in s.journal.workers
    requires Answered(s.journal, w) == Some(r) && Waiting(r.record)
    ensures Leads(o, With(s, p, Ensuring(IntentGoal(IntentFrom(r.record, e, r.revision)), false)))
  {
    hide CanFinalize, FinalizeAfter, Answered;
    var x, y := Accepting(e, f, true, w), Ensuring(IntentGoal(IntentFrom(r.record, e, r.revision)), false);
    Steps(o, With(s, p, x), TakeAcceptance(p, v), With(With(s, p, x), p, y));
    WithAgain(s, p, x, y);
  }

  lemma TakesGrant(o: World, s: World, p: ProcId, v: WorkerId, i: Intent, r: CallResult)
    requires Leads(o, With(s, p, Claiming(i, v))) && Usable(s.journal) && Answered(s.journal, v) == Some(r)
    requires r.disposition.Grant?
    ensures Leads(o, With(s, p, Ensuring(
      PrepareGoal(BundleFrom(r.record, i.executionId, i.acceptedRevision, r.revision), Grant), false)))
  {
    hide CanFinalize, FinalizeAfter, Answered;
    var b := BundleFrom(r.record, i.executionId, i.acceptedRevision, r.revision);
    var x, y := Claiming(i, v), Ensuring(PrepareGoal(b, Grant), false);
    Steps(o, With(s, p, x), TakeClaim(p), With(With(s, p, x), p, y));
    WithAgain(s, p, x, y);
  }

  lemma ClaimsIntent(o: World, s: World, p: ProcId, v: WorkerId, d: Sha, i: Intent, r: Record)
    requires Leads(o, With(s, p, ReadyToClaim(i))) && Usable(s.journal) && v !in s.journal.workers
             && d !in s.journal.store
    requires CurrentRecord(s.journal, i.identity.requestId) == Some(r) && Waiting(r) && ValidExecutionId(i.executionId)
    ensures Leads(o, With(s.(journal := Owned(s.journal, v, d, i.identity.requestId, i.executionId, r)), p, Ensuring(
      PrepareGoal(BundleFrom(Granted(r, i.executionId), i.executionId, i.acceptedRevision, d), Grant), false)))
  {
    hide Usable, CurrentRecord, CanCall, Called, Asked, Answered, ValidExecutionId, Waiting, Granted;
    var q, e := i.identity.requestId, i.executionId;
    var s1 := s.(journal := Asked(s.journal, v, q, ClaimOp(e)));
    var s2 := s.(journal := Owned(s.journal, v, d, q, e, r));
    StartsClaim(o, s, p, v, i);
    ClaimIsGranted(s.journal, v, d, q, e, r);
    CallCompletes(o, With(s1, p, Claiming(i, v)), v, d, Granted(r, e));
    assert With(s1, p, Claiming(i, v)).(journal := s2.journal) == With(s2, p, Claiming(i, v));
    TakesGrant(o, s2, p, v, i, CallResult(Grant, d, Granted(r, e), false));
  }

  /** The comments a prepare run makes, and the log in which it may make them. */
  function Handoffs(r: Record, e: string, b: Bundle): seq<Body> {
    [IntentBody(IntentFrom(r, e, b.acceptedRevision)), PrepareBody(b, Grant)]
  }

  predicate Recordable(log: seq<Body>, r: Record, e: string, b: Bundle) {
    && Unrecorded(log, IntentKey(IdentityOf(r.frozen), e))
    && Unrecorded(log + [IntentBody(IntentFrom(r, e, b.acceptedRevision))], BundleKey(PrepareKind, b))
  }

  lemma ClaimsDurably(o: World, s: World, p: ProcId, w: WorkerId, v: WorkerId, d: Sha, f: Frozen, e: string, r: Record,
                      c: Sha)
    requires Leads(o, With(s, p, Accepting(e, f, true, w))) && Usable(s.journal) && v !in s.journal.workers
    requires d !in s.journal.store && ValidExecutionId(e) && CurrentRecord(s.journal, r.frozen.requestId) == Some(r)
             && Waiting(r)
    requires Answered(s.journal, w).Some? && Answered(s.journal, w).value.revision == c
             && Answered(s.journal, w).value.record == r
    requires Recordable(s.log, r, e, BundleFrom(Granted(r, e), e, c, d))
    ensures var b := BundleFrom(Granted(r, e), e, c, d);
            Leads(o, With(s.(journal := Owned(s.journal, v, d, r.frozen.requestId, e, r),
                             log := s.log + Handoffs(r, e, b)), p,
                          Prepared(b, true)))
  {
    hide Usable, CurrentRecord, Answered, ValidExecutionId, Waiting, Scannable, Matches, Owned;
    var b, i := BundleFrom(Granted(r, e), e, c, d), IntentFrom(r, e, c);
    NotesIntent(o, s, p, w, v, f, e, Answered(s.journal, w).value);
    var s1 := Noted(s, IntentBody(i));
    ClaimsIntent(o, s1, p, v, d, i, r);
    ClaimIsGranted(s.journal, v, d, r.frozen.requestId, e, r);
    var s2 := s1.(journal := Owned(s.journal, v, d, r.frozen.requestId, e, r));
    EnsuresComment(o, s2, p, PrepareGoal(b, Grant));
    assert s.log + [IntentBody(i)] + [PrepareBody(b, Grant)] == s.log + Handoffs(r, e, b);
  }

  /** What the run leaves behind: the bundle of the record it claimed, and, with durable handoffs, the
      intent and the prepare comment. */
  predicate HandsOut(s: World, t: World, p: ProcId, durable: bool, r: Record, e: string, c: Sha, d: Sha) {
    var b := Bundle(IdentityOf(r.frozen), e, r.(state := Executing, executionId := Some(e)), c, d);
    && t.procs == s.procs[p := Prepared(b, durable)]
    && t == s.(journal := t.journal, procs := t.procs, log := s.log + if durable then
                 [IntentBody(Intent(IdentityOf(r.frozen), e, c, r.frozen.policyRevision)),
                  PrepareBody(b, Grant)] else [])
    && Usable(t.journal) && CurrentRecord(t.journal, r.frozen.requestId) == Some(b.canonicalRecord)
  }

  lemma ClaimsIt(o: World, s: World, p: ProcId, w: WorkerId, v: WorkerId, d: Sha, f: Frozen, e: string, durable: bool,
                 r: Record,
                 c: Sha) returns (t: World)
    requires Leads(o, With(s, p, Accepting(e, f, durable, w))) && Usable(s.journal) && v !in s.journal.workers
    requires d !in s.journal.store && ValidExecutionId(e) && CurrentRecord(s.journal, f.requestId) == Some(r)
             && Waiting(r)
    requires Answered(s.journal, w).Some? && Answered(s.journal, w).value.revision == c
             && Answered(s.journal, w).value.record == r
    requires r.frozen.requestId == f.requestId
    requires durable ==> Recordable(s.log, r, e, BundleFrom(Granted(r, e), e, c, d))
    ensures Leads(o, t) && HandsOut(s, t, p, durable, r, e, c, d)
    ensures t.journal.heads == s.journal.heads + [d] && t.journal.store.Keys == s.journal.store.Keys + {d}
    ensures t.journal.workers.Keys == s.journal.workers.Keys + {v}
  {
    hide Usable, CurrentRecord, Answered, ValidExecutionId, Waiting, Recordable, Owned;
    var b := BundleFrom(Granted(r, e), e, c, d);
    ClaimIsGranted(s.journal, v, d, f.requestId, e, r);
    var s1 := s.(journal := Owned(s.journal, v, d, f.requestId, e, r));
    if durable {
      ClaimsDurably(o, s, p, w, v, d, f, e, r, c);
      t := With(s1.(log := s.log + Handoffs(r, e, b)), p, Prepared(b, true));
    } else {
      ClaimsDirectlyToo(o, s, p, w, v, d, f, e, r, c);
      t := With(s1, p, Prepared(b, false));
    }
  }

  lemma HandedOutSince(s: World, u: World, t: World, p: ProcId, durable: bool, r: Record, e: string, c: Sha, d: Sha)
    requires HandsOut(u, t, p, durable, r, e, c, d) && u == s.(journal := u.journal)
    ensures HandsOut(s, t, p, durable, r, e, c, d)
  {
    hide Usable, CurrentRecord;
  }

  /** From any state that has been reached: a fresh prepare run for an accepted request claims it and
      hands its bundle out, with durable handoffs or without. */
  lemma AcceptedRequestsCanBePrepared(s: World, p: ProcId, w: WorkerId, v: WorkerId, d: Sha, f: Frozen, e: string,
                                      durable: bool,
                                      r: Record) returns (t: World)
    requires Leads(s, s) && Usable(s.journal) && p !in s.procs && Unclaimed(v, w, s.journal) && d !in s.journal.store
    requires CurrentRecord(s.journal, f.requestId) == Some(r) && SameRequest(r.frozen, f) && r.state.Accepted?
    requires ValidExecutionId(e)
    requires durable ==> Recordable(s.log, r, e, BundleFrom(Granted(r, e), e, Head(s.journal), d))
    ensures Leads(s, t) && HandsOut(s, t, p, durable, r, e, Head(s.journal), d)
    ensures t.journal.heads == s.journal.heads + [d] && t.journal.store.Keys == s.journal.store.Keys + {d}
    ensures t.journal.workers.Keys == s.journal.workers.Keys + {v, w}
  {
    assert r.frozen.requestId == f.requestId && Waiting(r);
    var head := Head(s.journal);
    hide Usable, CurrentRecord, Answered, Known, SameRequest, ValidExecutionId, Recordable, Waiting;
    AcceptsKnown(s, s, p, w, f, e, durable, r);
    var s1 := Known(s, w, f, r);
    KnownKeeps(s, w, f, r);
    SameRecord(s.journal, s1.journal, f.requestId);
    hide HandsOut;
    t := ClaimsIt(s, s1, p, w, v, d, f, e, durable, r, head);
    HandedOutSince(s, s1, t, p, durable, r, e, head, d);
  }

  lemma KnownKeeps(s: World, w: WorkerId, f: Frozen, r: Record)
    requires Usable(s.journal)
    ensures var t := Known(s, w, f, r); t == s.(journal := t.journal)
  {
    hide AnsweredCall;
  }

  /** The journal once call `w` has accepted the request by commit `c`. */
  function Admitted(j: Journal, w: WorkerId, c: Sha, f: Frozen): Journal
    requires Usable(j)
  {
    Called(Asked(j, w, f.requestId, AcceptOp(f)), w, c, NewRecord(f))
  }

  lemma AcceptanceIsPublished(j: Journal, w: WorkerId, c: Sha, f: Frozen)
    requires Usable(j) && w !in j.workers && c !in j.store && CurrentRecord(j, f.requestId) == None
    ensures CanCall(Asked(j, w, f.requestId, AcceptOp(f)), w, c, NewRecord(f))
    ensures var k := Admitted(j, w, c, f);
            && Usable(k) && k.heads == j.heads + [c] && k.store.Keys == j.store.Keys + {c} && Head(k) == c
            && k.workers.Keys == j.workers.Keys + {w} && CurrentRecord(k, f.requestId) == Some(NewRecord(f))
            && Answered(k, w) == Some(CallResult(Acceptance, c, NewRecord(f), false))
  {
  }

  lemma AcceptsNew(o: World, s: World, p: ProcId, w: WorkerId, c: Sha, f: Frozen, e: string, durable: bool)
    requires Leads(o, s) && Usable(s.journal) && p !in s.procs && w !in s.journal.workers && c !in s.journal.store
    requires CurrentRecord(s.journal, f.requestId) == None
    ensures Leads(o, With(s.(journal := Admitted(s.journal, w, c, f)), p, Accepting(e, f, durable, w)))
  {
    hide Usable, CurrentRecord, CanCall, Called, Asked, NewRecord;
    var x := Accepting(e, f, durable, w);
    AcceptanceIsPublished(s.journal, w, c, f);
    StartsPrepare(o, s, p, w, f, e, durable);
    var s0 := s.(journal := Asked(s.journal, w, f.requestId, AcceptOp(f)));
    CallCompletes(o, With(s0, p, x), w, c, NewRecord(f));
    var s1 := s.(journal := Admitted(s.journal, w, c, f));
    assert With(s0, p, x).(journal := s1.journal) == With(s1, p, x);
  }

  /** The same for a request the journal does not know: it is accepted first. */
  lemma NewRequestsCanBePrepared(s: World, p: ProcId, w: WorkerId, v: WorkerId, c: Sha, d: Sha, f: Frozen, e: string,
                                 durable: bool)
      returns (t: World)
    requires Leads(s, s) && Usable(s.journal) && p !in s.procs && Unclaimed(v, w, s.journal)
    requires c !in s.journal.store && d !in s.journal.store && d != c
    requires CurrentRecord(s.journal, f.requestId) == None && ValidExecutionId(e)
    requires durable ==> Recordable(s.log, NewRecord(f), e, BundleFrom(Granted(NewRecord(f), e), e, c, d))
    ensures Leads(s, t) && HandsOut(s, t, p, durable, NewRecord(f), e, c, d)
    ensures t.journal.heads == s.journal.heads + [c] + [d] && t.journal.store.Keys == s.journal.store.Keys + {c} + {d}
    ensures t.journal.workers.Keys == s.journal.workers.Keys + {w} + {v}
  {
    assert Waiting(NewRecord(f)) && NewRecord(f).frozen == f;
    hide Usable, CurrentRecord, Answered, ValidExecutionId, Recordable, Waiting, Admitted, NewRecord, HandsOut, Leads,
         BundleFrom, Granted, Passes;
    AcceptsNew(s, s, p, w, c, f, e, durable);
    AcceptanceIsPublished(s.journal, w, c, f);
    var s1 := s.(journal := Admitted(s.journal, w, c, f));
    t := ClaimsIt(s, s1, p, w, v, d, f, e, durable, NewRecord(f), c);
    HandedOutSince(s, s1, t, p, durable, NewRecord(f), e, c, d);
  }
}
