/** Complete runs of the Publisher's system: every ledger request that can be published at all is
    published in some run, whether its record stays executing or is marked ambiguous on the way. */
module PublisherRun {
  import opened Common
  import opened JournalRecord
  import opened JournalProtocol
  import opened Markers
  import opened PublisherProtocol
  import opened PublisherInvariant
  import opened PublisherSteps
  import opened PublisherSafety
  import opened PublisherReader
  import opened PublisherMoves
  import opened PublisherPrepare
  import opened PublisherRecovery
  import opened Text
  import Decimal

  // ----- what the run is about

  /** The request, its execution, the candidate Control hands over and the effect it has. */
  datatype Plan = Plan(frozen: Frozen, executionId: string, handoff: Handoff, effect: Publication)

  predicate Workable(n: Plan) {
    && ValidExecutionId(n.executionId) && n.frozen.operation == "governance.ledger"
    && Linked(n.effect, n.handoff) && n.effect.commit != n.effect.base
    && ValidTerminalReference(Some(Reference(IdentityOf(n.frozen), 4)))
    && !Contains(n.frozen.canonicalRequest, PublisherPrefix(PublicationKind))
    && !Contains(n.frozen.canonicalRequest, PublisherPrefix(PublishedKind))
  }

  /** The request's record as claimed. */
  function Taken(n: Plan): Record {
    NewRecord(n.frozen).(state := Executing, executionId := Some(n.executionId))
  }

  function TheIntent(n: Plan): Intent {
    IntentFrom(NewRecord(n.frozen), n.executionId, 1)
  }

  function TheBundle(n: Plan): Bundle {
    BundleFrom(Taken(n), n.executionId, 1, 2)
  }

  function TheReceipt(n: Plan): Body {
    ReceiptBody(Receipt(IdentityOf(n.frozen), 1, 2, CandidateReady(n.handoff)))
  }

  function TheResult(n: Plan): TerminalResult {
    TerminalResult(Succeeded, "ledger_published", Reference(IdentityOf(n.frozen), 4))
  }

  /** The comments of the run, in the order they are made. */
  function TheLog(n: Plan): (log: seq<Body>)
    ensures |log| == 5
  {
    [IntentBody(TheIntent(n)), PrepareBody(TheBundle(n), Grant), TheReceipt(n),
     PublicationBody(TheBundle(n), n.effect), PublishedBody(TheBundle(n), n.effect)]
  }

  // ----- the log, comment by comment

  function Words(n: Plan): string {
    n.frozen.canonicalRequest
  }

  lemma LogCarries(n: Plan, k: nat)
    requires k <= 5
    ensures Carries(TheLog(n)[..k], Words(n))
  {
  }

  lemma LogGrows(n: Plan, k: nat)
    requires k < 5
    ensures TheLog(n)[..k + 1] == TheLog(n)[..k] + [TheLog(n)[k]]
  {
  }

  /** Where the comment of each kind stands in the log; the receipt stands at 2. */
  function Place(kind: Kind): nat {
    match kind
    case IntentKind => 0
    case PrepareKind => 1
    case PublicationKind => 3
    case PublishedKind => 4
  }

  lemma OneKindEach(n: Plan, k: nat, kind: Kind)
    requires k < 5
    ensures KeyOf(TheLog(n)[k]) == Some(BundleKey(kind, TheBundle(n))) <==> k == Place(kind)
    ensures TheLog(n)[k].ReceiptBody? <==> k == 2
  {
  }

  lemma MatchesNext(n: Plan, k: nat, kind: Kind)
    requires k < 5
    ensures Matches(TheLog(n)[..k + 1], BundleKey(kind, TheBundle(n)))
            == if k == Place(kind) then Matches(TheLog(n)[..k], BundleKey(kind, TheBundle(n))) + [k]
               else Matches(TheLog(n)[..k], BundleKey(kind, TheBundle(n)))
  {
    hide TheBundle, KeyOf, TheLog, Matches;
    LogGrows(n, k);
    OneKindEach(n, k, kind);
    MatchesPush(TheLog(n)[..k], TheLog(n)[k], BundleKey(kind, TheBundle(n)));
  }

  lemma NoMatchesYet(key: Key)
    ensures Matches([], key) == []
  {
  }

  lemma {:induction false} LogMatches(n: Plan, k: nat, kind: Kind)
    requires k <= 5
    ensures Matches(TheLog(n)[..k], BundleKey(kind, TheBundle(n))) == if k > Place(kind) then [Place(kind)] else []
  {
    hide TheBundle, TheLog, Matches;
    if k == 0 {
      NoMatchesYet(BundleKey(kind, TheBundle(n)));
      assert TheLog(n)[..0] == [];
    } else {
      LogMatches(n, k - 1, kind);
      MatchesNext(n, k - 1, kind);
    }
  }

  lemma {:induction false} LogReceipts(n: Plan, k: nat)
    requires k <= 5
    ensures ReceiptMatches(TheLog(n)[..k], TheBundle(n)) == if k > 2 then [2] else []
  {
    if k > 0 {
      LogReceipts(n, k - 1);
      LogGrows(n, k - 1);
      OneKindEach(n, k - 1, IntentKind);
      assert TheLog(n)[2] == TheReceipt(n);
      hide TheLog;
      ReceiptsPush(TheLog(n)[..k - 1], TheLog(n)[k - 1], TheBundle(n));
    }
  }

  lemma LogScans(n: Plan, k: nat, kind: Kind)
    requires k <= 5 && !Contains(Words(n), PublisherPrefix(kind))
    ensures Scannable(TheLog(n)[..k], BundleKey(kind, TheBundle(n)))
  {
    LogCarries(n, k);
    ShortLogScans(TheLog(n)[..k], Words(n), BundleKey(kind, TheBundle(n)));
  }

  /** Before any bundle is in the log every scan succeeds, whatever the request says. */
  lemma FirstScan(n: Plan, key: Key)
    ensures Scannable(TheLog(n)[..1], key) && Scannable([], key)
  {
    hide Contains;
    CountIsSmall(TheLog(n)[..1], (key.repository, key.issue));
    CountIsSmall([], (key.repository, key.issue));
  }

  lemma IsWorkable(n: Plan)
    requires Workable(n)
    ensures ValidExecutionId(n.executionId) && n.frozen.operation == "governance.ledger"
    ensures Linked(n.effect, n.handoff) && n.effect.commit != n.effect.base
    ensures !Contains(Words(n), PublisherPrefix(PublicationKind)) && !Contains(Words(n), PublisherPrefix(PublishedKind))
  {
  }

  lemma ReceiptIsAlone(n: Plan)
    ensures var log, b := TheLog(n)[..3], TheBundle(n);
            Countable(log, (b.identity.repositoryFullName, b.identity.issueNumber)) && ReceiptMatches(log, b) == [2]
  {
    LogReceipts(n, 3);
    CountIsSmall(TheLog(n)[..3], (TheBundle(n).identity.repositoryFullName, TheBundle(n).identity.issueNumber));
    hide TheBundle, TheLog, ReceiptMatches, Matches;
  }

  lemma RecordedIsUnique(n: Plan)
    requires Workable(n)
    ensures Unique(TheLog(n)[..4], BundleKey(PublicationKind, TheBundle(n)), 3)
  {
    IsWorkable(n);
    LogMatches(n, 4, PublicationKind);
    LogScans(n, 4, PublicationKind);
    hide Workable, Scannable, TheBundle, Matches, BundleKey;
  }

  lemma PublishedIsUnique(n: Plan)
    requires Workable(n)
    ensures Unique(TheLog(n)[..5], BundleKey(PublishedKind, TheBundle(n)), 4)
  {
    IsWorkable(n);
    LogMatches(n, 5, PublishedKind);
    LogScans(n, 5, PublishedKind);
    hide Workable, Scannable, TheBundle, Matches, BundleKey;
  }

  // ----- prepare

  /** Nothing has happened but that the task branch stands at the effect's base. */
  function Origin(n: Plan): World {
    World(Journal(map[0 := Commit(None, 0, map[])], [0], map[], {}, map[]), [], multiset{},
          map[n.effect.base := TaskCommit([], 0)], map[n.effect.branch := [n.effect.base]], map[], {}, {}, {}, map[])
  }

  /** A run has reached the state: its prepare run has handed the bundle out, the log holds the first
      `k` comments, and the journal the record. */
  ghost predicate Awaits(n: Plan, s: World, k: nat, r: Record)
    requires k <= 5
  {
    && Leads(s, s) && s.procs == map[1 := Prepared(TheBundle(n), true)] && s.log == TheLog(n)[..k]
    && s.taskCommits == Origin(n).taskCommits && s.taskHeads == Origin(n).taskHeads
    && Usable(s.journal) && CurrentRecord(s.journal, n.frozen.requestId) == Some(r)
  }

  lemma FirstComments(n: Plan)
    ensures Recordable([], NewRecord(n.frozen), n.executionId, TheBundle(n))
    ensures TheLog(n)[..2] == [] + Handoffs(NewRecord(n.frozen), n.executionId, TheBundle(n))
  {
    var key := IntentKey(IdentityOf(n.frozen), n.executionId);
    FirstScan(n, key);
    FirstScan(n, BundleKey(PrepareKind, TheBundle(n)));
    NoMatchesYet(key);
    LogMatches(n, 1, PrepareKind);
    assert TheLog(n)[..1] == [] + [IntentBody(TheIntent(n))];
    hide Scannable, Matches;
  }

  /** Prepare hands its bundle out durably, even if its own comment cannot be read. */
  lemma Prepares(n: Plan) returns (s: World)
    requires ValidExecutionId(n.executionId)
    ensures Awaits(n, s, 2, Taken(n))
    ensures s.journal.store.Keys == {0, 1, 2} && s.journal.workers.Keys == {1, 2}
  {
    hide ValidExecutionId, Recordable, Leads, Scannable, Matches;
    var o := Origin(n);
    Starts(o);
    FirstComments(n);
    s := NewRequestsCanBePrepared(o, 1, 1, 2, 1, 2, n.frozen, n.executionId, true);
    Renews(o, s);
    assert o.procs[1 := Prepared(TheBundle(n), true)] == map[1 := Prepared(TheBundle(n), true)];
  }

  /** Control publishes its receipt. */
  lemma HandsOver(n: Plan, s: World) returns (t: World)
    requires Awaits(n, s, 2, Taken(n))
    ensures Awaits(n, t, 3, Taken(n)) && t.journal == s.journal
  {
    hide CanFinalize, FinalizeAfter, Leads, CurrentRecord, TheBundle;
    t := Noted(s, TheReceipt(n));
    Steps(s, s, Comment(TheReceipt(n)), t);
    Renews(s, t);
    LogGrows(n, 2);
  }

  /** Somebody marks the record ambiguous. */
  lemma IsMarked(n: Plan, s: World) returns (t: World)
    requires Awaits(n, s, 3, Taken(n)) && s.journal.store.Keys == {0, 1, 2} && s.journal.workers.Keys == {1, 2}
    ensures Awaits(n, t, 3, Taken(n).(state := Ambiguous))
    ensures t.journal.store.Keys == {0, 1, 2, 3} && t.journal.workers.Keys == {1, 2, 3}
  {
    hide Leads, CurrentRecord, TheBundle, Usable;
    t := ExecutingRequestsCanBeMarked(s, 3, 3, n.frozen.requestId, Taken(n), n.executionId);
    Renews(s, t);
  }

  // ----- finalize

  /** What has been handed out verifies at the head. */
  lemma HandedVerifies(s: World, b: Bundle)
    requires Leads(s, s) && Handed(s, b)
    ensures var j := s.journal;
            && Usable(j) && CurrentRecord(j, b.identity.requestId).Some?
            && VerifyBundle(j, b, Head(j), CurrentRecord(j, b.identity.requestId).value)
  {
    hide WorldRun, VerifyBundle, Handed;
    var states, steps, k :| Passes(states, steps, k, s) && states[|steps|] == s;
    BundlesVerifyForEver(states, steps, |steps|, |steps|, b);
  }

  lemma IsUnfinished(n: Plan, s: World, r: Record)
    requires Awaits(n, s, 3, r) && Open(r)
    ensures Unfinished(s, TheBundle(n), r) && OneReceipt(s, TheBundle(n), CandidateReady(n.handoff), 2)
  {
    hide VerifyBundle, Open, ReceiptMatches, Countable, Leads;
    assert s.procs[1] == Prepared(TheBundle(n), true);
    HandedVerifies(s, TheBundle(n));
    ReceiptIsAlone(n);
  }

  lemma IsBuildable(n: Plan, s: World, r: Record)
    requires Awaits(n, s, 3, r) && Workable(n)
    ensures Buildable(s, TheBundle(n), n.handoff, n.effect)
            && !Clogs(PublicationBody(TheBundle(n), n.effect), PublicationKind)
    ensures OnlyRecord(s.log + [PublicationBody(TheBundle(n), n.effect)], TheBundle(n), n.effect, 3)
  {
    IsWorkable(n);
    LogMatches(n, 3, PublicationKind);
    LogScans(n, 3, PublicationKind);
    RecordedIsUnique(n);
    LogGrows(n, 3);
    assert TheLog(n)[3] == PublicationBody(TheBundle(n), n.effect);
    hide Scannable, Matches, Unique, Leads, Workable, CurrentRecord, Usable, TheLog;
  }

  lemma IsUnannounced(n: Plan, s: World, r: Record)
    requires Awaits(n, s, 3, r) && Workable(n)
    ensures Unannounced(Noted(s, PublicationBody(TheBundle(n), n.effect)), TheBundle(n), n.effect)
    ensures s.log + [PublicationBody(TheBundle(n), n.effect), PublishedBody(TheBundle(n), n.effect)] == TheLog(n)[..5]
  {
    IsWorkable(n);
    LogMatches(n, 4, PublishedKind);
    LogScans(n, 4, PublishedKind);
    PublishedIsUnique(n);
    LogGrows(n, 3);
    LogGrows(n, 4);
    assert TheLog(n)[3] == PublicationBody(TheBundle(n), n.effect)
           && TheLog(n)[4] == PublishedBody(TheBundle(n), n.effect);
    hide Scannable, Matches, Unique, Leads, Workable, CurrentRecord, Usable, TheLog;
  }

  lemma ResultIs(n: Plan)
    requires Workable(n)
    ensures Success(TheBundle(n), n.effect, 4) == TheResult(n) && Storable(TheResult(n))
  {
    hide Reference;
  }

  /** How the run ends: the bundle handed out has been published, and the five comments made. */
  predicate Ends(n: Plan, t: World) {
    && t.procs == map[1 := Prepared(TheBundle(n), true), 2 := Finalized(TheBundle(n), TheResult(n), Some(n.effect))]
    && t.log == TheLog(n)[..5]
  }

  /** The finalize run publishes, from an executing record or an ambiguous one. */
  lemma Publishes(n: Plan, s: World, r: Record) returns (t: World)
    requires Awaits(n, s, 3, r) && Open(r) && Workable(n) && 4 !in s.journal.store && 4 !in s.journal.workers
    ensures Leads(s, t) && Ends(n, t) && EndedBy(t, 2, 4, TheBundle(n), r, TheResult(n), Some(n.effect))
  {
    hide Open, Workable, Unfinished, OneReceipt, Buildable, OnlyRecord, Unannounced, Storable, EndedBy, Clogs, Leads,
         TheBundle, TheLog, Success, Usable, CurrentRecord;
    IsUnfinished(n, s, r);
    IsBuildable(n, s, r);
    IsUnannounced(n, s, r);
    ResultIs(n);
    IsLedgerPlan(n);
    t := NewEffectsCanEnd(s, 2, 4, 4, TheBundle(n), r, n.handoff, n.effect, 2);
    assert s.procs[2 := t.procs[2]] == map[1 := s.procs[1], 2 := t.procs[2]];
  }

  lemma IsLedgerPlan(n: Plan)
    requires Workable(n)
    ensures TheBundle(n).identity.operation == "governance.ledger"
  {
  }

  // ----- exactly which requests are published, and which of those are read

  /** In this run a durable prepare and a finalize of one bundle, for the request and the execution,
      have ended in `ledger_published`. */
  ghost predicate PublishedIn(states: seq<World>, steps: seq<Step>, w: ProcId, p: ProcId, f: Frozen, e: string) {
    && WorldRun(states, steps)
    && var s := states[|steps|];
       && w in s.procs && s.procs[w].Prepared? && s.procs[w].durable
       && p in s.procs && s.procs[p].Finalized? && s.procs[p].bundle == s.procs[w].bundle
       && s.procs[p].result.state.Succeeded? && s.procs[p].result.code == "ledger_published"
       && s.procs[p].bundle.canonicalRecord.frozen == f && s.procs[p].bundle.executionId == e
  }

  ghost predicate CanBePublished(f: Frozen, e: string) {
    exists states, steps, w, p :: PublishedIn(states, steps, w, p, f, e)
  }

  ghost predicate CanBeRead(f: Frozen, e: string) {
    exists states, steps, w, p :: PublishedIn(states, steps, w, p, f, e) && ReadIn(states, steps, f, e)
  }

  ghost predicate ReadIn(states: seq<World>, steps: seq<Step>, f: Frozen, e: string)
    requires WorldRun(states, steps)
  {
    var s := states[|steps|];
    Usable(s.journal) && LoadPublished(s.log, s.journal, f.issueNumber, e, f.requestId).Ok?
  }

  /** A ledger request on the governance repository. */
  predicate OnGovernance(f: Frozen) {
    && f.operation == "governance.ledger" && f.repositoryFullName == GOVERNANCE && f.repositoryId == GOVERNANCE_ID
    && f.issueNumber <= 9007199254740991
  }

  function Power10(k: nat): nat {
    if k == 0 then 1 else 10 * Power10(k - 1)
  }

  lemma {:induction false} DigitsBound(n: nat, k: nat)
    requires 0 < k && n < Power10(k)
    ensures |Decimal.Text(n)| <= k
  {
    if n >= 10 { DigitsBound(n / 10, k - 1); }
  }

  lemma SafeNumbersAreShort(n: nat)
    requires n <= 9007199254740991
    ensures |Decimal.Text(n)| <= 16
  {
    assert Power10(4) == 10000;
    assert Power10(8) == 10000 * Power10(4);
    assert Power10(12) == 10000 * Power10(8);
    assert Power10(16) == 10000 * Power10(12);
    DigitsBound(n, 16);
  }

  lemma DigitsArePrintable(n: nat)
    requires n <= 9007199254740991
    ensures Printable(Decimal.Text(n), 16)
  {
    SafeNumbersAreShort(n);
    hide Power10;
  }

  lemma PartsArePrintable()
    ensures Printable("https://github.com/", 19) && Printable(GOVERNANCE, 30)
    ensures Printable("/issues/", 8) && Printable("#issuecomment-", 14)
  {
  }

  /** The journal accepts the reference to the comment. */
  lemma ReferenceIsValid(f: Frozen)
    requires OnGovernance(f)
    ensures ValidTerminalReference(Some(Reference(IdentityOf(f), 4)))
  {
    PartsArePrintable();
    DigitsArePrintable(f.issueNumber);
    DigitsArePrintable(5);
    hide Decimal.Text;
  }

  function PlanFor(f: Frozen, e: string): Plan {
    Plan(f, e, Handoff(1, 1, ""), Publication("task", 0, 0, 1, Artifact(1, 1, 1, "", "")))
  }

  lemma PlanIsWorkable(f: Frozen, e: string)
    requires OnGovernance(f) && ValidExecutionId(e)
    requires !Contains(f.canonicalRequest, PublisherPrefix(PublicationKind))
    requires !Contains(f.canonicalRequest, PublisherPrefix(PublishedKind))
    ensures Workable(PlanFor(f, e))
  {
    ReferenceIsValid(f);
    hide Reference;
  }

  lemma ReferencesDiffer(identity: Identity, i: nat, j: nat)
    requires Reference(identity, i) == Reference(identity, j)
    ensures i == j
  {
    var start := "https://github.com/" + identity.repositoryFullName + "/issues/" + Decimal.Text(identity.issueNumber)
                 + "#issuecomment-";
    assert Reference(identity, i)[|start|..] == Decimal.Text(i + 1);
    assert Reference(identity, j)[|start|..] == Decimal.Text(j + 1);
    Decimal.TextIsInjective(i + 1, j + 1);
  }

  lemma EndLog(n: Plan)
    ensures OneOfEach(TheLog(n)[..5], TheBundle(n)) && OneRequest(TheLog(n)[..5], TheBundle(n))
  {
    LogMatches(n, 5, PrepareKind);
    LogMatches(n, 5, PublicationKind);
    LogMatches(n, 5, PublishedKind);
    LogCarries(n, 5);
    CountIsSmall(TheLog(n)[..5], IssueOfBundle(TheBundle(n)));
    assert TheBundle(n).canonicalRecord.frozen == n.frozen;
    hide Matches, ReceiptMatches, TheBundle, TheLog;
  }

  lemma BundleIs(n: Plan)
    requires Workable(n)
    ensures var b := TheBundle(n);
            && b.canonicalRecord == Taken(n) && b.identity == IdentityOf(n.frozen) && b.executionId == n.executionId
            && b.identity.operation == "governance.ledger"
  {
  }

  /** How the run ends, and what a reader then finds: the receipt, unless the request holds the
      prefix of prepare comments. Both cases occur. */
  lemma EndIsRead(n: Plan, states: seq<World>, steps: seq<Step>)
    requires Workable(n) && OnGovernance(n.frozen) && WorldRun(states, steps) && Ends(n, states[|steps|])
    ensures PublishedIn(states, steps, 1, 2, n.frozen, n.executionId)
    ensures var s := states[|steps|];
            && Usable(s.journal)
            && LoadPublished(s.log, s.journal, n.frozen.issueNumber, n.executionId, n.frozen.requestId)
               == if Contains(Words(n), PublisherPrefix(PrepareKind)) then Err(CommentUnreadable)
                  else Ok(DurableReceipt(TheBundle(n), n.effect, 4, Head(s.journal)))
  {
    BundleIs(n);
    EndLog(n);
    hide Workable, WorldRun, TheLog, TheBundle, LoadPublished, AllReadable, OneOfEach, OneRequest, Contains,
         PublisherPrefix, Reference;
    var k := |steps|;
    var id := ReaderAgreesWithWriter(states, steps, k, k, k, 1, 2);
    ReadableExactly(states, steps, k, k, 1, 2);
    ReferencesDiffer(IdentityOf(n.frozen), id, 4);
  }

  /** A bundle of a publication carries a valid execution id and a request finalize could scan for. */
  lemma PublishedIsQuiet(states: seq<World>, steps: seq<Step>, w: ProcId, p: ProcId, f: Frozen, e: string)
    requires PublishedIn(states, steps, w, p, f, e) && f.operation == "governance.ledger"
    ensures ValidExecutionId(e)
    ensures !Contains(f.canonicalRequest, PublisherPrefix(PublicationKind))
    ensures !Contains(f.canonicalRequest, PublisherPrefix(PublishedKind))
  {
    hide CanStep, WorldNext, Contains, PublisherPrefix, ValidExecutionId;
    var s := states[|steps|];
    WorldRunKeepsInv(states, steps, |steps|);
    var x := s.procs[p];
    assert ProcOk(s, x);
    SameFrozen(s.journal, x.bundle.claimRevision, x.bundle.claimRevision, x.bundle.identity.requestId,
               x.bundle.canonicalRecord, x.bundle.canonicalRecord);
    FinalizedIsQuiet(s, x);
  }

  /** A whole run for the plan, whose record stays executing until it ends. */
  lemma PublishedRun(n: Plan) returns (states: seq<World>, steps: seq<Step>)
    requires Workable(n)
    ensures WorldRun(states, steps) && Ends(n, states[|steps|])
  {
    hide Workable, WorldRun, Ends, Awaits, EndedBy, ValidExecutionId;
    IsWorkable(n);
    var s2 := Prepares(n);
    var s3 := HandsOver(n, s2);
    var t := Publishes(n, s3, Taken(n));
    var k;
    states, steps, k :| Passes(states, steps, k, s3) && states[|steps|] == t;
  }

  /** And a whole run whose record is marked ambiguous before finalize starts: at state `k` the record
      at the head is ambiguous and no finalize run exists yet, and the one that follows publishes the
      effect and ends the record by the reconciliation call. */
  lemma AmbiguousRequestsArePublished(f: Frozen, e: string) returns (states: seq<World>, steps: seq<Step>, k: nat)
    requires OnGovernance(f) && ValidExecutionId(e)
    requires !Contains(f.canonicalRequest, PublisherPrefix(PublicationKind))
    requires !Contains(f.canonicalRequest, PublisherPrefix(PublishedKind))
    ensures PublishedIn(states, steps, 1, 2, f, e)
    ensures k <= |steps| && states[k].procs.Keys == {1} && Usable(states[k].journal)
            && var r := CurrentRecord(states[k].journal, f.requestId);
               r.Some? && r.value.state.Ambiguous? && r.value.frozen == f && r.value.executionId == Some(e)
    ensures var j := states[|steps|].journal;
            && Usable(j) && CurrentRecord(j, f.requestId).Some? && CurrentRecord(j, f.requestId).value.state.Succeeded?
            && CurrentRecord(j, f.requestId).value.terminalCode == Some("ledger_published")
            && 4 in j.workers && j.workers[4].request == f.requestId && j.workers[4].op.ReconcileOp?
            && j.workers[4].op.executionId == e
  {
    hide Workable, WorldRun, Ends, EndedBy, ValidExecutionId, Contains, PublisherPrefix, Awaits, OnGovernance;
    var n := PlanFor(f, e);
    PlanIsWorkable(f, e);
    IsWorkable(n);
    var s2 := Prepares(n);
    var s3 := HandsOver(n, s2);
    var s4 := IsMarked(n, s3);
    var r := Taken(n).(state := Ambiguous);
    var t := Publishes(n, s4, r);
    states, steps, k :| Passes(states, steps, k, s4) && states[|steps|] == t;
    EndIsRead(n, states, steps);
    AwaitsMeans(n, s4, r);
    EndedMeans(n, t, r);
  }

  lemma AwaitsMeans(n: Plan, s: World, r: Record)
    requires Awaits(n, s, 3, r)
    ensures s.procs.Keys == {1} && Usable(s.journal) && CurrentRecord(s.journal, n.frozen.requestId) == Some(r)
  {
    hide Leads, TheBundle, TheLog, Usable, CurrentRecord;
  }

  lemma EndedMeans(n: Plan, t: World, r: Record)
    requires EndedBy(t, 2, 4, TheBundle(n), r, TheResult(n), Some(n.effect)) && r.state.Ambiguous?
    ensures var j := t.journal;
            && Usable(j) && CurrentRecord(j, n.frozen.requestId).Some?
            && CurrentRecord(j, n.frozen.requestId).value.state.Succeeded?
            && CurrentRecord(j, n.frozen.requestId).value.terminalCode == Some("ledger_published")
            && 4 in j.workers && j.workers[4].request == n.frozen.requestId && j.workers[4].op.ReconcileOp?
            && j.workers[4].op.executionId == n.executionId
  {
    hide Usable, CurrentRecord, Reference;
  }

  /** Exactly which requests can be published: in some run a durable prepare and a finalize end in
      `ledger_published` if and only if the execution id is valid and the canonical request is free
      of the prefixes of publication and published comments. */
  lemma PublishedExactly(f: Frozen, e: string)
    requires OnGovernance(f)
    ensures CanBePublished(f, e) <==>
              && ValidExecutionId(e)
              && !Contains(f.canonicalRequest, PublisherPrefix(PublicationKind))
              && !Contains(f.canonicalRequest, PublisherPrefix(PublishedKind))
  {
    hide Contains, PublisherPrefix, ValidExecutionId, PublishedIn, Ends, Workable, Reference;
    if CanBePublished(f, e) {
      var states, steps, w, p :| PublishedIn(states, steps, w, p, f, e);
      PublishedIsQuiet(states, steps, w, p, f, e);
    }
    if ValidExecutionId(e) && !Contains(f.canonicalRequest, PublisherPrefix(PublicationKind))
       && !Contains(f.canonicalRequest, PublisherPrefix(PublishedKind))
    {
      var n := PlanFor(f, e);
      PlanIsWorkable(f, e);
      var states, steps := PublishedRun(n);
      EndIsRead(n, states, steps);
      assert PublishedIn(states, steps, 1, 2, f, e);
    }
  }

  /** And exactly which of those can ever be read back: those whose canonical request is free of
      the prefix of prepare comments, too. */
  lemma ReadExactly(f: Frozen, e: string)
    requires OnGovernance(f)
    ensures CanBeRead(f, e) <==> CanBePublished(f, e) && !Contains(f.canonicalRequest, PublisherPrefix(PrepareKind))
  {
    hide Contains, PublisherPrefix, ValidExecutionId, Ends, Workable, Reference, LoadPublished;
    if CanBeRead(f, e) {
      var states, steps, w, p :| PublishedIn(states, steps, w, p, f, e) && ReadIn(states, steps, f, e);
      ReadIsQuiet(states, steps, w, p, f, e);
    }
    if CanBePublished(f, e) && !Contains(f.canonicalRequest, PublisherPrefix(PrepareKind)) {
      PublishedExactly(f, e);
      var n := PlanFor(f, e);
      PlanIsWorkable(f, e);
      var states, steps := PublishedRun(n);
      EndIsRead(n, states, steps);
      assert PublishedIn(states, steps, 1, 2, f, e) && ReadIn(states, steps, f, e);
    }
  }

  lemma LoadedIsReadable(log: seq<Body>, j: Journal, issue: nat, executionId: string, q: RequestId)
    requires Usable(j) && LoadPublished(log, j, issue, executionId, q).Ok?
    ensures Readable(log, PrepareKind, (GOVERNANCE, issue))
  {
    hide Readable, VerifyBundle, Reference, Matches;
  }

  lemma ReadIsQuiet(states: seq<World>, steps: seq<Step>, w: ProcId, p: ProcId, f: Frozen, e: string)
    requires OnGovernance(f) && PublishedIn(states, steps, w, p, f, e) && ReadIn(states, steps, f, e)
    ensures !Contains(f.canonicalRequest, PublisherPrefix(PrepareKind))
  {
    hide CanStep, WorldNext, Contains, PublisherPrefix, Reference, LoadPublished, JournalOk, BodyOk, TaskPatchOk;
    var s := states[|steps|];
    WorldRunKeepsInv(states, steps, |steps|);
    var x := s.procs[w];
    assert ProcOk(s, x);
    LoadedIsReadable(s.log, s.journal, f.issueNumber, e, f.requestId);
    var d :| PrepareBody(x.bundle, d) in s.log;
    assert !Clogs(PrepareBody(x.bundle, d), PrepareKind);
  }
}
