/** The read-only consumer of a published ledger request
    (`load_durable_published_receipt` in scripts/actions_request_handler.py) agrees with the
    Publisher that wrote the comments and terminalized the journal. */
module PublisherReader {
  import opened Common
  import opened JournalRecord
  import opened JournalProtocol
  import opened JournalSafety
  import opened Markers
  import opened PublisherProtocol
  import opened PublisherInvariant
  import opened PublisherSteps
  import opened PublisherSafety
  import opened Text

  const GOVERNANCE := "shockerqt/workspace-governance"
  const GOVERNANCE_ID := 1260920764

  datatype ReaderError =
    | ScanFailed | CommentUnreadable | MissingOrConflicting | BindingMismatch | JournalInvalid | RevisionMismatch | TerminalMismatch

  datatype DurableReceipt = DurableReceipt(bundle: Bundle, publication: Publication, comment: nat, terminal: Sha)

  /** Every Publisher comment of the Issue can be parsed as one of each kind the reader looks for. */
  predicate AllReadable(log: seq<Body>, issue: (string, nat)) {
    Readable(log, PrepareKind, issue) && Readable(log, PublicationKind, issue) && Readable(log, PublishedKind, issue)
  }

  /** The comments come from a scan, the journal from a load that follows it, when both may
      have grown. */
  function LoadPublished(log: seq<Body>, j: Journal, issue: nat, executionId: string, q: RequestId)
    : Result<DurableReceipt, ReaderError>
    requires Usable(j)
  {
    var prepares := Matches(log, Key(PrepareKind, GOVERNANCE, issue, q, executionId));
    var publications := Matches(log, Key(PublicationKind, GOVERNANCE, issue, q, executionId));
    var publisheds := Matches(log, Key(PublishedKind, GOVERNANCE, issue, q, executionId));
    if !Countable(log, (GOVERNANCE, issue)) then Err(ScanFailed)
    else if !AllReadable(log, (GOVERNANCE, issue)) then Err(CommentUnreadable)
    else if |prepares| != 1 || |publications| != 1 || |publisheds| != 1 then Err(MissingOrConflicting)
    else
      assert prepares[0] in prepares && publications[0] in publications && publisheds[0] in publisheds;
      var prepare, publication, published := log[prepares[0]], log[publications[0]], log[publisheds[0]];
      assert prepare.PrepareBody? && publication.PublicationBody? && published.PublishedBody?;
      var b, e, id := published.bundle, published.publication, publisheds[0];
      if b.identity.repositoryId != GOVERNANCE_ID || prepare.bundle != b || publication.bundle != b
         || publication.publication != e || e.commit == e.base
      then Err(BindingMismatch)
      else
        var current := CurrentRecord(j, q);
        if current.None? then Err(JournalInvalid)
        else if !VerifyBundle(j, b, Head(j), current.value) then Err(RevisionMismatch)
        else if !current.value.state.Succeeded? || current.value.terminalCode != Some("ledger_published")
                || current.value.terminalReference != Some(Reference(b.identity, id))
        then Err(TerminalMismatch)
        else Ok(DurableReceipt(b, e, id, Head(j)))
  }

  function IssueOfBundle(b: Bundle): (string, nat) {
    (b.identity.repositoryFullName, b.identity.issueNumber)
  }

  /** The log has at most one comment of each kind for the bundle, and can be scanned. */
  predicate OneOfEach(log: seq<Body>, b: Bundle) {
    && Countable(log, IssueOfBundle(b))
    && |Matches(log, BundleKey(PrepareKind, b))| <= 1
    && |Matches(log, BundleKey(PublicationKind, b))| <= 1
    && |Matches(log, BundleKey(PublishedKind, b))| <= 1
  }

  lemma {:induction false} InMatches(log: seq<Body>, key: Key, body: Body)
    requires body in log && KeyOf(body) == Some(key)
    ensures exists m :: m in Matches(log, key) && log[m] == body
  {
    var init := log[..|log| - 1];
    assert log == init + [log[|log| - 1]];
    if log[|log| - 1] == body {
      assert |log| - 1 in Matches(log, key);
    } else {
      InMatches(init, key, body);
      var m :| m in Matches(init, key) && init[m] == body;
      assert m in Matches(log, key) && log[m] == body;
    }
  }

  /** Once finalization has succeeded, the journal's current record says what it concluded. */
  lemma ConcludedRecordStays(s: World, x: Proc)
    requires Inv(s.journal) && x.Finalized? && ProcOk(s, x) && x.result.state.Succeeded?
    ensures var now := CurrentRecord(s.journal, x.bundle.identity.requestId);
            && now.Some? && now.value.state.Succeeded? && now.value.terminalCode == Some(x.result.code)
            && now.value.terminalReference == Some(x.result.reference)
  {
    hide OutcomeOk, BundleOk, StoreInv, BodyOk, TaskPatchOk;
    var j := s.journal;
    var q := x.bundle.identity.requestId;
    var c, r :| OnChain(j, c, q, r) && r.state == x.result.state
                && r.terminalCode == Some(x.result.code) && r.terminalReference == Some(x.result.reference);
    var i := IndexOfHead(j, c);
    HeadsEvolve(j, i, |j.heads| - 1, q);
  }

  lemma ReaderFinds(s: World, j: Journal, b: Bundle, e: Publication, id: nat)
    requires PublishedAt(s, b, e, id) && e.commit != e.base
    requires b.identity.repositoryFullName == GOVERNANCE && b.identity.repositoryId == GOVERNANCE_ID
    requires (exists d :: PrepareBody(b, d) in s.log) && OneOfEach(s.log, b)
    requires Usable(j)
    requires var now := CurrentRecord(j, b.identity.requestId);
             && now.Some? && VerifyBundle(j, b, Head(j), now.value)
             && now.value.state.Succeeded? && now.value.terminalCode == Some("ledger_published")
             && now.value.terminalReference == Some(Reference(b.identity, id))
    ensures LoadPublished(s.log, j, b.identity.issueNumber, b.executionId, b.identity.requestId)
            == if AllReadable(s.log,
                              IssueOfBundle(b)) then Ok(DurableReceipt(b, e, id, Head(j))) else Err(CommentUnreadable)
  {
    hide AllReadable, Clogs, Reference, VerifyBundle, CurrentRecord;
    var d :| PrepareBody(b, d) in s.log;
    InMatches(s.log, BundleKey(PrepareKind, b), PrepareBody(b, d));
  }

  /** Reader agrees with writer, exactly: after a durable prepare and a finalize that ended in
      `ledger_published`, take a reader that scans the Issue in any later state without further
      matching comments, the Issue still being short enough to scan, and loads the journal at that
      moment or any later one. It returns that bundle, publication and comment, at the head it
      loaded, if and only if every comment of the Issue is readable; otherwise it fails on one. */
  lemma ReaderAgreesWithWriter(states: seq<World>, steps: seq<Step>, m: nat, n1: nat, n2: nat, w: ProcId, p: ProcId)
      returns (id: nat)
    requires WorldRun(states, steps) && m <= n1 <= n2 < |states|
    requires w in states[m].procs && states[m].procs[w].Prepared? && states[m].procs[w].durable
    requires p in states[m].procs && states[m].procs[p].Finalized?
    requires states[m].procs[p].bundle == states[m].procs[w].bundle
    requires var x := states[m].procs[p];
             && x.result.state.Succeeded? && x.result.code == "ledger_published"
             && x.bundle.identity.operation == "governance.ledger"
             && x.bundle.identity.repositoryFullName == GOVERNANCE && x.bundle.identity.repositoryId == GOVERNANCE_ID
             && OneOfEach(states[n1].log, x.bundle)
    ensures Usable(states[n2].journal)
    ensures var x, j := states[m].procs[p], states[n2].journal;
            && x.effect.Some? && x.result == TerminalResult(Succeeded, "ledger_published",
                                                            Reference(x.bundle.identity, id))
            && LoadPublished(states[n1].log, j, x.bundle.identity.issueNumber, x.bundle.executionId,
                             x.bundle.identity.requestId)
               == if AllReadable(states[n1].log, IssueOfBundle(x.bundle))
                  then Ok(DurableReceipt(x.bundle, x.effect.value, id, Head(j))) else Err(CommentUnreadable)
  {
    hide WorldRun, OneOfEach, PublishedAt, VerifyBundle, AllReadable;
    var x := states[m].procs[p];
    id := WrittenStays(states, steps, m, n1, w, p);
    RecordStays(states, steps, m, n2, p);
    ReaderFinds(states[n1], states[n2].journal, x.bundle, x.effect.value, id);
  }

  /** No comment of the Issue carries another request. */
  predicate OneRequest(log: seq<Body>, b: Bundle) {
    forall body | body in log && IssueOf(body) == IssueOfBundle(b) && RequestText(body).Some? ::
      RequestText(body).value == b.canonicalRecord.frozen.canonicalRequest
  }

  /** Finalize's own scans have read comments that carry the request, so it is free of the prefixes
      of the two kinds that finalize looks for. */
  lemma FinalizedIsQuiet(s: World, x: Proc)
    requires ProcOk(s, x) && x.Finalized? && x.result.state.Succeeded? && IsLedger(x.bundle)
    ensures var text := x.bundle.canonicalRecord.frozen.canonicalRequest;
            !Contains(text, PublisherPrefix(PublicationKind)) && !Contains(text, PublisherPrefix(PublishedKind))
  {
    hide Contains, PublisherPrefix;
    var id := FinalizedWith(s, x);
  }

  /** On an Issue with one request the comments are readable exactly when the canonical request is
      free of the prefix of prepare comments: finalize has shown it to be free of the other two. */
  lemma ReadableExactly(states: seq<World>, steps: seq<Step>, m: nat, n: nat, w: ProcId, p: ProcId)
    requires WorldRun(states, steps) && m <= n < |states|
    requires w in states[m].procs && states[m].procs[w].Prepared? && states[m].procs[w].durable
    requires p in states[m].procs && states[m].procs[p].Finalized?
    requires states[m].procs[p].bundle == states[m].procs[w].bundle
    requires states[m].procs[p].result.state.Succeeded? && IsLedger(states[m].procs[p].bundle)
    requires OneRequest(states[n].log, states[m].procs[p].bundle)
    ensures var b := states[m].procs[p].bundle;
            AllReadable(states[n].log, IssueOfBundle(b))
            <==> !Contains(b.canonicalRecord.frozen.canonicalRequest, PublisherPrefix(PrepareKind))
  {
    hide WorldRun, Contains, PublisherPrefix;
    var x := states[m].procs[p];
    WorldRunKeepsInv(states, steps, m);
    assert ProcOk(states[m], x);
    FinalizedIsQuiet(states[m], x);
    var id := WrittenStays(states, steps, m, n, w, p);
    var d :| PrepareBody(x.bundle, d) in states[n].log;
    assert Clogs(PrepareBody(x.bundle, d), PrepareKind)
           <==> Contains(x.bundle.canonicalRecord.frozen.canonicalRequest, PublisherPrefix(PrepareKind));
  }

  /** What the writers left is still in the log at any later moment. */
  lemma WrittenStays(states: seq<World>, steps: seq<Step>, m: nat, n: nat, w: ProcId, p: ProcId) returns (id: nat)
    requires WorldRun(states, steps) && m <= n < |states|
    requires w in states[m].procs && states[m].procs[w].Prepared? && states[m].procs[w].durable
    requires p in states[m].procs && states[m].procs[p].Finalized?
    requires states[m].procs[p].bundle == states[m].procs[w].bundle
    requires states[m].procs[p].result.state.Succeeded? && IsLedger(states[m].procs[p].bundle)
    ensures var x := states[m].procs[p];
            && x.effect.Some? && PublishedAt(states[n], x.bundle, x.effect.value, id)
            && x.result == TerminalResult(Succeeded, CodeFor(x.effect.value), Reference(x.bundle.identity, id))
            && exists d :: PrepareBody(x.bundle, d) in states[n].log
  {
    hide WorldRun, Grows, PublishedAt, OutcomeOk, BundleOk, OnChain;
    WorldRunKeepsInv(states, steps, m);
    WorldRunGrows(states, steps, m, n);
    var x, y := states[m].procs[p], states[m].procs[w];
    assert ProcOk(states[m], x) && ProcOk(states[m], y);
    hide WorldInv;
    ProcPersists(states[m], states[n], x);
    ProcPersists(states[m], states[n], y);
    id := FinalizedWith(states[n], x);
  }

  /** The journal keeps saying what finalization concluded, and the bundle keeps verifying. */
  lemma RecordStays(states: seq<World>, steps: seq<Step>, m: nat, n: nat, p: ProcId)
    requires WorldRun(states, steps) && m <= n < |states|
    requires p in states[m].procs && states[m].procs[p].Finalized? && states[m].procs[p].result.state.Succeeded?
    ensures var x, j := states[m].procs[p], states[n].journal;
            && Usable(j)
            && var now := CurrentRecord(j, x.bundle.identity.requestId);
               && now.Some? && VerifyBundle(j, x.bundle, Head(j), now.value)
               && now.value.state.Succeeded? && now.value.terminalCode == Some(x.result.code)
               && now.value.terminalReference == Some(x.result.reference)
  {
    hide WorldRun, Grows, OutcomeOk, BundleOk, OnChain, VerifyBundle;
    WorldRunKeepsInv(states, steps, m);
    WorldRunKeepsInv(states, steps, n);
    WorldRunGrows(states, steps, m, n);
    var x := states[m].procs[p];
    assert ProcOk(states[m], x);
    ProcPersists(states[m], states[n], x);
    hide WorldInv;
    ConcludedRecordStays(states[n], x);
    VerificationIsStable(states[n].journal, x.bundle);
  }

  lemma FinalizedWith(s: World, x: Proc) returns (id: nat)
    requires ProcOk(s, x) && x.Finalized? && x.result.state.Succeeded? && IsLedger(x.bundle)
    ensures x.effect.Some? && BundleOk(s.journal, x.bundle) && PublishedAt(s, x.bundle, x.effect.value, id)
    ensures x.result == TerminalResult(Succeeded, CodeFor(x.effect.value), Reference(x.bundle.identity, id))
  {
    id :| PublishedAt(s, x.bundle, x.effect.value, id)
          && x.result == TerminalResult(Succeeded, CodeFor(x.effect.value), Reference(x.bundle.identity, id));
  }

  /** Conversely, in any run, what a reader returns that scanned at one moment and loaded the
      journal at that moment or later is proved: the bundle is bound to the journal, the effect
      has been read back and recorded first, the comment was once found to be the only one, and
      the record loaded refers to it. */
  lemma ReaderIsSound(states: seq<World>, steps: seq<Step>, n1: nat, n2: nat, issue: nat, executionId: string,
                      q: RequestId)
    requires WorldRun(states, steps) && n1 <= n2 < |states| && Usable(states[n2].journal)
    requires LoadPublished(states[n1].log, states[n2].journal, issue, executionId, q).Ok?
    ensures var receipt := LoadPublished(states[n1].log, states[n2].journal, issue, executionId, q).value;
            var r := TerminalResult(Succeeded, "ledger_published", Reference(receipt.bundle.identity, receipt.comment));
            && BundleOk(states[n2].journal, receipt.bundle)
            && receipt.bundle.identity.requestId == q && receipt.bundle.executionId == executionId
            && LedgerSuccessOk(states[n2], receipt.bundle, receipt.publication, r)
            && CurrentRecord(states[n2].journal, q).Some?
            && CurrentRecord(states[n2].journal, q).value.terminalReference == Some(r.reference)
  {
    hide WorldRun, VerifyBundle, Reference, BundleOk, Unique, Grows;
    WorldRunKeepsInv(states, steps, n1);
    WorldRunKeepsInv(states, steps, n2);
    WorldRunGrows(states, steps, n1, n2);
    var s, t := states[n1], states[n2];
    var receipt := LoadPublished(s.log, t.journal, issue, executionId, q).value;
    FoundIsOk(s, t.journal, issue, executionId, q);
    hide WorldInv;
    var b, e := receipt.bundle, receipt.publication;
    FoundStays(s, t, b, e);
    RecordProves(t, q, CurrentRecord(t.journal, q).value, b, e);
  }

  lemma FoundStays(s: World, t: World, b: Bundle, e: Publication)
    requires Grows(s, t) && BundleOk(s.journal, b) && FirstPublication(s.log, b, e)
    ensures BundleOk(t.journal, b) && FirstPublication(t.log, b, e)
  {
    BundlePersists(s.journal, t.journal, b);
    FirstPersists(s.log, t.log, BundleKey(PublicationKind, b));
  }

  /** A succeeded record rests on the effect its request recorded first. */
  lemma RecordProves(s: World, q: RequestId, r: Record, b: Bundle, e: Publication)
    requires WorldInv(s) && Usable(s.journal) && CurrentRecord(s.journal, q) == Some(r) && r.state.Succeeded?
    requires BundleOk(s.journal, b) && IsLedger(b) && b.identity.requestId == q && FirstPublication(s.log, b, e)
    ensures r.terminalCode.Some? && r.terminalReference.Some?
    ensures LedgerSuccessOk(s, b, e, TerminalResult(Succeeded, r.terminalCode.value, r.terminalReference.value))
  {
    hide BodyOk, ProcOk, TaskPatchOk;
    var head := Head(s.journal);
    assert OnChain(s.journal, head, q, r);
    SameFrozen(s.journal, head, b.claimRevision, q, r, b.canonicalRecord);
    var d, f, id := RecordIsJustified(s, head, q, r);
    OneEffect(s, b, e, d, f);
  }

  /** What the reader returns is a ledger bundle bound to the journal, with its first intent and
      its only published comment. */
  lemma FoundIsOk(s: World, j: Journal, issue: nat, executionId: string, q: RequestId)
    requires WorldInv(s) && Usable(j) && LoadPublished(s.log, j, issue, executionId, q).Ok?
    ensures var receipt := LoadPublished(s.log, j, issue, executionId, q).value;
            && BundleOk(s.journal, receipt.bundle) && IsLedger(receipt.bundle)
            && receipt.bundle.identity.requestId == q && receipt.bundle.executionId == executionId
            && FirstPublication(s.log, receipt.bundle, receipt.publication)
            && Unique(s.log, BundleKey(PublishedKind, receipt.bundle), receipt.comment)
  {
    hide JournalOk, ProcOk, TaskPatchOk, VerifyBundle, BundleOk, Reference;
    var receipt := LoadPublished(s.log, j, issue, executionId, q).value;
    var ms := Matches(s.log, Key(PublishedKind, GOVERNANCE, issue, q, executionId));
    assert ms == [receipt.comment] && receipt.comment in ms;
    assert s.log[receipt.comment] in s.log && BodyOk(s, s.log[receipt.comment]);
  }
}
