/** What a coordinator call decides, answers and refuses, and that nothing else ever reaches the
    journal (scripts/actions_journal_coordinator.py, scripts/actions_git_journal.py). Every condition
    is written out on the fields of the record, without the commands that compute it. */
module JournalDecisions {
  import opened Common
  import opened JournalRecord
  import opened JournalProtocol
  import opened JournalSafety

  // ----- the texts

  /** The text begins with the lower-case prefix, in any mix of upper and lower case. */
  predicate BeginsLike(s: string, prefix: string) {
    && |prefix| <= |s|
    && forall i | 0 <= i < |prefix| ::
         s[i] == prefix[i] || (0x41 <= s[i] as int <= 0x5A && s[i] as int + 0x20 == prefix[i] as int)
  }

  /** An execution id: 1 to 128 letters, digits, hyphens, underscores, dots and colons, and nothing
      that looks like a credential. */
  predicate IsExecutionId(e: string) {
    && 0 < |e| < 129
    && (forall i | 0 <= i < |e| ::
          || 0x61 <= e[i] as int <= 0x7A || 0x41 <= e[i] as int <= 0x5A || 0x30 <= e[i] as int <= 0x39
          || e[i] == '-' || e[i] == '_' || e[i] == '.' || e[i] == ':')
    && !BeginsLike(e, "ghp_") && !BeginsLike(e, "gho_") && !BeginsLike(e, "ghu_") && !BeginsLike(e, "ghs_")
    && !BeginsLike(e, "ghr_") && !BeginsLike(e, "github_pat_") && !BeginsLike(e, "bearer") && !BeginsLike(e, "token")
  }

  lemma PrefixIsLower(e: string, prefix: string)
    requires forall c | c in prefix :: !('A' <= c <= 'Z')
    ensures prefix <= Lower(e) <==> BeginsLike(e, prefix)
  {
    if |prefix| <= |e| {
      assert prefix <= Lower(e) <==> forall i | 0 <= i < |prefix| :: Lower(e)[i] == prefix[i];
      forall i | 0 <= i < |prefix|
        ensures Lower(e)[i] == prefix[i]
                <==> e[i] == prefix[i] || (0x41 <= e[i] as int <= 0x5A && e[i] as int + 0x20 == prefix[i] as int)
      {
        assert prefix[i] in prefix;
      }
    }
  }

  lemma PrefixesAre()
    ensures |TOKEN_PREFIXES| == 8
    ensures TOKEN_PREFIXES[0] == "ghp_" && TOKEN_PREFIXES[1] == "gho_" && TOKEN_PREFIXES[2] == "ghu_"
            && TOKEN_PREFIXES[3] == "ghs_"
    ensures TOKEN_PREFIXES[4] == "ghr_" && TOKEN_PREFIXES[5] == "github_pat_" && TOKEN_PREFIXES[6] == "bearer"
    ensures TOKEN_PREFIXES[7] == "token"
  {
  }

  /** Which texts the commands take: execution ids, codes of 1 to 128 and references of 1 to 512
      printable ASCII characters. */
  lemma TextsAreExact(e: string, code: string, reference: string)
    ensures ValidExecutionId(e) <==> IsExecutionId(e)
    ensures ValidTerminalCode(code)
            <==> 0 < |code| < 129 && forall i | 0 <= i < |code| :: 0x20 <= code[i] as int <= 0x7E
    ensures ValidTerminalReference(Some(reference))
            <==> 0 < |reference| < 513 && forall i | 0 <= i < |reference| :: 0x20 <= reference[i] as int <= 0x7E
    ensures ValidTerminalReference(None)
  {
    PrefixesAre();
    PrefixIsLower(e, "ghp_");
    PrefixIsLower(e, "gho_");
    PrefixIsLower(e, "ghu_");
    PrefixIsLower(e, "ghs_");
    PrefixIsLower(e, "ghr_");
    PrefixIsLower(e, "github_pat_");
    PrefixIsLower(e, "bearer");
    PrefixIsLower(e, "token");
    hide BeginsLike, Lower;
    forall i | 0 <= i < |e|
      ensures SafeExecutionChar(e[i]) <==>
                || 0x61 <= e[i] as int <= 0x7A || 0x41 <= e[i] as int <= 0x5A || 0x30 <= e[i] as int <= 0x39
                || e[i] == '-' || e[i] == '_' || e[i] == '.' || e[i] == ':'
    {
    }
  }

  // ----- the conditions

  /** The same Issue by the same author with the same request; who sent it, when it was accepted
      and under which policy may differ. */
  predicate SameIssue(f: Frozen, g: Frozen) {
    && f.requestId == g.requestId && f.requestDigest == g.requestDigest && f.canonicalRequest == g.canonicalRequest
    && f.operation == g.operation && f.repositoryId == g.repositoryId && f.repositoryFullName == g.repositoryFullName
    && f.issueId == g.issueId && f.issueNumber == g.issueNumber && f.authorId == g.authorId
  }

  /** The record may end with this result, or has ended with it already. */
  predicate MayEnd(r: Record, open: bool, state: State, code: string, reference: Option<string>) {
    && (state.Succeeded? || state.Rejected?) && ValidTerminalCode(code) && ValidTerminalReference(reference)
    && (open || (r.state == state && r.terminalCode == Some(code) && r.terminalReference == reference))
  }

  /** A call is refused for exactly these reasons. */
  predicate IsRefused(op: Op, stored: Option<Record>) {
    match op
    case AcceptOp(f) => stored.Some? && !SameIssue(stored.value.frozen, f)
    case ClaimOp(e) => stored.None? || !ValidExecutionId(e)
    case CompleteOp(e, state, code, reference) =>
      || stored.None? || stored.value.executionId != Some(e)
      || !MayEnd(stored.value, stored.value.state.Executing?, state, code, reference)
    case AmbiguousOp(e) =>
      || stored.None? || stored.value.executionId != Some(e)
      || !(stored.value.state.Executing? || stored.value.state.Ambiguous?)
    case ReconcileOp(e, state, code, reference) =>
      || stored.None? || stored.value.executionId != Some(e)
      || !MayEnd(stored.value, stored.value.state.Ambiguous?, state, code, reference)
  }

  /** The answer a call gets from what is stored, without writing. */
  predicate IsAnswered(op: Op, stored: Option<Record>, d: Disposition) {
    match op
    case AcceptOp(f) => stored.Some? && SameIssue(stored.value.frozen, f) && d == Acceptance
    case ClaimOp(e) =>
      && stored.Some? && ValidExecutionId(e)
      && (if stored.value.state.Executing? || stored.value.state.Ambiguous? then d == NeedsReconciliation
          else (stored.value.state.Succeeded? || stored.value.state.Rejected?) && d == AlreadyTerminal)
    case _ => false
  }

  /** The record a call wants stored. */
  predicate IsWanted(op: Op, stored: Option<Record>, next: Record) {
    match op
    case AcceptOp(f) => stored.None? && next == Record(f, Accepted, None, None, None)
    case ClaimOp(e) =>
      && stored.Some? && stored.value.state.Accepted? && ValidExecutionId(e)
      && next == stored.value.(state := Executing, executionId := Some(e))
    case CompleteOp(e, state, code, reference) =>
      && stored.Some? && stored.value.executionId == Some(e)
      && MayEnd(stored.value, stored.value.state.Executing?, state, code, reference)
      && next == stored.value.(state := state, terminalCode := Some(code), terminalReference := reference)
    case AmbiguousOp(e) =>
      && stored.Some? && stored.value.executionId == Some(e)
      && (stored.value.state.Executing? || stored.value.state.Ambiguous?)
      && next == stored.value.(state := Ambiguous)
    case ReconcileOp(e, state, code, reference) =>
      && stored.Some? && stored.value.executionId == Some(e)
      && MayEnd(stored.value, stored.value.state.Ambiguous?, state, code, reference)
      && next == stored.value.(state := state, terminalCode := Some(code), terminalReference := reference)
  }

  // ----- one call

  /** After its first read a call has been refused, answered or has settled on a record, each in
      exactly these cases and with exactly this result. */
  lemma LoadExactly(s: Journal, w: WorkerId)
    requires Enabled(s, Load(w))
    ensures var op, q := s.workers[w].op, s.workers[w].request;
            var tree := s.store[Head(s)].tree;
            var stored := if q in tree then Some(tree[q]) else None;
            var x := Next(s, Load(w)).workers[w].stage;
            && (x.Failed? <==> IsRefused(op, stored)) && (x.Failed? ==> x.error == Refused)
            && (x.Returned? <==> exists d :: IsAnswered(op, stored, d))
            && (x.Returned? ==> stored.Some? && IsAnswered(op, stored, x.result.disposition)
                                && x.result == CallResult(x.result.disposition, Head(s), stored.value, true))
            && (x.Loaded? <==> exists next :: IsWanted(op, stored, next))
            && (x.Loaded? ==> IsWanted(op, stored, x.record) && x.snapshot == Snapshot(Head(s), tree, stored))
  {
    hide ValidExecutionId, ValidTerminalCode, ValidTerminalReference;
    var op, q := s.workers[w].op, s.workers[w].request;
    var tree := s.store[Head(s)].tree;
    var stored := if q in tree then Some(tree[q]) else None;
    DecisionsExactly(op, stored);
  }

  lemma DecisionsExactly(op: Op, stored: Option<Record>)
    ensures Decide(op, stored).Refuse? <==> IsRefused(op, stored)
    ensures forall d :: Decide(op, stored) == Answer(d) <==> IsAnswered(op, stored, d)
    ensures forall next :: Decide(op, stored) == Publish(next) <==> IsWanted(op, stored, next)
  {
    hide ValidExecutionId, ValidTerminalCode, ValidTerminalReference;
  }

  /** The re-read stops a call that has nothing to write, or that has been overtaken: it is stale
      exactly when the head has moved, and answers at once exactly when the wanted record is stored. */
  lemma RecheckExactly(s: Journal, w: WorkerId)
    requires Inv(s) && Enabled(s, Recheck(w))
    ensures var x := s.workers[w].stage;
            var y := Next(s, Recheck(w)).workers[w].stage;
            var stored := x.snapshot.record;
            && (Head(s) != x.snapshot.head ==> y == Failed(StaleSnapshot))
            && (Head(s) == x.snapshot.head && stored == Some(x.record) ==>
                  y.Returned? && y.result.revision == Head(s) && y.result.record == x.record && y.result.replayed)
            && (Head(s) == x.snapshot.head && stored != Some(x.record) ==> y == Rechecked(x.snapshot, x.record))
  {
    if Head(s) == s.workers[w].stage.snapshot.head { RecheckSeesTheSameSnapshot(s, w); }
  }

  /** The read-back reports a publication exactly when it finds the candidate at the head. */
  lemma ReadBackExactly(s: Journal, w: WorkerId)
    requires Enabled(s, ReadBack(w))
    ensures var x, op := s.workers[w].stage, s.workers[w].op;
            var y := Next(s, ReadBack(w)).workers[w].stage;
            && (y.Published? <==> Head(s) == x.candidate)
            && (y.Published? ==> y.result.revision == x.candidate && y.result.record == x.record && !y.result.replayed
                                 && (y.result.disposition.Acceptance? <==> op.AcceptOp?)
                                 && (y.result.disposition.Grant? <==> op.ClaimOp?))
            && (!y.Published? ==> y == Failed(AmbiguousPublication(x.candidate, x.snapshot.head)))
  {
  }

  /** A call may crash at any moment before it has answered, fail until it has sent its PATCH, and lose
      the read-back afterwards, which leaves it with an ambiguous publication; none of this touches the
      ref. */
  lemma AnyCallMayStop(s: Journal, w: WorkerId)
    requires Usable(s) && w in s.workers
    ensures var x := s.workers[w].stage;
            && (Enabled(s, Crash(w)) <==> !x.Returned? && !x.Published? && !x.Failed?)
            && (Enabled(s, Fail(w)) <==> x.Begun? || x.Loaded? || x.Rechecked? || x.Created?)
            && (Enabled(s, LoseReadBack(w)) <==> x.Sent?)
            && (Enabled(s, ReadBack(w)) <==> x.Sent?)
    ensures forall l | l in [Crash(w), Fail(w), LoseReadBack(w)] && Enabled(s, l) ::
              var t, x := Next(s, l), s.workers[w].stage;
              && t == s.(workers := s.workers[w := s.workers[w].(stage := t.workers[w].stage)])
              && t.workers[w].stage == Failed(if l.Crash? then Crashed else if l.Fail? then OtherFailure
                                              else AmbiguousPublication(x.candidate, x.snapshot.head))
  {
  }

  /** A PATCH that was sent lands on exactly those heads that its commit descends from, once. */
  lemma LandsExactly(s: Journal, w: WorkerId)
    requires Usable(s)
    ensures Enabled(s, Land(w)) <==> w in s.patches && Ancestor(s.store, Head(s), s.patches[w])
    ensures Enabled(s, Land(w)) ==>
              Next(s, Land(w)) == s.(heads := if s.patches[w] == Head(s) then s.heads else s.heads + [s.patches[w]])
  {
  }

  // ----- every change of the journal was asked for

  /** The commit changes the record of the call's request from what its parent holds to what the
      call wants. */
  ghost predicate CommitAsked(s: Journal, w: WorkerId, c: Sha) {
    && w in s.workers && c in s.store && s.store[c].parent.Some? && s.store[c].parent.value in s.store
    && var q, before, after := s.workers[w].request, s.store[s.store[c].parent.value].tree, s.store[c].tree;
       && q in after && after == before[q := after[q]]
       && Lookup(before, q) != Some(after[q]) && IsWanted(s.workers[w].op, Lookup(before, q), after[q])
  }

  ghost predicate HeadAsked(s: Journal, i: nat)
    requires i < |s.heads|
  {
    exists w :: w in s.patches && s.patches[w] == s.heads[i]
  }

  ghost predicate AllAsked(s: Journal) {
    && (forall w | w in s.patches :: CommitAsked(s, w, s.patches[w]))
    && forall i | 0 < i < |s.heads| :: HeadAsked(s, i)
  }

  lemma AskedPersists(s: Journal, t: Journal, w: WorkerId, c: Sha)
    requires Extends(s, t) && CommitAsked(s, w, c)
    ensures CommitAsked(t, w, c)
  {
    hide IsWanted;
  }

  lemma SentIsAsked(s: Journal, w: WorkerId)
    requires Inv(s) && Enabled(s, Send(w))
    ensures CommitAsked(s, w, s.workers[w].stage.candidate) && w !in s.patches
  {
    assert WorkerInv(s, w);
    var x := s.workers[w];
    DecisionsExactly(x.op, x.stage.snapshot.record);
    hide IsWanted, Decide;
  }

  lemma StepKeepsAsked(s: Journal, l: Label)
    requires Inv(s) && Enabled(s, l) && AllAsked(s)
    ensures AllAsked(Next(s, l))
  {
    hide Inv, Enabled, CommitAsked;
    var t := Next(s, l);
    StepExtends(s, l);
    if l.Send? { SentIsAsked(s, l.w); }
    PatchesAfter(s, l);
    hide Next, Extends;
    forall w | w in t.patches ensures CommitAsked(t, w, t.patches[w]) {
      AskedPersists(s, t, w, t.patches[w]);
    }
    forall i | 0 < i < |t.heads| ensures HeadAsked(t, i) {
      if i < |s.heads| {
        assert HeadAsked(s, i);
        var w :| w in s.patches && s.patches[w] == s.heads[i];
        assert t.patches[w] == t.heads[i];
      } else {
        assert l.w in t.patches && t.patches[l.w] == t.heads[i];
      }
    }
  }

  lemma PatchesAfter(s: Journal, l: Label)
    requires Enabled(s, l) && (l.Send? ==> l.w !in s.patches)
    ensures var t := Next(s, l);
            && (forall w | w in s.patches :: w in t.patches && t.patches[w] == s.patches[w])
            && (forall w | w in t.patches && w !in s.patches ::
                  l == Send(w) && t.patches[w] == s.workers[w].stage.candidate)
            && s.heads <= t.heads && |t.heads| <= |s.heads| + 1
            && (|t.heads| > |s.heads| ==> l.Land? && l.w in s.patches && t.heads[|s.heads|] == s.patches[l.w])
  {
  }

  lemma {:induction false} RunKeepsAsked(states: seq<Journal>, labels: seq<Label>, n: nat)
    requires Run(states, labels) && n < |states|
    ensures AllAsked(states[n])
  {
    hide Next, Enabled;
    if n > 0 {
      RunKeepsAsked(states, labels, n - 1);
      RunKeepsInv(states, labels, n - 1);
      StepKeepsAsked(states[n - 1], labels[n - 1]);
    }
  }

  /** The operation that explains a change of one record. */
  predicate Explains(op: Op, before: Option<Record>, after: Record) {
    match before
    case None => op == AcceptOp(after.frozen)
    case Some(r) =>
      if r.state.Accepted? then after.executionId.Some? && op == ClaimOp(after.executionId.value)
      else
        && r.executionId.Some? && (r.state.Executing? || r.state.Ambiguous?)
        && if after.state.Ambiguous? then op == AmbiguousOp(r.executionId.value)
           else after.terminalCode.Some? &&
                op == if r.state.Executing?
                      then CompleteOp(r.executionId.value, after.state, after.terminalCode.value,
                                      after.terminalReference)
                      else ReconcileOp(r.executionId.value, after.state, after.terminalCode.value,
                                       after.terminalReference)
  }

  /** Every value the ref has had after its first differs from the one before in the record of one
      request, by exactly what a call for that request asked for: acceptance by an accept, a claim by
      the execution that then owns it, and every later change by the execution that owns the record,
      which completes it only while it is executing and reconciles it only once it is ambiguous. */
  lemma EveryChangeWasAsked(states: seq<Journal>, labels: seq<Label>, n: nat, i: nat) returns (w: WorkerId)
    requires Run(states, labels) && n < |states| && 0 < i < |states[n].heads|
    ensures var s := states[n];
            && w in s.workers && s.heads[i] in s.store && s.heads[i - 1] in s.store
            && var q, before, after := s.workers[w].request, s.store[s.heads[i - 1]].tree, s.store[s.heads[i]].tree;
               && q in after && after == before[q := after[q]]
               && Explains(s.workers[w].op, if q in before then Some(before[q]) else None, after[q])
  {
    hide Run, IsWanted, Explains, Permitted, WorkerInv, Consistent, PatchInv;
    RunKeepsAsked(states, labels, n);
    RunKeepsInv(states, labels, n);
    var s := states[n];
    assert HeadAsked(s, i) && ParentBefore(s, i);
    w :| w in s.patches && s.patches[w] == s.heads[i];
    assert CommitAsked(s, w, s.heads[i]);
    var q, before, after := s.workers[w].request, s.store[s.heads[i - 1]].tree, s.store[s.heads[i]].tree;
    assert ValidTree(before);
    WantedIsExplained(s.workers[w].op, if q in before then Some(before[q]) else None, after[q]);
  }

  lemma WantedIsExplained(op: Op, before: Option<Record>, after: Record)
    requires IsWanted(op, before, after) && before != Some(after) && (before.Some? ==> Consistent(before.value))
    ensures Explains(op, before, after)
  {
    hide ValidExecutionId, ValidTerminalCode, ValidTerminalReference;
  }
}
