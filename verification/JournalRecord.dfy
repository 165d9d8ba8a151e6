/** The request record kept in the journal, and the commands that change it
    (src/ledger/actions_journal.rs, driven by src/bin/zach-actions.rs). A record stands for
    its canonical JSON text: two records are equal exactly when their stored texts are. */
module JournalRecord {
  import opened Common

  datatype State = Accepted | Executing | Succeeded | Rejected | Ambiguous

  predicate Terminal(state: State) {
    state.Succeeded? || state.Rejected?
  }

  /** What acceptance freezes: the identity of the Issue, the request and its digest. */
  datatype Frozen = Frozen(
    requestId: string, requestDigest: string, canonicalRequest: string, operation: string,
    repositoryId: nat, repositoryFullName: string, issueId: nat, issueNumber: nat,
    authorId: nat, senderId: nat, acceptedAt: string, policyRevision: string)

  datatype Record = Record(
    frozen: Frozen, state: State, executionId: Option<string>,
    terminalCode: Option<string>, terminalReference: Option<string>)

  datatype RecordError =
    | InvalidExecutionId | InvalidTerminalCode | InvalidTerminalReference
    | InvalidStateTransition | ConflictingTerminalResult | UnauthorizedReconciliation
    | ReplayMismatch

  datatype ClaimOutcome = Granted | ReconciliationRequired | TerminalReplay

  predicate SafeExecutionChar(c: char) {
    'a' <= c <= 'z' || 'A' <= c <= 'Z' || '0' <= c <= '9' || c in "-_.:"
  }

  function Lower(s: string): string {
    seq(|s|, i requires 0 <= i < |s| => if 'A' <= s[i] <= 'Z' then s[i] - 'A' + 'a' else s[i])
  }

  const TOKEN_PREFIXES := ["ghp_", "gho_", "ghu_", "ghs_", "ghr_", "github_pat_", "bearer", "token"]

  predicate ValidExecutionId(e: string) {
    && 1 <= |e| <= 128
    && (forall i | 0 <= i < |e| :: SafeExecutionChar(e[i]))
    && forall k | 0 <= k < |TOKEN_PREFIXES| :: !(TOKEN_PREFIXES[k] <= Lower(e))
  }

  predicate Printable(s: string, limit: nat) {
    1 <= |s| <= limit && forall i | 0 <= i < |s| :: ' ' <= s[i] <= '~'
  }

  predicate ValidTerminalCode(code: string) {
    Printable(code, 128)
  }

  predicate ValidTerminalReference(reference: Option<string>) {
    reference.Some? ==> Printable(reference.value, 512)
  }

  /** The cross-field check every stored record passes when it is read back. */
  predicate Consistent(r: Record) {
    && (r.executionId.Some? ==> ValidExecutionId(r.executionId.value))
    && (r.terminalCode.Some? ==> ValidTerminalCode(r.terminalCode.value))
    && ValidTerminalReference(r.terminalReference)
    && match r.state
       case Accepted => r.executionId.None? && r.terminalCode.None? && r.terminalReference.None?
       case Executing => r.executionId.Some? && r.terminalCode.None? && r.terminalReference.None?
       case Ambiguous => r.executionId.Some? && r.terminalCode.None? && r.terminalReference.None?
       case _ => r.executionId.Some? && r.terminalCode.Some?
  }

  /** The record acceptance writes. */
  function NewRecord(frozen: Frozen): Record {
    Record(frozen, Accepted, None, None, None)
  }

  /** An exact repeat of the accepted Issue: the sender, the acceptance time and the policy
      revision may differ, everything else must match the frozen record. */
  predicate SameRequest(stored: Frozen, incoming: Frozen) {
    stored == incoming.(senderId := stored.senderId, acceptedAt := stored.acceptedAt,
                        policyRevision := stored.policyRevision)
  }

  function Claim(r: Record, executionId: string): Result<(ClaimOutcome, Record), RecordError> {
    if !ValidExecutionId(executionId) then Err(InvalidExecutionId)
    else match r.state
      case Accepted => Ok((Granted, r.(state := Executing, executionId := Some(executionId))))
      case Executing => Ok((ReconciliationRequired, r))
      case Ambiguous => Ok((ReconciliationRequired, r))
      case _ => Ok((TerminalReplay, r))
  }

  function Outcome(r: Record, state: State, code: string, reference: Option<string>): Record {
    r.(state := state, terminalCode := Some(code), terminalReference := reference)
  }

  function Finish(r: Record, from: State, wrongState: RecordError,
                  state: State, code: string, reference: Option<string>): Result<Record, RecordError> {
    if !Terminal(state) then Err(InvalidStateTransition)
    else if !ValidTerminalCode(code) then Err(InvalidTerminalCode)
    else if !ValidTerminalReference(reference) then Err(InvalidTerminalReference)
    else if r.state == from then Ok(Outcome(r, state, code, reference))
    else if Terminal(r.state) then
      if r == Outcome(r, state, code, reference) then Ok(r) else Err(ConflictingTerminalResult)
    else if r.state.Ambiguous? then Err(wrongState)
    else Err(InvalidStateTransition)
  }

  function Complete(r: Record, state: State, code: string, reference: Option<string>): Result<Record, RecordError> {
    Finish(r, Executing, UnauthorizedReconciliation, state, code, reference)
  }

  function Resolve(r: Record, state: State, code: string, reference: Option<string>): Result<Record, RecordError> {
    Finish(r, Ambiguous, InvalidStateTransition, state, code, reference)
  }

  function MarkAmbiguous(r: Record): Result<Record, RecordError> {
    match r.state
    case Executing => Ok(r.(state := Ambiguous))
    case Ambiguous => Ok(r)
    case _ => Err(InvalidStateTransition)
  }

  /** One command's change of one record, written without the commands. */
  predicate Permitted(prior: Option<Record>, next: Record) {
    match prior
    case None => next == NewRecord(next.frozen)
    case Some(r) =>
      && next.frozen == r.frozen
      && (r.state.Accepted? ==> next.state.Executing? && next.executionId.Some?)
      && (!r.state.Accepted? ==> next.executionId == r.executionId)
      && (r.state.Executing? ==> next.state.Ambiguous? || Terminal(next.state))
      && (r.state.Ambiguous? ==> Terminal(next.state))
      && !Terminal(r.state)
  }

  function Rank(state: State): nat {
    match state
    case Accepted => 0
    case Executing => 1
    case Ambiguous => 2
    case _ => 3
  }

  /** What any number of permitted changes preserves: nothing frozen changes, an owner once
      set stays, the state only moves forward and a terminal record is final. */
  predicate Evolves(prior: Option<Record>, next: Option<Record>) {
    prior.Some? ==>
      && next.Some?
      && next.value.frozen == prior.value.frozen
      && (prior.value.executionId.Some? ==> next.value.executionId == prior.value.executionId)
      && Rank(prior.value.state) <= Rank(next.value.state)
      && (Rank(prior.value.state) == Rank(next.value.state) ==> next == prior)
  }

  /** The commands realise exactly the permitted changes: whatever a command returns is the
      record unchanged or a permitted successor, and it is again consistent. */
  lemma CommandsArePermitted(r: Record, e: string, state: State, code: string, reference: Option<string>)
    requires Consistent(r)
    ensures Consistent(NewRecord(r.frozen)) && Permitted(None, NewRecord(r.frozen))
    ensures var c := Claim(r, e);
            c.Ok? ==> && Consistent(c.value.1)
                      && (c.value.0.Granted? <==> Permitted(Some(r), c.value.1))
                      && (!c.value.0.Granted? ==> c.value.1 == r)
    ensures forall d | d in [Complete(r, state, code, reference), Resolve(r, state, code, reference), MarkAmbiguous(r)] ::
              d.Ok? ==> Consistent(d.value) && (d.value == r || Permitted(Some(r), d.value))
  {
  }

  /** Conversely every permitted change of a consistent record to a consistent record is
      what one of the commands returns. */
  lemma PermittedIsACommand(r: Record, next: Record)
    requires Consistent(r) && Consistent(next) && Permitted(Some(r), next)
    ensures
      || (next.executionId.Some? && Claim(r, next.executionId.value) == Ok((Granted, next)))
      || MarkAmbiguous(r) == Ok(next)
      || (next.terminalCode.Some? && Complete(r, next.state, next.terminalCode.value, next.terminalReference) == Ok(next))
      || (next.terminalCode.Some? && Resolve(r, next.state, next.terminalCode.value, next.terminalReference) == Ok(next))
  {
    if r.state.Accepted? {
      assert next == r.(state := Executing, executionId := next.executionId);
    } else if next.state.Ambiguous? {
      assert next == r.(state := Ambiguous);
    } else {
      assert next == Outcome(r, next.state, next.terminalCode.value, next.terminalReference);
    }
  }

  lemma PermittedEvolves(prior: Option<Record>, next: Record)
    requires Permitted(prior, next)
    requires prior.Some? ==> Consistent(prior.value)
    ensures Evolves(prior, Some(next)) && prior != Some(next)
  {
  }

  lemma EvolvesTransitive(a: Option<Record>, b: Option<Record>, c: Option<Record>)
    requires Evolves(a, b) && Evolves(b, c)
    ensures Evolves(a, c)
  {
  }

  /** The record as the program holds it: one object whose state fields the commands
      overwrite in place. */
  class JournalRecordObject {
    const frozen: Frozen
    var state: State
    var executionId: Option<string>
    var terminalCode: Option<string>
    var terminalReference: Option<string>

    function Value(): Record
      reads this
    {
      Record(frozen, state, executionId, terminalCode, terminalReference)
    }

    constructor (r: Record)
      ensures Value() == r
    {
      frozen := r.frozen;
      state, executionId := r.state, r.executionId;
      terminalCode, terminalReference := r.terminalCode, r.terminalReference;
    }

    /** A claim is granted exactly on an accepted record, for a valid execution id; it then makes
        the one permitted change, to a record that execution owns, and otherwise changes nothing. */
    method ClaimExecution(id: string) returns (r: Result<ClaimOutcome, RecordError>)
      modifies this
      ensures r.Err? <==> !ValidExecutionId(id)
      ensures r.Err? ==> r == Err(InvalidExecutionId)
      ensures r == Ok(Granted) <==> ValidExecutionId(id) && old(state).Accepted?
      ensures r == Ok(TerminalReplay) <==> ValidExecutionId(id) && Terminal(old(state))
      ensures r == Ok(Granted) ==> Permitted(Some(old(Value())), Value()) && executionId == Some(id)
      ensures r != Ok(Granted) ==> Value() == old(Value())
      ensures Consistent(old(Value())) ==> Consistent(Value())
      ensures match Claim(old(Value()), id)
              case Ok((outcome, next)) => r == Ok(outcome) && Value() == next
              case Err(e) => r == Err(e) && Value() == old(Value())
    {
      if !ValidExecutionId(id) {
        return Err(InvalidExecutionId);
      }
      match state
      case Accepted =>
        state := Executing;
        executionId := Some(id);
        r := Ok(Granted);
      case Executing => r := Ok(ReconciliationRequired);
      case Ambiguous => r := Ok(ReconciliationRequired);
      case _ => r := Ok(TerminalReplay);
    }

    /** Completion makes the permitted change of an executing record, repeats an identical terminal
        result, and otherwise changes nothing. */
    method CompleteTerminal(s: State, code: string, reference: Option<string>) returns (r: Result<(), RecordError>)
      modifies this
      ensures r.Ok? <==>
                && (s.Succeeded? || s.Rejected?) && ValidTerminalCode(code) && ValidTerminalReference(reference)
                && (old(state).Executing?
                    || (old(state) == s && old(terminalCode) == Some(code) && old(terminalReference) == reference))
      ensures var valid := ValidTerminalCode(code) && ValidTerminalReference(reference);
              && (!Terminal(s) ==> r == Err(InvalidStateTransition))
              && (Terminal(s) && !ValidTerminalCode(code) ==> r == Err(InvalidTerminalCode))
              && (Terminal(s) && ValidTerminalCode(code) && !valid ==> r == Err(InvalidTerminalReference))
              && (Terminal(s) && valid && old(state).Accepted? ==> r == Err(InvalidStateTransition))
              && (Terminal(s) && valid && old(state).Ambiguous? ==> r == Err(UnauthorizedReconciliation))
              && (Terminal(s) && valid && Terminal(old(state)) && r.Err? ==> r == Err(ConflictingTerminalResult))
      ensures r.Ok? ==> state == s && terminalCode == Some(code) && terminalReference == reference
      ensures r.Ok? && old(state).Executing? ==> Permitted(Some(old(Value())), Value())
      ensures r.Err? || !old(state).Executing? ==> Value() == old(Value())
      ensures Consistent(old(Value())) ==> Consistent(Value())
      ensures match Complete(old(Value()), s, code, reference)
              case Ok(next) => r == Ok(()) && Value() == next
              case Err(e) => r == Err(e) && Value() == old(Value())
    {
      if !Terminal(s) { return Err(InvalidStateTransition); }
      if !ValidTerminalCode(code) { return Err(InvalidTerminalCode); }
      if !ValidTerminalReference(reference) { return Err(InvalidTerminalReference); }
      match state
      case Executing =>
        state, terminalCode, terminalReference := s, Some(code), reference;
        r := Ok(());
      case Accepted => r := Err(InvalidStateTransition);
      case Ambiguous => r := Err(UnauthorizedReconciliation);
      case _ =>
        r := if state == s && terminalCode == Some(code) && terminalReference == reference
             then Ok(()) else Err(ConflictingTerminalResult);
    }

    /** An executing record becomes ambiguous, by a permitted change that keeps its owner; an
        ambiguous one stays as it is, any other is refused and stays as it is. */
    method MarkRecordAmbiguous() returns (r: Result<(), RecordError>)
      modifies this
      ensures r.Ok? <==> old(state).Executing? || old(state).Ambiguous?
      ensures r.Err? ==> r == Err(InvalidStateTransition)
      ensures r.Ok? ==> state.Ambiguous? && executionId == old(executionId)
      ensures old(state).Executing? ==> Permitted(Some(old(Value())), Value())
      ensures !old(state).Executing? ==> Value() == old(Value())
      ensures Consistent(old(Value())) ==> Consistent(Value())
      ensures match MarkAmbiguous(old(Value()))
              case Ok(next) => r == Ok(()) && Value() == next
              case Err(e) => r == Err(e) && Value() == old(Value())
    {
      match state
      case Executing => state := Ambiguous; r := Ok(());
      case Ambiguous => r := Ok(());
      case _ => r := Err(InvalidStateTransition);
    }

    /** Reconciliation makes the permitted change of an ambiguous record, repeats an identical
        terminal result, and otherwise changes nothing. */
    method ResolveTrustedReconciliation(s: State, code: string, reference: Option<string>) returns (r: Result<(), RecordError>)
      modifies this
      ensures r.Ok? <==>
                && (s.Succeeded? || s.Rejected?) && ValidTerminalCode(code) && ValidTerminalReference(reference)
                && (old(state).Ambiguous?
                    || (old(state) == s && old(terminalCode) == Some(code) && old(terminalReference) == reference))
      ensures var valid := ValidTerminalCode(code) && ValidTerminalReference(reference);
              && (!Terminal(s) ==> r == Err(InvalidStateTransition))
              && (Terminal(s) && !ValidTerminalCode(code) ==> r == Err(InvalidTerminalCode))
              && (Terminal(s) && ValidTerminalCode(code) && !valid ==> r == Err(InvalidTerminalReference))
              && (Terminal(s) && valid && old(state).Accepted? ==> r == Err(InvalidStateTransition))
              && (Terminal(s) && valid && old(state).Executing? ==> r == Err(InvalidStateTransition))
              && (Terminal(s) && valid && Terminal(old(state)) && r.Err? ==> r == Err(ConflictingTerminalResult))
      ensures r.Ok? ==> state == s && terminalCode == Some(code) && terminalReference == reference
      ensures r.Ok? && old(state).Ambiguous? ==> Permitted(Some(old(Value())), Value())
      ensures r.Err? || !old(state).Ambiguous? ==> Value() == old(Value())
      ensures Consistent(old(Value())) ==> Consistent(Value())
      ensures match Resolve(old(Value()), s, code, reference)
              case Ok(next) => r == Ok(()) && Value() == next
              case Err(e) => r == Err(e) && Value() == old(Value())
    {
      if !Terminal(s) { return Err(InvalidStateTransition); }
      if !ValidTerminalCode(code) { return Err(InvalidTerminalCode); }
      if !ValidTerminalReference(reference) { return Err(InvalidTerminalReference); }
      match state
      case Ambiguous =>
        state, terminalCode, terminalReference := s, Some(code), reference;
        r := Ok(());
      case Accepted => r := Err(InvalidStateTransition);
      case Executing => r := Err(InvalidStateTransition);
      case _ =>
        r := if state == s && terminalCode == Some(code) && terminalReference == reference
             then Ok(()) else Err(ConflictingTerminalResult);
    }
  }
}
