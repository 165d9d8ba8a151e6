/** The journal's invariant holds in every run, and what follows from it: one grant per
    request, no lost update, final terminal records, and what `publish` reports is true. */
module JournalSafety {
  import opened Common
  import opened JournalRecord
  import opened JournalProtocol

  lemma LookupIsConsistent(tree: map<RequestId, Record>, q: RequestId)
    requires ValidTree(tree)
    ensures Lookup(tree, q).Some? ==> Consistent(Lookup(tree, q).value) && Lookup(tree, q).value.frozen.requestId == q
  {
  }

  /** Whatever a call decides to publish is either the stored record again or one permitted
      transition of it, and a valid record of the same request. */
  lemma DecisionsArePermitted(op: Op, stored: Option<Record>, q: RequestId)
    requires stored.Some? ==> Consistent(stored.value) && stored.value.frozen.requestId == q
    requires op.AcceptOp? ==> op.frozen.requestId == q
    ensures var d := Decide(op, stored);
            && (d.Answer? ==> stored.Some?)
            && (d.Publish? ==>
                  && Consistent(d.record) && d.record.frozen.requestId == q
                  && (stored == Some(d.record) || Permitted(stored, d.record))
                  && (stored == Some(d.record) ==> !op.ClaimOp? && !op.AcceptOp?))
  {
    if stored.Some? {
      var r := stored.value;
      match op
      case AcceptOp(_) =>
      case ClaimOp(e) => CommandsArePermitted(r, e, Succeeded, "", None);
      case CompleteOp(_, state, code, reference) => CommandsArePermitted(r, "", state, code, reference);
      case AmbiguousOp(_) => CommandsArePermitted(r, "", Succeeded, "", None);
      case ReconcileOp(_, state, code, reference) => CommandsArePermitted(r, "", state, code, reference);
    }
  }

  lemma CreateKeepsStore(s: Journal, l: Label)
    requires Inv(s) && l.Create? && Enabled(s, l)
    ensures StoreInv(Next(s, l).store)
  {
    var x := s.workers[l.w];
    var snapshot, record := x.stage.snapshot, x.stage.record;
    var t := Next(s, l);
    var base := s.store[snapshot.head].tree;
    LookupIsConsistent(base, x.request);
    DecisionsArePermitted(x.op, snapshot.record, x.request);
    forall c | c in t.store ensures ValidTree(t.store[c].tree) && ChangesOneRecord(t.store, c) {
      if c != l.id {
        assert c in s.store && ChangesOneRecord(s.store, c);
      } else {
        assert t.store[c].tree == base[x.request := record];
        if snapshot.record.Some? { PermittedEvolves(snapshot.record, record); }
        assert OneChange(base, t.store[c].tree, x.request);
      }
    }
  }

  lemma StepKeepsStoreAndHeads(s: Journal, l: Label)
    requires Inv(s) && Enabled(s, l)
    ensures StoreInv(Next(s, l).store) && HeadsInv(Next(s, l))
  {
    var t := Next(s, l);
    if l.Create? {
      CreateKeepsStore(s, l);
    } else if l.Land? {
      LandsOnlyOnItsBase(s, l.w);
      assert ChangesOneRecord(s.store, s.patches[l.w]);
    }
    forall i | 0 < i < |t.heads| ensures ParentBefore(t, i) {
      assert i < |s.heads| ==> ParentBefore(s, i);
    }
  }

  lemma LoadedIsOk(s: Journal, l: Label)
    requires Inv(s) && Enabled(s, l) && l.Load?
    ensures WorkerInv(Next(s, l), l.w)
  {
    var x := s.workers[l.w];
    var snapshot := ReadSnapshot(s, x.request);
    LookupIsConsistent(snapshot.tree, x.request);
    DecisionsArePermitted(x.op, snapshot.record, x.request);
    hide Decide;
    assert WorkerInv(s, l.w) && SnapshotInv(Next(s, l), x, snapshot);
  }

  lemma RecheckedIsOk(s: Journal, l: Label)
    requires Enabled(s, l) && l.Recheck? && WorkerInv(s, l.w)
    ensures WorkerInv(Next(s, l), l.w)
  {
    StepExtends(s, l);
    SnapshotPersists(s, Next(s, l), s.workers[l.w], s.workers[l.w].stage.snapshot);
  }

  lemma CandidateIsOk(s: Journal, l: Label)
    requires Enabled(s, l) && (l.Create? || l.Send?) && WorkerInv(s, l.w)
    ensures WorkerInv(Next(s, l), l.w)
  {
    StepExtends(s, l);
    SnapshotPersists(s, Next(s, l), s.workers[l.w], s.workers[l.w].stage.snapshot);
  }

  lemma ReadBackIsOk(s: Journal, l: Label)
    requires Enabled(s, l) && (l.ReadBack? || l.LoseReadBack?) && WorkerInv(s, l.w)
    ensures WorkerInv(Next(s, l), l.w)
  {
    StepExtends(s, l);
    SnapshotPersists(s, Next(s, l), s.workers[l.w], s.workers[l.w].stage.snapshot);
    assert s.heads[|s.heads| - 1] == Head(s);
  }

  lemma StoppedIsOk(s: Journal, l: Label)
    requires Enabled(s, l) && (l.Fail? || l.Crash?) && WorkerInv(s, l.w)
    ensures WorkerInv(Next(s, l), l.w)
  {
  }

  lemma ActingWorker(s: Journal, l: Label)
    requires Inv(s) && Enabled(s, l) && !l.Land?
    ensures WorkerInv(Next(s, l), l.w)
    ensures l.Send? ==> PatchInv(Next(s, l), l.w)
  {
    if l.Begin? {
      assert l.w !in s.patches;
    } else if l.Load? {
      LoadedIsOk(s, l);
    } else {
      assert WorkerInv(s, l.w);
      if l.Recheck? { RecheckedIsOk(s, l); }
      else if l.Create? || l.Send? { CandidateIsOk(s, l); }
      else if l.ReadBack? || l.LoseReadBack? { ReadBackIsOk(s, l); }
      else { StoppedIsOk(s, l); }
    }
  }

  lemma StepKeepsInv(s: Journal, l: Label)
    requires Inv(s) && Enabled(s, l)
    ensures Inv(Next(s, l))
  {
    hide WorkerInv, PatchInv, StoreInv, HeadsInv, Extends;
    var t := Next(s, l);
    StepKeepsStoreAndHeads(s, l);
    StepExtends(s, l);
    if !l.Land? { ActingWorker(s, l); }
    forall w | w in t.workers ensures WorkerInv(t, w) {
      if l.Land? || w != l.w { WorkerPersists(s, t, w); }
    }
    forall w | w in t.patches ensures PatchInv(t, w) {
      if w in s.patches && t.patches[w] == s.patches[w] { PatchPersists(s, t, w); }
    }
  }

  lemma InitialIsOk(s: Journal)
    requires JournalProtocol.Initial(s)
    ensures Inv(s)
  {
  }

  /** Every state of every run satisfies the invariant. */
  lemma {:induction false} RunKeepsInv(states: seq<Journal>, labels: seq<Label>, i: nat)
    requires Run(states, labels) && i < |states|
    ensures Inv(states[i])
  {
    hide Inv, Next, Enabled, JournalProtocol.Initial;
    if i > 0 {
      RunKeepsInv(states, labels, i - 1);
      StepKeepsInv(states[i - 1], labels[i - 1]);
    } else {
      InitialIsOk(states[0]);
    }
  }

  lemma ExtendsReflexive(s: Journal)
    ensures Extends(s, s)
  {
  }

  lemma ExtendsTransitive(s: Journal, t: Journal, u: Journal)
    requires Extends(s, t) && Extends(t, u)
    ensures Extends(s, u)
  {
    assert forall i | 0 <= i < |s.heads| :: s.heads[i] == u.heads[i];
  }

  lemma {:induction false} RunExtends(states: seq<Journal>, labels: seq<Label>, i: nat, j: nat)
    requires Run(states, labels) && i <= j < |states|
    ensures Extends(states[i], states[j])
    decreases j
  {
    hide Extends, Next, Enabled;
    if i < j {
      RunExtends(states, labels, i, j - 1);
      StepExtends(states[j - 1], labels[j - 1]);
      ExtendsTransitive(states[i], states[j - 1], states[j]);
    } else {
      ExtendsReflexive(states[i]);
    }
  }

  // ----- the chain of heads

  function RecordAt(s: Journal, c: Sha, q: RequestId): Option<Record>
    requires c in s.store
  {
    Lookup(s.store[c].tree, q)
  }

  ghost predicate Chain(s: Journal) {
    StoreInv(s.store) && HeadsInv(s)
  }

  lemma NextHeadEvolves(s: Journal, i: nat, q: RequestId)
    requires Chain(s) && i + 1 < |s.heads|
    ensures Evolves(RecordAt(s, s.heads[i], q), RecordAt(s, s.heads[i + 1], q))
  {
    var p, c := s.heads[i], s.heads[i + 1];
    assert ParentBefore(s, i + 1) && ChangesOneRecord(s.store, c);
    var changed :| OneChange(s.store[p].tree, s.store[c].tree, changed);
    LookupIsConsistent(s.store[p].tree, changed);
    PermittedEvolves(Lookup(s.store[p].tree, changed), s.store[c].tree[changed]);
  }

  /** No update that has landed is ever lost: from any past head to any later one, every
      request's record has only moved on by permitted transitions. */
  lemma {:induction false} HeadsEvolve(s: Journal, i: nat, j: nat, q: RequestId)
    requires Chain(s) && i <= j < |s.heads|
    ensures Evolves(RecordAt(s, s.heads[i], q), RecordAt(s, s.heads[j], q))
    decreases j
  {
    if i < j {
      HeadsEvolve(s, i, j - 1, q);
      NextHeadEvolves(s, j - 1, q);
      EvolvesTransitive(RecordAt(s, s.heads[i], q), RecordAt(s, s.heads[j - 1], q), RecordAt(s, s.heads[j], q));
    }
  }

  /** The same over a run: at any two moments of any run, the earlier head is still in the
      ref's past, the record it held for any request has evolved into the one the later head
      holds, a terminal record is the same record, and an owner is the same owner. */
  lemma NoLostUpdate(states: seq<Journal>, labels: seq<Label>, i: nat, j: nat, q: RequestId)
    requires Run(states, labels) && i <= j < |states|
    ensures Inv(states[i]) && Inv(states[j]) && states[i].heads <= states[j].heads
    ensures var before := RecordAt(states[i], Head(states[i]), q);
            var now := RecordAt(states[j], Head(states[j]), q);
            && Evolves(before, now)
            && (before.Some? && Terminal(before.value.state) ==> now == before)
            && (before.Some? && before.value.executionId.Some? ==>
                  now.Some? && now.value.executionId == before.value.executionId)
  {
    RunKeepsInv(states, labels, i);
    RunKeepsInv(states, labels, j);
    RunExtends(states, labels, i, j);
    var s := states[j];
    var k := |states[i].heads| - 1;
    assert s.heads[k] == Head(states[i]);
    HeadsEvolve(s, k, |s.heads| - 1, q);
  }

  /** The ref's values form one single-parent chain, and each adds exactly one record change. */
  lemma HeadsFormAChain(states: seq<Journal>, labels: seq<Label>, n: nat, i: nat)
    requires Run(states, labels) && n < |states| && i + 1 < |states[n].heads|
    ensures Inv(states[n])
    ensures var s := states[n];
            && s.store[s.heads[i + 1]].parent == Some(s.heads[i])
            && OneRecordChanged(s.store[s.heads[i]].tree, s.store[s.heads[i + 1]].tree)
  {
    RunKeepsInv(states, labels, n);
    var s := states[n];
    assert ParentBefore(s, i + 1) && ChangesOneRecord(s.store, s.heads[i + 1]);
  }

  // ----- grants

  ghost predicate IsGranted(s: Journal, w: WorkerId, q: RequestId) {
    w in s.workers && s.workers[w].request == q && s.workers[w].stage.Published?
    && s.workers[w].stage.result.disposition == Grant
  }

  /** What a grant says about the chain: its commit is the one that took the record from
      accepted to executing, owned by the claimed execution. */
  lemma GrantIsTheClaimCommit(s: Journal, w: WorkerId, q: RequestId)
    requires Inv(s) && IsGranted(s, w, q)
    ensures var x := s.workers[w];
            var c := x.stage.result.revision;
            && x.op.ClaimOp? && c in s.heads && c in s.store
            && s.store[c].parent.Some? && s.store[c].parent.value in s.store
            && RecordAt(s, c, q) == Some(x.stage.result.record)
            && x.stage.result.record.state.Executing?
            && x.stage.result.record.executionId == Some(x.op.executionId)
            && RecordAt(s, s.store[c].parent.value, q).Some?
            && RecordAt(s, s.store[c].parent.value, q).value.state.Accepted?
  {
    assert WorkerInv(s, w);
  }

  /** At most one head takes a given record out of the accepted state. */
  lemma OneClaimOnTheChain(s: Journal, i: nat, j: nat, q: RequestId)
    requires Chain(s) && 0 < i < |s.heads| && 0 < j < |s.heads|
    requires RecordAt(s, s.heads[i], q).Some? && !RecordAt(s, s.heads[i], q).value.state.Accepted?
    requires RecordAt(s, s.heads[j - 1], q).Some? && RecordAt(s, s.heads[j - 1], q).value.state.Accepted?
    ensures j <= i
  {
    if i < j { HeadsEvolve(s, i, j - 1, q); }
  }

  lemma GrantIndex(s: Journal, w: WorkerId, q: RequestId) returns (i: nat)
    requires Inv(s) && IsGranted(s, w, q)
    ensures 0 < i < |s.heads| && s.heads[i] == s.workers[w].stage.result.revision
    ensures RecordAt(s, s.heads[i], q).Some? && !RecordAt(s, s.heads[i], q).value.state.Accepted?
    ensures RecordAt(s, s.heads[i - 1], q).Some? && RecordAt(s, s.heads[i - 1], q).value.state.Accepted?
  {
    GrantIsTheClaimCommit(s, w, q);
    i :| 0 <= i < |s.heads| && s.heads[i] == s.workers[w].stage.result.revision;
    assert i > 0 && ParentBefore(s, i);
  }

  /** Unique grant: in any state of any run, all grants for one request, whoever returned
      them and whoever crashed, name the same commit and the same execution. */
  lemma UniqueGrant(states: seq<Journal>, labels: seq<Label>, n: nat, v: WorkerId, w: WorkerId, q: RequestId)
    requires Run(states, labels) && n < |states|
    requires IsGranted(states[n], v, q) && IsGranted(states[n], w, q)
    ensures states[n].workers[v].stage.result == states[n].workers[w].stage.result
    ensures states[n].workers[v].op == states[n].workers[w].op
  {
    hide Run;
    RunKeepsInv(states, labels, n);
    var s := states[n];
    var i := GrantIndex(s, v, q);
    var j := GrantIndex(s, w, q);
    OneClaimOnTheChain(s, i, j, q);
    OneClaimOnTheChain(s, j, i, q);
    GrantIsTheClaimCommit(s, v, q);
    GrantIsTheClaimCommit(s, w, q);
    assert WorkerInv(s, v) && WorkerInv(s, w);
  }

  // ----- when commit ids are fresh, a grant is returned at most once

  ghost predicate FreshRun(states: seq<Journal>, labels: seq<Label>) {
    && Run(states, labels)
    && forall i | 0 <= i < |labels| :: labels[i].Create? ==> labels[i].id !in states[i].store
  }

  function CandidateOf(x: Stage): Option<Sha> {
    match x
    case Created(_, _, c) => Some(c)
    case Sent(_, _, c) => Some(c)
    case Published(_, result) => Some(result.revision)
    case _ => None
  }

  ghost predicate DistinctCandidates(s: Journal) {
    forall v, w | v in s.workers && w in s.workers && v != w ::
      CandidateOf(s.workers[v].stage).Some? ==> CandidateOf(s.workers[v].stage) != CandidateOf(s.workers[w].stage)
  }

  lemma FreshStepKeepsCandidatesDistinct(s: Journal, l: Label)
    requires Enabled(s, l) && DistinctCandidates(s) && (l.Create? ==> l.id !in s.store)
    requires forall w | w in s.workers :: WorkerInv(s, w)
    ensures DistinctCandidates(Next(s, l))
  {
    var t := Next(s, l);
    forall v, w | v in t.workers && w in t.workers && v != w && CandidateOf(t.workers[v].stage).Some?
      ensures CandidateOf(t.workers[v].stage) != CandidateOf(t.workers[w].stage)
    {
      if !l.Create? || (v != l.w && w != l.w) {
        CandidatesComeFromBefore(s, l, v);
        CandidatesComeFromBefore(s, l, w);
      } else {
        assert v in s.workers && w in s.workers && WorkerInv(s, v) && WorkerInv(s, w);
      }
    }
  }

  lemma CandidatesComeFromBefore(s: Journal, l: Label, v: WorkerId)
    requires Enabled(s, l) && v in Next(s, l).workers && (l.Create? ==> v != l.w)
    ensures var c := CandidateOf(Next(s, l).workers[v].stage);
            c.Some? ==> v in s.workers && CandidateOf(s.workers[v].stage) == c
  {
  }

  lemma {:induction false} FreshRunKeepsCandidatesDistinct(states: seq<Journal>, labels: seq<Label>, i: nat)
    requires FreshRun(states, labels) && i < |states|
    ensures DistinctCandidates(states[i])
  {
    if i > 0 {
      FreshRunKeepsCandidatesDistinct(states, labels, i - 1);
      RunKeepsInv(states, labels, i - 1);
      FreshStepKeepsCandidatesDistinct(states[i - 1], labels[i - 1]);
    }
  }

  /** With fresh commit ids at most one call is ever granted a request. */
  lemma AtMostOneGrant(states: seq<Journal>, labels: seq<Label>, n: nat, v: WorkerId, w: WorkerId, q: RequestId)
    requires FreshRun(states, labels) && n < |states|
    requires IsGranted(states[n], v, q) && IsGranted(states[n], w, q)
    ensures v == w
  {
    UniqueGrant(states, labels, n, v, w, q);
    FreshRunKeepsCandidatesDistinct(states, labels, n);
  }

  // Without fresh ids the bound fails: two calls with the same execution id, whose identical
  // commits were made in the same second and so share an id, are both granted. This can happen
  // for every request and every execution id, and only for calls with the same execution id.

  ghost predicate Reached(s: Journal) {
    exists states, labels :: Run(states, labels) && states[|labels|] == s
  }

  lemma ReachedStep(s: Journal, l: Label, t: Journal)
    requires Reached(s) && Enabled(s, l) && t == Next(s, l)
    ensures Reached(t)
  {
    var states, labels :| Run(states, labels) && states[|labels|] == s;
    var longer, more := states + [t], labels + [l];
    forall i | 0 <= i < |more| ensures Enabled(longer[i], more[i]) && longer[i + 1] == Next(longer[i], more[i]) {
      if i < |labels| { assert longer[i] == states[i] && longer[i + 1] == states[i + 1] && more[i] == labels[i]; }
    }
    assert Run(longer, more);
  }

  /** The request as accepted, and as claimed. */
  function Taken(f: Frozen, e: string): Record {
    NewRecord(f).(state := Executing, executionId := Some(e))
  }

  function Seen(f: Frozen): Snapshot {
    Snapshot(0, map[f.requestId := NewRecord(f)], Some(NewRecord(f)))
  }

  /** Two claim calls in the given stages; `1` is the shared commit. */
  function Twins(f: Frozen, e: string, writers: set<WorkerId>, moved: bool, patches: map<WorkerId, Sha>,
                 x1: Stage, x2: Stage): Journal {
    var root := Commit(None, 0, map[f.requestId := NewRecord(f)]);
    var claim := Commit(Some(0), 1, map[f.requestId := Taken(f, e)]);
    Journal(
      if writers == {} then map[0 := root] else map[0 := root, 1 := claim],
      if moved then [0, 1] else [0], patches, writers,
      map[1 := Worker(f.requestId, ClaimOp(e), 1, x1), 2 := Worker(f.requestId, ClaimOp(e), 1, x2)])
  }

  function HasLoaded(f: Frozen, e: string): Stage { Loaded(Seen(f), Taken(f, e)) }

  function HasRechecked(f: Frozen, e: string): Stage { Rechecked(Seen(f), Taken(f, e)) }

  function HasCreated(f: Frozen, e: string): Stage { Created(Seen(f), Taken(f, e), 1) }

  function HasSent(f: Frozen, e: string): Stage { Sent(Seen(f), Taken(f, e), 1) }

  function HasGrant(f: Frozen, e: string): Stage { Published(Seen(f), CallResult(Grant, 1, Taken(f, e), false)) }

  lemma BothBegin(f: Frozen, e: string)
    ensures Reached(Twins(f, e, {}, false, map[], Begun, Begun))
  {
    var begin1, begin2 := Begin(1, f.requestId, ClaimOp(e)), Begin(2, f.requestId, ClaimOp(e));
    var s0 := Twins(f, e, {}, false, map[], Begun, Begun).(workers := map[]);
    assert Run([s0], []) && [s0][0] == s0;
    var s1 := s0.(workers := map[1 := Worker(f.requestId, ClaimOp(e), 1, Begun)]);
    ReachedStep(s0, begin1, s1);
    ReachedStep(s1, begin2, Twins(f, e, {}, false, map[], Begun, Begun));
  }

  lemma BothLoad(f: Frozen, e: string)
    requires ValidExecutionId(e)
    ensures Reached(Twins(f, e, {}, false, map[], HasLoaded(f, e), HasLoaded(f, e)))
  {
    hide ValidExecutionId;
    BothBegin(f, e);
    var s1 := Twins(f, e, {}, false, map[], HasLoaded(f, e), Begun);
    ReachedStep(Twins(f, e, {}, false, map[], Begun, Begun), Load(1), s1);
    ReachedStep(s1, Load(2), Twins(f, e, {}, false, map[], HasLoaded(f, e), HasLoaded(f, e)));
  }

  lemma BothRecheck(f: Frozen, e: string)
    requires ValidExecutionId(e)
    ensures Reached(Twins(f, e, {}, false, map[], HasRechecked(f, e), HasRechecked(f, e)))
  {
    hide ValidExecutionId;
    BothLoad(f, e);
    var s1 := Twins(f, e, {}, false, map[], HasRechecked(f, e), HasLoaded(f, e));
    ReachedStep(Twins(f, e, {}, false, map[], HasLoaded(f, e), HasLoaded(f, e)), Recheck(1), s1);
    ReachedStep(s1, Recheck(2), Twins(f, e, {}, false, map[], HasRechecked(f, e), HasRechecked(f, e)));
  }

  lemma FirstCreates(f: Frozen, e: string)
    requires ValidExecutionId(e)
    ensures Reached(Twins(f, e, {1}, false, map[], HasCreated(f, e), HasRechecked(f, e)))
  {
    hide ValidExecutionId;
    BothRecheck(f, e);
    var s0 := Twins(f, e, {}, false, map[], HasRechecked(f, e), HasRechecked(f, e));
    assert s0.store[0].tree[f.requestId := Taken(f, e)] == map[f.requestId := Taken(f, e)];
    ReachedStep(s0, Create(1, 1), Twins(f, e, {1}, false, map[], HasCreated(f, e), HasRechecked(f, e)));
  }

  lemma BothCreate(f: Frozen, e: string)
    requires ValidExecutionId(e)
    ensures Reached(Twins(f, e, {1, 2}, false, map[], HasCreated(f, e), HasCreated(f, e)))
  {
    hide ValidExecutionId;
    FirstCreates(f, e);
    var s1 := Twins(f, e, {1}, false, map[], HasCreated(f, e), HasRechecked(f, e));
    assert s1.store[0].tree[f.requestId := Taken(f, e)] == map[f.requestId := Taken(f, e)];
    ReachedStep(s1, Create(2, 1), Twins(f, e, {1, 2}, false, map[], HasCreated(f, e), HasCreated(f, e)));
  }

  lemma FirstLands(f: Frozen, e: string)
    requires ValidExecutionId(e)
    ensures Reached(Twins(f, e, {1, 2}, true, map[1 := 1], HasSent(f, e), HasCreated(f, e)))
  {
    hide ValidExecutionId;
    BothCreate(f, e);
    var s1 := Twins(f, e, {1, 2}, false, map[1 := 1], HasSent(f, e), HasCreated(f, e));
    ReachedStep(Twins(f, e, {1, 2}, false, map[], HasCreated(f, e), HasCreated(f, e)), Send(1), s1);
    assert Ancestor(s1.store, 0, 0) && Ancestor(s1.store, 0, 1);
    ReachedStep(s1, Land(1), Twins(f, e, {1, 2}, true, map[1 := 1], HasSent(f, e), HasCreated(f, e)));
  }

  lemma FirstIsGranted(f: Frozen, e: string)
    requires ValidExecutionId(e)
    ensures Reached(Twins(f, e, {1, 2}, true, map[1 := 1, 2 := 1], HasGrant(f, e), HasSent(f, e)))
  {
    hide ValidExecutionId;
    FirstLands(f, e);
    var s1 := Twins(f, e, {1, 2}, true, map[1 := 1], HasGrant(f, e), HasCreated(f, e));
    ReachedStep(Twins(f, e, {1, 2}, true, map[1 := 1], HasSent(f, e), HasCreated(f, e)), ReadBack(1), s1);
    ReachedStep(s1, Send(2), Twins(f, e, {1, 2}, true, map[1 := 1, 2 := 1], HasGrant(f, e), HasSent(f, e)));
  }

  /** For every request and every valid execution id there is a run in which two calls share one
      commit id and are both granted. */
  lemma TwoGrantsWithASharedCommit(f: Frozen, e: string) returns (states: seq<Journal>, labels: seq<Label>)
    requires ValidExecutionId(e)
    ensures Run(states, labels) && !FreshRun(states, labels)
    ensures var s := states[|labels|];
            && IsGranted(s, 1, f.requestId) && IsGranted(s, 2, f.requestId)
            && s.workers[1].op == ClaimOp(e) && s.workers[2].op == ClaimOp(e)
  {
    hide ValidExecutionId;
    FirstIsGranted(f, e);
    var s := Twins(f, e, {1, 2}, true, map[1 := 1, 2 := 1], HasGrant(f, e), HasGrant(f, e));
    ReachedStep(Twins(f, e, {1, 2}, true, map[1 := 1, 2 := 1], HasGrant(f, e), HasSent(f, e)), ReadBack(2), s);
    states, labels :| Run(states, labels) && states[|labels|] == s;
    if FreshRun(states, labels) {
      AtMostOneGrant(states, labels, |labels|, 1, 2, f.requestId);
    }
  }

  /** Some run grants request `q` to two calls, one for execution `e` and one for execution `d`. */
  ghost predicate BothGranted(q: RequestId, e: string, d: string) {
    exists states, labels, v, w :: GrantedTo(states, labels, v, q, e) && GrantedTo(states, labels, w, q, d) && v != w
  }

  ghost predicate GrantedTo(states: seq<Journal>, labels: seq<Label>, w: WorkerId, q: RequestId, e: string) {
    && Run(states, labels) && IsGranted(states[|labels|], w, q)
    && states[|labels|].workers[w].op == ClaimOp(e)
  }

  lemma GrantedIdIsValid(s: Journal, w: WorkerId, q: RequestId)
    requires Inv(s) && IsGranted(s, w, q)
    ensures s.workers[w].op.ClaimOp? && ValidExecutionId(s.workers[w].op.executionId)
  {
    hide ValidExecutionId;
    GrantIsTheClaimCommit(s, w, q);
    assert WorkerInv(s, w);
  }

  /** Exactly when a request can be granted twice: two claim calls can both be granted, in some
      run, if and only if they carry the same, valid, execution id. */
  lemma TwoGrantsExactly(q: RequestId, e: string, d: string)
    ensures BothGranted(q, e, d) <==> e == d && ValidExecutionId(e)
  {
    hide ValidExecutionId, Enabled, Next;
    if BothGranted(q, e, d) {
      var states, labels, v, w :| GrantedTo(states, labels, v, q, e) && GrantedTo(states, labels, w, q, d) && v != w;
      UniqueGrant(states, labels, |labels|, v, w, q);
      RunKeepsInv(states, labels, |labels|);
      GrantedIdIsValid(states[|labels|], v, q);
    }
    if e == d && ValidExecutionId(e) {
      var f := Frozen(q, "", "", "", 1, "", 1, 1, 1, 1, "", "");
      var states, labels := TwoGrantsWithASharedCommit(f, e);
      assert GrantedTo(states, labels, 1, q, e) && GrantedTo(states, labels, 2, q, d);
    }
  }

  // ----- what `publish` reports

  /** A receipt that is not a replay: while the call ran the candidate became the ref's value,
      right after the loaded head; its parent is that head and its tree is the derived one. */
  lemma ReceiptsAreTrue(states: seq<Journal>, labels: seq<Label>, n: nat, w: WorkerId)
    requires Run(states, labels) && n < |states|
    requires w in states[n].workers && states[n].workers[w].stage.Published?
    ensures var s := states[n];
            var x := s.workers[w];
            var snapshot, c := x.stage.snapshot, x.stage.result.revision;
            && snapshot.head in s.store && c in s.store
            && s.store[c] == Derived(s.store, snapshot.head, x.request, x.stage.result.record)
            && exists i | 0 <= i < |s.heads| - 1 :: x.since <= i + 1 && s.heads[i] == snapshot.head && s.heads[i + 1] == c
  {
    RunKeepsInv(states, labels, n);
    var s := states[n];
    assert WorkerInv(s, w);
    var c := s.workers[w].stage.result.revision;
    var k :| 0 <= k < |s.heads| && s.heads[k] == c;
    assert ParentBefore(s, k);
    assert s.heads[k - 1] == s.workers[w].stage.snapshot.head;
  }

  /** A call that ends in any error but an ambiguous publication has never asked for the ref
      to move, so no landing is its own; a stale snapshot means it has only read. */
  lemma ErrorsAreTrue(states: seq<Journal>, labels: seq<Label>, n: nat, w: WorkerId)
    requires Run(states, labels) && n < |states|
    requires w in states[n].workers && states[n].workers[w].stage.Failed?
    ensures var error := states[n].workers[w].stage.error;
            && (!error.AmbiguousPublication? && !error.Crashed? ==>
                  w !in states[n].patches && forall i | 0 <= i < n :: labels[i] != Land(w))
            && (error.StaleSnapshot? || error.Refused? ==>
                  w !in states[n].writers && forall i, id | 0 <= i < n :: labels[i] != Create(w, id) && labels[i] != Send(w))
  {
    RunKeepsInv(states, labels, n);
    assert WorkerInv(states[n], w);
    forall i | 0 <= i < n ensures w !in states[n].patches ==> labels[i] != Land(w) {
      PatchesStay(states, labels, i, n, w);
    }
    forall i, id | 0 <= i < n ensures w !in states[n].writers ==> labels[i] != Create(w, id) && labels[i] != Send(w) {
      assert w !in states[i + 1].writers || w in states[n].writers by { PatchesStay(states, labels, i + 1, n, w); }
    }
  }

  lemma {:induction false} PatchesStay(states: seq<Journal>, labels: seq<Label>, i: nat, j: nat, w: WorkerId)
    requires Run(states, labels) && i <= j < |states|
    ensures w in states[i].patches ==> w in states[j].patches
    ensures w in states[i].writers ==> w in states[j].writers
    decreases j
  {
    if i < j {
      PatchesStay(states, labels, i, j - 1, w);
      assert states[j] == Next(states[j - 1], labels[j - 1]);
    }
  }

  /** The re-read before writing compares the whole snapshot; with the same head it cannot
      differ, so only a moved head can stop the call there. */
  lemma RecheckSeesTheSameSnapshot(s: Journal, w: WorkerId)
    requires Inv(s) && Enabled(s, Recheck(w))
    requires Head(s) == s.workers[w].stage.snapshot.head
    ensures ReadSnapshot(s, s.workers[w].request) == s.workers[w].stage.snapshot
  {
    assert WorkerInv(s, w);
  }
}
