/** How runs of the Publisher's system are built: one step, one undisturbed coordinator call, one
    comment, one move of a finalize run at a time, from any state that has been reached. */
module PublisherMoves {
  import opened Common
  import opened JournalRecord
  import opened JournalProtocol
  import opened Markers
  import opened PublisherProtocol
  import opened Text

  // ----- reaching a state

  /** Some run passes through `o` and ends in `t`. */
  ghost predicate Leads(o: World, t: World) {
    exists states, steps, k :: Passes(states, steps, k, o) && states[|steps|] == t
  }

  ghost predicate Passes(states: seq<World>, steps: seq<Step>, k: nat, o: World) {
    WorldRun(states, steps) && |states| == |steps| + 1 && k <= |steps| && states[k] == o
  }

  lemma Starts(s: World)
    requires Start(s)
    ensures Leads(s, s)
  {
    assert Passes([s], [], 0, s) && [s][0] == s;
  }

  /** What a run has reached leads to itself. */
  lemma RunsOn(states: seq<World>, steps: seq<Step>)
    requires WorldRun(states, steps)
    ensures Leads(states[|steps|], states[|steps|])
  {
    assert Passes(states, steps, |steps|, states[|steps|]);
  }

  lemma Renews(o: World, t: World)
    requires Leads(o, t)
    ensures Leads(t, t)
  {
    var states, steps, k :| Passes(states, steps, k, o) && states[|steps|] == t;
    RunsOn(states, steps);
  }

  lemma Steps(o: World, s: World, l: Step, t: World)
    requires Leads(o, s) && CanStep(s, l) && t == WorldNext(s, l)
    ensures Leads(o, t)
  {
    hide CanStep, WorldNext;
    var states, steps, k :| Passes(states, steps, k, o) && states[|steps|] == s;
    var longer, more := states + [t], steps + [l];
    forall i | 0 <= i < |more| ensures CanStep(longer[i], more[i]) && longer[i + 1] == WorldNext(longer[i], more[i]) {
      if i < |steps| { assert longer[i] == states[i] && longer[i + 1] == states[i + 1] && more[i] == steps[i]; }
    }
    assert Passes(longer, more, k, o);
  }

  // ----- a coordinator call that nobody disturbs

  lemma JournalSteps(o: World, s: World, l: Label, j: Journal)
    requires Leads(o, s) && Usable(s.journal) && Enabled(s.journal, l) && !l.Begin? && j == Next(s.journal, l)
    ensures Leads(o, s.(journal := j))
  {
    hide Enabled, Next;
    Steps(o, s, JournalStep(l), s.(journal := j));
  }

  function Stand(j: Journal, w: WorkerId, stage: Stage): Journal
    requires w in j.workers
  {
    j.(workers := j.workers[w := j.workers[w].(stage := stage)])
  }

  function Candidate(j: Journal, w: WorkerId, c: Sha, r: Record): map<Sha, Commit>
    requires w in j.workers && Usable(j)
  {
    j.store[c := Derived(j.store, Head(j), j.workers[w].request, r)]
  }

  /** The journal after the call has written record `r` as commit `c` and read it back. */
  function Called(j: Journal, w: WorkerId, c: Sha, r: Record): Journal
    requires w in j.workers && Usable(j)
  {
    Stand(j, w, Published(ReadSnapshot(j, j.workers[w].request),
                          CallResult(PublishedDisposition(j.workers[w].op), c, r, false))).(
      store := Candidate(j, w, c, r), heads := j.heads + [c], patches := j.patches[w := c], writers := j.writers + {w})
  }

  /** The call may begin, and will write `r`, a change, as the new commit `c`. */
  predicate CanCall(j: Journal, w: WorkerId, c: Sha, r: Record) {
    && Usable(j) && w in j.workers && j.workers[w].stage.Begun? && c !in j.store
    && Decide(j.workers[w].op, ReadSnapshot(j, j.workers[w].request).record) == Publish(r)
    && ReadSnapshot(j, j.workers[w].request).record != Some(r)
  }

  lemma CallIsChecked(o: World, s: World, w: WorkerId, c: Sha, r: Record)
    requires Leads(o, s) && CanCall(s.journal, w, c, r)
    ensures Leads(o, s.(journal := Stand(s.journal, w,
                                        Rechecked(ReadSnapshot(s.journal, s.journal.workers[w].request), r))))
  {
    hide Decide;
    var j := s.journal;
    var snapshot := ReadSnapshot(j, j.workers[w].request);
    var j1 := Stand(j, w, Loaded(snapshot, r));
    JournalSteps(o, s, Load(w), j1);
    var j2 := Stand(j, w, Rechecked(snapshot, r));
    assert j1.workers[w := j1.workers[w].(stage := Rechecked(snapshot, r))] == j2.workers;
    JournalSteps(o, s.(journal := j1), Recheck(w), j2);
  }

  lemma CallIsSent(o: World, s: World, w: WorkerId, c: Sha, r: Record)
    requires Leads(o, s) && CanCall(s.journal, w, c, r)
    ensures var j := s.journal;
            Leads(o, s.(journal := Stand(j, w, Sent(ReadSnapshot(j, j.workers[w].request), r, c)).(
              store := Candidate(j, w, c, r), patches := j.patches[w := c], writers := j.writers + {w})))
  {
    hide Decide;
    CallIsChecked(o, s, w, c, r);
    var j := s.journal;
    var snapshot := ReadSnapshot(j, j.workers[w].request);
    var j2 := Stand(j, w, Rechecked(snapshot, r));
    var j3 := Stand(j, w, Created(snapshot, r, c)).(store := Candidate(j, w, c, r), writers := j.writers + {w});
    assert j2.workers[w := j2.workers[w].(stage := Created(snapshot, r, c))] == j3.workers;
    JournalSteps(o, s.(journal := j2), Create(w, c), j3);
    var j4 := Stand(j, w, Sent(snapshot, r, c)).(
      store := Candidate(j, w, c, r), patches := j.patches[w := c], writers := j.writers + {w});
    assert j3.workers[w := j3.workers[w].(stage := Sent(snapshot, r, c))] == j4.workers;
    JournalSteps(o, s.(journal := j3), Send(w), j4);
  }

  lemma CallCompletes(o: World, s: World, w: WorkerId, c: Sha, r: Record)
    requires Leads(o, s) && CanCall(s.journal, w, c, r)
    ensures Leads(o, s.(journal := Called(s.journal, w, c, r)))
  {
    hide Decide;
    CallIsSent(o, s, w, c, r);
    var j := s.journal;
    var snapshot := ReadSnapshot(j, j.workers[w].request);
    var j4 := Stand(j, w, Sent(snapshot, r, c)).(
      store := Candidate(j, w, c, r), patches := j.patches[w := c], writers := j.writers + {w});
    assert Ancestor(j4.store, Head(j), Head(j)) && Ancestor(j4.store, Head(j), c);
    var j5 := j4.(heads := j.heads + [c]);
    JournalSteps(o, s.(journal := j4), Land(w), j5);
    var j6 := Called(j, w, c, r);
    assert j5.workers[w := j5.workers[w].(stage := j6.workers[w].stage)] == j6.workers;
    JournalSteps(o, s.(journal := j5), ReadBack(w), j6);
  }

  // ----- a comment that is posted and acknowledged

  lemma CommentIsPosted(o: World, s: World, p: ProcId)
    requires Leads(o, s) && Usable(s.journal)
    requires p in s.procs && s.procs[p].Ensuring? && !s.procs[p].posted
    requires var g := s.procs[p].goal; Detached(g) && Scannable(s.log, GoalKey(g)) && Matches(s.log, GoalKey(g)) == []
    ensures var g := s.procs[p].goal;
            Leads(o, s.(posts := s.posts + multiset{BodyFor(g)}, procs := s.procs[p := Ensuring(g, true)]))
  {
    hide Scannable, Matches, Detached, CanFinalize, FinalizeAfter;
    var g := s.procs[p].goal;
    Steps(o, s, PostComment(p), s.(posts := s.posts + multiset{BodyFor(g)}, procs := s.procs[p := Ensuring(g, true)]));
  }

  lemma CommentLands(o: World, s: World, p: ProcId)
    requires Leads(o, s) && Usable(s.journal)
    requires p in s.procs && s.procs[p].Ensuring? && !s.procs[p].posted
    requires var g := s.procs[p].goal; Detached(g) && Scannable(s.log, GoalKey(g)) && Matches(s.log, GoalKey(g)) == []
    ensures var g := s.procs[p].goal;
            Leads(o, s.(log := s.log + [BodyFor(g)], procs := s.procs[p := Ensuring(g, true)]))
  {
    hide CanFinalize, FinalizeAfter, Scannable, Matches, Detached, BodyFor;
    CommentIsPosted(o, s, p);
    var g := s.procs[p].goal;
    var s1 := s.(posts := s.posts + multiset{BodyFor(g)}, procs := s.procs[p := Ensuring(g, true)]);
    assert s1.posts - multiset{BodyFor(g)} == s.posts;
    Steps(o, s1, PostLands(BodyFor(g)), s1.(posts := s.posts, log := s.log + [BodyFor(g)]));
  }

  lemma CommentIsEnsured(o: World, s: World, p: ProcId)
    requires Leads(o, s) && Usable(s.journal)
    requires p in s.procs && s.procs[p].Ensuring? && !s.procs[p].posted
    requires var g := s.procs[p].goal; Detached(g) && Scannable(s.log, GoalKey(g)) && Matches(s.log, GoalKey(g)) == []
    ensures var g := s.procs[p].goal;
            Leads(o, s.(log := s.log + [BodyFor(g)], procs := s.procs[p := Achieved(g, |s.log|)]))
  {
    hide CanFinalize, FinalizeAfter, Scannable, Matches, Detached, Achieved, BodyFor;
    CommentLands(o, s, p);
    var g := s.procs[p].goal;
    var s2 := s.(log := s.log + [BodyFor(g)], procs := s.procs[p := Ensuring(g, true)]);
    var s3 := s2.(procs := s.procs[p := Achieved(g, |s.log|)]);
    assert s2.procs[p := Achieved(g, |s.log|)] == s3.procs;
    Acknowledges(o, s2, p, |s.log|);
  }

  lemma Acknowledges(o: World, s: World, p: ProcId, id: nat)
    requires Leads(o, s) && Usable(s.journal) && p in s.procs && s.procs[p].Ensuring? && s.procs[p].posted
    requires id < |s.log| && s.log[id] == BodyFor(s.procs[p].goal)
    ensures Leads(o, s.(procs := s.procs[p := Achieved(s.procs[p].goal, id)]))
  {
    hide CanFinalize, FinalizeAfter, Achieved, BodyFor;
    Steps(o, s, AckComment(p, id), s.(procs := s.procs[p := Achieved(s.procs[p].goal, id)]));
  }

  // ----- logs whose comments all belong to one request

  lemma {:induction false} CountIsSmall(log: seq<Body>, issue: (string, nat))
    ensures CountOnIssue(log, issue) <= |log|
  {
    if log != [] { CountIsSmall(log[..|log| - 1], issue); }
  }

  lemma MatchesPush(log: seq<Body>, body: Body, key: Key)
    ensures Matches(log + [body], key)
            == if KeyOf(body) == Some(key) then Matches(log, key) + [|log|] else Matches(log, key)
  {
    assert (log + [body])[..|log|] == log;
  }

  lemma ReceiptsPush(log: seq<Body>, body: Body, b: Bundle)
    ensures ReceiptMatches(log + [body], b)
            == if body.ReceiptBody?
            && body.receipt == Receipt(b.identity, b.acceptedRevision, b.claimRevision, body.receipt.verdict)
               then ReceiptMatches(log, b) + [|log|] else ReceiptMatches(log, b)
  {
    assert (log + [body])[..|log|] == log;
  }

  /** Every comment that carries a request carries this one. */
  predicate Carries(log: seq<Body>, text: string) {
    forall body | body in log && RequestText(body).Some? :: RequestText(body).value == text
  }

  lemma ShortLogScans(log: seq<Body>, text: string, key: Key)
    requires |log| < SCAN_LIMIT && Carries(log, text) && !Contains(text, PublisherPrefix(key.kind))
    ensures Scannable(log, key)
  {
    hide Contains, PublisherPrefix;
    CountIsSmall(log, (key.repository, key.issue));
  }

  function Asked(j: Journal, w: WorkerId, q: RequestId, op: Op): Journal {
    j.(workers := j.workers[w := Worker(q, op, |j.heads|, Begun)])
  }

  // ----- one process moves

  /** The world with the process at the stage. */
  function With(s: World, p: ProcId, x: Proc): World {
    s.(procs := s.procs[p := x])
  }

  /** A record that has been claimed and not ended. */
  predicate Open(r: Record) {
    r.state.Executing? || r.state.Ambiguous?
  }

  /** The world with one more comment. */
  function Noted(s: World, body: Body): World {
    s.(log := s.log + [body])
  }

  lemma WithAgain(s: World, p: ProcId, x: Proc, y: Proc)
    ensures With(With(s, p, x), p, y) == With(s, p, y)
  {
    assert s.procs[p := x][p := y] == s.procs[p := y];
  }

  lemma Acts(o: World, s: World, l: Step, t: World)
    requires Leads(o, s) && Usable(s.journal) && Finalizes(l) && CanFinalize(s, l) && t == WorldNext(s, l)
    ensures Leads(o, t)
  {
    hide CanFinalize, WorldNext;
    Steps(o, s, l, t);
  }

  /** Steps that change nothing but the stage of the run that takes them. */
  predicate OnlyMoves(l: Step) {
    || l.StartFinalize? || l.BindBundle? || l.TakeReceipt? || l.Recover? || l.NothingToRecover? || l.ReadBase? || l.Confirm?
    || l.ReloadCheckpoint? || l.ReadTaskHead? || l.CheckResult? || l.TakeMutation?
  }

  lemma NothingElseMoves(s: World, l: Step)
    requires OnlyMoves(l) && CanStep(s, l)
    ensures LogAfter(s, l) == s.log && PostsAfter(s, l) == s.posts && TaskHeadsAfter(s, l) == s.taskHeads
    ensures TaskCommitsAfter(s, l) == s.taskCommits && TaskPatchesAfter(s, l) == s.taskPatches
    ensures TaskWritersAfter(s, l) == s.taskWriters && JournalLabel(s, l) == None
    ensures ReadBacksAfter(s, l) == s.readBacks && ConfirmedAfter(s, l) == s.confirmed
    ensures Actor(l) == Some(l.p)
  {
    hide CanStep;
  }

  lemma Moves(o: World, s: World, l: Step, y: Proc)
    requires Leads(o, s) && Usable(s.journal) && OnlyMoves(l) && Finalizes(l) && CanFinalize(s, l)
             && FinalizeAfter(s, l) == y
    ensures Leads(o, With(s, l.p, y))
  {
    hide CanFinalize, FinalizeAfter, LogAfter, PostsAfter, TaskHeadsAfter, TaskCommitsAfter, TaskPatchesAfter,
         TaskWritersAfter, JournalLabel, ReadBacksAfter, ConfirmedAfter, Actor;
    NothingElseMoves(s, l);
    Acts(o, s, l, With(s, l.p, y));
  }

  /** A move that changes nothing else. */
  lemma MovesOn(o: World, s: World, p: ProcId, x: Proc, l: Step, y: Proc)
    requires Leads(o, With(s, p, x)) && Usable(s.journal) && OnlyMoves(l) && Finalizes(l) && l.p == p
    requires CanFinalize(With(s, p, x), l) && FinalizeAfter(With(s, p, x), l) == y
    ensures Leads(o, With(s, p, y))
  {
    hide CanFinalize, FinalizeAfter, OnlyMoves, Finalizes, Usable;
    Moves(o, With(s, p, x), l, y);
    WithAgain(s, p, x, y);
  }

  /** A comment is posted, applied and acknowledged. */
  lemma EnsuresComment(o: World, s: World, p: ProcId, g: Goal)
    requires Leads(o, With(s, p, Ensuring(g, false))) && Usable(s.journal)
    requires Detached(g) && Scannable(s.log, GoalKey(g)) && Matches(s.log, GoalKey(g)) == []
    ensures Leads(o, With(s.(log := s.log + [BodyFor(g)]), p, Achieved(g, |s.log|)))
  {
    hide Detached, Scannable, Matches, BodyFor, Achieved, GoalKey;
    CommentIsEnsured(o, With(s, p, Ensuring(g, false)), p);
    var t := s.(log := s.log + [BodyFor(g)]);
    WithAgain(t, p, Ensuring(g, false), Achieved(g, |s.log|));
  }

  /** Or it is found to be there already. */
  lemma FindsComment(o: World, s: World, p: ProcId, g: Goal, id: nat)
    requires Leads(o, With(s, p, Ensuring(g, false))) && Usable(s.journal)
    requires Detached(g) && Unique(s.log, GoalKey(g), id) && id < |s.log| && s.log[id] == BodyFor(g)
    ensures Leads(o, With(s, p, Achieved(g, id)))
  {
    hide Detached, Unique, BodyFor, Achieved, GoalKey, CanFinalize, FinalizeAfter;
    var s0 := With(s, p, Ensuring(g, false));
    Steps(o, s0, FindComment(p, id), With(s0, p, Achieved(g, id)));
    WithAgain(s, p, Ensuring(g, false), Achieved(g, id));
  }
}
