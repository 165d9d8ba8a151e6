/** The request-body check of scripts/actions_github_api.py: a worklist over Python objects,
    which may share parts and may contain themselves. */
module RequestBody {

  type Ref = nat

  /** A `dict` with its keys (`true` for a string), a `list`, a JSON scalar, or anything else. */
  datatype Node =
    | Mapping(stringKeys: seq<bool>, values: seq<Ref>)
    | Sequence(values: seq<Ref>)
    | Atom
    | Foreign

  type Heap = map<Ref, Node>

  const MAX_DEPTH := 32
  const MAX_NODES := 262144

  function Children(n: Node): seq<Ref> {
    if n.Mapping? || n.Sequence? then n.values else []
  }

  /** Every reference leads to an object, and a mapping has one value a key. */
  predicate Closed(g: Heap) {
    && (forall v, i | v in g && 0 <= i < |Children(g[v])| :: Children(g[v])[i] in g)
    && forall v | v in g && g[v].Mapping? :: |g[v].stringKeys| == |g[v].values|
  }

  /** The object by itself: a JSON type, string keys, at most as many children as may be visited. */
  predicate Local(n: Node) {
    match n
    case Mapping(keys, values) => |values| <= MAX_NODES && forall i | 0 <= i < |keys| :: keys[i]
    case Sequence(values) => |values| <= MAX_NODES
    case Atom => true
    case Foreign => false
  }

  /** The object and everything below it is JSON, nested at most `room` deeper. */
  predicate Good(g: Heap, v: Ref, room: int)
    requires Closed(g) && v in g
    decreases if room < 0 then 0 else room + 1
  {
    room >= 0 && Local(g[v]) && forall i | 0 <= i < |Children(g[v])| :: Good(g, Children(g[v])[i], room - 1)
  }

  /** How many objects a visit of everything below meets, shared ones as often as they are met. */
  function Size(g: Heap, v: Ref, room: int): (n: nat)
    requires Closed(g) && v in g
    ensures n >= 1
    decreases if room < 0 then 0 else room + 1, 1, 0
  {
    if room < 0 then 1 else 1 + SizeFrom(g, v, 0, room)
  }

  function SizeFrom(g: Heap, v: Ref, i: nat, room: int): nat
    requires Closed(g) && v in g && i <= |Children(g[v])| && room >= 0
    decreases room + 1, 0, |Children(g[v])| - i
  {
    if i == |Children(g[v])| then 0 else Size(g, Children(g[v])[i], room - 1) + SizeFrom(g, v, i + 1, room)
  }

  // ----- the worklist

  datatype Todo = Todo(ref: Ref, depth: nat)

  predicate InHeap(g: Heap, pending: seq<Todo>) {
    forall i | 0 <= i < |pending| :: pending[i].ref in g
  }

  ghost predicate AllGood(g: Heap, pending: seq<Todo>)
    requires Closed(g) && InHeap(g, pending)
  {
    forall i | 0 <= i < |pending| :: Good(g, pending[i].ref, MAX_DEPTH - pending[i].depth)
  }

  ghost function SizeAll(g: Heap, pending: seq<Todo>): nat
    requires Closed(g) && InHeap(g, pending)
  {
    if pending == [] then 0
    else
      var last := pending[|pending| - 1];
      SizeAll(g, pending[..|pending| - 1]) + Size(g, last.ref, MAX_DEPTH - last.depth)
  }

  function Below(children: seq<Ref>, depth: nat): seq<Todo> {
    seq(|children|, i requires 0 <= i < |children| => Todo(children[i], depth))
  }

  lemma {:induction false} SizeOfChildren(g: Heap, rest: seq<Todo>, v: Ref, i: nat, depth: nat)
    requires Closed(g) && v in g && i <= |Children(g[v])| && InHeap(g, rest) && 0 < depth <= MAX_DEPTH + 1
    ensures InHeap(g, rest + Below(Children(g[v]), depth)) && InHeap(g, rest + Below(Children(g[v])[..i], depth))
    ensures SizeAll(g, rest + Below(Children(g[v])[..i], depth)) + SizeFrom(g, v, i, MAX_DEPTH - depth + 1)
            == SizeAll(g, rest) + SizeFrom(g, v, 0, MAX_DEPTH - depth + 1)
  {
    var cs := Children(g[v]);
    if i == 0 {
      assert rest + Below(cs[..0], depth) == rest;
    } else {
      SizeOfChildren(g, rest, v, i - 1, depth);
      var before, now := rest + Below(cs[..i - 1], depth), rest + Below(cs[..i], depth);
      assert now == before + [Todo(cs[i - 1], depth)];
    }
  }

  /** The check accepts exactly the JSON values nested at most 32 deep with at most 262144
      nodes, and it ends on every object graph, cyclic ones included. */
  method Check(g: Heap, body: Ref) returns (ok: bool)
    requires Closed(g) && body in g
    ensures ok <==> Good(g, body, 32) && Size(g, body, 32) <= 262144
  {
    var pending := [Todo(body, 0)];
    var visited := 0;
    assert SizeAll(g, pending) == Size(g, body, MAX_DEPTH) by { assert pending[..0] == []; }
    while pending != []
      invariant InHeap(g, pending) && visited <= MAX_NODES
      invariant Good(g, body, MAX_DEPTH) <==> AllGood(g, pending)
      invariant AllGood(g, pending) ==> visited + SizeAll(g, pending) == Size(g, body, MAX_DEPTH)
      decreases MAX_NODES - visited
    {
      var Todo(value, depth) := pending[|pending| - 1];
      ghost var prior := pending;
      pending := pending[..|pending| - 1];
      visited := visited + 1;
      assert AllGood(g, prior) <==> AllGood(g, pending) && Good(g, value, MAX_DEPTH - depth) by {
        assert prior == pending + [Todo(value, depth)];
      }
      if depth > MAX_DEPTH || visited > MAX_NODES { return false; }
      if !Local(g[value]) { return false; }
      Unfolds(g, pending, value, depth);
      pending := pending + Below(Children(g[value]), depth + 1);
    }
    ok := true;
  }

  lemma Unfolds(g: Heap, rest: seq<Todo>, v: Ref, depth: nat)
    requires Closed(g) && v in g && InHeap(g, rest) && depth <= MAX_DEPTH && Local(g[v])
    ensures var more := rest + Below(Children(g[v]), depth + 1);
            && InHeap(g, more)
            && (AllGood(g, more) <==> AllGood(g, rest) && Good(g, v, MAX_DEPTH - depth))
            && SizeAll(g, more) + 1 == SizeAll(g, rest) + Size(g, v, MAX_DEPTH - depth)
  {
    var cs := Children(g[v]);
    var below := Below(cs, depth + 1);
    var more := rest + below;
    SizeOfChildren(g, rest, v, |cs|, depth + 1);
    assert cs[..|cs|] == cs;
    if AllGood(g, more) {
      forall i | 0 <= i < |rest| ensures Good(g, rest[i].ref, MAX_DEPTH - rest[i].depth) { assert more[i] == rest[i]; }
      forall i | 0 <= i < |cs| ensures Good(g, cs[i], MAX_DEPTH - depth - 1) { assert more[|rest| + i] == below[i]; }
    }
  }

  // ----- cycles

  /** There is a path of `n` steps from `v` to `w`. */
  ghost predicate Reaches(g: Heap, v: Ref, w: Ref, n: nat)
    requires Closed(g) && v in g
    decreases n
  {
    if n == 0 then v == w
    else exists i :: 0 <= i < |Children(g[v])| && Reaches(g, Children(g[v])[i], w, n - 1)
  }

  lemma {:induction false} PathsStayGood(g: Heap, v: Ref, w: Ref, n: nat, room: int)
    requires Closed(g) && v in g && Good(g, v, room) && Reaches(g, v, w, n)
    ensures w in g && Good(g, w, room - n)
    decreases n
  {
    if n > 0 {
      var i :| 0 <= i < |Children(g[v])| && Reaches(g, Children(g[v])[i], w, n - 1);
      PathsStayGood(g, Children(g[v])[i], w, n - 1, room - 1);
    }
  }

  /** An object that contains itself, at whatever distance, is never accepted; nor is anything
      that leads to it. */
  lemma {:induction false} CyclesAreNotGood(g: Heap, v: Ref, w: Ref, m: nat, n: nat, room: int)
    requires Closed(g) && v in g && Reaches(g, v, w, m) && w in g && n > 0 && Reaches(g, w, w, n)
    ensures !Good(g, v, room)
    decreases if room < 0 then 0 else room + 1, if v == w && m == 0 then 0 else 1
  {
    if Good(g, v, room) {
      PathsStayGood(g, v, w, m, room);
      PathsStayGood(g, w, w, n, room - m);
      CyclesAreNotGood(g, w, w, 0, n, room - m - n);
    }
  }

  // ----- what is accepted

  /** An object that may stand anywhere in a request. */
  predicate IsJson(n: Node) {
    match n
    case Mapping(keys, values) => |values| <= 262144 && forall i | 0 <= i < |keys| :: keys[i]
    case Sequence(values) => |values| <= 262144
    case Atom => true
    case Foreign => false
  }

  /** On every path from the object, of whatever length. */
  ghost predicate Everywhere(g: Heap, v: Ref, room: int)
    requires Closed(g) && v in g
  {
    forall w, n: nat | w in g && Reaches(g, v, w, n) :: n <= room && IsJson(g[w])
  }

  lemma ChildIsReached(g: Heap, v: Ref, i: nat, w: Ref, n: nat)
    requires Closed(g) && v in g && i < |Children(g[v])| && Reaches(g, Children(g[v])[i], w, n)
    ensures Reaches(g, v, w, n + 1)
  {
  }

  /** An object is good exactly when no path from it is longer than the room there is and every object
      on a path is a JSON value: no foreign object and no key but a string, at any depth. */
  lemma {:induction false} GoodExactly(g: Heap, v: Ref, room: int)
    requires Closed(g) && v in g
    ensures Good(g, v, room) <==> Everywhere(g, v, room)
    decreases if room < 0 then 0 else room + 1
  {
    hide Closed;
    assert Reaches(g, v, v, 0);
    if Good(g, v, room) {
      forall w, n: nat | w in g && Reaches(g, v, w, n) ensures n <= room && IsJson(g[w]) {
        PathsStayGood(g, v, w, n, room);
      }
    }
    if Everywhere(g, v, room) {
      assert 0 <= room && IsJson(g[v]);
      forall i | 0 <= i < |Children(g[v])| ensures Children(g[v])[i] in g && Good(g, Children(g[v])[i], room - 1) {
        ChildIsIn(g, v, i);
        var c := Children(g[v])[i];
        forall w, n: nat | w in g && Reaches(g, c, w, n) ensures n <= room - 1 && IsJson(g[w]) {
          ChildIsReached(g, v, i, w, n);
        }
        GoodExactly(g, c, room - 1);
      }
    }
  }

  lemma ChildIsIn(g: Heap, v: Ref, i: nat)
    requires Closed(g) && v in g && i < |Children(g[v])|
    ensures Children(g[v])[i] in g
  {
  }
}
