/** The printed text is canonical: two values print alike exactly when they are the same value
    up to the order of members and the spelling of integers. */
module JsonCanonicality {
  import opened Common
  import opened Utf8
  import opened JsonValue
  import opened JsonPrinter
  import opened JsonParser
  import opened JsonTheorems

  /** Equal up to the order of members and the spelling of integers. */
  ghost predicate Equivalent(v: Json, w: Json)
    decreases v
  {
    match v
    case Number(t) => w.Number? && (t == w.text || (IntegerText(t) && IntegerText(w.text) && IntegerValue(t) == IntegerValue(w.text)))
    case Array(vs) => w.Array? && |vs| == |w.items| && forall i | 0 <= i < |vs| :: Equivalent(vs[i], w.items[i])
    case Object(ms) =>
      w.Object? && |ms| == |w.members| && forall i | 0 <= i < |ms| :: MemberIn(ms[i], w.members)
    case _ => v == w
  }

  ghost predicate MemberIn(m: Keyed<Json>, ns: seq<Keyed<Json>>)
    decreases m
  {
    exists j :: 0 <= j < |ns| && ns[j].key == m.key && Equivalent(m.value, ns[j].value)
  }

  // ----- members in any order

  lemma SubsetOfSameSize<T>(a: multiset<T>, b: multiset<T>)
    requires a <= b && |a| == |b|
    ensures a == b
  {
    assert b == a + (b - a);
    assert |b - a| == 0;
  }

  /** Distinct members that all occur in a list of the same length make up that list. */
  lemma SameMembers<T>(ms: seq<Keyed<T>>, ns: seq<Keyed<T>>)
    requires DistinctKeys(ms) && |ms| == |ns| && forall i | 0 <= i < |ms| :: ms[i] in ns
    ensures multiset(ms) == multiset(ns)
  {
    forall m ensures multiset(ms)[m] <= multiset(ns)[m] {
      Once(ms, m);
      if m in ms { assert m in ns; }
    }
    assert |multiset(ms)| == |ms| && |multiset(ns)| == |ns|;
    SubsetOfSameSize(multiset(ms), multiset(ns));
  }

  /** A value the parser can return and the printer accepts. */
  ghost predicate Printable(v: Json, n: int) {
    Good(v, n) && Jcs(v).Ok?
  }

  lemma {:induction false} PrintableItems(vs: seq<Json>, i: nat, k: nat)
    requires i <= k < |vs| && JcsItems(vs, i).Ok?
    ensures Jcs(vs[k]).Ok?
    decreases k - i
  {
    hide Jcs;
    JcsItemsOk(vs, i);
    if i < k { PrintableItems(vs, i + 1, k); }
  }

  lemma {:induction false} PrintablePieces(ns: seq<Keyed<Json>>, i: nat, k: nat)
    requires i <= k < |ns| && JoinMembers(Pieces(ns), i).Ok?
    ensures Jcs(ns[k].value).Ok?
    decreases k - i
  {
    hide Jcs;
    JoinOk(ns, i);
    if i < k { PrintablePieces(ns, i + 1, k); }
  }

  lemma PrintableMembers(ms: seq<Keyed<Json>>, k: nat)
    requires k < |ms| && Jcs(Object(ms)).Ok?
    ensures Jcs(ms[k].value).Ok?
  {
    var ns := Sort(ms);
    SortPieces(ms);
    SortSorts(ms);
    InBoth(ms, ns);
    assert ms[k] in ns;
    var j :| 0 <= j < |ns| && ns[j] == ms[k];
    PrintablePieces(ns, 0, j);
  }

  lemma CanonMembersDistinct(ms: seq<Keyed<Json>>)
    requires DistinctKeys(ms)
    ensures DistinctKeys(CanonMembers(ms))
  {
    hide Canon;
    forall i, j | 0 <= i < j < |ms| ensures CanonMembers(ms)[i].key != CanonMembers(ms)[j].key {
      CanonMembersAt(ms, i);
      CanonMembersAt(ms, j);
    }
  }

  // ----- equivalence is equality of canonical forms

  lemma NumbersAgree(t: Bytes, u: Bytes)
    requires JcsNumber(t).Ok? && JcsNumber(u).Ok?
    ensures Canon(Number(t)) == Canon(Number(u)) <==> IntegerValue(t) == IntegerValue(u)
  {
    NumberOfNumber(t);
    NumberOfNumber(u);
  }

  lemma {:induction false} EquivalentIsSameCanon(v: Json, w: Json, n: int)
    requires Printable(v, n) && Printable(w, n)
    ensures Equivalent(v, w) <==> Canon(v) == Canon(w)
    decreases v
  {
    match v
    case Number(t) => if w.Number? { NumbersAgree(t, w.text); }
    case Array(vs) => if w.Array? { ArraysAgree(vs, w.items, n); }
    case Object(ms) => if w.Object? { ObjectsAgree(ms, w.members, n); }
    case _ =>
  }

  lemma {:induction false} ArraysAgree(vs: seq<Json>, ws: seq<Json>, n: int)
    requires Printable(Array(vs), n) && Printable(Array(ws), n)
    ensures Equivalent(Array(vs), Array(ws)) <==> Canon(Array(vs)) == Canon(Array(ws))
    decreases vs
  {
    if |vs| == |ws| {
      forall i | 0 <= i < |vs| ensures Equivalent(vs[i], ws[i]) <==> CanonItems(vs)[i] == CanonItems(ws)[i] {
        PrintableItems(vs, 0, i);
        PrintableItems(ws, 0, i);
        EquivalentIsSameCanon(vs[i], ws[i], n - 1);
      }
      if Equivalent(Array(vs), Array(ws)) { assert CanonItems(vs) == CanonItems(ws); }
      if CanonItems(vs) == CanonItems(ws) {
        forall i | 0 <= i < |vs| ensures Equivalent(vs[i], ws[i]) { assert CanonItems(vs)[i] == CanonItems(ws)[i]; }
      }
    }
  }

  lemma {:induction false} MembersAgree(ms: seq<Keyed<Json>>, i: nat, ns: seq<Keyed<Json>>, j: nat, n: int)
    requires Printable(Object(ms), n) && Printable(Object(ns), n) && i < |ms| && j < |ns|
    ensures ms[i].key == ns[j].key && Equivalent(ms[i].value, ns[j].value) <==> CanonMembers(ms)[i] == CanonMembers(ns)[j]
    decreases ms, 0
  {
    PrintableMembers(ms, i);
    PrintableMembers(ns, j);
    CanonMembersAt(ms, i);
    CanonMembersAt(ns, j);
    assert ms[i] in ms;
    EquivalentIsSameCanon(ms[i].value, ns[j].value, n - 1);
  }

  lemma {:induction false} MemberInIsInCanon(ms: seq<Keyed<Json>>, i: nat, ns: seq<Keyed<Json>>, n: int)
    requires Printable(Object(ms), n) && Printable(Object(ns), n) && i < |ms|
    ensures MemberIn(ms[i], ns) <==> CanonMembers(ms)[i] in CanonMembers(ns)
    decreases ms, 1
  {
    hide Printable, Equivalent, CanonMember;
    var m := CanonMembers(ms)[i];
    if MemberIn(ms[i], ns) {
      var j :| 0 <= j < |ns| && ns[j].key == ms[i].key && Equivalent(ms[i].value, ns[j].value);
      MembersAgree(ms, i, ns, j, n);
      assert m == CanonMembers(ns)[j];
    }
    if m in CanonMembers(ns) {
      var j :| 0 <= j < |CanonMembers(ns)| && CanonMembers(ns)[j] == m;
      MembersAgree(ms, i, ns, j, n);
    }
  }

  lemma {:induction false} ObjectsAgree(ms: seq<Keyed<Json>>, ns: seq<Keyed<Json>>, n: int)
    requires Printable(Object(ms), n) && Printable(Object(ns), n)
    ensures Equivalent(Object(ms), Object(ns)) <==> Canon(Object(ms)) == Canon(Object(ns))
    decreases ms, 2
  {
    assert DistinctKeys(ms) && DistinctKeys(ns);
    hide Good, Jcs, MemberIn, CanonMembers;
    var a, b := CanonMembers(ms), CanonMembers(ns);
    CanonMembersDistinct(ms);
    CanonMembersDistinct(ns);
    forall i | 0 <= i < |ms| ensures MemberIn(ms[i], ns) <==> a[i] in b {
      MemberInIsInCanon(ms, i, ns, n);
    }
    SortsAgree(a, b);
    assert (|ms| == |ns| && forall i | 0 <= i < |ms| :: MemberIn(ms[i], ns))
      <==> |a| == |b| && forall i | 0 <= i < |a| :: a[i] in b;
  }

  /** Two lists of distinct members sort alike exactly when each member of the one is in the
      other and the lengths agree. */
  lemma SortsAgree<T>(a: seq<Keyed<T>>, b: seq<Keyed<T>>)
    requires DistinctKeys(a) && DistinctKeys(b)
    ensures Sort(a) == Sort(b) <==> |a| == |b| && forall i | 0 <= i < |a| :: a[i] in b
  {
    SortSorts(a);
    SortSorts(b);
    SortIsStrict(a);
    SortIsStrict(b);
    if Sort(a) == Sort(b) { InBoth(a, b); }
    if |a| == |b| && forall i | 0 <= i < |a| :: a[i] in b {
      SameMembers(a, b);
      OneStrictOrder(Sort(a), Sort(b));
    }
  }

  /** Canonicality, for all values the parser can return and the printer accepts. */
  lemma PrintedTextIsCanonical(bs: Bytes, v: Json, cs: Bytes, w: Json)
    requires Parse(bs) == Ok(v) && Parse(cs) == Ok(w) && Jcs(v).Ok? && Jcs(w).Ok?
    ensures Jcs(v) == Jcs(w) <==> Equivalent(v, w)
  {
    EquivalentIsSameCanon(v, w, MAX_DEPTH);
    hide Parse, Jcs, Equivalent;
    GoodRoundTrip(v, Jcs(v).value);
    GoodRoundTrip(w, Jcs(w).value);
    CanonPrintsSame(v);
    CanonPrintsSame(w);
  }
}
