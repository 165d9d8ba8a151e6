/** Dictionaries written out: their order, their keys and what is found in them. */
module Dictionaries {
  import opened Common
  import opened JsonValue
  import opened CommentFraming
  import opened CommentJson
  import opened Envelopes

  lemma {:induction false} LessAt(a: seq<nat>, b: seq<nat>, k: nat)
    requires k < |a| && k < |b| && a[..k] == b[..k] && a[k] < b[k]
    ensures LexLess(a, b)
  {
    if k > 0 {
      assert a[0] == a[..k][0] && b[0] == b[..k][0];
      assert a[1..][..k - 1] == a[..k][1..] && b[1..][..k - 1] == b[..k][1..];
      LessAt(a[1..], b[1..], k - 1);
    }
  }

  lemma {:induction false} PrefixIsLess(a: seq<nat>, b: seq<nat>)
    requires |a| < |b| && a == b[..|a|]
    ensures LexLess(a, b)
  {
    if a != [] {
      assert a[0] == b[0] && a[1..] == b[1..][..|a| - 1];
      PrefixIsLess(a[1..], b[1..]);
    }
  }

  lemma NamePrefixIsLess(a: string, b: string)
    requires |a| < |b| && a == b[..|a|]
    ensures NameLess(a, b)
  {
    forall i | 0 <= i < |a| ensures ScalarsOf(a)[i] == ScalarsOf(b)[i] { assert a[i] == b[..|a|][i]; }
    PrefixIsLess(ScalarsOf(a), ScalarsOf(b));
  }

  lemma NameLessAt(a: string, b: string, k: nat)
    requires k < |a| && k < |b| && a[..k] == b[..k] && a[k] < b[k]
    ensures NameLess(a, b)
  {
    var s, t := ScalarsOf(a), ScalarsOf(b);
    forall i | 0 <= i < k ensures s[i] == t[i] {
      assert a[i] == a[..k][i] && b[i] == b[..k][i];
    }
    LessAt(s, t, k);
  }

  lemma {:induction false} ChainIsOrdered(ms: seq<Member>, i: nat, j: nat)
    requires forall k | 0 <= k < |ms| - 1 :: NameLess(ms[k].name, ms[k + 1].name)
    requires i < j < |ms|
    ensures NameLess(ms[i].name, ms[j].name)
    decreases j
  {
    hide NameLess;
    if i + 1 < j {
      ChainIsOrdered(ms, i, j - 1);
      NameOrderIsTransitive(ms[i].name, ms[j - 1].name, ms[j].name);
    }
  }

  lemma ChainOrders(ms: seq<Member>)
    requires forall k | 0 <= k < |ms| - 1 :: NameLess(ms[k].name, ms[k + 1].name)
    ensures InNameOrder(ms)
  {
    hide NameLess;
    forall i, j | 0 <= i < j < |ms| ensures NameLess(ms[i].name, ms[j].name) {
      ChainIsOrdered(ms, i, j);
    }
  }

  lemma {:induction false} FindAt(ms: seq<Member>, i: nat)
    requires InNameOrder(ms) && i < |ms|
    ensures Find(ms, ms[i].name) == Some(ms[i].value)
  {
    hide NameLess;
    if i > 0 {
      assert NameLess(ms[0].name, ms[i].name);
      NameOrderIsIrreflexive(ms[0].name);
      FindAt(ms[1..], i - 1);
    }
  }

  lemma NameOrderIsIrreflexive(a: string)
    ensures !NameLess(a, a)
  {
    LexTotal(ScalarsOf(a), ScalarsOf(a));
  }

  lemma NamesAreKeys(ms: seq<Member>, names: seq<string>)
    requires |ms| == |names| && forall i | 0 <= i < |ms| :: ms[i].name == names[i]
    ensures (set m | m in ms :: m.name) == set n | n in names
  {
    forall n | n in names ensures n in set m | m in ms :: m.name {
      var i :| 0 <= i < |names| && names[i] == n;
      assert ms[i] in ms;
    }
  }

  /** What stands in an ordered dictionary is found in it. */
  lemma FindIn(ms: seq<Member>, m: Member)
    requires InNameOrder(ms) && m in ms
    ensures Find(ms, m.name) == Some(m.value)
  {
    var i :| 0 <= i < |ms| && ms[i] == m;
    FindAt(ms, i);
  }
}
