/** The string operations the comment formats are built from: splitting, joining, counting. */
module Text {

  predicate OccursAt(s: string, t: string, i: nat) {
    i + |t| <= |s| && s[i..i + |t|] == t
  }

  /** Python's `t in s`. */
  predicate Contains(s: string, t: string) {
    exists i | 0 <= i <= |s| :: OccursAt(s, t, i)
  }

  /** Python's `s.count(t)` from position `i`: occurrences that do not overlap, left to right. */
  function CountFrom(s: string, t: string, i: nat): nat
    requires t != "" && i <= |s|
    decreases |s| - i
  {
    if i + |t| > |s| then 0
    else if OccursAt(s, t, i) then 1 + CountFrom(s, t, i + |t|)
    else CountFrom(s, t, i + 1)
  }

  function Count(s: string, t: string): nat
    requires t != ""
  {
    CountFrom(s, t, 0)
  }

  lemma {:induction false} CountNone(s: string, t: string, i: nat)
    requires t != "" && i <= |s| && forall j | i <= j :: !OccursAt(s, t, j)
    ensures CountFrom(s, t, i) == 0
    decreases |s| - i
  {
    if i + |t| <= |s| { CountNone(s, t, i + 1); }
  }

  lemma {:induction false} CountPositive(s: string, t: string, i: nat, k: nat)
    requires t != "" && i <= k && OccursAt(s, t, k)
    ensures CountFrom(s, t, i) >= 1
    decreases k - i
  {
    if !OccursAt(s, t, i) { CountPositive(s, t, i + 1, k); }
  }

  /** A text that occurs at one place only is counted once. */
  lemma {:induction false} CountOnce(s: string, t: string, i: nat, k: nat)
    requires t != "" && i <= k && OccursAt(s, t, k) && forall j | i <= j && j != k :: !OccursAt(s, t, j)
    ensures CountFrom(s, t, i) == 1
    decreases k - i
  {
    if i < k { CountOnce(s, t, i + 1, k); } else { CountNone(s, t, i + |t|); }
  }

  /** A text that occurs at the start and again after that is counted more than once. */
  lemma CountTwice(s: string, t: string, k: nat)
    requires t != "" && OccursAt(s, t, 0) && |t| <= k && OccursAt(s, t, k)
    ensures Count(s, t) >= 2
  {
    CountPositive(s, t, |t|, k);
  }

  // ----- splitting and joining

  predicate Free(s: string, sep: char) {
    forall i | 0 <= i < |s| :: s[i] != sep
  }

  /** Python's `s.split(sep)` for a one-character separator. */
  function Split(s: string, sep: char): (parts: seq<string>)
    ensures parts != [] && forall i | 0 <= i < |parts| :: Free(parts[i], sep)
  {
    if s == "" then [""]
    else
      var rest := Split(s[1..], sep);
      if s[0] == sep then [""] + rest else [[s[0]] + rest[0]] + rest[1..]
  }

  /** Python's `sep.join(parts)`. */
  function Join(parts: seq<string>, sep: char): string {
    if parts == [] then "" else if |parts| == 1 then parts[0] else parts[0] + [sep] + Join(parts[1..], sep)
  }

  lemma {:induction false} JoinOfSplit(s: string, sep: char)
    ensures Join(Split(s, sep), sep) == s
  {
    if s != "" {
      var rest := Split(s[1..], sep);
      JoinOfSplit(s[1..], sep);
      if s[0] == sep {
        assert ([""] + rest)[1..] == rest;
        assert "" + [sep] + s[1..] == s;
      } else {
        var parts := [[s[0]] + rest[0]] + rest[1..];
        assert parts[1..] == rest[1..];
        if |rest| == 1 {
          assert [s[0]] + s[1..] == s;
        } else {
          assert [s[0]] + rest[0] + [sep] + Join(rest[1..], sep) == [s[0]] + (rest[0] + [sep] + Join(rest[1..], sep));
        }
      }
    }
  }

  lemma {:induction false} SplitFree(s: string, sep: char)
    requires Free(s, sep)
    ensures Split(s, sep) == [s]
  {
    if s != "" {
      SplitFree(s[1..], sep);
      assert [s[0]] + s[1..] == s;
    }
  }

  /** The first part of a text is split off at the first separator. */
  lemma {:induction false} SplitFirst(p: string, s: string, sep: char)
    requires Free(p, sep)
    ensures Split(p + [sep] + s, sep) == [p] + Split(s, sep)
  {
    var t := p + [sep] + s;
    if p == "" {
      assert t[1..] == s;
    } else {
      assert t[1..] == p[1..] + [sep] + s;
      SplitFirst(p[1..], s, sep);
      assert [p[0]] + p[1..] == p;
    }
  }

  lemma {:induction false} SplitLast(s: string, p: string, sep: char)
    requires Free(p, sep)
    ensures Split(s + [sep] + p, sep) == Split(s, sep) + [p]
  {
    var t := s + [sep] + p;
    if s == "" {
      assert t == "" + [sep] + p;
      SplitFirst("", p, sep);
      SplitFree(p, sep);
    } else {
      assert t[1..] == s[1..] + [sep] + p;
      SplitLast(s[1..], p, sep);
    }
  }

  /** Splitting what was joined gives the parts back, when none contains the separator. */
  lemma {:induction false} SplitOfJoin(parts: seq<string>, sep: char)
    requires parts != [] && forall i | 0 <= i < |parts| :: Free(parts[i], sep)
    ensures Split(Join(parts, sep), sep) == parts
  {
    if |parts| == 1 {
      SplitFree(parts[0], sep);
    } else {
      SplitFirst(parts[0], Join(parts[1..], sep), sep);
      SplitOfJoin(parts[1..], sep);
    }
  }

  /** Bytes of the UTF-8 form. */
  function ByteLength(s: string): nat {
    if s == "" then 0
    else ByteLength(s[1..]) + (if s[0] as int < 0x80 then 1 else if s[0] as int < 0x800 then 2 else if s[0] as int < 0x10000 then 3 else 4)
  }
}
