/** The flag parser of the record commands (`ParsedFlags::parse` in src/bin/zach-actions.rs). */
module CommandFlags {
  import opened Common

  datatype FlagError = UnexpectedPositional | UnknownFlag | DuplicateFlag | MissingValue

  predicate Dashed(s: string) {
    "--" <= s
  }

  /** The text starts with two hyphens. */
  predicate LooksLikeFlag(s: string) {
    |s| >= 2 && s[0] == '-' && s[1] == '-'
  }

  predicate FlagAt(args: seq<string>, allowed: seq<string>, k: nat)
    requires k < |args|
  {
    LooksLikeFlag(args[k]) && |args[k]| > 2 && args[k] in allowed
  }

  /** Up to `n` flags and values alternate; each flag is allowed and given once, no value looks
      like a flag. */
  predicate Alternating(args: seq<string>, allowed: seq<string>, n: nat) {
    && n <= |args| && n % 2 == 0
    && (forall k | 0 <= k < n :: if k % 2 == 0 then FlagAt(args, allowed, k) else !LooksLikeFlag(args[k]))
    && forall j, k | 0 <= j < k < n && j % 2 == 0 && k % 2 == 0 :: args[j] != args[k]
  }

  /** Each flag before `n` has the value that follows it, and there are no other flags. */
  predicate Assigns(flags: map<string, string>, args: seq<string>, n: nat) {
    && n <= |args|
    && (forall k | 0 <= k < n - 1 && k % 2 == 0 :: args[k] in flags && flags[args[k]] == args[k + 1])
    && forall f | f in flags :: exists k :: 0 <= k < n - 1 && k % 2 == 0 && args[k] == f
  }

  lemma OneMoreFlag(args: seq<string>, allowed: seq<string>, i: nat, flags: map<string, string>)
    requires Alternating(args, allowed, i) && Assigns(flags, args, i) && i + 1 < |args|
    requires FlagAt(args, allowed, i) && args[i] !in flags && !LooksLikeFlag(args[i + 1])
    ensures Alternating(args, allowed, i + 2) && Assigns(flags[args[i] := args[i + 1]], args, i + 2)
  {
    hide FlagAt, LooksLikeFlag;
    forall k | 0 <= k < i && k % 2 == 0 ensures args[k] != args[i] { assert k < i - 1; }
    var more := flags[args[i] := args[i + 1]];
    forall f | f in more ensures exists k :: 0 <= k < i + 1 && k % 2 == 0 && args[k] == f {
      if f == args[i] {
        assert i < i + 1;
      } else {
        var k :| 0 <= k < i - 1 && k % 2 == 0 && args[k] == f;
      }
    }
  }

  lemma NothingYet(args: seq<string>, allowed: seq<string>)
    ensures Alternating(args, allowed, 0) && Assigns(map[], args, 0)
  {
  }

  lemma NoFlag(args: seq<string>, allowed: seq<string>, i: nat)
    requires i < |args| && i % 2 == 0 && !FlagAt(args, allowed, i)
    ensures !Alternating(args, allowed, |args|)
  {
    hide FlagAt, LooksLikeFlag;
  }

  lemma NoValue(args: seq<string>, allowed: seq<string>, i: nat)
    requires i < |args| && i % 2 == 0 && (i + 1 == |args| || LooksLikeFlag(args[i + 1]))
    ensures !Alternating(args, allowed, |args|)
  {
    hide FlagAt, LooksLikeFlag;
    assert i + 1 < |args| ==> (i + 1) % 2 != 0;
  }

  lemma Repeated(args: seq<string>, allowed: seq<string>, i: nat, flags: map<string, string>)
    requires i < |args| && i % 2 == 0 && Assigns(flags, args, i) && args[i] in flags
    ensures !Alternating(args, allowed, |args|)
  {
    hide FlagAt, LooksLikeFlag;
    var k :| 0 <= k < i - 1 && k % 2 == 0 && args[k] == args[i];
  }

  /** The parse succeeds exactly on alternating flags and values, with exactly those values. */
  method ParseFlags(args: seq<string>, allowed: seq<string>) returns (r: Result<map<string, string>, FlagError>)
    ensures r.Ok? <==> Alternating(args, allowed, |args|)
    ensures r.Ok? ==> Assigns(r.value, args, |args|)
  {
    hide Alternating, Assigns;
    NothingYet(args, allowed);
    var flags: map<string, string> := map[];
    var seen: set<string> := {};
    var i := 0;
    while i < |args|
      invariant i <= |args| && i % 2 == 0 && Alternating(args, allowed, i) && Assigns(flags, args, i) && seen == flags.Keys
    {
      var arg := args[i];
      if !FlagAt(args, allowed, i) { NoFlag(args, allowed, i); }
      if !Dashed(arg) || arg == "--" { return Err(UnexpectedPositional); }
      if arg !in allowed { return Err(UnknownFlag); }
      if arg in seen {
        Repeated(args, allowed, i, flags);
        return Err(DuplicateFlag);
      }
      seen := seen + {arg};
      i := i + 1;
      if i >= |args| || Dashed(args[i]) {
        NoValue(args, allowed, i - 1);
        return Err(MissingValue);
      }
      OneMoreFlag(args, allowed, i - 1, flags);
      flags := flags[arg := args[i]];
      i := i + 1;
    }
    r := Ok(flags);
  }
}
