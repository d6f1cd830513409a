/** The few Python string and path primitives that the tree reader relies on:
    `str.endswith`, `str.replace` and `os.path.join` (POSIX flavour). */
module PyStr {

  /** `s.startswith(prefix)` */
  predicate StartsWith(s: string, prefix: string) {
    |prefix| <= |s| && s[..|prefix|] == prefix
  }

  /** `s.endswith(suffix)` */
  predicate EndsWith(s: string, suffix: string) {
    |suffix| <= |s| && s[|s| - |suffix|..] == suffix
  }

  /** `pat` occurs in `s` starting at position `p`. */
  predicate OccursAt(s: string, pat: string, p: int) {
    0 <= p && p + |pat| <= |s| && s[p..p + |pat|] == pat
  }

  /** `s.replace(pat, rep)` for a non-empty pattern: scanning from the left,
      EVERY non-overlapping occurrence of `pat` is rewritten, not just a suffix. */
  function Replace(s: string, pat: string, rep: string): (r: string)
    requires pat != []
    ensures |rep| >= |pat| ==> |r| >= |s|
    ensures |rep| == |pat| ==> |r| == |s|
    decreases |s|
  {
    if |s| < |pat| then s
    else if s[..|pat|] == pat then rep + Replace(s[|pat|..], pat, rep)
    else [s[0]] + Replace(s[1..], pat, rep)
  }

  /** `os.path.join(dir, name)` on POSIX: an absolute `name` wins, otherwise a
      separator is inserted unless `dir` is empty or already ends with one. */
  function Join(dir: string, name: string): (r: string)
    ensures EndsWith(r, name)
    ensures StartsWith(name, "/") || StartsWith(r, dir)
  {
    if StartsWith(name, "/") then name
    else if dir == [] || EndsWith(dir, "/") then dir + name
    else dir + "/" + name
  }

  /** Joining a relative name onto a directory without a trailing separator
      inserts exactly one separator. */
  lemma JoinRelative(dir: string, name: string)
    requires dir != [] && dir[|dir| - 1] != '/'
    requires name != [] && name[0] != '/'
    ensures Join(dir, name) == dir + "/" + name
  {
    assert !StartsWith(name, "/") by { assert name[..1][0] == name[0]; }
    assert !EndsWith(dir, "/") by { assert dir[|dir| - 1..][0] == dir[|dir| - 1]; }
  }

  /** A suffix of a suffix is a suffix. */
  lemma EndsWithTransitive(s: string, t: string, u: string)
    ensures EndsWith(s, t) && EndsWith(t, u) ==> EndsWith(s, u)
  {
    if EndsWith(s, t) && EndsWith(t, u) {
      assert s[|s| - |u|..] == s[|s| - |t|..][|t| - |u|..];
    }
  }

  /** The first character of `pat` does not recur in it, so two occurrences
      of `pat` never overlap (true of `.dis`). */
  predicate FirstCharUnique(pat: string) {
    pat != [] && forall k :: 0 < k < |pat| ==> pat[k] != pat[0]
  }

  /** Prepending characters keeps a suffix. */
  lemma EndsWithPrepend(a: string, t: string, u: string)
    requires EndsWith(t, u)
    ensures EndsWith(a + t, u)
  {
    assert (a + t)[|a + t| - |u|..] == t[|t| - |u|..];
  }

  /** Dropping a prefix that does not reach into the suffix keeps it. */
  lemma EndsWithDrop(s: string, d: nat, u: string)
    requires EndsWith(s, u) && d + |u| <= |s|
    ensures EndsWith(s[d..], u)
  {
    assert s[d..][|s[d..]| - |u|..] == s[|s| - |u|..];
  }

  /** A pattern that cannot overlap itself, found both at the start and at the
      end of a longer string, occurs there twice without overlap. */
  lemma NoOverlapAtBothEnds(s: string, pat: string)
    requires FirstCharUnique(pat) && EndsWith(s, pat)
    requires |pat| < |s| && s[..|pat|] == pat
    ensures 2 * |pat| <= |s|
  {
    var k := |s| - |pat|;
    assert s[k] == pat[0] by { assert s[|s| - |pat|..][0] == s[k]; }
    PrefixCharAt(s, pat, k);
  }

  /** A string that starts with `pat` agrees with it on `pat`'s positions. */
  lemma PrefixCharAt(s: string, pat: string, k: nat)
    requires |pat| <= |s| && s[..|pat|] == pat
    ensures k < |pat| ==> s[k] == pat[k]
  {
    if k < |pat| {
      assert s[..|pat|][k] == s[k];
    }
  }

  /** For a pattern that cannot overlap itself, `replace` rewrites a trailing
      occurrence: a string ending in `pat` becomes one ending in `rep`. */
  lemma {:induction false} ReplaceKeepsSuffix(s: string, pat: string, rep: string)
    requires FirstCharUnique(pat)
    ensures EndsWith(s, pat) ==> EndsWith(Replace(s, pat, rep), rep)
    decreases |s|
  {
    if EndsWith(s, pat) {
      var n := |pat|;
      if s[..n] == pat {
        if |s| == n {
          assert Replace(s, pat, rep) == rep + Replace(s[n..], pat, rep);
          assert Replace(s[n..], pat, rep) == [];
          EndsWithPrepend(rep, [], []);
          assert rep + [] == rep && rep[|rep| - |rep|..] == rep;
        } else {
          NoOverlapAtBothEnds(s, pat);
          EndsWithDrop(s, n, pat);
          ReplaceKeepsSuffix(s[n..], pat, rep);
          EndsWithPrepend(rep, Replace(s[n..], pat, rep), rep);
        }
      } else {
        EndsWithDrop(s, 1, pat);
        ReplaceKeepsSuffix(s[1..], pat, rep);
        EndsWithPrepend([s[0]], Replace(s[1..], pat, rep), rep);
      }
    }
  }

  /** Where `pat` does not occur at all, `replace` leaves the string alone. */
  lemma {:induction false} ReplaceWithoutOccurrence(s: string, pat: string, rep: string)
    requires pat != []
    requires forall p :: !OccursAt(s, pat, p)
    ensures Replace(s, pat, rep) == s
    decreases |s|
  {
    if |s| >= |pat| {
      assert !OccursAt(s, pat, 0);
      forall p ensures !OccursAt(s[1..], pat, p) {
        if OccursAt(s[1..], pat, p) {
          assert s[1..][p..p + |pat|] == s[p + 1..p + 1 + |pat|];
          assert OccursAt(s, pat, p + 1);
        }
      }
      ReplaceWithoutOccurrence(s[1..], pat, rep);
      assert [s[0]] + s[1..] == s;
    }
  }

  /** When the only occurrence of `pat` is the suffix, `replace` swaps the
      extension: the behaviour the tree reader means to rely on. */
  lemma {:induction false} ReplaceOnlySuffix(s: string, pat: string, rep: string)
    requires pat != []
    requires EndsWith(s, pat)
    requires forall p :: p < |s| - |pat| ==> !OccursAt(s, pat, p)
    ensures Replace(s, pat, rep) == s[..|s| - |pat|] + rep
    decreases |s|
  {
    if |s| == |pat| {
      assert s[..|pat|] == pat;
      assert s[|pat|..] == [];
      assert Replace(s, pat, rep) == rep + Replace([], pat, rep);
    } else {
      assert !OccursAt(s, pat, 0);
      var t := s[1..];
      assert t[|t| - |pat|..] == s[|s| - |pat|..];
      forall p | p < |t| - |pat| ensures !OccursAt(t, pat, p) {
        if OccursAt(t, pat, p) {
          assert t[p..p + |pat|] == s[p + 1..p + 1 + |pat|];
          assert OccursAt(s, pat, p + 1);
        }
      }
      ReplaceOnlySuffix(t, pat, rep);
      assert [s[0]] + t[..|t| - |pat|] == s[..|s| - |pat|];
    }
  }
}
