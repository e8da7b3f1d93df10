/**
 * The output key of a translation: the request key with every "requests/"
 * replaced by "translations/" (lambda.py:31, Python's `str.replace` with no count).
 */
module KeyDerivation {

  const REQUESTS_MARKER: string := "requests/"
  const TRANSLATIONS_MARKER: string := "translations/"

  /** `pat` occurs in `s` starting at index `i`. */
  predicate OccursAt(s: string, pat: string, i: nat)
  {
    i + |pat| <= |s| && s[i..i + |pat|] == pat
  }

  predicate Contains(s: string, pat: string)
  {
    exists i: nat | i <= |s| :: OccursAt(s, pat, i)
  }

  /**
   * Python's `s.replace(pat, rep)`: scan left to right; where `pat` starts,
   * emit `rep` and resume after the match; otherwise keep the character.
   */
  function ReplaceAll(s: string, pat: string, rep: string): string
    requires pat != []
    decreases |s|
  {
    if s == [] then []
    else if OccursAt(s, pat, 0) then rep + ReplaceAll(s[|pat|..], pat, rep)
    else [s[0]] + ReplaceAll(s[1..], pat, rep)
  }

  function DeriveOutputKey(key: string): string
  {
    ReplaceAll(key, REQUESTS_MARKER, TRANSLATIONS_MARKER)
  }

  /** One of `x` and `y` is a prefix of the other. */
  predicate Overlaps(x: string, y: string)
  {
    if |x| <= |y| then x == y[..|x|] else y == x[..|y|]
  }

  /** No non-empty suffix of `x` overlaps `y`: an occurrence of `y` can neither sit inside `x` nor start in it and run past its end. */
  predicate Separated(x: string, y: string)
  {
    forall o :: 0 <= o < |x| ==> !Overlaps(x[o..], y)
  }

  lemma ShiftOccurrence(s: string, pat: string, j: nat)
    requires s != []
    ensures OccursAt(s[1..], pat, j) <==> OccursAt(s, pat, j + 1)
  {
    if j + 1 + |pat| <= |s| {
      assert s[1..][j..j + |pat|] == s[j + 1..j + 1 + |pat|];
    }
  }

  /** A string without the pattern is left unchanged. */
  lemma {:induction false} ReplaceAllWithoutOccurrence(s: string, pat: string, rep: string)
    requires pat != []
    requires !Contains(s, pat)
    ensures ReplaceAll(s, pat, rep) == s
    decreases |s|
  {
    if s != [] {
      assert !OccursAt(s, pat, 0);
      forall j: nat ensures !OccursAt(s[1..], pat, j) {
        ShiftOccurrence(s, pat, j);
      }
      ReplaceAllWithoutOccurrence(s[1..], pat, rep);
    }
  }

  /**
   * Replace-all is "find the first occurrence, replace it, continue after it":
   * everything before the first occurrence is kept and the rest is handled
   * by the same rule.
   */
  lemma {:induction false} ReplaceAllAtFirstOccurrence(s: string, pat: string, rep: string, i: nat)
    requires pat != []
    requires OccursAt(s, pat, i)
    requires forall j: nat :: j < i ==> !OccursAt(s, pat, j)
    ensures ReplaceAll(s, pat, rep) == s[..i] + rep + ReplaceAll(s[i + |pat|..], pat, rep)
    decreases i
  {
    if i == 0 {
      assert s[..0] == [];
    } else {
      var t := s[1..];
      var tail := s[i + |pat|..];
      assert ReplaceAll(s, pat, rep) == [s[0]] + ReplaceAll(t, pat, rep) by {
        assert !OccursAt(s, pat, 0);
      }
      assert ReplaceAll(t, pat, rep) == t[..i - 1] + rep + ReplaceAll(tail, pat, rep) by {
        NoEarlierOccurrenceInTail(s, pat, i);
        ShiftOccurrence(s, pat, i - 1);
        ReplaceAllAtFirstOccurrence(t, pat, rep, i - 1);
        assert t[i - 1 + |pat|..] == tail;
      }
      assert s[..i] == [s[0]] + t[..i - 1];
      calc {
        ReplaceAll(s, pat, rep);
        [s[0]] + ReplaceAll(t, pat, rep);
        [s[0]] + (t[..i - 1] + rep + ReplaceAll(tail, pat, rep));
        s[..i] + rep + ReplaceAll(tail, pat, rep);
      }
    }
  }

  lemma NoEarlierOccurrenceInTail(s: string, pat: string, i: nat)
    requires s != [] && i > 0
    requires forall j: nat :: j < i ==> !OccursAt(s, pat, j)
    ensures forall j: nat :: j < i - 1 ==> !OccursAt(s[1..], pat, j)
  {
    forall j: nat | j < i - 1 ensures !OccursAt(s[1..], pat, j) {
      ShiftOccurrence(s, pat, j);
    }
  }

  /** When the replacement is longer than the pattern, replacing never shortens and strictly lengthens a string that contains the pattern. */
  lemma {:induction false} ReplaceAllLength(s: string, pat: string, rep: string)
    requires pat != [] && |rep| > |pat|
    ensures |ReplaceAll(s, pat, rep)| >= |s|
    ensures Contains(s, pat) ==> |ReplaceAll(s, pat, rep)| > |s|
    decreases |s|
  {
    if s != [] {
      if OccursAt(s, pat, 0) {
        ReplaceAllLength(s[|pat|..], pat, rep);
      } else {
        ReplaceAllLength(s[1..], pat, rep);
        if Contains(s, pat) {
          var i: nat :| OccursAt(s, pat, i);
          ShiftOccurrence(s, pat, i - 1);
          assert OccursAt(s[1..], pat, i - 1);
        }
      }
    }
  }

  /** Replacing changes a string exactly when the pattern occurs in it. */
  lemma ReplaceAllUnchangedIff(s: string, pat: string, rep: string)
    requires pat != [] && |rep| > |pat|
    ensures ReplaceAll(s, pat, rep) == s <==> !Contains(s, pat)
  {
    ReplaceAllLength(s, pat, rep);
    if !Contains(s, pat) {
      ReplaceAllWithoutOccurrence(s, pat, rep);
    }
  }

  /** A prefix `q` of the output that no replacement can start inside was already a prefix of the input. */
  lemma {:induction false} PrefixSurvivesReplace(t: string, q: string, pat: string, rep: string)
    requires pat != []
    requires Separated(q, rep)
    ensures |q| <= |ReplaceAll(t, pat, rep)| && ReplaceAll(t, pat, rep)[..|q|] == q ==> |q| <= |t| && t[..|q|] == q
    decreases |t|
  {
    if q == [] {
      assert t[..0] == q;
    } else if t == [] {
      assert ReplaceAll(t, pat, rep) == [];
    } else if OccursAt(t, pat, 0) {
      var rest := ReplaceAll(t[|pat|..], pat, rep);
      assert ReplaceAll(t, pat, rep) == rep + rest;
      PrefixOfConcatOverlaps(q, rep, rest);
      assert q[0..] == q;
      assert !Overlaps(q, rep);
    } else {
      var rest := ReplaceAll(t[1..], pat, rep);
      forall o | 0 <= o < |q[1..]| ensures !Overlaps(q[1..][o..], rep) {
        assert q[1..][o..] == q[o + 1..];
      }
      PrefixSurvivesReplace(t[1..], q[1..], pat, rep);
      assert ReplaceAll(t, pat, rep) == [t[0]] + rest;
      PrefixOfCons(t[0], rest, q);
      assert |q| <= |t| ==> t[..|q|] == [t[0]] + t[1..][..|q| - 1];
    }
  }

  lemma PrefixOfConcatOverlaps(q: string, x: string, y: string)
    ensures |q| <= |x + y| && (x + y)[..|q|] == q ==> Overlaps(q, x)
  {
    if |q| <= |x + y| && (x + y)[..|q|] == q {
      if |q| <= |x| {
        assert x[..|q|] == (x + y)[..|q|];
      } else {
        assert q[..|x|] == (x + y)[..|x|];
      }
    }
  }

  lemma PrefixOfCons(c: char, rest: string, q: string)
    requires q != []
    ensures |q| <= |[c] + rest| && ([c] + rest)[..|q|] == q ==> |q[1..]| <= |rest| && rest[..|q[1..]|] == q[1..]
  {
    if |q| <= |[c] + rest| && ([c] + rest)[..|q|] == q {
      assert rest[..|q| - 1] == ([c] + rest)[..|q|][1..];
    }
  }

  lemma OccursInsideLeft(a: string, b: string, pat: string, i: nat)
    requires i < |a|
    ensures OccursAt(a + b, pat, i) ==> Overlaps(a[i..], pat)
  {
    if OccursAt(a + b, pat, i) {
      if |a| - i <= |pat| {
        assert a[i..] == (a + b)[i..i + |pat|][..|a| - i];
      } else {
        assert pat == a[i..][..|pat|];
      }
    }
  }

  lemma OccursInsideRight(a: string, b: string, pat: string, i: nat)
    requires i >= |a|
    ensures OccursAt(a + b, pat, i) <==> OccursAt(b, pat, i - |a|)
  {
    if i + |pat| <= |a + b| {
      assert (a + b)[i..i + |pat|] == b[i - |a|..i - |a| + |pat|];
    }
  }

  lemma OccursAtStart(c: char, rest: string, pat: string)
    requires pat != []
    ensures OccursAt([c] + rest, pat, 0) <==> c == pat[0] && |pat| - 1 <= |rest| && rest[..|pat| - 1] == pat[1..]
  {
    if |pat| - 1 <= |rest| {
      assert ([c] + rest)[..|pat|] == [c] + rest[..|pat| - 1];
    }
  }

  /** When pattern and replacement are separated both ways, the output of a replace-all never contains the pattern. */
  lemma {:induction false} ReplaceAllRemovesPattern(s: string, pat: string, rep: string)
    requires pat != []
    requires Separated(rep, pat) && Separated(pat, rep)
    ensures !Contains(ReplaceAll(s, pat, rep), pat)
    decreases |s|
  {
    if s != [] {
      var out := ReplaceAll(s, pat, rep);
      if OccursAt(s, pat, 0) {
        var rest := ReplaceAll(s[|pat|..], pat, rep);
        ReplaceAllRemovesPattern(s[|pat|..], pat, rep);
        assert out == rep + rest;
        forall i: nat ensures !OccursAt(out, pat, i) {
          if i < |rep| {
            OccursInsideLeft(rep, rest, pat, i);
          } else {
            OccursInsideRight(rep, rest, pat, i);
          }
        }
      } else {
        var rest := ReplaceAll(s[1..], pat, rep);
        ReplaceAllRemovesPattern(s[1..], pat, rep);
        assert out == [s[0]] + rest;
        forall o | 0 <= o < |pat[1..]| ensures !Overlaps(pat[1..][o..], rep) {
          assert pat[1..][o..] == pat[o + 1..];
        }
        PrefixSurvivesReplace(s[1..], pat[1..], pat, rep);
        OccursAtStart(s[0], rest, pat);
        OccursAtStart(s[0], s[1..], pat);
        assert [s[0]] + s[1..] == s;
        forall i: nat ensures !OccursAt(out, pat, i) {
          if i > 0 {
            OccursInsideRight([s[0]], rest, pat, i);
          }
        }
      }
    }
  }

  /** "requests/" and "translations/" cannot overlap one another. */
  lemma MarkersSeparated()
    ensures Separated(TRANSLATIONS_MARKER, REQUESTS_MARKER)
    ensures Separated(REQUESTS_MARKER, TRANSLATIONS_MARKER)
  {
    var req, tr := REQUESTS_MARKER, TRANSLATIONS_MARKER;
    forall o | 0 <= o < |tr| ensures !Overlaps(tr[o..], req) {
      if o == 1 {
        assert tr[o..][1] != req[1];
      } else {
        assert tr[o..][0] != req[0];
      }
    }
    forall o | 0 <= o < |req| ensures !Overlaps(req[o..], tr) {
      if o == 6 {
        assert req[o..][1] != tr[1];
      } else {
        assert req[o..][0] != tr[0];
      }
    }
  }

  /** A derived key never contains "requests/". */
  lemma DerivedKeyLacksMarker(key: string)
    ensures !Contains(DeriveOutputKey(key), REQUESTS_MARKER)
  {
    MarkersSeparated();
    ReplaceAllRemovesPattern(key, REQUESTS_MARKER, TRANSLATIONS_MARKER);
  }

  /** Deriving twice gives the same key as deriving once. */
  lemma DeriveOutputKeyIdempotent(key: string)
    ensures DeriveOutputKey(DeriveOutputKey(key)) == DeriveOutputKey(key)
  {
    DerivedKeyLacksMarker(key);
    ReplaceAllWithoutOccurrence(DeriveOutputKey(key), REQUESTS_MARKER, TRANSLATIONS_MARKER);
  }

  /** The output key equals the request key exactly when the request key has no "requests/". */
  lemma DeriveOutputKeyUnchangedIff(key: string)
    ensures DeriveOutputKey(key) == key <==> !Contains(key, REQUESTS_MARKER)
  {
    ReplaceAllUnchangedIff(key, REQUESTS_MARKER, TRANSLATIONS_MARKER);
  }

  /** A string lacking one of the pattern's characters does not contain the pattern. */
  lemma MissingCharacter(s: string, pat: string, c: char)
    requires c in pat && c !in s
    ensures !Contains(s, pat)
  {
    forall i: nat | i + |pat| <= |s| ensures !OccursAt(s, pat, i) {
      assert multiset(s[i..i + |pat|]) <= multiset(s) by {
        assert s == s[..i] + s[i..i + |pat|] + s[i + |pat|..];
      }
    }
  }

  /** A prefix without "r" is kept, the "requests/" after it is replaced, and derivation continues behind it. */
  lemma DeriveOutputKeyAfterPrefix(prefix: string, rest: string)
    requires 'r' !in prefix
    ensures DeriveOutputKey(prefix + REQUESTS_MARKER + rest) == prefix + TRANSLATIONS_MARKER + DeriveOutputKey(rest)
  {
    var key := prefix + REQUESTS_MARKER + rest;
    var i := |prefix|;
    assert key[i..i + |REQUESTS_MARKER|] == REQUESTS_MARKER;
    forall j: nat | j < i ensures !OccursAt(key, REQUESTS_MARKER, j) {
      assert key[j] == prefix[j];
      assert j + |REQUESTS_MARKER| <= |key| ==> key[j..j + |REQUESTS_MARKER|][0] == key[j];
    }
    ReplaceAllAtFirstOccurrence(key, REQUESTS_MARKER, TRANSLATIONS_MARKER, i);
    assert key[..i] == prefix;
    assert key[i + |REQUESTS_MARKER|..] == rest;
  }

  /** A key without a "q" cannot hold "requests/" and is kept as it is. */
  lemma DeriveOutputKeyWithoutQ(key: string)
    requires 'q' !in key
    ensures DeriveOutputKey(key) == key
  {
    MissingCharacter(key, REQUESTS_MARKER, 'q');
    ReplaceAllWithoutOccurrence(key, REQUESTS_MARKER, TRANSLATIONS_MARKER);
  }

  /** A "requests/" between a prefix without "r" and a rest without "q" is the only one replaced. */
  lemma DeriveOutputKeySingleMarker(prefix: string, rest: string)
    requires 'r' !in prefix && 'q' !in rest
    ensures DeriveOutputKey(prefix + REQUESTS_MARKER + rest) == prefix + TRANSLATIONS_MARKER + rest
  {
    DeriveOutputKeyAfterPrefix(prefix, rest);
    DeriveOutputKeyWithoutQ(rest);
  }

  /** The key of a request dropped under "foo/requests/": "foo/" + "requests/" + "bar.json" becomes "foo/translations/bar.json". */
  lemma DeriveOutputKeyExample(prefix: string, rest: string)
    requires prefix == "foo/" && rest == "bar.json"
    ensures DeriveOutputKey(prefix + REQUESTS_MARKER + rest) == "foo/translations/bar.json"
  {
    assert 'r' !in prefix;
    assert 'q' !in rest;
    DeriveOutputKeySingleMarker(prefix, rest);
    assert prefix + TRANSLATIONS_MARKER + rest == "foo/translations/bar.json";
  }

  /** Every occurrence is replaced, not only the first: "requests/requests/x" becomes "translations/translations/x'", where x' is x derived. */
  lemma {:induction false} DeriveOutputKeyReplacesEvery(rest: string)
    ensures DeriveOutputKey(REQUESTS_MARKER + REQUESTS_MARKER + rest)
         == TRANSLATIONS_MARKER + TRANSLATIONS_MARKER + DeriveOutputKey(rest)
  {
    var none: string := [];
    assert REQUESTS_MARKER + REQUESTS_MARKER + rest == none + REQUESTS_MARKER + (REQUESTS_MARKER + rest);
    DeriveOutputKeyAfterPrefix(none, REQUESTS_MARKER + rest);
    assert REQUESTS_MARKER + rest == none + REQUESTS_MARKER + rest;
    DeriveOutputKeyAfterPrefix(none, rest);
  }

  /** A key outside "requests/" is returned unchanged. */
  lemma DeriveOutputKeyOutsideRequests()
    ensures DeriveOutputKey("other/path.json") == "other/path.json"
  {
    var key := "other/path.json";
    assert 'q' !in key;
    DeriveOutputKeyWithoutQ(key);
  }
}
