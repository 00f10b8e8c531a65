/** The two string operations of the engine: `Array.prototype.join` and `String.prototype.replaceAll`. */
module Text {

  /** `pieces.join(sep)`: the pieces with `sep` between neighbours; `[]` joins to "". */
  function Join(pieces: seq<string>, sep: string): string
    decreases |pieces|
  {
    if |pieces| == 0 then ""
    else if |pieces| == 1 then pieces[0]
    else pieces[0] + sep + Join(pieces[1..], sep)
  }

  /** Joining two non-empty lists puts one separator between their joins. */
  lemma {:induction false} JoinAppend(a: seq<string>, b: seq<string>, sep: string)
    requires |a| > 0 && |b| > 0
    ensures Join(a + b, sep) == Join(a, sep) + sep + Join(b, sep)
    decreases |a|
  {
    if |a| == 1 {
      assert (a + b)[1..] == b;
    } else {
      assert (a + b)[1..] == a[1..] + b;
      JoinAppend(a[1..], b, sep);
    }
  }

  /**
   * `s.replaceAll(pat, rep)`: scanning left to right, every non-overlapping occurrence
   * of `pat` is replaced by `rep`; an empty pattern matches before every character and
   * at the end.
   */
  function ReplaceAll(s: string, pat: string, rep: string): string
    decreases |s|
  {
    if pat == [] then (if s == [] then rep else rep + [s[0]] + ReplaceAll(s[1..], pat, rep))
    else if |s| < |pat| then s
    else if s[..|pat|] == pat then rep + ReplaceAll(s[|pat|..], pat, rep)
    else [s[0]] + ReplaceAll(s[1..], pat, rep)
  }

  /** `pat` occurs in `s` starting at position `i`. */
  predicate Occurs(s: string, pat: string, i: int) {
    0 <= i && i + |pat| <= |s| && s[i..i + |pat|] == pat
  }

  /** `pat` occurs nowhere in `s`. */
  predicate Absent(s: string, pat: string) {
    forall i :: 0 <= i <= |s| ==> !Occurs(s, pat, i)
  }

  /**
   * `c` followed by `pat` holds no occurrence of `pat` that starts inside `c`: `c` can
   * stand immediately before a copy of `pat` without creating an earlier match.
   */
  predicate Clean(c: string, pat: string) {
    forall i :: 0 <= i < |c| ==> !Occurs(c + pat, pat, i)
  }

  /** Replacing a pattern that does not occur changes nothing. */
  lemma {:induction false} ReplaceAbsent(s: string, pat: string, rep: string)
    requires pat != [] && Absent(s, pat)
    ensures ReplaceAll(s, pat, rep) == s
    decreases |s|
  {
    if |s| >= |pat| {
      assert !Occurs(s, pat, 0);
      forall i | 0 <= i <= |s[1..]| ensures !Occurs(s[1..], pat, i) {
        assert !Occurs(s, pat, i + 1);
        if i + |pat| <= |s[1..]| {
          assert s[1..][i..i + |pat|] == s[i + 1..i + 1 + |pat|];
        }
      }
      ReplaceAbsent(s[1..], pat, rep);
    }
  }

  /** A prefix in which no occurrence starts is copied unchanged. */
  lemma {:induction false} ReplaceSkip(c: string, t: string, pat: string, rep: string)
    requires pat != []
    requires forall i :: 0 <= i < |c| ==> !Occurs(c + t, pat, i)
    ensures ReplaceAll(c + t, pat, rep) == c + ReplaceAll(t, pat, rep)
    decreases |c|
  {
    if c != [] {
      var s := c + t;
      assert !Occurs(s, pat, 0);
      assert s[1..] == c[1..] + t;
      forall i | 0 <= i < |c[1..]| ensures !Occurs(c[1..] + t, pat, i) {
        assert !Occurs(s, pat, i + 1);
        if i + |pat| <= |s[1..]| {
          assert s[1..][i..i + |pat|] == s[i + 1..i + 1 + |pat|];
        }
      }
      ReplaceSkip(c[1..], t, pat, rep);
      if |s| < |pat| {
        assert ReplaceAll(s, pat, rep) == s;
        assert ReplaceAll(t, pat, rep) == t;
      } else {
        assert s[..|pat|] != pat by { assert s[0..|pat|] == s[..|pat|]; }
        assert ReplaceAll(s, pat, rep) == [s[0]] + ReplaceAll(s[1..], pat, rep);
        assert ReplaceAll(s[1..], pat, rep) == c[1..] + ReplaceAll(t, pat, rep);
        assert [s[0]] + c[1..] == c;
        assert [s[0]] + (c[1..] + ReplaceAll(t, pat, rep)) == c + ReplaceAll(t, pat, rep);
      }
    } else {
      assert c + t == t;
    }
  }

  /**
   * Every occurrence is replaced: text made of clean chunks separated by `pat` becomes
   * the same chunks separated by `rep`.
   */
  lemma {:induction false} ReplaceJoined(chunks: seq<string>, pat: string, rep: string)
    requires pat != [] && |chunks| > 0
    requires forall k :: 0 <= k < |chunks| ==> Clean(chunks[k], pat)
    ensures ReplaceAll(Join(chunks, pat), pat, rep) == Join(chunks, rep)
    decreases |chunks|
  {
    var c := chunks[0];
    if |chunks| == 1 {
      forall i | 0 <= i <= |c| ensures !Occurs(c, pat, i) {
        if i + |pat| <= |c| {
          assert !Occurs(c + pat, pat, i);
          assert (c + pat)[i..i + |pat|] == c[i..i + |pat|];
        }
      }
      ReplaceAbsent(c, pat, rep);
    } else {
      var rest := Join(chunks[1..], pat);
      var t := pat + rest;
      assert Join(chunks, pat) == c + t;
      forall i | 0 <= i < |c| ensures !Occurs(c + t, pat, i) {
        assert !Occurs(c + pat, pat, i);
        if i + |pat| <= |c + t| {
          assert (c + t)[i..i + |pat|] == (c + pat)[i..i + |pat|];
        }
      }
      ReplaceSkip(c, t, pat, rep);
      assert t[..|pat|] == pat && t[|pat|..] == rest;
      ReplaceJoined(chunks[1..], pat, rep);
    }
  }
}
