/** The command line's glob matcher: a loop that remembers only the last star. */
module Glob {

  // ----- the meaning of a pattern -----

  /** The usual meaning: '*' stands for any text, '?' for any one character. */
  predicate Match(pat: string, s: string)
    decreases |pat| + |s|
  {
    if pat == "" then s == ""
    else if pat[0] == '*' then Match(pat[1..], s) || (s != "" && Match(pat, s[1..]))
    else s != "" && (pat[0] == '?' || pat[0] == s[0]) && Match(pat[1..], s[1..])
  }

  /** The meaning the loop gives: a character is compared before a star is considered, so
      a star facing a star in the text stands for just that character. */
  predicate Accepts(pat: string, s: string)
    decreases |pat|, 0, |s|
  {
    if pat == "" then s == ""
    else if s != "" && Fits(pat[0], s[0]) then Accepts(pat[1..], s[1..])
    else pat[0] == '*' && AcceptsLater(pat[1..], s)
  }

  /** Accepted from here or from some later place in the text. */
  predicate AcceptsLater(q: string, s: string)
    decreases |q|, 1, |s|
  {
    Accepts(q, s) || (s != "" && AcceptsLater(q, s[1..]))
  }

  predicate Fits(p: char, c: char)
  {
    p == '?' || p == c
  }

  // ----- remembering only the last star -----

  lemma {:induction false} LaterFrom(q: string, s: string, k: nat)
    requires k <= |s| && AcceptsLater(q, s[k..])
    ensures AcceptsLater(q, s)
    decreases k
  {
    hide Accepts;
    if k == 0 {
      assert s[0..] == s;
    } else {
      assert s[1..][k - 1..] == s[k..];
      LaterFrom(q, s[1..], k - 1);
    }
  }

  lemma {:induction false} LaterAt(q: string, s: string) returns (k: nat)
    requires AcceptsLater(q, s)
    ensures k <= |s| && Accepts(q, s[k..])
    decreases |s|
  {
    hide Accepts;
    if Accepts(q, s) {
      k := 0;
      assert s[0..] == s;
    } else {
      k := LaterAt(q, s[1..]);
      k := k + 1;
      assert s[1..][k - 1..] == s[k..];
    }
  }

  /** u lies on s at m, character by character. */
  predicate Aligned(u: string, s: string, m: nat)
  {
    m + |u| <= |s| && forall i :: 0 <= i < |u| ==> Fits(u[i], s[m + i])
  }

  /** Where u lies on the text at m, matching u from a later place cannot end earlier. */
  lemma {:induction false} NoEarlier(u: string, rest: string, s: string, m: nat, k: nat) returns (j: nat)
    requires Aligned(u, s, m) && m <= k <= |s| && Accepts(u + rest, s[k..])
    ensures m + |u| <= j <= |s| && Accepts(rest, s[j..])
    decreases |u|
  {
    if u == "" {
      assert u + rest == rest;
      j := k;
    } else {
      var v := u[1..];
      assert (u + rest)[1..] == v + rest;
      assert Aligned(v, s, m + 1) by {
        forall i | 0 <= i < |v| ensures Fits(v[i], s[m + 1 + i]) {
          assert v[i] == u[i + 1];
        }
      }
      if k < |s| && Fits(u[0], s[k]) {
        assert s[k..][1..] == s[k + 1..];
        j := NoEarlier(v, rest, s, m + 1, k + 1);
      } else {
        assert Fits(u[0], s[m]);
        assert k > m;
        var d := LaterAt(v + rest, s[k..]);
        assert s[k..][d..] == s[k + d..];
        j := NoEarlier(v, rest, s, m + 1, k + d);
      }
    }
  }

  /** What is left to try from the remembered star. */
  predicate Retry(pat: string, s: string, star: nat, mark: nat)
    requires star < |pat|
  {
    mark < |s| && AcceptsLater(pat[star + 1..], s[mark + 1..])
  }

  /** A second star makes the first one's remaining tries needless. */
  lemma SecondStar(pat: string, s: string, star: nat, mark: nat, p: nat, t: nat)
    requires star < p < |pat| && mark <= t <= |s| && t - mark == p - star - 1
    requires Aligned(pat[star + 1..p], s, mark) && pat[p] == '*'
    requires Retry(pat, s, star, mark)
    ensures AcceptsLater(pat[p + 1..], s[t..])
  {
    hide Accepts;
    var j := RetryLands(pat, s, star, mark, p, t);
    StarAccepts(pat[p..], s[j..]);
    assert pat[p..][1..] == pat[p + 1..];
    assert s[t..][j - t..] == s[j..];
    LaterFrom(pat[p + 1..], s[t..], j - t);
  }

  lemma StarAccepts(pat: string, s: string)
    requires pat != "" && pat[0] == '*' && Accepts(pat, s)
    ensures AcceptsLater(pat[1..], s)
  {
  }

  lemma RetryLands(pat: string, s: string, star: nat, mark: nat, p: nat, t: nat) returns (j: nat)
    requires star < p <= |pat| && mark <= t <= |s| && t - mark == p - star - 1
    requires Aligned(pat[star + 1..p], s, mark)
    requires Retry(pat, s, star, mark)
    ensures t <= j <= |s| && Accepts(pat[p..], s[j..])
  {
    hide Accepts;
    var u := pat[star + 1..p];
    assert pat[star + 1..] == u + pat[p..];
    var d := LaterAt(pat[star + 1..], s[mark + 1..]);
    assert s[mark + 1..][d..] == s[mark + 1 + d..];
    j := NoEarlier(u, pat[p..], s, mark, mark + 1 + d);
  }

  // ----- the loop -----

  /** wildcard; `some` is false while no star has been met (the program's npos). */
  method Wildcard(pat: string, s: string) returns (ok: bool)
    ensures ok == Accepts(pat, s)
  {
    hide Accepts, AcceptsLater;
    var p, t, some, star, mark := 0, 0, false, 0, 0;
    assert pat[0..] == pat && s[0..] == s;
    while t < |s|
      invariant p <= |pat| && t <= |s| && mark <= t
      invariant some ==> star < p && t - mark == p - star - 1 && Aligned(pat[star + 1..p], s, mark)
      invariant Accepts(pat, s) == (Accepts(pat[p..], s[t..]) || (some && Retry(pat, s, star, mark)))
      decreases |s| - mark, |pat| - p
    {
      Unfold(pat, p, s, t);
      if p < |pat| && (pat[p] == '?' || pat[p] == s[t]) {
        if some {
          Longer(pat, s, star, mark, p, t);
        }
        p, t := p + 1, t + 1;
      } else if p < |pat| && pat[p] == '*' {
        if some && Retry(pat, s, star, mark) {
          SecondStar(pat, s, star, mark, p, t);
        }
        LaterUnfold(pat, p, s, t);
        some, star, p := true, p, p + 1;
        mark := t;
      } else if some {
        RetryUnfold(pat, s, star, mark);
        mark := mark + 1;
        p, t := star + 1, mark;
      } else {
        return false;
      }
    }
    assert s[t..] == "";
    if some && Retry(pat, s, star, mark) {
      var j := RetryLands(pat, s, star, mark, p, t);
      assert s[j..] == "";
    }
    while p < |pat| && pat[p] == '*'
      invariant p <= |pat|
      invariant Accepts(pat, s) == Accepts(pat[p..], "")
    {
      StarsOnly(pat[p..]);
      assert pat[p..][1..] == pat[p + 1..];
      p := p + 1;
    }
    StarsOnly(pat[p..]);
    return p == |pat|;
  }

  /** The three branches of a round. */
  lemma Unfold(pat: string, p: nat, s: string, t: nat)
    requires p <= |pat| && t < |s|
    ensures Accepts(pat[p..], s[t..]) ==
            if p < |pat| && Fits(pat[p], s[t]) then Accepts(pat[p + 1..], s[t + 1..])
            else p < |pat| && pat[p] == '*' && AcceptsLater(pat[p + 1..], s[t..])
  {
    hide AcceptsLater;
    assert s[t..][1..] == s[t + 1..];
    assert p < |pat| ==> pat[p..][1..] == pat[p + 1..];
  }

  lemma LaterUnfold(pat: string, p: nat, s: string, t: nat)
    requires p < |pat| && t < |s|
    ensures AcceptsLater(pat[p + 1..], s[t..]) == (Accepts(pat[p + 1..], s[t..]) || Retry(pat, s, p, t))
  {
    hide Accepts;
    assert s[t..][1..] == s[t + 1..];
  }

  lemma RetryUnfold(pat: string, s: string, star: nat, mark: nat)
    requires star < |pat| && mark < |s|
    ensures Retry(pat, s, star, mark) == (Accepts(pat[star + 1..], s[mark + 1..]) || Retry(pat, s, star, mark + 1))
  {
    hide Accepts;
    assert mark + 1 < |s| ==> s[mark + 1..][1..] == s[mark + 2..];
  }

  lemma Longer(pat: string, s: string, star: nat, mark: nat, p: nat, t: nat)
    requires star < p < |pat| && mark <= t < |s| && t - mark == p - star - 1
    requires Aligned(pat[star + 1..p], s, mark) && Fits(pat[p], s[t])
    ensures Aligned(pat[star + 1..p + 1], s, mark)
  {
    var u, v := pat[star + 1..p], pat[star + 1..p + 1];
    assert v == u + [pat[p]];
  }

  lemma StarsOnly(pat: string)
    ensures Accepts(pat, "") == (pat == "" || (pat[0] == '*' && Accepts(pat[1..], "")))
  {
  }

  // ----- against the usual meaning -----

  lemma {:induction false} StarMatches(q: string, s: string, k: nat)
    requires k <= |s| && Match(q, s[k..])
    ensures Match("*" + q, s)
    decreases k
  {
    assert ("*" + q)[1..] == q;
    if k == 0 {
      assert s[0..] == s;
    } else {
      assert s[1..][k - 1..] == s[k..];
      StarMatches(q, s[1..], k - 1);
    }
  }

  /** The loop never accepts what the usual meaning refuses. */
  lemma {:induction false} AcceptsSound(pat: string, s: string)
    requires Accepts(pat, s)
    ensures Match(pat, s)
    decreases |pat|
  {
    if pat != "" {
      if s != "" && Fits(pat[0], s[0]) {
        AcceptsSound(pat[1..], s[1..]);
        if pat[0] == '*' {
          StarMatches(pat[1..], s, 1);
          assert pat == "*" + pat[1..];
        }
      } else {
        var k := LaterAt(pat[1..], s);
        AcceptsSound(pat[1..], s[k..]);
        StarMatches(pat[1..], s, k);
        assert pat == "*" + pat[1..];
      }
    }
  }

  /** On a text without '*' it accepts all that the usual meaning accepts. */
  lemma {:induction false} AcceptsComplete(pat: string, s: string)
    requires '*' !in s && Match(pat, s)
    ensures Accepts(pat, s)
    decreases |pat| + |s|
  {
    if pat != "" {
      if pat[0] == '*' {
        if Match(pat[1..], s) {
          AcceptsComplete(pat[1..], s);
        } else {
          AcceptsComplete(pat, s[1..]);
          assert !Fits('*', s[0]) by { assert s[0] in s; }
          StarAccepts(pat, s[1..]);
        }
      } else {
        AcceptsComplete(pat[1..], s[1..]);
      }
    }
  }

  function Ones(n: nat): (q: string)
    ensures |q| == n && forall i :: 0 <= i < n ==> q[i] == '?'
  {
    if n == 0 then "" else "?" + Ones(n - 1)
  }

  lemma {:induction false} OnesLength(n: nat, s: string)
    ensures Match(Ones(n), s) <==> |s| == n
    ensures Accepts(Ones(n), s) <==> |s| == n
    decreases n
  {
    if n > 0 {
      assert Ones(n)[1..] == Ones(n - 1);
      if s != "" {
        OnesLength(n - 1, s[1..]);
      }
    }
  }

  /** A text in front of both pattern and text changes neither meaning. */
  lemma {:induction false} CommonFront(u: string, q: string, s: string)
    requires '*' !in u
    ensures Match(u + q, u + s) == Match(q, s)
    ensures Accepts(u + q, u + s) == Accepts(q, s)
    decreases |u|
  {
    if u == "" {
      assert u + q == q && u + s == s;
    } else {
      assert u[0] in u;
      assert (u + q)[1..] == u[1..] + q && (u + s)[1..] == u[1..] + s;
      CommonFront(u[1..], q, s);
    }
  }

  /** A text with a '*' in it, and the pattern that shows it. */
  lemma StarInText(u: string, v: string)
    requires '*' !in u
    ensures var s, pat := u + "*" + v, u + "*" + Ones(|v| + 1);
            Match(pat, s) && !Accepts(pat, s)
  {
    var s, pat := "*" + v, "*" + Ones(|v| + 1);
    assert u + "*" + v == u + s && u + "*" + Ones(|v| + 1) == u + pat;
    CommonFront(u, pat, s);
    assert pat[1..] == Ones(|v| + 1) && s[1..] == v;
    OnesLength(|v| + 1, s);
    OnesLength(|v| + 1, v);
  }

  lemma {:induction false} FirstStar(s: string) returns (i: nat)
    requires '*' in s
    ensures i < |s| && s[i] == '*' && '*' !in s[..i]
  {
    if s[0] == '*' {
      i := 0;
    } else {
      assert s == [s[0]] + s[1..];
      i := FirstStar(s[1..]);
      assert s[..i + 1] == [s[0]] + s[1..][..i];
      i := i + 1;
    }
  }

  /** For a given text, the loop has the usual meaning on every pattern exactly when the
      text has no '*'. */
  lemma UsualMeaning(s: string)
    ensures (forall pat :: Accepts(pat, s) == Match(pat, s)) <==> '*' !in s
  {
    hide Accepts, Match;
    if '*' !in s {
      forall pat ensures Accepts(pat, s) == Match(pat, s) {
        if Accepts(pat, s) {
          AcceptsSound(pat, s);
        }
        if Match(pat, s) {
          AcceptsComplete(pat, s);
        }
      }
    } else {
      var i := FirstStar(s);
      var u, v := s[..i], s[i + 1..];
      StarInText(u, v);
      assert s == u + "*" + v;
    }
  }

  // ----- the callers -----

  /** pattern is "text.*" */
  predicate Stem(pattern: string, text: string)
  {
    pattern == text + ".*"
  }

  predicate Selects(pattern: string, text: string)
  {
    pattern == "*" || Stem(pattern, text) || Accepts(pattern, text)
  }

  method GlobMatch(pattern: string, text: string) returns (ok: bool)
    ensures ok == Selects(pattern, text)
  {
    hide Accepts;
    if pattern == "*" {
      return true;
    }
    var n := |pattern|;
    if n >= 2 && pattern[n - 2..] == ".*" && text == pattern[..n - 2] {
      assert pattern == pattern[..n - 2] + pattern[n - 2..];
      return true;
    }
    var whole := text + ".*";
    assert whole[|text|..] == ".*" && whole[..|text|] == text;
    ok := Wildcard(pattern, text);
  }

  /** On a text without '*', a match means the usual meaning or the bare stem. */
  lemma GlobMeaning(pattern: string, text: string)
    requires '*' !in text
    ensures Selects(pattern, text) <==> Stem(pattern, text) || Match(pattern, text)
  {
    hide Accepts, Match, Stem;
    UsualMeaning(text);
    if pattern == "*" {
      EmptyMatch();
      assert text[|text|..] == "";
      StarMatches("", text, |text|);
      assert "*" + "" == "*";
    }
  }

  lemma EmptyMatch()
    ensures Match("", "")
  {
  }

  /** No patterns at all select everything. */
  method GlobMatchAny(patterns: seq<string>, text: string) returns (ok: bool)
    ensures ok <==> patterns == [] || exists i :: 0 <= i < |patterns| && Selects(patterns[i], text)
  {
    hide Selects;
    if patterns == [] {
      return true;
    }
    var i := 0;
    while i < |patterns|
      invariant i <= |patterns|
      invariant forall k :: 0 <= k < i ==> !Selects(patterns[k], text)
    {
      var m := GlobMatch(patterns[i], text);
      if m {
        return true;
      }
      i := i + 1;
    }
    ok := false;
  }
}
