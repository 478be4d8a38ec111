/**
 * Extraction of the anti-forgery token from the served home page, with the
 * pattern `Roblox.XsrfToken.setToken\('(.+)'\)` and `findall(...)[0]`: the
 * first (leftmost) match wins; each unescaped `.` of the pattern stands for
 * any character except a line break; the greedy `(.+)` runs to the LAST `')`
 * on the same line and must capture at least one character.
 */
module CsrfToken {
  import opened Wrappers

  /** The pattern up to the captured group; each `.` in it is a wildcard. */
  const Pattern: string := "Roblox.XsrfToken.setToken('"

  /** One pattern character against one text character. */
  predicate CharMatches(p: char, c: char) {
    if p == '.' then c != '\n' else c == p
  }

  /** The pattern up to the group matches the text at `i`. */
  predicate PatternAt(s: string, i: nat) {
    i + |Pattern| <= |s| && forall k :: 0 <= k < |Pattern| ==> CharMatches(Pattern[k], s[i + k])
  }

  /** The closing `')` stands at `t`. */
  predicate ClosesAt(s: string, t: nat) {
    t + 2 <= |s| && s[t] == '\'' && s[t + 1] == ')'
  }

  /** The end of the line that index `j` is on: the next line break or the end of the text. */
  function LineEnd(s: string, j: nat): (e: nat)
    requires j <= |s|
    ensures j <= e <= |s|
    ensures forall m :: j <= m < e ==> s[m] != '\n'
    ensures e < |s| ==> s[e] == '\n'
    decreases |s| - j
  {
    if j == |s| || s[j] == '\n' then j else LineEnd(s, j + 1)
  }

  /** The last `')` that starts after `lo` and ends by `hi`: where the greedy group stops. */
  function LastClose(s: string, lo: nat, hi: nat): (r: Option<nat>)
    requires hi <= |s|
    ensures r.Some? ==> lo < r.value && r.value + 2 <= hi && ClosesAt(s, r.value)
    ensures r.Some? ==> forall t :: r.value < t && t + 2 <= hi ==> !ClosesAt(s, t)
    ensures r.None? ==> forall t :: lo < t && t + 2 <= hi ==> !ClosesAt(s, t)
    decreases hi
  {
    if hi < lo + 3 then None
    else if ClosesAt(s, hi - 2) then Some(hi - 2)
    else LastClose(s, lo, hi - 1)
  }

  /** The group captured by a match that starts at `i`, if one does. */
  function MatchAt(s: string, i: nat): Option<string>
    requires i <= |s|
  {
    if !PatternAt(s, i) then None
    else
      var j := i + |Pattern|;
      match LastClose(s, j, LineEnd(s, j))
      case None => None
      case Some(t) => Some(s[j..t])
  }

  /** The group of the leftmost match starting at `i` or later. */
  function FirstFrom(s: string, i: nat): Option<string>
    requires i <= |s|
    decreases |s| - i
  {
    match MatchAt(s, i)
    case Some(tok) => Some(tok)
    case None => if i == |s| then None else FirstFrom(s, i + 1)
  }

  /** `findall(pattern, text)[0]` when there is a match. */
  function Extract(text: string): Option<string> {
    FirstFrom(text, 0)
  }

  /** The text holds `Roblox.XsrfToken.setToken('tok')` at `i`, with `tok` inside one line. */
  predicate TokenAt(s: string, i: nat, tok: string) {
    && PatternAt(s, i)
    && |tok| > 0
    && i + |Pattern| + |tok| + 2 <= |s|
    && s[i + |Pattern|..i + |Pattern| + |tok|] == tok
    && ClosesAt(s, i + |Pattern| + |tok|)
    && forall m :: 0 <= m < |tok| ==> tok[m] != '\n'
  }

  /** A match at `i` captures a one-line, non-empty argument closed by `')`. */
  lemma MatchAtSound(s: string, i: nat)
    requires i <= |s| && MatchAt(s, i).Some?
    ensures TokenAt(s, i, MatchAt(s, i).value)
  {
    var j := i + |Pattern|;
    var e := LineEnd(s, j);
    var t := LastClose(s, j, e).value;
    var tok := s[j..t];
    forall m | 0 <= m < |tok| ensures tok[m] != '\n' {
      assert tok[m] == s[j + m];
    }
  }

  /** Wherever such an argument stands after the pattern, a match starts there. */
  lemma MatchAtComplete(s: string, i: nat, tok: string)
    requires i <= |s| && TokenAt(s, i, tok)
    ensures MatchAt(s, i).Some?
  {
    var j := i + |Pattern|;
    var t := j + |tok|;
    var e := LineEnd(s, j);
    forall m | j <= m < t ensures s[m] != '\n' {
      assert s[m] == tok[m - j];
    }
    assert s[t] != '\n' && s[t + 1] != '\n';
    assert t + 2 <= e;
  }

  /** What `FirstFrom` returns is a token found at or after `i`. */
  lemma {:induction false} FirstFromSound(s: string, i: nat)
    requires i <= |s| && FirstFrom(s, i).Some?
    ensures exists k :: i <= k <= |s| && TokenAt(s, k, FirstFrom(s, i).value)
    decreases |s| - i
  {
    if MatchAt(s, i).Some? {
      MatchAtSound(s, i);
    } else {
      FirstFromSound(s, i + 1);
    }
  }

  /** A token present at `k` is found by every search that starts at or before `k`. */
  lemma {:induction false} FirstFromComplete(s: string, i: nat, k: nat, tok: string)
    requires i <= k <= |s| && TokenAt(s, k, tok)
    ensures FirstFrom(s, i).Some?
    decreases k - i
  {
    if MatchAt(s, i).None? {
      if i == k {
        MatchAtComplete(s, k, tok);
      } else {
        FirstFromComplete(s, i + 1, k, tok);
      }
    }
  }

  /** The search from `i` returns the capture of the first position at or after `i` where a match starts. */
  lemma {:induction false} FirstFromLeftmost(s: string, i: nat) returns (k: nat)
    requires i <= |s| && FirstFrom(s, i).Some?
    ensures i <= k <= |s| && MatchAt(s, k) == FirstFrom(s, i)
    ensures forall m :: i <= m < k ==> MatchAt(s, m).None?
    decreases |s| - i
  {
    if MatchAt(s, i).Some? {
      k := i;
    } else {
      k := FirstFromLeftmost(s, i + 1);
    }
  }

  /**
   * The greedy group: a match at `i` captures at least as much as any setter
   * argument that starts there, so it runs to the last `')` of the line.
   */
  lemma MatchAtGreedy(s: string, i: nat, tok: string, t: string)
    requires i <= |s| && MatchAt(s, i) == Some(tok) && TokenAt(s, i, t)
    ensures |t| <= |tok|
  {
    var j := i + |Pattern|;
    var c := j + |t|;
    var e := LineEnd(s, j);
    forall m | j <= m < c ensures s[m] != '\n' {
      assert s[m] == t[m - j];
    }
    assert s[c] != '\n' && s[c + 1] != '\n';
    assert c + 2 <= e;
    var r := LastClose(s, j, e).value;
    assert c <= r;
  }

  /**
   * `findall(pattern, text)[0]`: what is extracted is the capture of a match
   * with no setter call standing anywhere before it, the leftmost one.
   */
  lemma ExtractIsLeftmost(text: string, tok: string)
    requires Extract(text) == Some(tok)
    ensures exists k :: 0 <= k <= |text| && MatchAt(text, k) == Some(tok) && forall m, t :: 0 <= m < k ==> !TokenAt(text, m, t)
  {
    var k := FirstFromLeftmost(text, 0);
    forall m, t | 0 <= m < k ensures !TokenAt(text, m, t) {
      if TokenAt(text, m, t) {
        MatchAtComplete(text, m, t);
      }
    }
  }

  /**
   * A token is extracted exactly when the page holds the setter call with a
   * one-line, non-empty argument; what is extracted is such an argument.
   */
  lemma ExtractFindsToken(text: string)
    ensures Extract(text).Some? <==> exists i, tok :: 0 <= i <= |text| && TokenAt(text, i, tok)
    ensures Extract(text).Some? ==> exists i :: 0 <= i <= |text| && TokenAt(text, i, Extract(text).value)
  {
    if Extract(text).Some? {
      FirstFromSound(text, 0);
    }
    if exists i, tok :: 0 <= i <= |text| && TokenAt(text, i, tok) {
      var i, tok :| 0 <= i <= |text| && TokenAt(text, i, tok);
      FirstFromComplete(text, 0, i, tok);
    }
  }

  /**
   * A page that opens with the setter call, ends that line right after it and
   * continues with anything yields exactly the call's argument.
   */
  lemma ExtractSetterCall(tok: string, rest: string)
    requires |tok| > 0 && forall m :: 0 <= m < |tok| ==> tok[m] != '\n'
    ensures Extract(Pattern + tok + "')" + "\n" + rest) == Some(tok)
  {
    var s := Pattern + tok + "')" + "\n" + rest;
    var j := |Pattern|;
    var t := j + |tok|;
    assert PatternAt(s, 0) by {
      forall k | 0 <= k < |Pattern| ensures CharMatches(Pattern[k], s[k]) {
        assert s[k] == Pattern[k];
      }
    }
    assert s[j..t] == tok;
    forall m | j <= m < t + 2 ensures s[m] != '\n' {
      if m < t { assert s[m] == tok[m - j]; }
    }
    assert s[t + 2] == '\n';
    assert LineEnd(s, j) == t + 2;
    assert ClosesAt(s, t);
    assert LastClose(s, j, t + 2) == Some(t);
    assert MatchAt(s, 0) == Some(tok);
  }
}
