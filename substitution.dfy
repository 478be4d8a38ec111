/**
 * Placeholder substitution in a path template, as `Url` does it: each
 * parameter `k=v`, in the order given, replaces the FIRST occurrence of
 * `%k%` with `v` (Python's `str.replace(old, new, 1)`).
 */
module Substitution {

  /** `pat` occurs in `s` starting at index `i`. */
  predicate OccursAt(s: string, pat: string, i: nat) {
    i + |pat| <= |s| && s[i..i + |pat|] == pat
  }

  /**
   * Replaces the first occurrence of `pat` in `s` with `rep`; an empty `pat`
   * occurs at the start, so `rep` is then put in front, as in Python.
   */
  function ReplaceFirst(s: string, pat: string, rep: string): string
    decreases |s|
  {
    if pat <= s then rep + s[|pat|..]
    else if s == [] then []
    else [s[0]] + ReplaceFirst(s[1..], pat, rep)
  }

  /** The placeholder a parameter named `key` fills. */
  function Placeholder(key: string): (p: string)
    ensures |p| == |key| + 2 && p[0] == '%' && p[|p| - 1] == '%' && p[1..|p| - 1] == key
  {
    "%" + key + "%"
  }

  /** The template after substituting the parameters in order. */
  function Substitute(path: string, params: seq<(string, string)>): string
    decreases |params|
  {
    if params == [] then path
    else
      var (key, value) := params[|params| - 1];
      ReplaceFirst(Substitute(path, params[..|params| - 1]), Placeholder(key), value)
  }

  /** Occurrences in the tail of a string are the occurrences in the string, one place later. */
  lemma OccursInTail(s: string, pat: string, j: nat)
    requires s != []
    ensures OccursAt(s[1..], pat, j) <==> OccursAt(s, pat, j + 1)
  {
    if j + 1 + |pat| <= |s| {
      assert s[1..][j..j + |pat|] == s[j + 1..j + 1 + |pat|];
    }
  }

  /** The first replacement on a string whose start does not hold `pat` keeps the first character. */
  lemma ReplaceFirstSkips(s: string, pat: string, rep: string)
    requires s != [] && !OccursAt(s, pat, 0)
    ensures ReplaceFirst(s, pat, rep) == [s[0]] + ReplaceFirst(s[1..], pat, rep)
  {
    if |pat| <= |s| {
      assert s[0..|pat|] == s[..|pat|];
    }
    assert !(pat <= s);
  }

  /**
   * Where `pat` first occurs at `i`, exactly that occurrence is replaced and
   * everything before and after it (later occurrences included) is kept.
   */
  lemma {:induction false} ReplaceFirstAt(s: string, pat: string, rep: string, i: nat)
    requires OccursAt(s, pat, i)
    requires forall j :: 0 <= j < i ==> !OccursAt(s, pat, j)
    ensures ReplaceFirst(s, pat, rep) == s[..i] + rep + s[i + |pat|..]
  {
    if i == 0 {
      assert pat <= s;
    } else {
      var t := s[1..];
      ReplaceFirstSkips(s, pat, rep);
      OccursInTail(s, pat, i - 1);
      forall j | 0 <= j < i - 1 ensures !OccursAt(t, pat, j) {
        OccursInTail(s, pat, j);
      }
      ReplaceFirstAt(t, pat, rep, i - 1);
      calc {
        ReplaceFirst(s, pat, rep);
        [s[0]] + (t[..i - 1] + rep + t[i - 1 + |pat|..]);
        { assert [s[0]] + t[..i - 1] == s[..i]; assert t[i - 1 + |pat|..] == s[i + |pat|..]; }
        s[..i] + rep + s[i + |pat|..];
      }
    }
  }

  /** Where `pat` does not occur at all, the string is left as it is. */
  lemma {:induction false} ReplaceFirstAbsent(s: string, pat: string, rep: string)
    requires forall j :: 0 <= j <= |s| ==> !OccursAt(s, pat, j)
    ensures ReplaceFirst(s, pat, rep) == s
  {
    assert !OccursAt(s, pat, 0);
    if s == [] {
      assert !(pat <= s);
    } else {
      var t := s[1..];
      ReplaceFirstSkips(s, pat, rep);
      forall j | 0 <= j <= |t| ensures !OccursAt(t, pat, j) {
        OccursInTail(s, pat, j);
      }
      ReplaceFirstAbsent(t, pat, rep);
      assert [s[0]] + t == s;
    }
  }

  /** With no parameters the template is the path. */
  lemma NoParameters(path: string)
    ensures Substitute(path, []) == path
  {
  }

  /**
   * Parameters are applied in the order given: the last one acts on the
   * result of all the earlier ones.
   */
  lemma SubstituteInOrder(path: string, params: seq<(string, string)>, key: string, value: string)
    ensures Substitute(path, params + [(key, value)])
         == ReplaceFirst(Substitute(path, params), Placeholder(key), value)
  {
    assert (params + [(key, value)])[..|params|] == params;
  }

  /**
   * A template in which no parameter's placeholder occurs comes out verbatim:
   * placeholders without a parameter, and all other text, are never touched.
   */
  lemma {:induction false} SubstituteUntouched(path: string, params: seq<(string, string)>)
    requires forall n, j :: 0 <= n < |params| && 0 <= j <= |path| ==> !OccursAt(path, Placeholder(params[n].0), j)
    ensures Substitute(path, params) == path
    decreases |params|
  {
    if params != [] {
      var init := params[..|params| - 1];
      forall n, j | 0 <= n < |init| && 0 <= j <= |path| ensures !OccursAt(path, Placeholder(init[n].0), j) {
        assert init[n] == params[n];
      }
      SubstituteUntouched(path, init);
      var (key, value) := params[|params| - 1];
      forall j | 0 <= j <= |path| ensures !OccursAt(path, Placeholder(key), j) {
        assert !OccursAt(path, Placeholder(params[|params| - 1].0), j);
      }
      ReplaceFirstAbsent(path, Placeholder(key), value);
    }
  }

  /**
   * One parameter whose placeholder first occurs at `i`: the value takes the
   * placeholder's place and the rest of the template is kept verbatim.
   */
  lemma SingleParameter(path: string, key: string, value: string, i: nat)
    requires OccursAt(path, Placeholder(key), i)
    requires forall j :: 0 <= j < i ==> !OccursAt(path, Placeholder(key), j)
    ensures Substitute(path, [(key, value)]) == path[..i] + value + path[i + |key| + 2..]
  {
    assert [(key, value)][..0] == [];
    ReplaceFirstAt(path, Placeholder(key), value, i);
  }
}
