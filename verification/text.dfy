/** The string handling the classifier relies on: splitting the extracted
    text into lines (`text.split('\n')`), `str.strip()`, and splitting a line
    into whitespace-separated fields. */
module Text {

  import opened Chars

  /** `s` with its leading whitespace removed. */
  function TrimLeft(s: string): (r: string)
    ensures |r| <= |s| && r == s[|s| - |r|..]
    ensures AllWs(s[..|s| - |r|])
    ensures r == [] || !IsWs(r[0])
  {
    if s != [] && IsWs(s[0]) then
      var r := TrimLeft(s[1..]);
      TrimLeftStep(s, r);
      r
    else
      s
  }

  /** `s` with its trailing whitespace removed. */
  function TrimRight(s: string): (r: string)
    ensures |r| <= |s| && r == s[..|r|]
    ensures AllWs(s[|r|..])
    ensures r == [] || !IsWs(r[|r| - 1])
  {
    if s != [] && IsWs(s[|s| - 1]) then
      var r := TrimRight(s[..|s| - 1]);
      TrimRightStep(s, r);
      r
    else
      s
  }

  /** Leading whitespace of `s[1..]` after a whitespace `s[0]` is leading
      whitespace of `s`. */
  lemma TrimLeftStep(s: string, r: string)
    requires s != [] && IsWs(s[0])
    requires |r| <= |s| - 1 && r == s[1..][|s| - 1 - |r|..] && AllWs(s[1..][..|s| - 1 - |r|])
    ensures r == s[|s| - |r|..] && AllWs(s[..|s| - |r|])
  {
    assert s[..|s| - |r|] == [s[0]] + s[1..][..|s| - 1 - |r|];
  }

  /** Trailing whitespace of `s[..|s| - 1]` before a whitespace last
      character is trailing whitespace of `s`. */
  lemma TrimRightStep(s: string, r: string)
    requires s != [] && IsWs(s[|s| - 1])
    requires |r| <= |s| - 1 && r == s[..|s| - 1][..|r|] && AllWs(s[..|s| - 1][|r|..])
    ensures r == s[..|r|] && AllWs(s[|r|..])
  {
    assert s[|r|..] == s[..|s| - 1][|r|..] + [s[|s| - 1]];
  }

  /** Where `Strip(s)` starts in `s`: after the leading whitespace. */
  function StripStart(s: string): (i: nat)
    ensures i <= |s|
  {
    |s| - |TrimLeft(s)|
  }

  /** Python's `str.strip()` with no argument: the part of `s` between its
      leading and its trailing whitespace. */
  function Strip(s: string): (r: string)
    ensures StripStart(s) + |r| <= |s| && r == s[StripStart(s)..StripStart(s) + |r|]
    ensures AllWs(s[..StripStart(s)]) && AllWs(s[StripStart(s) + |r|..])
    ensures r == [] || (!IsWs(r[0]) && !IsWs(r[|r| - 1]))
  {
    var t := TrimLeft(s);
    var r := TrimRight(t);
    StripBounds(s, StripStart(s), t, r);
    r
  }

  /** A prefix `r` of `t` that ends in non-whitespace, where `t` starts
      with non-whitespace, starts and ends with non-whitespace. */
  lemma StripEnds(t: string, r: string)
    requires t == [] || !IsWs(t[0])
    requires |r| <= |t| && r == t[..|r|] && (r == [] || !IsWs(r[|r| - 1]))
    ensures r == [] || (!IsWs(r[0]) && !IsWs(r[|r| - 1]))
  {
    if r != [] {
      assert r[0] == t[0];
    }
  }

  /** A trimmed suffix `t` of `s`, starting at `i`, trimmed again to its
      prefix `r`, is the part of `s` between two whitespace runs, and it
      starts and ends with non-whitespace. */
  lemma StripBounds(s: string, i: nat, t: string, r: string)
    requires |t| <= |s| && i == |s| - |t| && t == s[i..] && AllWs(s[..i])
    requires t == [] || !IsWs(t[0])
    requires |r| <= |t| && r == t[..|r|] && AllWs(t[|r|..])
    requires r == [] || !IsWs(r[|r| - 1])
    ensures i + |r| <= |s| && r == s[i..i + |r|]
    ensures AllWs(s[..i]) && AllWs(s[i + |r|..])
    ensures r == [] || (!IsWs(r[0]) && !IsWs(r[|r| - 1]))
  {
    assert s[i + |r|..] == t[|r|..];
    StripEnds(t, r);
  }

  /** `not line.strip()` holds exactly for the lines made only of whitespace. */
  lemma StripEmpty(s: string)
    ensures Strip(s) == [] <==> AllWs(s)
  {
    var i := StripStart(s);
    if Strip(s) == [] {
      AllWsJoin(s, i);
    } else {
      StripEnds(TrimLeft(s), Strip(s));
      assert Strip(s)[0] == s[i];
    }
  }

  /** Whitespace up to `i` and whitespace from `i` on make a whitespace
      string. */
  lemma AllWsJoin(s: string, i: nat)
    requires i <= |s| && AllWs(s[..i]) && AllWs(s[i..])
    ensures AllWs(s)
  {
    forall k | 0 <= k < |s|
      ensures IsWs(s[k])
    {
      if k < i {
        assert s[..i][k] == s[k];
      } else {
        assert s[i..][k - i] == s[k];
      }
    }
  }

  /** Length of the longest whitespace-free prefix of `s`. */
  function WordLen(s: string): (n: nat)
    ensures n <= |s| && NoWs(s[..n])
    ensures n < |s| ==> IsWs(s[n])
  {
    if s != [] && !IsWs(s[0]) then
      var n := 1 + WordLen(s[1..]);
      assert s[..n] == [s[0]] + s[1..][..n - 1];
      n
    else
      0
  }

  /** The fields of `s`: its maximal whitespace-free runs, left to right.
      This is what splitting on `\s+` and dropping the empty pieces yields. */
  function Tokens(s: string): (ts: seq<string>)
    ensures forall k :: 0 <= k < |ts| ==> ts[k] != [] && NoWs(ts[k])
    decreases |s|
  {
    if s == [] then
      []
    else if IsWs(s[0]) then
      Tokens(s[1..])
    else
      var n := WordLen(s);
      [s[..n]] + Tokens(s[n..])
  }

  /** Leading whitespace does not change the fields. */
  lemma {:induction false} TokensSkipWs(s: string, i: nat)
    requires i <= |s| && AllWs(s[..i])
    ensures Tokens(s) == Tokens(s[i..])
    decreases i
  {
    if i > 0 {
      assert s[..i][0] == s[0];
      assert s[1..][..i - 1] == s[1..i];
      assert forall k :: 0 <= k < i - 1 ==> s[1..i][k] == s[..i][k + 1];
      TokensSkipWs(s[1..], i - 1);
      assert s[1..][i - 1..] == s[i..];
    }
  }

  /** A whitespace-free prefix that ends at whitespace (or at the end) is the
      first field. */
  lemma TokensTakeWord(s: string, j: nat)
    requires 0 < j <= |s| && NoWs(s[..j])
    requires j < |s| ==> IsWs(s[j])
    ensures Tokens(s) == [s[..j]] + Tokens(s[j..])
  {
    assert s[..j][0] == s[0];
    WordLenUnique(s, j);
  }

  /** The whitespace-free prefix ending at whitespace (or at the end) is the
      longest one. */
  lemma {:induction false} WordLenUnique(s: string, j: nat)
    requires j <= |s| && NoWs(s[..j])
    requires j < |s| ==> IsWs(s[j])
    ensures WordLen(s) == j
    decreases j
  {
    if j > 0 {
      assert s[..j][0] == s[0];
      assert s[1..][..j - 1] == s[..j][1..];
      WordLenUnique(s[1..], j - 1);
    }
  }

  /** A string of whitespace has no fields. */
  lemma {:induction false} TokensAllWs(w: string)
    requires AllWs(w)
    ensures Tokens(w) == []
    decreases |w|
  {
    if w != [] {
      assert AllWs(w[1..]);
      TokensAllWs(w[1..]);
    }
  }

  /** Trailing whitespace does not change the fields. */
  lemma {:induction false} TokensTrailingWs(t: string, w: string)
    requires AllWs(w)
    ensures Tokens(t + w) == Tokens(t)
    decreases |t|
  {
    if t == [] {
      assert t + w == w;
      TokensAllWs(w);
    } else if IsWs(t[0]) {
      assert (t + w)[1..] == t[1..] + w;
      TokensTrailingWs(t[1..], w);
    } else {
      var n := WordLen(t);
      assert (t + w)[..n] == t[..n];
      if n == |t| && w != [] {
        assert (t + w)[n] == w[0];
      }
      TokensTakeWord(t + w, n);
      assert (t + w)[n..] == t[n..] + w;
      TokensTrailingWs(t[n..], w);
    }
  }

  /** Stripping a line first does not change its fields. */
  lemma TokensStrip(s: string)
    ensures Tokens(Strip(s)) == Tokens(s)
  {
    TokensBetweenWs(s, Strip(s), StripStart(s), StripStart(s) + |Strip(s)|);
  }

  /** The part `r` of `s` between leading and trailing whitespace has the
      fields of `s`. */
  lemma TokensBetweenWs(s: string, r: string, i: nat, j: nat)
    requires i <= j <= |s| && r == s[i..j] && AllWs(s[..i]) && AllWs(s[j..])
    ensures Tokens(r) == Tokens(s)
  {
    var w := s[j..];
    TokensSkipWs(s, i);
    assert s[i..] == r + w;
    TokensTrailingWs(r, w);
  }

  /** `TokensSkipWs` for a suffix: whitespace in `[i, j)` is skipped. */
  lemma TokensSuffixSkip(s: string, i: nat, j: nat)
    requires i <= j <= |s|
    requires forall p :: i <= p < j ==> IsWs(s[p])
    ensures Tokens(s[i..]) == Tokens(s[j..])
  {
    var t := s[i..][..j - i];
    assert forall p :: 0 <= p < |t| ==> t[p] == s[i + p];
    TokensSkipWs(s[i..], j - i);
    assert s[i..][j - i..] == s[j..];
  }

  /** `TokensTakeWord` for a suffix: the field of the suffix at `i` is
      `s[i..j]`. */
  lemma TokensSuffixWord(s: string, i: nat, j: nat)
    requires i < j <= |s|
    requires forall p :: i <= p < j ==> !IsWs(s[p])
    requires j < |s| ==> IsWs(s[j])
    ensures Tokens(s[i..]) == [s[i..j]] + Tokens(s[j..])
  {
    var t := s[i..][..j - i];
    assert forall p :: 0 <= p < |t| ==> t[p] == s[i + p];
    TokensTakeWord(s[i..], j - i);
    assert s[i..][..j - i] == s[i..j];
    assert s[i..][j - i..] == s[j..];
  }

  /** The first field of the suffix at `i`, once the whitespace run `[i, a)`
      in front of it is skipped: it runs from `a` to the next whitespace. */
  lemma TokensSuffixHead(s: string, i: nat, a: nat)
    requires i <= a <= |s| && (forall p :: i <= p < a ==> IsWs(s[p]))
    requires a < |s| ==> !IsWs(s[a])
    requires Tokens(s[i..]) != []
    ensures a < |s|
    ensures var b := a + WordLen(s[a..]);
      a < b <= |s| && (b < |s| ==> IsWs(s[b])) && Tokens(s[i..]) == [s[a..b]] + Tokens(s[b..])
  {
    TokensSuffixSkip(s, i, a);
    var u := s[a..];
    assert a < |s|;
    assert u[0] == s[a];
    var n := WordLen(u);
    assert Tokens(u) == [u[..n]] + Tokens(u[n..]);
    assert u[..n] == s[a..a + n] && u[n..] == s[a + n..];
    if a + n < |s| {
      assert u[n] == s[a + n];
    }
  }

  /** A suffix that starts with a non-whitespace character has a first field
      that starts with that character. */
  lemma TokensSuffixStart(s: string, i: nat)
    requires i < |s| && !IsWs(s[i])
    ensures Tokens(s[i..]) != [] && Tokens(s[i..])[0][0] == s[i]
  {
    assert s[i..][0] == s[i];
  }

  /** Fields joined with single spaces. */
  function JoinFields(ts: seq<string>): string {
    if ts == [] then []
    else if |ts| == 1 then ts[0]
    else ts[0] + " " + JoinFields(ts[1..])
  }

  /** Splitting fields that were joined with spaces gives the fields back. */
  lemma {:induction false} TokensJoinFields(ts: seq<string>)
    requires forall k :: 0 <= k < |ts| ==> ts[k] != [] && NoWs(ts[k])
    ensures Tokens(JoinFields(ts)) == ts
  {
    if |ts| == 1 {
      assert ts[0][..|ts[0]|] == ts[0];
      TokensTakeWord(ts[0], |ts[0]|);
    } else if |ts| > 1 {
      var s := JoinFields(ts);
      var j := |ts[0]|;
      assert s[..j] == ts[0];
      assert s[j] == ' ';
      TokensTakeWord(s, j);
      var rest := JoinFields(ts[1..]);
      assert s[j..] == " " + rest;
      assert (" " + rest)[..1] == " ";
      TokensSkipWs(" " + rest, 1);
      assert (" " + rest)[1..] == rest;
      TokensJoinFields(ts[1..]);
    }
  }

  /** `text.split('\n')`: the pieces of `s` between line feeds, always at
      least one (the empty text is one empty line). No piece holds a line
      feed, so with `JoinSplitLines` the pieces are determined. */
  function SplitLines(s: string): (ls: seq<string>)
    ensures |ls| >= 1
    ensures forall k :: 0 <= k < |ls| ==> '\n' !in ls[k]
  {
    if s == [] then
      [[]]
    else
      var rest := SplitLines(s[1..]);
      if s[0] == '\n' then [[]] + rest
      else [[s[0]] + rest[0]] + rest[1..]
  }

  /** `'\n'.join(ls)`. */
  function JoinLines(ls: seq<string>): string
    requires |ls| >= 1
  {
    if |ls| == 1 then ls[0] else ls[0] + "\n" + JoinLines(ls[1..])
  }

  /** Joining the lines back with line feeds gives the text. */
  lemma {:induction false} JoinSplitLines(s: string)
    ensures JoinLines(SplitLines(s)) == s
  {
    if s != [] {
      var rest := SplitLines(s[1..]);
      JoinSplitLines(s[1..]);
      if s[0] == '\n' {
        assert [[]] + rest != [] && ([[]] + rest)[1..] == rest;
      } else {
        var ls := [[s[0]] + rest[0]] + rest[1..];
        assert ls[1..] == rest[1..];
        if |rest| > 1 {
          assert JoinLines(rest) == rest[0] + "\n" + JoinLines(rest[1..]);
        }
      }
    }
  }

  /** Splitting a text that starts with a line-feed-free piece `l`. */
  lemma {:induction false} SplitLinesPrefix(l: string, t: string)
    requires '\n' !in l
    ensures SplitLines(l + t) == [l + SplitLines(t)[0]] + SplitLines(t)[1..]
    decreases |l|
  {
    if l == [] {
      assert l + t == t;
      var ls := SplitLines(t);
      assert l + ls[0] == ls[0];
      assert [ls[0]] + ls[1..] == ls;
    } else {
      assert (l + t)[0] == l[0];
      assert (l + t)[1..] == l[1..] + t;
      SplitLinesPrefix(l[1..], t);
      assert [l[0]] + (l[1..] + SplitLines(t)[0]) == l + SplitLines(t)[0];
    }
  }

  /** Lines without line feeds survive a join followed by a split. */
  lemma {:induction false} SplitJoinLines(ls: seq<string>)
    requires |ls| >= 1
    requires forall k :: 0 <= k < |ls| ==> '\n' !in ls[k]
    ensures SplitLines(JoinLines(ls)) == ls
  {
    if |ls| == 1 {
      SplitLinesPrefix(ls[0], []);
      assert ls[0] + [] == ls[0];
    } else {
      var rest := JoinLines(ls[1..]);
      assert ls[0] + "\n" + rest == ls[0] + ("\n" + rest);
      SplitLinesPrefix(ls[0], "\n" + rest);
      assert ("\n" + rest)[1..] == rest;
      SplitJoinLines(ls[1..]);
      assert ls[0] + [] == ls[0];
    }
  }
}
