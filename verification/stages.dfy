/** The two recognisers tried on every data line: the field split (Stage 1)
    and the fallback regular expression (Stage 2). */
module Stages {

  import opened Optional
  import opened Chars
  import opened Text
  import opened Shapes
  import opened Regex

  /** Stage 1 accepts a line with fields `ts`. */
  predicate FieldsAccepted(ts: seq<string>) {
    |ts| >= 3 && IsRefDes(ts[0]) && StartsWithDigit(ts[1]) && StartsWithDigit(ts[2])
  }

  /** Stage 1: strip the line, split it into fields and accept it when there
      are at least three, the first has a designator shape and the next two
      start with a number. The designator is the first field. */
  function Stage1(line: string): (r: Option<string>)
    ensures r.Some? <==> FieldsAccepted(Tokens(line))
    ensures r.Some? ==> r.value == Tokens(line)[0]
  {
    var parts := Tokens(Strip(line));
    TokensStrip(line);
    if |parts| >= 3 then
      var first := parts[0];
      NumberMatchStart(parts[1]);
      NumberMatchStart(parts[2]);
      if IsDShape(first) || IsUShape(first) || IsComplexShape(first) then
        if MatchesNumber(parts[1]) && MatchesNumber(parts[2]) then Some(first)
        else None
      else None
    else None
  }

  /** A line written as fields separated by single spaces is accepted by
      Stage 1 exactly when the fields pass the three tests, and then its
      designator is the first field. */
  lemma Stage1Fields(ts: seq<string>)
    requires forall k :: 0 <= k < |ts| ==> ts[k] != [] && NoWs(ts[k])
    ensures Stage1(JoinFields(ts)).Some? <==> FieldsAccepted(ts)
    ensures FieldsAccepted(ts) ==> Stage1(JoinFields(ts)) == Some(ts[0])
  {
    TokensJoinFields(ts);
  }

  /** The first group among the candidate ends `gs` of the capture opened at
      `e0` after which the rest of the pattern matches. */
  function FirstGroup(s: string, e0: nat, gs: seq<nat>): Option<string>
    requires forall g :: g in gs ==> e0 < g <= |s|
  {
    if gs == [] then None
    else
      assert gs[0] in gs;
      assert forall g :: g in gs[1..] ==> g in gs;
      if TailMatches(s, gs[0]) then Some(s[e0..gs[0]])
      else FirstGroup(s, e0, gs[1..])
  }

  /** The first capture over the candidate ends `es` of the leading `\s*`. */
  function FirstCapture(s: string, es: seq<nat>): Option<string>
    requires forall e :: e in es ==> e <= |s|
  {
    if es == [] then None
    else
      assert es[0] in es;
      assert forall e :: e in es[1..] ==> e in es;
      match FirstGroup(s, es[0], GroupEnds(s, es[0]))
      case Some(c) => Some(c)
      case None => FirstCapture(s, es[1..])
  }

  /** A group found among `gs` ends at one of them, and the rest of the
      pattern matches after it. */
  lemma {:induction false} FirstGroupSound(s: string, e0: nat, gs: seq<nat>)
    requires forall g :: g in gs ==> e0 < g <= |s|
    requires FirstGroup(s, e0, gs).Some?
    ensures exists g :: g in gs && TailMatches(s, g) && FirstGroup(s, e0, gs).value == s[e0..g]
    decreases |gs|
  {
    assert gs[0] in gs;
    if !TailMatches(s, gs[0]) {
      assert forall g :: g in gs[1..] ==> g in gs;
      FirstGroupSound(s, e0, gs[1..]);
      var g :| g in gs[1..] && TailMatches(s, g) && FirstGroup(s, e0, gs[1..]).value == s[e0..g];
      assert g in gs;
    }
  }

  /** A capture found over `es` starts at one of them, ends at one of the
      group's ends there, and the rest of the pattern matches after it. */
  lemma {:induction false} FirstCaptureSound(s: string, es: seq<nat>)
    requires forall e :: e in es ==> e <= |s|
    requires FirstCapture(s, es).Some?
    ensures exists e0, g :: e0 in es && g in GroupEnds(s, e0) && TailMatches(s, g) && FirstCapture(s, es).value == s[e0..g]
    decreases |es|
  {
    assert es[0] in es;
    assert forall e :: e in es[1..] ==> e in es;
    var gs := GroupEnds(s, es[0]);
    if FirstGroup(s, es[0], gs).Some? {
      FirstGroupSound(s, es[0], gs);
    } else {
      FirstCaptureSound(s, es[1..]);
      var e0, g :| e0 in es[1..] && g in GroupEnds(s, e0) && TailMatches(s, g) && FirstCapture(s, es[1..]).value == s[e0..g];
      assert e0 in es;
    }
  }

  /** Conversely, a group end after which the rest of the pattern matches
      makes the search over `gs` succeed. */
  lemma {:induction false} FirstGroupComplete(s: string, e0: nat, gs: seq<nat>, g: nat)
    requires forall x :: x in gs ==> e0 < x <= |s|
    requires g in gs && TailMatches(s, g)
    ensures FirstGroup(s, e0, gs).Some?
    decreases |gs|
  {
    assert gs[0] in gs;
    if !TailMatches(s, gs[0]) {
      assert forall x :: x in gs[1..] ==> x in gs;
      assert g in gs[1..];
      FirstGroupComplete(s, e0, gs[1..], g);
    }
  }

  /** Stage 2: group 1 of `re.search(r'^\s*(D\d+|U\d+|[A-Z][A-Z0-9_]+)\s+(\d+\.?\d*)\s+(\d+\.?\d*)', line)`.
      Without the MULTILINE flag `^` only matches at the start of the line,
      so the search is a match at position 0. */
  function Stage2(line: string): Option<string> {
    FirstCapture(line, Star(line, 0, Space))
  }

  /** Whatever Stage 2 captures, Stage 1 already accepts the line with the
      same designator: the capture must be followed by whitespace, so it is
      the whole first field; the first number must be followed by
      whitespace, so it is the whole second field; the third field starts
      with a digit. */
  lemma Stage2Subsumed(line: string)
    requires Stage2(line).Some?
    ensures Stage1(line) == Stage2(line)
  {
    FirstCaptureSound(line, Star(line, 0, Space));
    var e0, g :| e0 in Star(line, 0, Space) && g in GroupEnds(line, e0) && TailMatches(line, g) && Stage2(line).value == line[e0..g];
    assert RunOf(line, 0, e0, Space);
    TailFields(line, g);
    CaptureAccepted(line, e0, g);
  }

  /** The position of the first field of the suffix at `i`: it starts where
      the whitespace run `\s*` (or `\s+`) from `i` ends and runs to the next
      whitespace. */
  lemma FieldAt(s: string, i: nat) returns (a: nat, b: nat)
    requires i <= |s| && Tokens(s[i..]) != []
    ensures a == RunEnd(s, i, Space) && i <= a < b <= |s|
    ensures i < |s| && IsWs(s[i]) ==> i < a
    ensures b < |s| ==> IsWs(s[b])
    ensures Tokens(s[i..]) == [s[a..b]] + Tokens(s[b..])
  {
    a := RunEnd(s, i, Space);
    SpaceRunIsWs(s, i, a);
    if a < |s| {
      assert !InClass(s[a], Space);
    }
    if i < |s| && IsWs(s[i]) {
      assert InClass(s[i], Space);
    }
    TokensSuffixHead(s, i, a);
    b := a + WordLen(s[a..]);
  }

  /** Stage 2 is not vacuous: on a line that Stage 1 accepts and whose
      second field is a whole number `\d+\.?\d*`, the anchored search
      captures the same designator. (When the second field goes on past its
      number, as in `5mm`, the pattern's `\s+` after the number fails.) */
  lemma Stage2Complete(line: string)
    requires Stage1(line).Some? && WholeNumber(Tokens(line)[1])
    ensures Stage2(line) == Stage1(line)
  {
    FieldsCaptured(line, Tokens(line));
    Stage2Subsumed(line);
  }

  /** The search succeeds on a line whose fields `ts` Stage 1 accepts and
      whose second field is a whole number. */
  lemma FieldsCaptured(s: string, ts: seq<string>)
    requires ts == Tokens(s) && FieldsAccepted(ts) && WholeNumber(ts[1])
    ensures Stage2(s).Some?
  {
    assert s[0..] == s;
    var e0, g := FieldAt(s, 0);
    var e1, n1 := FieldAt(s, g);
    var e2, b2 := FieldAt(s, n1);
    assert ts[0] == s[e0..g] && ts[1] == s[e1..n1] && ts[2] == s[e2..b2];
    assert IsDigit(s[e2]) by {
      assert s[e2] == ts[2][0];
    }
    TailMatchesAt(s, g, e1, n1, e2);
    CaptureAt(s, e0, g);
  }

  /** The rest of the fallback pattern matches from `g` when whitespace, a
      whole number, whitespace and a digit follow, each whitespace run taken
      in full. */
  lemma TailMatchesAt(s: string, g: nat, e1: nat, n1: nat, e2: nat)
    requires g < e1 < n1 < e2 < |s|
    requires e1 == RunEnd(s, g, Space) && e2 == RunEnd(s, n1, Space)
    requires WholeNumber(s[e1..n1]) && IsDigit(s[e2])
    ensures TailMatches(s, g)
  {
    NumberEndsComplete(s, e1, n1);
    assert e1 in Plus(s, g, Space);
    assert e2 in Plus(s, n1, Space);
    assert NumberEnds(s, e2) != [];
  }

  /** A designator right after the leading whitespace, followed by the rest
      of the pattern, is captured by Stage 2. */
  lemma CaptureAt(s: string, e0: nat, g: nat)
    requires e0 == RunEnd(s, 0, Space) && e0 < g <= |s|
    requires IsRefDes(s[e0..g]) && TailMatches(s, g)
    ensures Stage2(s).Some?
  {
    GroupEndsComplete(s, e0, g);
    var es := Star(s, 0, Space);
    assert es[0] == e0;
    FirstGroupComplete(s, e0, GroupEnds(s, e0), g);
  }

  /** A designator at the head of the line followed by two numeric fields is
      what Stage 1 accepts. */
  lemma CaptureAccepted(s: string, e0: nat, g: nat)
    requires e0 < g < |s| && RunOf(s, 0, e0, Space) && IsWs(s[g])
    requires IsRefDes(s[e0..g])
    requires var ts := Tokens(s[g..]);
      |ts| >= 2 && StartsWithDigit(ts[0]) && StartsWithDigit(ts[1])
    ensures Stage1(s) == Some(s[e0..g])
  {
    CaptureIsFirstField(s, e0, g);
    assert FieldsAccepted(Tokens(s));
  }

  /** A designator preceded only by whitespace and followed by whitespace is
      the first field of the line. */
  lemma CaptureIsFirstField(s: string, e0: nat, g: nat)
    requires e0 < g < |s| && RunOf(s, 0, e0, Space) && IsWs(s[g])
    requires IsRefDes(s[e0..g])
    ensures Tokens(s) == [s[e0..g]] + Tokens(s[g..])
  {
    var c := s[e0..g];
    RefDesShape(c);
    assert forall p :: 0 <= p < e0 ==> IsWs(s[p]) by {
      forall p | 0 <= p < e0 ensures IsWs(s[p]) { assert InClass(s[p], Space); }
    }
    assert forall p :: e0 <= p < g ==> !IsWs(s[p]) by {
      forall p | e0 <= p < g ensures !IsWs(s[p]) { assert c[p - e0] == s[p]; }
    }
    assert s[0..] == s;
    TokensSuffixSkip(s, 0, e0);
    TokensSuffixWord(s, e0, g);
  }

  /** Where the tail of the fallback pattern matches, whitespace follows and
      the next two fields start with digits. */
  lemma TailFields(s: string, g: nat)
    requires g <= |s| && TailMatches(s, g)
    ensures g < |s| && IsWs(s[g])
    ensures var ts := Tokens(s[g..]);
      |ts| >= 2 && StartsWithDigit(ts[0]) && StartsWithDigit(ts[1])
  {
    var e1 :| e1 in Plus(s, g, Space) &&
      exists n1 :: n1 in NumberEnds(s, e1) &&
        exists e2 :: e2 in Plus(s, n1, Space) && NumberEnds(s, e2) != [];
    var n1 :| n1 in NumberEnds(s, e1) &&
      exists e2 :: e2 in Plus(s, n1, Space) && NumberEnds(s, e2) != [];
    var e2 :| e2 in Plus(s, n1, Space) && NumberEnds(s, e2) != [];
    assert RunOf(s, g, e1, Space) && RunOf(s, n1, e2, Space);
    assert NumberChars(s, e1, n1);
    TailFieldsAt(s, g, e1, n1, e2);
  }

  /** `TailFields` once the ends of the two gaps and the first number are
      known. */
  lemma TailFieldsAt(s: string, g: nat, e1: nat, n1: nat, e2: nat)
    requires g < e1 < n1 < e2 < |s|
    requires RunOf(s, g, e1, Space) && RunOf(s, n1, e2, Space)
    requires NumberChars(s, e1, n1) && IsDigit(s[e1]) && IsDigit(s[e2])
    ensures IsWs(s[g])
    ensures var ts := Tokens(s[g..]);
      |ts| >= 2 && StartsWithDigit(ts[0]) && StartsWithDigit(ts[1])
  {
    assert InClass(s[g], Space);
    TailTokens(s, g, e1, n1, e2);
    TokensSuffixStart(s, e2);
    assert s[e1..n1][0] == s[e1];
  }

  /** The fields after `g`: the first number, then the fields from `e2`. */
  lemma TailTokens(s: string, g: nat, e1: nat, n1: nat, e2: nat)
    requires g < e1 < n1 < e2 < |s|
    requires RunOf(s, g, e1, Space) && RunOf(s, n1, e2, Space)
    requires NumberChars(s, e1, n1) && IsWs(s[n1])
    ensures Tokens(s[g..]) == [s[e1..n1]] + Tokens(s[e2..])
  {
    SpaceRunIsWs(s, g, e1);
    SpaceRunIsWs(s, n1, e2);
    NumberHasNoWs(s, e1, n1);
    TokensSuffixSkip(s, g, e1);
    TokensSuffixWord(s, e1, n1);
    TokensSuffixSkip(s, n1, e2);
  }

  lemma SpaceRunIsWs(s: string, i: nat, j: nat)
    requires i <= j <= |s| && RunOf(s, i, j, Space)
    ensures forall p :: i <= p < j ==> IsWs(s[p])
  {
    forall p | i <= p < j ensures IsWs(s[p]) { assert InClass(s[p], Space); }
  }

  lemma NumberHasNoWs(s: string, i: nat, j: nat)
    requires i <= j <= |s| && NumberChars(s, i, j)
    ensures forall p :: i <= p < j ==> !IsWs(s[p])
  {
  }

  /** The designator found for a line: Stage 1, then Stage 2 when Stage 1
      found nothing. */
  function Recognize(line: string): Option<string> {
    match Stage1(line)
    case Some(d) => Some(d)
    case None => Stage2(line)
  }

  /** The fallback never changes the outcome: a line is recognised exactly
      when Stage 1 accepts it, with Stage 1's designator. */
  lemma FallbackNeverFires(line: string)
    ensures Recognize(line) == Stage1(line)
  {
    if Stage1(line).None? && Stage2(line).Some? {
      Stage2Subsumed(line);
    }
  }

  /** A recognised designator is the first field of the line, has one of the
      three shapes, and so is never empty. */
  lemma RecognizedShape(line: string)
    ensures Recognize(line).Some? ==>
      var d := Recognize(line).value;
      IsRefDes(d) && |d| >= 2 && IsUpper(d[0]) && Tokens(line) != [] && d == Tokens(line)[0]
  {
    FallbackNeverFires(line);
    if Stage1(line).Some? {
      RefDesShape(Stage1(line).value);
    }
  }
}
