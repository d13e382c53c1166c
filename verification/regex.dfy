/** The two regular expressions of the classifier that are not plain shape
    tests, encoded the way Python's backtracking engine reads them: every
    sub-pattern yields the end positions it can reach, in the order the
    engine tries them (a greedy repetition offers its longest match first,
    an alternation its left branch first). */
module Regex {

  import opened Chars
  import opened Shapes

  /** The repeated character classes: `\s`, `\d` and `[A-Z0-9_]`. */
  datatype Class = Space | Digit | Word

  predicate InClass(c: char, k: Class) {
    match k
    case Space => IsWs(c)
    case Digit => IsDigit(c)
    case Word => IsWordChar(c)
  }

  /** Every position in `[i, j)` holds a character of class `k`. */
  predicate RunOf(s: string, i: nat, j: nat, k: Class)
    requires i <= j <= |s|
  {
    forall p :: i <= p < j ==> InClass(s[p], k)
  }

  /** End of the longest run of class `k` that starts at `i`. */
  function RunEnd(s: string, i: nat, k: Class): (j: nat)
    requires i <= |s|
    ensures i <= j <= |s| && RunOf(s, i, j, k)
    ensures j < |s| ==> !InClass(s[j], k)
    decreases |s| - i
  {
    if i < |s| && InClass(s[i], k) then RunEnd(s, i + 1, k) else i
  }

  /** `hi, hi - 1, ..., lo`. */
  function Descending(hi: nat, lo: nat): (r: seq<nat>)
    ensures forall e :: e in r <==> lo <= e <= hi
    ensures forall q :: 0 <= q < |r| ==> r[q] == hi - q
    decreases hi
  {
    if hi < lo then []
    else if hi == 0 then [0]
    else [hi] + Descending(hi - 1, lo)
  }

  /** The ends offered by `k*` at `i`, longest first. */
  function Star(s: string, i: nat, k: Class): (r: seq<nat>)
    requires i <= |s|
    ensures forall e :: e in r ==> i <= e <= |s| && RunOf(s, i, e, k)
    ensures i in r
  {
    Descending(RunEnd(s, i, k), i)
  }

  /** The ends offered by `k+` at `i`, longest first. */
  function Plus(s: string, i: nat, k: Class): (r: seq<nat>)
    requires i <= |s|
    ensures forall e :: e in r ==> i < e <= |s| && RunOf(s, i, e, k)
    ensures r != [] <==> i < |s| && InClass(s[i], k)
  {
    var j := RunEnd(s, i, k);
    assert i < |s| && InClass(s[i], k) ==> i + 1 <= j;
    Descending(j, i + 1)
  }

  /** Every run of class `k` from `i` ends no later than the longest one. */
  lemma {:induction false} RunMax(s: string, i: nat, j: nat, k: Class)
    requires i <= j <= |s| && RunOf(s, i, j, k)
    ensures j <= RunEnd(s, i, k)
    decreases j - i
  {
    if i < j {
      assert InClass(s[i], k);
      RunMax(s, i + 1, j, k);
    }
  }

  /** The ends offered by the group `(D\d+|U\d+|[A-Z][A-Z0-9_]+)` at `i`:
      the three branches in order, each greedy. Every one of them closes a
      reference designator. */
  function GroupEnds(s: string, i: nat): (r: seq<nat>)
    requires i <= |s|
    ensures forall g :: g in r ==> i < g <= |s| && IsRefDes(s[i..g])
  {
    var d := if i < |s| && s[i] == 'D' then Plus(s, i + 1, Digit) else [];
    var u := if i < |s| && s[i] == 'U' then Plus(s, i + 1, Digit) else [];
    var c := if i < |s| && IsUpper(s[i]) then Plus(s, i + 1, Word) else [];
    GroupShapes(s, i, d, u, c);
    d + u + c
  }

  lemma GroupShapes(s: string, i: nat, d: seq<nat>, u: seq<nat>, c: seq<nat>)
    requires i < |s| || (d == [] && u == [] && c == [])
    requires d != [] ==> s[i] == 'D'
    requires u != [] ==> s[i] == 'U'
    requires c != [] ==> IsUpper(s[i])
    requires forall g :: g in d ==> i + 1 < g <= |s| && RunOf(s, i + 1, g, Digit)
    requires forall g :: g in u ==> i + 1 < g <= |s| && RunOf(s, i + 1, g, Digit)
    requires forall g :: g in c ==> i + 1 < g <= |s| && RunOf(s, i + 1, g, Word)
    ensures forall g :: g in d + u + c ==> i < g <= |s| && IsRefDes(s[i..g])
  {
    forall g | g in d + u + c
      ensures i < g <= |s| && IsRefDes(s[i..g])
    {
      var w := s[i..g];
      assert forall q :: 1 <= q < |w| ==> w[q] == s[i + q];
      if g in d {
        assert AllDigits(w[1..]);
      } else if g in u {
        assert AllDigits(w[1..]);
      } else {
        assert IsComplexShape(w);
      }
    }
  }

  /** Conversely, every designator that starts at `i` is offered: the
      complex branch alone reaches all of them. */
  lemma GroupEndsComplete(s: string, i: nat, g: nat)
    requires i < g <= |s| && IsRefDes(s[i..g])
    ensures g in GroupEnds(s, i)
  {
    var w := s[i..g];
    RefDesIsComplexShape(w);
    assert IsUpper(s[i]) by {
      assert w[0] == s[i];
    }
    assert RunOf(s, i + 1, g, Word) by {
      forall p | i + 1 <= p < g
        ensures InClass(s[p], Word)
      {
        assert w[p - i] == s[p];
      }
    }
    RunMax(s, i + 1, g, Word);
    assert g in Plus(s, i + 1, Word);
  }

  /** Every position in `[i, j)` holds a digit or a dot. */
  predicate NumberChars(s: string, i: nat, j: nat)
    requires i <= j <= |s|
  {
    forall p :: i <= p < j ==> IsDigit(s[p]) || s[p] == '.'
  }

  /** No two positions in `[i, j)` hold a dot. */
  predicate AtMostOneDot(s: string, i: nat, j: nat)
    requires i <= j <= |s|
  {
    forall p, q :: i <= p < q < j && s[p] == '.' ==> s[q] != '.'
  }

  /** The ends offered by `\.?\d*` at `d`: the optional dot is taken first,
      then left out. */
  function DotDigits(s: string, d: nat): (r: seq<nat>)
    requires d <= |s|
    ensures forall n :: n in r ==> d <= n <= |s| && NumberChars(s, d, n)
    ensures forall n :: n in r ==> RunOf(s, d, n, Digit) || (d < |s| && s[d] == '.' && RunOf(s, d + 1, n, Digit))
    ensures d in r
  {
    if d < |s| && s[d] == '.' then
      var withDot := Star(s, d + 1, Digit);
      var without := Star(s, d, Digit);
      assert forall n :: n in withDot ==> RunOf(s, d + 1, n, Digit);
      withDot + without
    else
      Star(s, d, Digit)
  }

  /** The rest `\.?\d*` of a number, tried after each end `d` of its
      leading `\d+` in turn. */
  function NumberTails(s: string, lo: nat, ds: seq<nat>): (r: seq<nat>)
    requires forall d :: d in ds ==> lo < d <= |s| && RunOf(s, lo, d, Digit)
    ensures forall n :: n in r ==> lo < n <= |s| && NumberChars(s, lo, n)
    ensures forall n :: n in r ==> AtMostOneDot(s, lo, n)
    ensures r != [] <==> ds != []
  {
    if ds == [] then
      []
    else
      var d := ds[0];
      assert d in ds;
      assert forall x :: x in ds[1..] ==> x in ds;
      var tails := DotDigits(s, d);
      assert forall n :: n in tails ==> lo < n <= |s| && NumberChars(s, lo, n) && AtMostOneDot(s, lo, n) by {
        forall n | n in tails
          ensures lo < n <= |s| && NumberChars(s, lo, n) && AtMostOneDot(s, lo, n)
        {
          DigitsThenDot(s, lo, d, n);
        }
      }
      tails + NumberTails(s, lo, ds[1..])
  }

  /** Digits on `[lo, d)` followed by an optional dot and digits up to `n`
      hold at most one dot. */
  lemma DigitsThenDot(s: string, lo: nat, d: nat, n: nat)
    requires lo <= d <= n <= |s| && RunOf(s, lo, d, Digit)
    requires RunOf(s, d, n, Digit) || (d < |s| && s[d] == '.' && RunOf(s, d + 1, n, Digit))
    ensures NumberChars(s, lo, n) && AtMostOneDot(s, lo, n)
  {
    forall p | lo <= p < n
      ensures IsDigit(s[p]) || s[p] == '.'
    {
      if p < d || RunOf(s, d, n, Digit) || p > d {
        assert InClass(s[p], Digit);
      }
    }
    forall p, q | lo <= p < q < n && s[p] == '.'
      ensures s[q] != '.'
    {
      assert !InClass(s[p], Digit);
      assert !(lo <= p < d);
      assert p == d;
      assert InClass(s[q], Digit);
    }
  }

  /** The ends offered by `\d+\.?\d*` at `i`: each one spans a leading
      digit, then digits and at most one dot. */
  function NumberEnds(s: string, i: nat): (r: seq<nat>)
    requires i <= |s|
    ensures forall n :: n in r ==> i < n <= |s| && NumberChars(s, i, n)
    ensures forall n :: n in r ==> IsDigit(s[i]) && AtMostOneDot(s, i, n)
    ensures r != [] <==> i < |s| && IsDigit(s[i])
  {
    NumberTails(s, i, Plus(s, i, Digit))
  }

  /** A whole number in the sense of `\d+\.?\d*`: a digit, then digits and
      at most one dot. */
  predicate WholeNumber(t: string) {
    t != [] && IsDigit(t[0]) && NumberChars(t, 0, |t|) && AtMostOneDot(t, 0, |t|)
  }

  /** An end offered by the tail `\.?\d*` after one of the digit-run ends
      `ds` is offered by the whole number. */
  lemma {:induction false} NumberTailsComplete(s: string, lo: nat, ds: seq<nat>, d: nat, n: nat)
    requires forall x :: x in ds ==> lo < x <= |s| && RunOf(s, lo, x, Digit)
    requires d in ds && d <= |s| && n in DotDigits(s, d)
    ensures n in NumberTails(s, lo, ds)
    decreases |ds|
  {
    assert forall x :: x in ds[1..] ==> x in ds;
    if ds[0] != d {
      assert d in ds[1..];
      NumberTailsComplete(s, lo, ds[1..], d, n);
    }
  }

  /** Conversely to `NumberEnds`, every whole number that starts at `i` is
      offered: its digits are one of the runs `\d+` tries, and its optional
      dot and trailing digits are one of the tails. */
  lemma NumberEndsComplete(s: string, i: nat, n: nat)
    requires i < n <= |s| && WholeNumber(s[i..n])
    ensures n in NumberEnds(s, i)
  {
    var t := s[i..n];
    assert forall p :: i <= p < n ==> s[p] == t[p - i];
    var ds := Plus(s, i, Digit);
    var r := RunEnd(s, i, Digit);
    assert InClass(s[i], Digit);
    assert i + 1 <= r;
    if n <= r {
      assert n in ds;
      NumberTailsComplete(s, i, ds, n, n);
    } else {
      assert s[r] == '.' by {
        assert t[r - i] == s[r];
      }
      assert RunOf(s, r + 1, n, Digit) by {
        forall q | r + 1 <= q < n
          ensures InClass(s[q], Digit)
        {
          assert t[r - i] == '.' && t[q - i] == s[q];
          assert t[q - i] != '.';
        }
      }
      RunMax(s, r + 1, n, Digit);
      assert n in Star(s, r + 1, Digit);
      assert n in DotDigits(s, r);
      assert r in ds;
      NumberTailsComplete(s, i, ds, r, n);
    }
  }

  /** `re.match(r'^\d+\.?\d*', t)` succeeds. */
  predicate MatchesNumber(t: string) {
    NumberEnds(t, 0) != []
  }

  /** The number pattern matches at the start of `t` exactly when `t`
      starts with a digit: the optional fraction never makes it fail. */
  lemma NumberMatchStart(t: string)
    ensures MatchesNumber(t) <==> StartsWithDigit(t)
  {
  }

  /** The rest `\s+(\d+\.?\d*)\s+(\d+\.?\d*)` of the fallback pattern matches
      from `g`. Backtracking tries every combination of ends, so only their
      existence matters here. */
  predicate TailMatches(s: string, g: nat)
    requires g <= |s|
  {
    exists e1 :: e1 in Plus(s, g, Space) &&
      exists n1 :: n1 in NumberEnds(s, e1) &&
        exists e2 :: e2 in Plus(s, n1, Space) && NumberEnds(s, e2) != []
  }
}
