/** The three reference-designator shapes, the coordinate test and the
    pattern kind recorded for every entry. */
module Shapes {

  import opened Chars

  /** `^D\d+$`. A field never holds a line feed, so `$` is its end. */
  predicate IsDShape(w: string) {
    |w| >= 2 && w[0] == 'D' && AllDigits(w[1..])
  }

  /** `^U\d+$`. */
  predicate IsUShape(w: string) {
    |w| >= 2 && w[0] == 'U' && AllDigits(w[1..])
  }

  /** `^[A-Z][A-Z0-9_]+$`. */
  predicate IsComplexShape(w: string) {
    |w| >= 2 && IsUpper(w[0]) && forall i :: 1 <= i < |w| ==> IsWordChar(w[i])
  }

  /** A field accepted as a reference designator. */
  predicate IsRefDes(w: string) {
    IsDShape(w) || IsUShape(w) || IsComplexShape(w)
  }

  /** What `re.match(r'^\d+\.?\d*', t)` really tests. */
  predicate StartsWithDigit(t: string) {
    t != [] && IsDigit(t[0])
  }

  /** The recognition rule an entry is reported under. */
  datatype Kind = DNumeric | UNumeric | Complex

  /** The pattern kind, decided with D first, then U, then the complex
      shape. The D and U shapes cannot both hold, so each kind is exactly
      characterised by the shapes. */
  function KindOf(w: string): (k: Kind)
    ensures k == DNumeric <==> IsDShape(w)
    ensures k == UNumeric <==> IsUShape(w)
    ensures k == Complex <==> !IsDShape(w) && !IsUShape(w)
  {
    if IsDShape(w) then DNumeric
    else if IsUShape(w) then UNumeric
    else Complex
  }

  /** The kind as it is written in the output. */
  function KindLabel(k: Kind): string {
    match k
    case DNumeric => "D+숫자"
    case UNumeric => "U+숫자"
    case Complex => "복합패턴"
  }

  /** Distinct kinds are written differently, so counting entries by label
      is counting them by kind. */
  lemma KindLabelInjective(a: Kind, b: Kind)
    ensures KindLabel(a) == KindLabel(b) <==> a == b
  {
  }

  /** The complex shape already contains the D and U shapes, so accepting
      "any of the three" is accepting the complex shape. */
  lemma RefDesIsComplexShape(w: string)
    ensures IsRefDes(w) <==> IsComplexShape(w)
  {
  }

  /** Every designator has at least two characters, starts with a capital
      letter and is free of whitespace: a lone `R` is never a designator. */
  lemma RefDesShape(w: string)
    requires IsRefDes(w)
    ensures |w| >= 2 && IsUpper(w[0]) && NoWs(w)
  {
  }
}
