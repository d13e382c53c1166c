/** `extract_ref_des_with_location`: a single pass over the lines of the
    extracted text that carries one flag, "below the Bottom Assembly
    marker", and emits at most one entry per line. */
module Extract {

  import opened Optional
  import opened Chars
  import opened Text
  import opened Shapes
  import opened Stages

  /** The board side; written `'Top'` or `'BTM'` in the output. */
  datatype Side = Top | Btm

  function SideLabel(side: Side): string {
    match side
    case Top => "Top"
    case Btm => "BTM"
  }

  /** Distinct sides are written differently, so counting entries by label
      is counting them by side. */
  lemma SideLabelInjective(a: Side, b: Side)
    ensures SideLabel(a) == SideLabel(b) <==> a == b
  {
  }

  function SideOf(isBottom: bool): Side {
    if isBottom then Btm else Top
  }

  /** One output record: designator, side, 1-based line number and the
      recognition rule. */
  datatype Entry = Entry(refDes: string, side: Side, line: nat, kind: Kind)

  /** Python's `pat in s` for strings. */
  predicate Contains(s: string, pat: string)
    decreases |s|
  {
    pat <= s || (s != [] && Contains(s[1..], pat))
  }

  /** `pat` occurs in `s` at offset `i`. */
  predicate OccursAt(s: string, pat: string, i: nat) {
    i + |pat| <= |s| && s[i..i + |pat|] == pat
  }

  /** An occurrence at offset 0 is a prefix. */
  lemma OccursStart(s: string, pat: string)
    ensures OccursAt(s, pat, 0) <==> pat <= s
  {
    if pat <= s {
      assert s[..|pat|] == pat;
    }
  }

  /** Dropping the first character moves every later occurrence one place
      to the left. */
  lemma OccursShift(s: string, pat: string, i: nat)
    requires s != []
    ensures OccursAt(s, pat, i + 1) <==> OccursAt(s[1..], pat, i)
  {
    if i + 1 + |pat| <= |s| {
      assert s[1..][i..i + |pat|] == s[i + 1..i + 1 + |pat|];
    }
  }

  /** `pat in s` holds exactly when `pat` occurs in `s` at some offset. */
  lemma {:induction false} ContainsOccurrence(s: string, pat: string)
    ensures Contains(s, pat) <==> exists i: nat :: OccursAt(s, pat, i)
    decreases |s|
  {
    OccursStart(s, pat);
    if s != [] {
      ContainsOccurrence(s[1..], pat);
      if exists i: nat :: OccursAt(s, pat, i) {
        var i: nat :| OccursAt(s, pat, i);
        if i > 0 {
          OccursShift(s, pat, i - 1);
        }
      }
      if Contains(s[1..], pat) {
        var i: nat :| OccursAt(s[1..], pat, i);
        OccursShift(s, pat, i);
      }
    }
  }

  /** A string without the first letter of `pat` does not contain it. */
  lemma MissingFirstLetter(s: string, pat: string)
    requires pat != [] && pat[0] !in s
    ensures !Contains(s, pat)
  {
    ContainsOccurrence(s, pat);
  }

  /** The section header after which every designator is on the bottom
      side. The test is case-sensitive and the two words may appear
      anywhere in the line. */
  predicate IsMarker(line: string) {
    Contains(line, "Bottom") && Contains(line, "Assembly")
  }

  /** What one line is to the loop: the marker, a blank line, a line whose
      designator is recognised, or any other line. The marker test comes
      first, then blankness (`not line.strip()`), then Stage 1 followed by
      Stage 2; an empty designator counts as none. */
  datatype LineClass = Marker | Blank | Designator(refDes: string) | Unrecognized

  function Classify(line: string): (c: LineClass)
    ensures c.Marker? <==> IsMarker(line)
    ensures c.Blank? ==> Strip(line) == []
    ensures c.Designator? ==> c.refDes != [] && Recognize(line) == Some(c.refDes)
  {
    if IsMarker(line) then
      Marker
    else if Strip(line) == [] then
      Blank
    else
      match Recognize(line)
      case Some(d) => if d != [] then Designator(d) else Unrecognized
      case None => Unrecognized
  }

  /** The classes of `lines`, line by line. */
  function ClassifyAll(lines: seq<string>): (cs: seq<LineClass>)
    ensures |cs| == |lines|
  {
    if lines == [] then [] else [Classify(lines[0])] + ClassifyAll(lines[1..])
  }

  /** The loop body for one line: the entry the line contributes, if any,
      and the flag after the line. A marker sets the flag and contributes
      nothing; a recognised designator becomes an entry on the side of the
      current flag. */
  function Step(c: LineClass, isBottom: bool, lineNo: nat): (r: (Option<Entry>, bool))
    ensures r.1 <==> isBottom || c.Marker?
    ensures r.0.Some? <==> c.Designator?
    ensures r.0.Some? ==> r.0.value == Entry(c.refDes, SideOf(isBottom), lineNo, KindOf(c.refDes))
  {
    match c
    case Marker => (None, true)
    case Designator(d) => (Some(Entry(d, SideOf(isBottom), lineNo, KindOf(d))), isBottom)
    case _ => (None, isBottom)
  }

  /** No entry or one. */
  function AsSeq(e: Option<Entry>): seq<Entry> {
    match e
    case Some(x) => [x]
    case None => []
  }

  /** The lines classified as `cs`, numbered from `lineNo`, with the flag
      `isBottom` carried in. */
  function Scan(cs: seq<LineClass>, isBottom: bool, lineNo: nat): seq<Entry>
  {
    if cs == [] then
      []
    else
      var r := Step(cs[0], isBottom, lineNo);
      AsSeq(r.0) + Scan(cs[1..], r.1, lineNo + 1)
  }

  /** The entries of the whole text: the lines are scanned with the flag
      cleared and numbered from 1. The result is the extraction of the
      lines: in line order, exactly the lines that yield a designator, each
      on the side its position relative to the first marker selects. */
  function ExtractRefDes(text: string): (es: seq<Entry>)
    ensures Extraction(SplitLines(text), es)
  {
    var lines := SplitLines(text);
    ClassifyAllCorrect(lines);
    ScanExtraction(ClassifyAll(lines), lines);
    Scan(ClassifyAll(lines), false, 1)
  }

  // ---------------------------------------------------------------------
  // The fold against a description with no flag: each entry is the
  // designator of its own line, on the side the markers before it select.

  /** The index of the first marker among `cs`, or `|cs|` when there is
      none. */
  function FirstMarker(cs: seq<LineClass>): (m: nat)
    ensures m <= |cs| && (m < |cs| ==> cs[m].Marker?)
    ensures forall p :: 0 <= p < m ==> !cs[p].Marker?
  {
    if cs == [] then 0
    else if cs[0].Marker? then 0
    else 1 + FirstMarker(cs[1..])
  }

  /** Entry `e` is the one line `e.line` of `cs` (numbered from `n`)
      yields, on the side the markers before it select. */
  predicate EntryOfLine(e: Entry, cs: seq<LineClass>, isBottom: bool, n: nat) {
    n <= e.line < n + |cs| &&
    var k := e.line - n;
    cs[k] == Designator(e.refDes) &&
    e.side == SideOf(isBottom || FirstMarker(cs) < k) &&
    e.kind == KindOf(e.refDes)
  }

  predicate LinesIncreasing(es: seq<Entry>) {
    forall i, j :: 0 <= i < j < |es| ==> es[i].line < es[j].line
  }

  /** Entries come in strictly increasing line order, at most one per line,
      each numbered within the lines scanned. */
  lemma {:induction false} ScanOrder(cs: seq<LineClass>, isBottom: bool, n: nat)
    ensures var es := Scan(cs, isBottom, n);
      |es| <= |cs| && LinesIncreasing(es) &&
      forall i :: 0 <= i < |es| ==> n <= es[i].line < n + |cs|
    decreases |cs|
  {
    if cs != [] {
      var r := Step(cs[0], isBottom, n);
      var e, b := r.0, r.1;
      ScanOrder(cs[1..], b, n + 1);
      OrderConcat(AsSeq(e), Scan(cs[1..], b, n + 1), n, |cs|);
    }
  }

  /** An entry numbered `n` (or none) before entries numbered after `n`
      keeps the order. */
  lemma OrderConcat(head: seq<Entry>, tail: seq<Entry>, n: nat, count: nat)
    requires |head| <= 1 && forall i :: 0 <= i < |head| ==> head[i].line == n
    requires count >= 1 && |tail| <= count - 1 && LinesIncreasing(tail)
    requires forall i :: 0 <= i < |tail| ==> n + 1 <= tail[i].line < n + 1 + (count - 1)
    ensures var es := head + tail;
      |es| <= count && LinesIncreasing(es) &&
      forall i :: 0 <= i < |es| ==> n <= es[i].line < n + count
  {
    var es := head + tail;
    forall i, j | 0 <= i < j < |es|
      ensures es[i].line < es[j].line
    {
      assert es[j] == tail[j - |head|];
      if i >= |head| {
        assert es[i] == tail[i - |head|];
      }
    }
    forall i | 0 <= i < |es|
      ensures n <= es[i].line < n + count
    {
      if i >= |head| {
        assert es[i] == tail[i - |head|];
      }
    }
  }

  /** Each entry is the designator of its line, on the side the markers
      before it select. */
  lemma {:induction false} ScanSound(cs: seq<LineClass>, isBottom: bool, n: nat)
    ensures forall i :: 0 <= i < |Scan(cs, isBottom, n)| ==>
      EntryOfLine(Scan(cs, isBottom, n)[i], cs, isBottom, n)
    decreases |cs|
  {
    if cs != [] {
      var r := Step(cs[0], isBottom, n);
      var e, b := r.0, r.1;
      ScanSound(cs[1..], b, n + 1);
      var head := AsSeq(e);
      var tail := Scan(cs[1..], b, n + 1);
      forall i | 0 <= i < |head + tail|
        ensures EntryOfLine((head + tail)[i], cs, isBottom, n)
      {
        if i >= |head| {
          assert (head + tail)[i] == tail[i - |head|];
          TailEntry(cs, isBottom, b, n, tail[i - |head|]);
        }
      }
    }
  }

  /** An entry of the remaining lines is an entry of all the lines, one
      line further on, once the first line's marker is folded into the
      flag. */
  lemma TailEntry(cs: seq<LineClass>, isBottom: bool, b: bool, n: nat, t: Entry)
    requires cs != [] && b == (isBottom || cs[0].Marker?)
    requires EntryOfLine(t, cs[1..], b, n + 1)
    ensures EntryOfLine(t, cs, isBottom, n)
  {
    assert cs[1..][t.line - (n + 1)] == cs[t.line - n];
  }

  /** Every line with a designator has its entry: the designator, on the
      side the markers before it select, at the line's number. */
  lemma {:induction false} ScanComplete(cs: seq<LineClass>, isBottom: bool, n: nat, k: nat)
    requires k < |cs| && cs[k].Designator?
    ensures Entry(cs[k].refDes, SideOf(isBottom || FirstMarker(cs) < k), n + k, KindOf(cs[k].refDes))
      in Scan(cs, isBottom, n)
    decreases k
  {
    var r := Step(cs[0], isBottom, n);
    assert Scan(cs, isBottom, n) == AsSeq(r.0) + Scan(cs[1..], r.1, n + 1);
    if k > 0 {
      assert cs[1..][k - 1] == cs[k];
      ScanComplete(cs[1..], r.1, n + 1, k - 1);
    }
  }

  // ---------------------------------------------------------------------
  // The classes line by line, without Stage 2.

  /** The designator a line yields judged on the line alone: none for a
      marker, none for a whitespace-only line, otherwise what Stage 1
      accepts. */
  function Designation(line: string): Option<string> {
    if IsMarker(line) || AllWs(line) || !FieldsAccepted(Tokens(line)) then None
    else Some(Tokens(line)[0])
  }

  /** `c` is the class line `line` deserves: a marker exactly when the
      line is one, and a designator exactly when the line yields one, with
      that designator. */
  predicate ClassOf(c: LineClass, line: string) {
    (c.Marker? <==> IsMarker(line)) &&
    (c.Designator? <==> Designation(line).Some?) &&
    (c.Designator? ==> Designation(line) == Some(c.refDes))
  }

  /** Every line is classified as it deserves: a blank line never yields a
      designator and the Stage 2 fallback never decides a line. */
  lemma ClassifyCorrect(line: string)
    ensures ClassOf(Classify(line), line)
  {
    StripEmpty(line);
    FallbackNeverFires(line);
    if !IsMarker(line) && !AllWs(line) && Stage1(line).Some? {
      RecognizedShape(line);
    }
  }

  /** The two kinds of line the loop skips: a marker contributes nothing
      and sets the flag; a whitespace-only line contributes nothing and
      leaves the flag as it was. */
  lemma SkippedLine(line: string, isBottom: bool, lineNo: nat)
    ensures IsMarker(line) ==> Step(Classify(line), isBottom, lineNo) == (None, true)
    ensures AllWs(line) ==> Step(Classify(line), isBottom, lineNo) == (None, isBottom)
  {
    if AllWs(line) {
      MissingFirstLetter(line, "Bottom");
      ClassifyCorrect(line);
    }
  }

  /** `cs` are the classes `lines` deserve, line by line. */
  predicate ClassesOf(cs: seq<LineClass>, lines: seq<string>) {
    |cs| == |lines| && forall k :: 0 <= k < |cs| ==> ClassOf(cs[k], lines[k])
  }

  lemma {:induction false} ClassifyAllCorrect(lines: seq<string>)
    ensures ClassesOf(ClassifyAll(lines), lines)
  {
    if lines != [] {
      var cs := ClassifyAll(lines);
      ClassifyCorrect(lines[0]);
      ClassifyAllCorrect(lines[1..]);
      forall k | 0 < k < |cs|
        ensures ClassOf(cs[k], lines[k])
      {
        assert cs[k] == ClassifyAll(lines[1..])[k - 1];
        assert lines[k] == lines[1..][k - 1];
      }
    }
  }

  /** The index of the first marker line, or `|lines|` when there is
      none: every line after it is in the bottom section. */
  function FirstMarkerLine(lines: seq<string>): (m: nat)
    ensures m <= |lines| && (m < |lines| ==> IsMarker(lines[m]))
    ensures forall p :: 0 <= p < m ==> !IsMarker(lines[p])
  {
    if lines == [] then 0
    else if IsMarker(lines[0]) then 0
    else 1 + FirstMarkerLine(lines[1..])
  }

  /** The first marker class is at the first marker line. */
  lemma {:induction false} FirstMarkerClassified(cs: seq<LineClass>, lines: seq<string>)
    requires ClassesOf(cs, lines)
    ensures FirstMarker(cs) == FirstMarkerLine(lines)
    decreases |lines|
  {
    if lines != [] {
      assert ClassOf(cs[0], lines[0]);
      forall k | 0 <= k < |cs| - 1
        ensures ClassOf(cs[1..][k], lines[1..][k])
      {
        assert ClassOf(cs[k + 1], lines[k + 1]);
      }
      FirstMarkerClassified(cs[1..], lines[1..]);
    }
  }

  /** What the whole text yields, described line by line with no flag:
      entries are in strictly increasing line order, at most one per line;
      an entry's line yields the entry's designator (it is neither a marker
      nor blank and Stage 1 accepts it) and the kind is the designator's;
      the side is BTM exactly when the line comes after the first marker
      line; and every line that yields a designator has an entry. Lines are
      numbered from 1. */
  predicate Extraction(lines: seq<string>, es: seq<Entry>) {
    |es| <= |lines| &&
    LinesIncreasing(es) &&
    (forall i :: 0 <= i < |es| ==>
       1 <= es[i].line <= |lines| &&
       Designation(lines[es[i].line - 1]) == Some(es[i].refDes) &&
       es[i].kind == KindOf(es[i].refDes) &&
       (es[i].side == Btm <==> FirstMarkerLine(lines) < es[i].line - 1)) &&
    (forall k :: 0 <= k < |lines| && Designation(lines[k]).Some? ==>
       exists i :: 0 <= i < |es| && es[i].line == k + 1)
  }

  /** The fold over lines classified as they deserve, from line 1 with the
      flag cleared, is the extraction of those lines. */
  lemma ScanExtraction(cs: seq<LineClass>, lines: seq<string>)
    requires ClassesOf(cs, lines)
    ensures Extraction(lines, Scan(cs, false, 1))
  {
    var es := Scan(cs, false, 1);
    ScanOrder(cs, false, 1);
    ScanSound(cs, false, 1);
    FirstMarkerClassified(cs, lines);
    forall i | 0 <= i < |es|
      ensures 1 <= es[i].line <= |lines|
      ensures Designation(lines[es[i].line - 1]) == Some(es[i].refDes)
      ensures es[i].kind == KindOf(es[i].refDes)
      ensures es[i].side == Btm <==> FirstMarkerLine(lines) < es[i].line - 1
    {
      EntryOfLineParts(es[i], cs);
      assert ClassOf(cs[es[i].line - 1], lines[es[i].line - 1]);
    }
    forall k | 0 <= k < |lines| && Designation(lines[k]).Some?
      ensures exists i :: 0 <= i < |es| && es[i].line == k + 1
    {
      assert ClassOf(cs[k], lines[k]);
      ScanComplete(cs, false, 1, k);
    }
  }

  /** The parts of an entry of lines numbered from 1 with the flag cleared. */
  lemma EntryOfLineParts(e: Entry, cs: seq<LineClass>)
    requires EntryOfLine(e, cs, false, 1)
    ensures 1 <= e.line <= |cs| && cs[e.line - 1] == Designator(e.refDes)
    ensures e.kind == KindOf(e.refDes)
    ensures e.side == Btm <==> FirstMarker(cs) < e.line - 1
  {
  }

  /** In an extraction the side never goes back from BTM to Top. */
  lemma ExtractionSideMonotone(lines: seq<string>, es: seq<Entry>)
    requires Extraction(lines, es)
    ensures forall i, j :: 0 <= i < j < |es| && es[i].side == Btm ==> es[j].side == Btm
  {
    forall i, j | 0 <= i < j < |es| && es[i].side == Btm
      ensures es[j].side == Btm
    {
      assert es[i].line < es[j].line;
    }
  }

  /** In an extraction of lines without a marker every entry is Top. */
  lemma ExtractionNoMarker(lines: seq<string>, es: seq<Entry>)
    requires Extraction(lines, es)
    requires forall k :: 0 <= k < |lines| ==> !IsMarker(lines[k])
    ensures forall i :: 0 <= i < |es| ==> es[i].side == Top
  {
    assert FirstMarkerLine(lines) == |lines|;
  }

  /** In an extraction every designator has one of the three shapes. */
  lemma ExtractionRefDes(lines: seq<string>, es: seq<Entry>)
    requires Extraction(lines, es)
    ensures forall i :: 0 <= i < |es| ==>
      IsRefDes(es[i].refDes) && |es[i].refDes| >= 2 && IsUpper(es[i].refDes[0])
  {
    forall i | 0 <= i < |es|
      ensures IsRefDes(es[i].refDes) && |es[i].refDes| >= 2 && IsUpper(es[i].refDes[0])
    {
      var line := lines[es[i].line - 1];
      assert Designation(line) == Some(es[i].refDes);
      RefDesShape(es[i].refDes);
    }
  }

  /** The side never goes back from BTM to Top. */
  lemma SideMonotone(text: string)
    ensures forall i, j :: 0 <= i < j < |ExtractRefDes(text)| && ExtractRefDes(text)[i].side == Btm ==>
      ExtractRefDes(text)[j].side == Btm
  {
    ExtractionSideMonotone(SplitLines(text), ExtractRefDes(text));
  }

  /** A text without a marker line has only Top entries. */
  lemma NoMarkerAllTop(text: string)
    requires forall k :: 0 <= k < |SplitLines(text)| ==> !IsMarker(SplitLines(text)[k])
    ensures forall e :: e in ExtractRefDes(text) ==> e.side == Top
  {
    ExtractionNoMarker(SplitLines(text), ExtractRefDes(text));
  }

  /** Every designator in the result has one of the three shapes, at least
      two characters and a capital first letter. */
  lemma EntriesAreRefDes(text: string)
    ensures forall e :: e in ExtractRefDes(text) ==>
      IsRefDes(e.refDes) && |e.refDes| >= 2 && IsUpper(e.refDes[0])
  {
    ExtractionRefDes(SplitLines(text), ExtractRefDes(text));
  }

  // ---------------------------------------------------------------------
  // Summary counts.

  /** `sum(1 for item in ref_des_list if item['Top/BTM'] == side)`: the
      number of entries on `side`. */
  function CountSide(es: seq<Entry>, side: Side): (c: nat)
    ensures c == |set i | 0 <= i < |es| && es[i].side == side|
  {
    if es == [] then
      0
    else
      var n := |es| - 1;
      SideIndicesSnoc(es, side);
      CountSide(es[..n], side) + (if es[n].side == side then 1 else 0)
  }

  lemma SideIndicesSnoc(es: seq<Entry>, side: Side)
    requires es != []
    ensures var n := |es| - 1;
      (set i | 0 <= i < |es| && es[i].side == side) ==
      (set i | 0 <= i < n && es[..n][i].side == side) + (if es[n].side == side then {n} else {})
  {
  }

  /** `sum(1 for item in ref_des_list if item['Pattern'] == kind)`: the
      number of entries of `kind`. */
  function CountKind(es: seq<Entry>, kind: Kind): (c: nat)
    ensures c == |set i | 0 <= i < |es| && es[i].kind == kind|
  {
    if es == [] then
      0
    else
      var n := |es| - 1;
      KindIndicesSnoc(es, kind);
      CountKind(es[..n], kind) + (if es[n].kind == kind then 1 else 0)
  }

  lemma KindIndicesSnoc(es: seq<Entry>, kind: Kind)
    requires es != []
    ensures var n := |es| - 1;
      (set i | 0 <= i < |es| && es[i].kind == kind) ==
      (set i | 0 <= i < n && es[..n][i].kind == kind) + (if es[n].kind == kind then {n} else {})
  {
  }

  /** Total, per-side and per-kind counts. */
  datatype Summary = Summary(total: nat, top: nat, btm: nat, dNumeric: nat, uNumeric: nat, complex: nat)

  lemma {:induction false} SidesPartition(es: seq<Entry>)
    ensures CountSide(es, Top) + CountSide(es, Btm) == |es|
  {
    if es != [] {
      SidesPartition(es[..|es| - 1]);
    }
  }

  lemma {:induction false} KindsPartition(es: seq<Entry>)
    ensures CountKind(es, DNumeric) + CountKind(es, UNumeric) + CountKind(es, Complex) == |es|
  {
    if es != [] {
      KindsPartition(es[..|es| - 1]);
    }
  }

  /** The reported counts: each one is the number of entries with its side
      or kind, and every entry is counted once by side and once by kind. */
  function Summarize(es: seq<Entry>): (s: Summary)
    ensures s.total == |es|
    ensures s.top == |set i | 0 <= i < |es| && es[i].side == Top|
    ensures s.btm == |set i | 0 <= i < |es| && es[i].side == Btm|
    ensures s.dNumeric == |set i | 0 <= i < |es| && es[i].kind == DNumeric|
    ensures s.uNumeric == |set i | 0 <= i < |es| && es[i].kind == UNumeric|
    ensures s.complex == |set i | 0 <= i < |es| && es[i].kind == Complex|
    ensures s.total == s.top + s.btm
    ensures s.total == s.dNumeric + s.uNumeric + s.complex
  {
    SidesPartition(es);
    KindsPartition(es);
    Summary(|es|, CountSide(es, Top), CountSide(es, Btm),
            CountKind(es, DNumeric), CountKind(es, UNumeric), CountKind(es, Complex))
  }

  /** When every entry is on Top, none is counted as BTM. */
  lemma AllTopSummary(es: seq<Entry>)
    requires forall e :: e in es ==> e.side == Top
    ensures Summarize(es).btm == 0 && Summarize(es).top == |es|
  {
    assert (set i | 0 <= i < |es| && es[i].side == Btm) == {} by {
      forall i | 0 <= i < |es|
        ensures es[i].side == Top
      {
        assert es[i] in es;
      }
    }
  }

  /** Without a marker line, every entry is counted as Top and none as BTM. */
  lemma NoMarkerSummary(text: string)
    requires forall k :: 0 <= k < |SplitLines(text)| ==> !IsMarker(SplitLines(text)[k])
    ensures Summarize(ExtractRefDes(text)).btm == 0
    ensures Summarize(ExtractRefDes(text)).top == |ExtractRefDes(text)|
  {
    NoMarkerAllTop(text);
    AllTopSummary(ExtractRefDes(text));
  }

  /** The empty text is one empty line: no entries and all counts zero. */
  lemma EmptyText(text: string)
    requires text == ""
    ensures ExtractRefDes(text) == []
    ensures Summarize(ExtractRefDes(text)) == Summary(0, 0, 0, 0, 0, 0)
  {
    assert SplitLines(text) == [text];
    MissingFirstLetter(text, "Bottom");
    StripEmpty(text);
    assert Classify(text) == Blank;
    assert ClassifyAll([text]) == [Blank];
    assert Scan([Blank], false, 1) == [];
  }
}
