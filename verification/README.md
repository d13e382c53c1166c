# Reference-designator extraction from assembly-drawing text

This project models `extract_ref_des_with_location` from `Extract_Ref_Des.py`.
The function takes the text extracted from a PCB assembly PDF and splits it
into lines. It walks the lines once, carrying one flag: whether the
"Bottom Assembly" header has been seen. For every data line it emits at most
one entry, made of:

- the reference designator (`Ref Des`);
- the board side (`Top`, or `BTM` once the header has been passed);
- the 1-based line number;
- the pattern kind (`D+숫자`, `U+숫자` or `복합패턴`).

It then reports the total count, the counts per side and the counts per
pattern kind.

Each line is handled in this order:

1. **Marker.** A line that contains both `Bottom` and `Assembly` sets the flag and is skipped.
2. **Blank.** A line that is empty after `strip()` is skipped.
3. **Stage 1.** The stripped line is split on whitespace runs. The line is accepted when:
   - there are at least three fields;
   - the first field has one of the shapes `^D\d+$`, `^U\d+$` or `^[A-Z][A-Z0-9_]+$`;
   - the next two fields match `^\d+\.?\d*`.
4. **Stage 2.** Only if Stage 1 found nothing, the regex
   `^\s*(D\d+|U\d+|[A-Z][A-Z0-9_]+)\s+(\d+\.?\d*)\s+(\d+\.?\d*)` is searched for.

The files, in dependency order:

- `optional.dfy`: `Option`.
- `chars.dfy`: the character classes.
  - Whitespace is Python's `str.isspace` set, used by both `\s` and `strip()`.
  - `\d` is kept to ASCII digits.
- `text.dfy`: `split('\n')`, `strip()` and splitting a line into fields, with round trips.
- `shapes.dfy`: the three designator shapes, the coordinate test and the pattern kind.
- `regex.dfy`: a backtracking matcher for the two patterns that are used.
  - Each quantifier yields its candidate end positions in greedy order.
  - Alternation concatenates the candidate lists of its branches.
  - The first overall success wins, as in Python's `re`.
- `stages.dfy`: Stage 1 and Stage 2 as written. It also proves that Stage 2 never accepts a line Stage 1 rejects, and never yields a different designator.
- `extract.dfy`: the per-line classification, the fold over the lines, and the counts. It also gives a flag-free description of the result (`Extraction`), which is the postcondition of `ExtractRefDes`.
- `samples.dfy`: the classifier on concrete lines.

**Consequences of the code as written.**

- **Stage 2 is anchored.** The pattern begins with `^` and no MULTILINE flag is passed, so `re.search` can only match at position 0 of the line. A designator that follows a leading word is never found (`Samples.LeadingWordHidesDesignator`).
- **The fallback never fires.** Every line Stage 2 accepts is already accepted by Stage 1 with the same designator (`Stages.Stage2Subsumed`).
- **Fields are split on `\s+`.** The alternative `\t+` adds nothing, so fields are separated by runs of any whitespace character, not only spaces and tabs.

## Model

| member | source | states |
|---|---|---|
| Text.Strip | Extract_Ref_Des.py:86 | `line.strip()` is a slice of the line with only whitespace before and after it, and a non-empty result starts and ends with non-whitespace |
| Text.SplitLines | Extract_Ref_Des.py:73 | `text.split('\n')` gives at least one piece and no piece holds a line feed; `JoinSplitLines` and `SplitJoinLines` complete it to exactly the pieces between line feeds |
| Text.Tokens | Extract_Ref_Des.py:95-96 | the fields of a line are non-empty and hold no whitespace; `TokensAllWs`, `TokensSkipWs` and `TokensTakeWord` pin them as the maximal whitespace-free runs: whitespace alone gives no field, leading whitespace is skipped, and a whitespace-free prefix ending at whitespace is the first field |
| Text.TokensAllWs | Extract_Ref_Des.py:95-96 | a string made only of whitespace has no fields |
| Text.TokensSkipWs | Extract_Ref_Des.py:95-96 | leading whitespace of any kind and length does not change the fields |
| Text.TokensTakeWord | Extract_Ref_Des.py:95-96 | a non-empty whitespace-free prefix that ends at whitespace or at the end of the line is the first field, followed by the fields of the rest |
| Text.StripEmpty | Extract_Ref_Des.py:86-87 | `line.strip()` is empty exactly when the line is whitespace only |
| Text.TokensStrip | Extract_Ref_Des.py:95-96 | stripping the line before splitting it does not change the fields |
| Text.TokensJoinFields | Extract_Ref_Des.py:95-96 | splitting fields that were joined with spaces gives back exactly those fields |
| Text.JoinSplitLines | Extract_Ref_Des.py:73 | joining the pieces of `text.split('\n')` with line feeds gives back the text |
| Text.SplitJoinLines | Extract_Ref_Des.py:73 | lines without line feeds survive a join followed by a split |
| Extract.Contains | Extract_Ref_Des.py:79 | the `in` test on strings; `ContainsOccurrence` relates it to an independent offset definition |
| Extract.IsMarker | Extract_Ref_Des.py:79 | a line is the marker when it contains both `Bottom` and `Assembly`; `HeaderIsMarker` and `MissingFirstLetter` check it both ways |
| Extract.ContainsOccurrence | Extract_Ref_Des.py:79 | `pat in s` holds exactly when `pat` occurs at some offset of `s` |
| Extract.MissingFirstLetter | Extract_Ref_Des.py:79 | a line without the first letter of a keyword does not contain the keyword |
| Shapes.IsDShape | Extract_Ref_Des.py:103 | `^D\d+$`: `D` followed by one or more digits; `KindOf` and `RefDesShape` state what follows from it |
| Shapes.IsUShape | Extract_Ref_Des.py:104 | `^U\d+$`: `U` followed by one or more digits; `KindOf` proves it disjoint from the D shape |
| Shapes.IsComplexShape | Extract_Ref_Des.py:105 | `^[A-Z][A-Z0-9_]+$`: a capital letter followed by one or more capitals, digits or underscores; `RefDesIsComplexShape` relates it to the other two shapes |
| Shapes.RefDesIsComplexShape | Extract_Ref_Des.py:103-107 | the three-way shape test accepts exactly the complex shape, because `D\d+` and `U\d+` are instances of it |
| Shapes.KindOf | Extract_Ref_Des.py:115-120 | the kind is D exactly for the D shape and U exactly for the U shape; every other designator is complex, whatever its shape |
| Shapes.RefDesShape | Extract_Ref_Des.py:103-105 | any of the three shapes has at least two characters, a capital first letter and no whitespace |
| Regex.NumberMatchStart | Extract_Ref_Des.py:109-111 | the coordinate pattern `^\d+\.?\d*` matches a field exactly when it starts with a digit |
| Regex.NumberEnds | Extract_Ref_Des.py:127 | every end the number group `\d+\.?\d*` can reach spans a leading digit followed by digits and dots, with no two dots; there is an end exactly when the text starts with a digit |
| Regex.GroupEnds | Extract_Ref_Des.py:127 | every end the designator group can reach delimits one of the three shapes; `GroupEndsComplete` gives the converse |
| Stages.Stage1 | Extract_Ref_Des.py:95-112 | Stage 1 accepts exactly when the line has at least three fields, the first has a designator shape and the next two start with a digit; the designator is then the first field |
| Stages.Stage1Fields | Extract_Ref_Des.py:95-112 | on fields joined with spaces, Stage 1 accepts exactly the accepted field lists and yields their first field |
| Regex.GroupEndsComplete | Extract_Ref_Des.py:127 | every designator starting at a position is among the ends the group offers there, so with `GroupEnds` the offered ends are exactly the designator ends |
| Regex.NumberEndsComplete | Extract_Ref_Des.py:127 | every whole number `\d+\.?\d*` starting at a position is among the ends the number group offers there |
| Stages.FirstCaptureSound | Extract_Ref_Des.py:127-131 | whatever the Stage 2 search captures runs from one of the candidate starts to an end the designator group reaches, and the rest of the pattern (whitespace, number, whitespace, number) matches after it |
| Stages.Stage2 | Extract_Ref_Des.py:127-131 | group 1 of the anchored search; `FirstCaptureSound` states what a capture is, `Stage2Subsumed` shows it never goes beyond Stage 1 and `Stage2Complete` shows it does capture on lines whose second field is a whole number |
| Stages.Stage2Complete | Extract_Ref_Des.py:122-131 | on a line Stage 1 accepts whose second field is a whole number `\d+\.?\d*`, the anchored search captures, and captures the same designator |
| Stages.Stage2Subsumed | Extract_Ref_Des.py:122-131 | any line Stage 2 accepts is accepted by Stage 1 with the same designator |
| Stages.Recognize | Extract_Ref_Des.py:95-131 | Stage 1, and Stage 2 only when Stage 1 found nothing; `FallbackNeverFires` proves it equal to Stage 1 alone |
| Stages.FallbackNeverFires | Extract_Ref_Des.py:95-131 | Stage 1 followed by the Stage 2 fallback decides every line exactly as Stage 1 alone |
| Stages.RecognizedShape | Extract_Ref_Des.py:143 | a recognised designator is the first field, has a designator shape and at least two characters, so the truthiness test never rejects it |
| Extract.Classify | Extract_Ref_Des.py:79-143 | a line is classed as the marker exactly when it contains both keywords; a designator is non-empty and is what the two stages recognise |
| Extract.ClassifyCorrect | Extract_Ref_Des.py:79-143 | every line yields a designator exactly when it is no marker, not blank and accepted by Stage 1, and then that designator |
| Extract.SkippedLine | Extract_Ref_Des.py:79-87 | a marker line yields nothing and sets the flag; a whitespace-only line yields nothing and leaves the flag unchanged |
| Extract.Step | Extract_Ref_Des.py:79-152 | the flag after a line is set exactly when it was set or the line is the marker; an entry is emitted exactly for a designator line, on the side of the flag before the line |
| Extract.FirstMarkerLine | Extract_Ref_Des.py:75-80 | the index of the first marker line: no earlier line is a marker |
| Extract.Scan | Extract_Ref_Des.py:77-152 | the loop over the lines, carrying the flag and the line number; `ScanOrder`, `ScanSound`, `ScanComplete` and `ScanExtraction` state its result |
| Extract.ScanOrder | Extract_Ref_Des.py:77-152 | at most one entry per line, with line numbers strictly increasing and within the lines scanned |
| Extract.ScanSound | Extract_Ref_Des.py:77-152 | each entry is the designator of its own line, with that line's kind, on the side selected by whether a marker precedes it |
| Extract.ScanComplete | Extract_Ref_Des.py:77-152 | every designator line contributes its entry |
| Extract.ScanExtraction | Extract_Ref_Des.py:75-152 | the fold, started with the flag cleared at line 1 over correctly classified lines, yields exactly their extraction |
| Extract.ExtractRefDes | Extract_Ref_Des.py:73-152 | the result lists, in line order, exactly the lines that yield a designator, each with its designator, kind and 1-based line number, and with side BTM exactly when a marker line comes before it |
| Extract.SideMonotone | Extract_Ref_Des.py:75-80 | once an entry is BTM, every later entry is BTM |
| Extract.NoMarkerAllTop | Extract_Ref_Des.py:145 | a text without a marker line has only Top entries |
| Extract.EntriesAreRefDes | Extract_Ref_Des.py:103-112 | every extracted designator has a designator shape, at least two characters and a capital first letter |
| Extract.CountSide | Extract_Ref_Des.py:159-160 | the count for a side is the number of entry positions whose side it is |
| Extract.CountKind | Extract_Ref_Des.py:166-168 | the count for a pattern kind is the number of entry positions of that kind |
| Extract.Summarize | Extract_Ref_Des.py:157-168 | the total is the number of entries; each side and kind count is the number of entries with that side or kind; the Top and BTM counts add up to the total, and so do the three kind counts |
| Extract.NoMarkerSummary | Extract_Ref_Des.py:145-160 | a text without a marker line has a BTM count of zero and a Top count equal to the total |
| Extract.EmptyText | Extract_Ref_Des.py:73-86 | the empty text is one empty line and yields no entry and all-zero counts |
| Samples.DataLine | Extract_Ref_Des.py:95-112 | a non-marker line made of accepted fields is classed by its first field |
| Samples.FallbackCaptures | Extract_Ref_Des.py:127-131 | the fallback search alone captures `D1` from `D1 1 2` |
| Samples.NonDesignatorLine | Extract_Ref_Des.py:103-107 | a line whose first field has no designator shape yields no designator, whatever follows |
| Samples.HeaderIsMarker | Extract_Ref_Des.py:79 | the line `Bottom Assembly` is the marker |
| Samples.ComplexShapeLine | Extract_Ref_Des.py:105-112 | `R12 5 0.5` yields the designator `R12` |
| Samples.LeadingWordHidesDesignator | Extract_Ref_Des.py:127-128 | `Note: D1 1 2` yields no designator, because the fallback is anchored at the start of the line |

## Left out

- **GUI.** The tkinter file dialog and message boxes are user interface.
- **PDF text extraction.** The PyPDF2 step is I/O in a foreign library; the model takes the extracted text as its input.
- **Excel output.** Writing the workbook with pandas/openpyxl and building the output file name are foreign I/O.
- **`main` and the module-level call.** They are control flow around dialogs and files.
- **Diagnostics.** Every `print`, and the `extraction_method` strings, which are only printed. The counts are kept as values (`Summary`).
- **Output labels.** Entries carry `Side` and `Kind` values instead of the `'Top'`/`'BTM'` and pattern strings. `SideLabel` and `KindLabel` give the strings, and they are injective, so counting by label is counting by value.
- Chars.IsDigit: `\d` in a `str` pattern also matches non-ASCII decimal digits (Arabic-Indic, full-width and so on); the model accepts only `0`-`9`.
- **Regex engine.** There is no general regular-expression engine; only the patterns the function uses are encoded.
