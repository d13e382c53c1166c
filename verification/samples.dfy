/** Worked lines: what the classifier does on concrete
    input. */
module Samples {

  import opened Optional
  import opened Chars
  import opened Text
  import opened Shapes
  import opened Stages
  import opened Extract
  import opened Regex

  /** A line made of fields that Stage 1 accepts, and no marker, is
      classified by its first field. */
  lemma DataLine(line: string, fields: seq<string>)
    requires forall k :: 0 <= k < |fields| ==> fields[k] != [] && NoWs(fields[k])
    requires line == JoinFields(fields) && FieldsAccepted(fields) && !IsMarker(line)
    ensures Classify(line) == Designator(fields[0])
  {
    TokensJoinFields(fields);
    ClassifyCorrect(line);
    assert line[0] == fields[0][0];
  }

  /** Three non-empty whitespace-free fields make a field list. */
  lemma ThreeFields(a: string, b: string, c: string)
    requires a != [] && NoWs(a) && b != [] && NoWs(b) && c != [] && NoWs(c)
    ensures forall k :: 0 <= k < |[a, b, c]| ==> [a, b, c][k] != [] && NoWs([a, b, c][k])
  {
  }

  /** The section header line. */
  lemma HeaderIsMarker()
    ensures IsMarker("Bottom Assembly")
  {
    var s := "Bottom Assembly";
    assert OccursAt(s, "Bottom", 0);
    assert OccursAt(s, "Assembly", 7);
    ContainsOccurrence(s, "Bottom");
    ContainsOccurrence(s, "Assembly");
  }

  /** The fields of the complex-shape sample line. */
  lemma ComplexShapeFields()
    ensures JoinFields(["R12", "5", "0.5"]) == "R12 5 0.5"
    ensures FieldsAccepted(["R12", "5", "0.5"])
  {
    assert IsComplexShape("R12") by {
      assert IsWordChar("R12"[1]) && IsWordChar("R12"[2]);
    }
  }

  /** A placement line of the complex shape, at two coordinates. The line
      is a parameter fixed by the precondition, not a literal in the body,
      so the verifier does not unfold the whole classifier on the literal
      before the helper lemmas are applied. */
  lemma ComplexShapeLine(line: string)
    requires line == "R12 5 0.5"
    ensures Classify(line) == Designator("R12")
  {
    MissingFirstLetter(line, "Bottom");
    ComplexShapeFields();
    ThreeFields("R12", "5", "0.5");
    DataLine(line, ["R12", "5", "0.5"]);
  }

  /** The fallback on its own captures the designator of a plain placement
      line (the line is a parameter for the same reason as above). */
  lemma FallbackCaptures(line: string)
    requires line == "D1 1 2"
    ensures Stage2(line) == Some("D1")
  {
    var fields := ["D1", "1", "2"];
    assert JoinFields(fields) == line;
    assert IsDShape("D1");
    ThreeFields("D1", "1", "2");
    Stage1Fields(fields);
    TokensJoinFields(fields);
    assert WholeNumber("1");
    Stage2Complete(line);
  }

  /** A line made of fields whose first field is no designator yields
      none, whatever follows. */
  lemma NonDesignatorLine(line: string, fields: seq<string>)
    requires forall k :: 0 <= k < |fields| ==> fields[k] != [] && NoWs(fields[k])
    requires line == JoinFields(fields) && fields != [] && !IsRefDes(fields[0])
    ensures !Classify(line).Designator?
  {
    TokensJoinFields(fields);
    ClassifyCorrect(line);
  }

  /** The fallback pattern is anchored at the start of the line: a
      designator and two numbers after a leading word are not found. */
  lemma LeadingWordHidesDesignator()
    ensures !Classify("Note: D1 1 2").Designator?
  {
    assert JoinFields(["Note:", "D1", "1", "2"]) == "Note: D1 1 2";
    assert !IsRefDes("Note:") by {
      assert !IsWordChar("Note:"[1]);
    }
    NonDesignatorLine("Note: D1 1 2", ["Note:", "D1", "1", "2"]);
  }
}
