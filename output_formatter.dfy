/** Encoding of the submitted answers into the reason string of the output
    envelope. */
module OutputFormatter {
  import opened Models
  import opened Text

  const Preamble: string := "User answered via native macOS dialog."
  const Trailer: string :=
    "Do NOT re-ask these questions. Treat this as the user's final answer and proceed accordingly."

  /** "Other" text is reported only when present and not empty. */
  predicate HasOtherText(a: QuestionAnswer)
  {
    a.otherText.Some? && a.otherText.value != ""
  }

  /** The pieces of one answer: the labels joined by ", " if there are any, then
      "Other: <text>" if there is text. */
  function AnswerParts(a: QuestionAnswer): seq<string>
  {
    (if a.selectedLabels != [] then [Join(a.selectedLabels, ", ")] else []) +
    (if HasOtherText(a) then ["Other: " + a.otherText.value] else [])
  }

  /** The answer pieces joined by "; ". */
  function Combined(a: QuestionAnswer): string
  {
    Join(AnswerParts(a), "; ")
  }

  /** The sentence reporting one answer. */
  function Sentence(a: QuestionAnswer): string
  {
    "[" + a.header + "] " + a.questionText + " -> " + Combined(a) + "."
  }

  /** One sentence per answer, in input order. */
  function Sentences(answers: seq<QuestionAnswer>): (r: seq<string>)
    ensures |r| == |answers|
    ensures forall k :: 0 <= k < |answers| ==> r[k] == Sentence(answers[k])
  {
    if answers == [] then [] else Sentences(answers[..|answers| - 1]) + [Sentence(answers[|answers| - 1])]
  }

  /** Everything the reason string is made of: preamble, sentences, trailer. */
  function Parts(answers: seq<QuestionAnswer>): (r: seq<string>)
    ensures |r| == |answers| + 2
    ensures r[0] == Preamble && r[|r| - 1] == Trailer
  {
    [Preamble] + Sentences(answers) + [Trailer]
  }

  /** The reason string: all parts joined by single spaces. */
  function Formatted(answers: seq<QuestionAnswer>): string
  {
    Join(Parts(answers), " ")
  }

  /** Builds the reason string the way the encoder does, collecting the parts
      one answer at a time. */
  method FormatAnswers(answers: seq<QuestionAnswer>) returns (r: string)
    ensures r == Formatted(answers)
  {
    var parts: seq<string> := [Preamble];
    for i := 0 to |answers|
      invariant parts == [Preamble] + Sentences(answers[..i])
    {
      var answer := answers[i];
      var answerParts: seq<string> := [];
      if answer.selectedLabels != [] {
        answerParts := answerParts + [Join(answer.selectedLabels, ", ")];
      }
      if answer.otherText.Some? && answer.otherText.value != "" {
        answerParts := answerParts + ["Other: " + answer.otherText.value];
      }
      var combined := Join(answerParts, "; ");
      parts := parts + ["[" + answer.header + "] " + answer.questionText + " -> " + combined + "."];
      assert answers[..i + 1][..i] == answers[..i];
    }
    assert answers[..|answers|] == answers;
    parts := parts + [Trailer];
    r := Join(parts, " ");
  }

  /** Wraps the reason string into the output envelope. */
  method BuildOutput(answers: seq<QuestionAnswer>) returns (o: HookOutput)
    ensures o.hookSpecificOutput.permissionDecisionReason == Formatted(answers)
    ensures o.hookSpecificOutput.hookEventName == "PreToolUse"
    ensures o.hookSpecificOutput.permissionDecision == "deny"
  {
    var reason := FormatAnswers(answers);
    o := HookOutput(HookSpecificOutput(reason));
  }

  /** The reason string is the preamble and a space, then every answer's
      sentence followed by a single space, in input order, then the trailer. */
  lemma FormattedShape(answers: seq<QuestionAnswer>)
    ensures Formatted(answers) == Preamble + " " + Terminated(Sentences(answers), " ") + Trailer
  {
    JoinFramed(Preamble, Sentences(answers), Trailer, " ");
  }

  /** The reason string always opens with the preamble and closes with the
      trailer. */
  lemma FormattedFrame(answers: seq<QuestionAnswer>)
    ensures |Formatted(answers)| >= |Preamble| + |Trailer|
    ensures Formatted(answers)[..|Preamble|] == Preamble
    ensures Formatted(answers)[|Formatted(answers)| - |Trailer|..] == Trailer
  {
    FormattedShape(answers);
    var middle := " " + Terminated(Sentences(answers), " ");
    assert Formatted(answers) == Preamble + middle + Trailer;
  }

  /** An empty "Other" text is encoded exactly as no text at all. */
  lemma EmptyOtherIsAbsent(a: QuestionAnswer)
    requires a.otherText == Some("")
    ensures Sentence(a) == Sentence(a.(otherText := None))
  {
    assert AnswerParts(a) == AnswerParts(a.(otherText := None));
  }

  /** The answer part of a sentence is empty exactly when the labels join to
      nothing (no labels, or one empty label) and there is no "Other" text. */
  lemma CombinedEmptyIff(a: QuestionAnswer)
    ensures Combined(a) == "" <==> Join(a.selectedLabels, ", ") == "" && !HasOtherText(a)
  {
    JoinEmptyIff(AnswerParts(a), "; ");
    JoinEmptyIff(a.selectedLabels, ", ");
  }

  /** The three shapes of the answer part: labels then "; Other: <text>", labels
      alone, or "Other: <text>" alone; with neither the part is empty. */
  lemma CombinedCases(a: QuestionAnswer)
    ensures a.selectedLabels != [] && HasOtherText(a) ==>
      Combined(a) == Join(a.selectedLabels, ", ") + "; Other: " + a.otherText.value
    ensures a.selectedLabels != [] && !HasOtherText(a) ==> Combined(a) == Join(a.selectedLabels, ", ")
    ensures a.selectedLabels == [] && HasOtherText(a) ==> Combined(a) == "Other: " + a.otherText.value
    ensures a.selectedLabels == [] && !HasOtherText(a) ==>
      Combined(a) == "" && Sentence(a) == "[" + a.header + "] " + a.questionText + " -> ."
  {
    if a.selectedLabels != [] && HasOtherText(a) {
      var labels, other := Join(a.selectedLabels, ", "), "Other: " + a.otherText.value;
      assert AnswerParts(a) == [labels, other];
      assert [labels, other][1..] == [other];
      assert Join([labels, other], "; ") == labels + "; " + Join([other], "; ");
      assert Combined(a) == labels + "; " + other;
      assert "; " + "Other: " == "; Other: ";
    }
  }
}
