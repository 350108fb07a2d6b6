/** A whole session: the coordinator's submission handed to the encoder, and
    two sessions driven through the coordinator's contracts alone, as a client
    would, so that what they assert follows from the contracts rather than
    from the method bodies. */
module Session {
  import opened Models
  import opened Text
  import opened Selection
  import opened Coordinator
  import opened OutputFormatter

  /** When the confirmation gate lets a question through and none of its
      options has an empty label, its encoded sentence has a non-empty answer
      part: the degenerate "-> ." sentence needs an unconfirmed submission. */
  lemma ConfirmedSentenceHasAnswer(q: Question, sel: set<int>, text: string)
    requires SelectionValid(q, sel) && AnswerComplete(q, sel, text)
    requires forall k :: 0 <= k < |q.options| ==> q.options[k].labelText != ""
    ensures Combined(AnswerFor(q, sel, text)) != ""
  {
    var a := AnswerFor(q, sel, text);
    ConfirmedAnswerHasContent(q, sel, text);
    CombinedEmptyIff(a);
    JoinEmptyIff(a.selectedLabels, ", ");
    LabelsInIndexOrder(q, sel);
  }

  lemma BlankTrimsToEmpty()
    ensures Trim("  ") == ""
  {
    assert "  "[1..] == " " && " "[1..] == "";
    assert TrimStart("  ") == TrimStart(" ") == TrimStart("") == "";
  }

  lemma WordTrimsToItself()
    ensures Trim("maybe") == "maybe"
  {
    assert "maybe"[0] == 'm' && "maybe"[4] == 'e';
    assert TrimStart("maybe") == "maybe";
  }

  function Plain(labelText: string): Option
  {
    Option(labelText, None, None)
  }

  /** A single-select question over A and B and a multi-select question over X
      and Y: the second blocks confirmation until one of its options is
      toggled; the submission then reports A and X. */
  method TwoQuestionSession()
  {
    var q1 := Question("First?", "One", [Plain("A"), Plain("B")], false);
    var q2 := Question("Second?", "Two", [Plain("X"), Plain("Y")], true);
    var c := new DialogCoordinator([q1, q2], None);
    assert c.answerStates[0].selectedIndices == {0};
    var ok := c.CanConfirm();
    assert !AnswerComplete(q2, c.answerStates[1].selectedIndices, c.answerStates[1].otherText);
    assert !ok;
    c.Toggle(1, 0);
    assert c.answerStates[1].selectedIndices == {0};
    ok := c.CanConfirm();
    assert c.answerStates[0].otherText == "" && c.answerStates[1].otherText == "";
    assert ok;
    var r := c.Submit();
    SingletonLabels(q1, 0);
    SingletonLabels(q2, 0);
    assert r.answers[0].selectedLabels == ["A"] && r.answers[0].otherText == None;
    assert r.answers[1].selectedLabels == ["X"] && r.answers[1].otherText == None;
  }

  /** A single-select question answered through "Other": blank text blocks
      confirmation, real text allows it, and the submission carries the text
      and no label. */
  method OtherTextSession()
  {
    BlankTrimsToEmpty();
    WordTrimsToItself();
    var q := Question("Proceed?", "Go", [Plain("Yes"), Plain("No")], false);
    var c := new DialogCoordinator([q], None);
    c.Toggle(0, 2);
    assert c.answerStates[0].selectedIndices == {2};
    c.EditOtherText(0, "  ");
    assert !AnswerComplete(q, {2}, "  ");
    var ok := c.CanConfirm();
    assert !ok;
    c.EditOtherText(0, "maybe");
    assert AnswerComplete(q, {2}, "maybe");
    ok := c.CanConfirm();
    assert ok;
    var r := c.Submit();
    SingletonLabels(q, 2);
    assert r.answers[0].selectedLabels == [] && r.answers[0].otherText == Some("maybe");
  }
}
