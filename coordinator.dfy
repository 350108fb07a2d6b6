/** The dialog's answer state machine: the questions, one mutable answer
    state per question, the focus cursor and the text-editing flag, with the
    operations the keyboard, the rows and the buttons drive. */
module Coordinator {
  import opened Models
  import opened Text
  import opened Selection
  import opened Focus

  /** How a session ends: with the collected answers, or cancelled. */
  datatype Result = Submitted(answers: seq<QuestionAnswer>) | Cancelled

  /** The keys the dialog reacts to; every other key is `Other`. */
  datatype Key = Up | Down | Space | Other

  /** What a key press does to the dialog. */
  datatype KeyAction = MoveUp | MoveDown | Activate | PassThrough

  /** The key-routing rule. While the "Other" text is being edited only the
      arrow keys are taken (they leave the text field and move focus); every
      other key goes to the text field. Otherwise the arrows move focus and
      space activates the focused slot. Any action but `PassThrough` consumes
      the key. */
  function Route(editing: bool, key: Key): (a: KeyAction)
    ensures a != PassThrough <==> key == Up || key == Down || (key == Space && !editing)
    ensures a == MoveUp <==> key == Up
    ensures a == MoveDown <==> key == Down
    ensures a == Activate <==> key == Space && !editing
  {
    match key
    case Up => MoveUp
    case Down => MoveDown
    case Space => if editing then PassThrough else Activate
    case Other => PassThrough
  }

  /** The labels of the options at the given slots, in the given order; slots
      past the options (the "Other" slot) contribute nothing. */
  method CollectLabels(options: seq<Option>, idx: seq<int>) returns (labels: seq<string>)
    requires forall k :: 0 <= k < |idx| ==> 0 <= idx[k]
    ensures labels == LabelsOf(options, idx)
  {
    labels := [];
    for j := 0 to |idx|
      invariant labels == LabelsOf(options, idx[..j])
    {
      assert idx[..j + 1][..j] == idx[..j];
      if idx[j] < |options| {
        labels := labels + [options[idx[j]].labelText];
      }
    }
    assert idx[..|idx|] == idx;
  }

  class DialogCoordinator {
    const questions: seq<Question>
    const cwd: Optional<string>
    const answerStates: seq<AnswerState>
    var focusedQuestion: int
    var focusedOption: int
    var isEditingOtherText: bool

    /** The object invariant: one answer state per question, no two questions
        sharing one, every selection valid for its question, and focus on an
        existing slot whenever there is a question. */
    ghost predicate Valid()
      reads this, answerStates
    {
      |answerStates| == |questions| &&
      (forall i, j :: 0 <= i < j < |answerStates| ==> answerStates[i] != answerStates[j]) &&
      (forall i :: 0 <= i < |answerStates| ==> SelectionValid(questions[i], answerStates[i].selectedIndices)) &&
      (|questions| > 0 ==> InBounds(questions, FocusCursor()))
    }

    function FocusCursor(): Cursor
      reads this
    {
      Cursor(focusedQuestion, focusedOption)
    }

    /** A fresh coordinator: each question gets its own answer state holding
        its initial selection and no text; focus is on the first slot and no
        text is being edited. */
    constructor (questions: seq<Question>, cwd: Optional<string>)
      ensures Valid()
      ensures this.questions == questions && this.cwd == cwd
      ensures forall i :: 0 <= i < |answerStates| ==> fresh(answerStates[i])
      ensures forall i :: 0 <= i < |answerStates| ==>
        answerStates[i].selectedIndices == InitialSelection(questions[i]) && answerStates[i].otherText == ""
      ensures FocusCursor() == First() && !isEditingOtherText
    {
      var states: seq<AnswerState> := [];
      for k := 0 to |questions|
        invariant |states| == k
        invariant forall i :: 0 <= i < k ==> fresh(states[i])
        invariant forall i, j :: 0 <= i < j < k ==> states[i] != states[j]
        invariant forall i :: 0 <= i < k ==>
          states[i].selectedIndices == InitialSelection(questions[i]) && states[i].otherText == ""
      {
        var state := new AnswerState();
        if !questions[k].multiSelect && |questions[k].options| > 0 {
          state.selectedIndices := {0};
        }
        states := states + [state];
      }
      this.questions := questions;
      this.cwd := cwd;
      answerStates := states;
      focusedQuestion := 0;
      focusedOption := 0;
      isEditingOtherText := false;
    }

    /** Whether a slot is selected; only an existing slot can be. */
    function IsSelected(questionIndex: int, optionIndex: int): (b: bool)
      requires Valid() && 0 <= questionIndex < |questions|
      reads this, answerStates
      ensures b ==> 0 <= optionIndex < OptionCount(questions[questionIndex])
    {
      optionIndex in answerStates[questionIndex].selectedIndices
    }

    /** Whether "Other" is selected; on a single-select question it is then the
        whole selection. */
    function IsOtherSelected(questionIndex: int): (b: bool)
      requires Valid() && 0 <= questionIndex < |questions|
      reads this, answerStates
      ensures b ==> OtherIndex(questions[questionIndex]) in answerStates[questionIndex].selectedIndices
      ensures b && !questions[questionIndex].multiSelect ==>
        answerStates[questionIndex].selectedIndices == {OtherIndex(questions[questionIndex])}
    {
      var s := answerStates[questionIndex].selectedIndices;
      var o := OtherIndex(questions[questionIndex]);
      assert o in s ==> |s - {o}| == |s| - 1;
      IsSelected(questionIndex, o)
    }

    /** Toggles one slot of one question; no other question's state, no text
        and no focus field changes. */
    method Toggle(questionIndex: int, optionIndex: int)
      requires Valid()
      requires 0 <= questionIndex < |questions| && 0 <= optionIndex < OptionCount(questions[questionIndex])
      modifies answerStates[questionIndex]
      ensures Valid()
      ensures answerStates[questionIndex].selectedIndices ==
        Toggled(questions[questionIndex], old(answerStates[questionIndex].selectedIndices), optionIndex)
      ensures answerStates[questionIndex].otherText == old(answerStates[questionIndex].otherText)
      ensures forall j :: 0 <= j < |answerStates| && j != questionIndex ==> unchanged(answerStates[j])
    {
      var state := answerStates[questionIndex];
      var isMulti := questions[questionIndex].multiSelect;
      if isMulti {
        if optionIndex in state.selectedIndices {
          state.selectedIndices := state.selectedIndices - {optionIndex};
        } else {
          state.selectedIndices := state.selectedIndices + {optionIndex};
        }
      } else {
        state.selectedIndices := {optionIndex};
      }
    }

    /** Moves focus one slot up, crossing into the previous question. */
    method MoveFocusUp()
      requires Valid() && |questions| > 0
      modifies this
      ensures Valid()
      ensures FocusCursor() == FocusUp(questions, old(FocusCursor()))
      ensures isEditingOtherText == old(isEditingOtherText)
    {
      if focusedOption > 0 {
        focusedOption := focusedOption - 1;
      } else if focusedQuestion > 0 {
        focusedQuestion := focusedQuestion - 1;
        focusedOption := OptionCount(questions[focusedQuestion]) - 1;
      }
    }

    /** Moves focus one slot down, crossing into the next question. */
    method MoveFocusDown()
      requires Valid() && |questions| > 0
      modifies this
      ensures Valid()
      ensures FocusCursor() == FocusDown(questions, old(FocusCursor()))
      ensures isEditingOtherText == old(isEditingOtherText)
    {
      if focusedOption < OptionCount(questions[focusedQuestion]) - 1 {
        focusedOption := focusedOption + 1;
      } else if focusedQuestion < |questions| - 1 {
        focusedQuestion := focusedQuestion + 1;
        focusedOption := 0;
      }
    }

    /** Toggles the focused slot; text editing starts when that slot is
        "Other" and is now selected, and the flag is otherwise left alone. */
    method ActivateFocused()
      requires Valid() && |questions| > 0
      modifies this, answerStates[focusedQuestion]
      ensures Valid()
      ensures FocusCursor() == old(FocusCursor())
      ensures answerStates[focusedQuestion].selectedIndices ==
        Toggled(questions[focusedQuestion], old(answerStates[focusedQuestion].selectedIndices), focusedOption)
      ensures answerStates[focusedQuestion].otherText == old(answerStates[focusedQuestion].otherText)
      ensures forall j :: 0 <= j < |answerStates| && j != focusedQuestion ==> unchanged(answerStates[j])
      ensures isEditingOtherText ==
        ((focusedOption == OtherIndex(questions[focusedQuestion]) &&
          focusedOption in answerStates[focusedQuestion].selectedIndices) || old(isEditingOtherText))
    {
      Toggle(focusedQuestion, focusedOption);
      if focusedOption == OtherIndex(questions[focusedQuestion]) && IsSelected(focusedQuestion, focusedOption) {
        isEditingOtherText := true;
      }
    }

    /** A click on a row: focus moves to it, then it is toggled. */
    method ClickRow(questionIndex: int, optionIndex: int)
      requires Valid()
      requires 0 <= questionIndex < |questions| && 0 <= optionIndex < OptionCount(questions[questionIndex])
      modifies this, answerStates[questionIndex]
      ensures Valid()
      ensures FocusCursor() == Cursor(questionIndex, optionIndex)
      ensures isEditingOtherText == old(isEditingOtherText)
      ensures answerStates[questionIndex].selectedIndices ==
        Toggled(questions[questionIndex], old(answerStates[questionIndex].selectedIndices), optionIndex)
      ensures answerStates[questionIndex].otherText == old(answerStates[questionIndex].otherText)
      ensures forall j :: 0 <= j < |answerStates| && j != questionIndex ==> unchanged(answerStates[j])
    {
      focusedQuestion := questionIndex;
      focusedOption := optionIndex;
      Toggle(questionIndex, optionIndex);
    }

    /** The "Other" text field lost keyboard focus: editing ends. */
    method TextFocusLost()
      requires Valid()
      modifies this
      ensures Valid()
      ensures !isEditingOtherText && FocusCursor() == old(FocusCursor())
    {
      if isEditingOtherText {
        isEditingOtherText := false;
      }
    }

    /** The user typed into a question's "Other" text field. */
    method EditOtherText(questionIndex: int, text: string)
      requires Valid() && 0 <= questionIndex < |questions|
      modifies answerStates[questionIndex]
      ensures Valid()
      ensures answerStates[questionIndex].otherText == text
      ensures answerStates[questionIndex].selectedIndices == old(answerStates[questionIndex].selectedIndices)
      ensures forall j :: 0 <= j < |answerStates| && j != questionIndex ==> unchanged(answerStates[j])
    {
      answerStates[questionIndex].otherText := text;
    }

    /** The confirmation gate: every question has a selection, and wherever
        "Other" is selected its trimmed text is not empty. */
    method CanConfirm() returns (ok: bool)
      requires Valid()
      ensures ok <==> forall i :: 0 <= i < |questions| ==>
        AnswerComplete(questions[i], answerStates[i].selectedIndices, answerStates[i].otherText)
    {
      for i := 0 to |answerStates|
        invariant forall k :: 0 <= k < i ==>
          AnswerComplete(questions[k], answerStates[k].selectedIndices, answerStates[k].otherText)
      {
        var state := answerStates[i];
        if state.selectedIndices == {} {
          assert !AnswerComplete(questions[i], state.selectedIndices, state.otherText);
          return false;
        }
        if OtherIndex(questions[i]) in state.selectedIndices && Trim(state.otherText) == "" {
          assert !AnswerComplete(questions[i], state.selectedIndices, state.otherText);
          return false;
        }
      }
      return true;
    }

    /** Collects one answer per question, in question order: the labels of the
        selected options in ascending slot order and, when "Other" is selected,
        its trimmed text. */
    method Submit() returns (r: Result)
      requires Valid()
      ensures r.Submitted? && |r.answers| == |questions|
      ensures forall i :: 0 <= i < |questions| ==>
        r.answers[i] == AnswerFor(questions[i], answerStates[i].selectedIndices, answerStates[i].otherText)
    {
      var answers: seq<QuestionAnswer> := [];
      for i := 0 to |questions|
        invariant |answers| == i
        invariant forall k :: 0 <= k < i ==>
          answers[k] == AnswerFor(questions[k], answerStates[k].selectedIndices, answerStates[k].otherText)
      {
        var question := questions[i];
        var state := answerStates[i];
        var otherIdx := OtherIndex(question);
        var sorted := Ascending(state.selectedIndices, OptionCount(question));
        var labels := CollectLabels(question.options, sorted);
        var otherText := if otherIdx in state.selectedIndices then Some(Trim(state.otherText)) else None;
        answers := answers + [QuestionAnswer(question.header, question.question, labels, otherText)];
      }
      r := Submitted(answers);
    }

    /** Ends the session without answers. */
    method Cancel() returns (r: Result)
      ensures r == Cancelled
    {
      r := Cancelled;
    }

    /** Handles one key press as the key monitor does, reporting whether the
        key was consumed. */
    method HandleKey(key: Key) returns (handled: bool)
      requires Valid() && |questions| > 0
      modifies this, answerStates[focusedQuestion]
      ensures Valid()
      ensures handled <==> Route(old(isEditingOtherText), key) != PassThrough
      ensures match Route(old(isEditingOtherText), key)
        case MoveUp =>
          FocusCursor() == FocusUp(questions, old(FocusCursor())) && !isEditingOtherText && unchanged(answerStates)
        case MoveDown =>
          FocusCursor() == FocusDown(questions, old(FocusCursor())) && !isEditingOtherText && unchanged(answerStates)
        case Activate =>
          FocusCursor() == old(FocusCursor()) &&
          answerStates[focusedQuestion].selectedIndices ==
            Toggled(questions[focusedQuestion], old(answerStates[focusedQuestion].selectedIndices), focusedOption) &&
          answerStates[focusedQuestion].otherText == old(answerStates[focusedQuestion].otherText) &&
          isEditingOtherText == (focusedOption == OtherIndex(questions[focusedQuestion]) &&
            focusedOption in answerStates[focusedQuestion].selectedIndices)
        case PassThrough =>
          unchanged(this) && unchanged(answerStates)
    {
      if isEditingOtherText {
        match key {
          case Up =>
            isEditingOtherText := false;
            MoveFocusUp();
            return true;
          case Down =>
            isEditingOtherText := false;
            MoveFocusDown();
            return true;
          case _ =>
            return false;
        }
      }
      match key {
        case Up =>
          MoveFocusUp();
          return true;
        case Down =>
          MoveFocusDown();
          return true;
        case Space =>
          ActivateFocused();
          return true;
        case Other =>
          return false;
      }
    }
  }
}
