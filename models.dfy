/** The dialog's data: the questions it is asked (immutable values), the
    mutable per-question answer state, the finished answers and the fixed-shape
    output envelope. */
module Models {

  /** A value that may be absent. */
  datatype Optional<+T> = None | Some(value: T)

  /** One offered choice. The description and markdown are shown to the user
      but never used by the answer logic. */
  datatype Option = Option(labelText: string, description: Optional<string>, markdown: Optional<string>)

  /** One question of the survey; immutable once decoded. */
  datatype Question = Question(question: string, header: string, options: seq<Option>, multiSelect: bool)

  /** Number of selectable slots of a question: its options plus the synthetic
      "Other" slot, which therefore always exists. */
  function OptionCount(q: Question): (n: nat)
    ensures n >= 1 && n > |q.options|
  {
    |q.options| + 1
  }

  /** Slot index of the synthetic "Other" entry: the last selectable slot, just
      past the real options. */
  function OtherIndex(q: Question): (i: nat)
    ensures i == OptionCount(q) - 1
    ensures !(i < |q.options|)
  {
    |q.options|
  }

  /** The mutable answer state of one question: the selected slots and the
      free text typed for "Other". */
  class AnswerState {
    var selectedIndices: set<int>
    var otherText: string

    /** A fresh answer state selects nothing and has no text. */
    constructor ()
      ensures selectedIndices == {} && otherText == ""
    {
      selectedIndices := {};
      otherText := "";
    }
  }

  /** The submitted answer to one question. */
  datatype QuestionAnswer = QuestionAnswer(
    header: string,
    questionText: string,
    selectedLabels: seq<string>,
    otherText: Optional<string>)

  /** The hook-specific part of the output envelope: the reason varies, the
      event name and the decision are fixed. */
  datatype HookSpecificOutput = HookSpecificOutput(permissionDecisionReason: string)
  {
    const hookEventName: string := "PreToolUse"
    const permissionDecision: string := "deny"
  }

  /** The output envelope written on submission. */
  datatype HookOutput = HookOutput(hookSpecificOutput: HookSpecificOutput)
}
