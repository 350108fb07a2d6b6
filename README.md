# claude-dialog answer state machine and response encoder, in Dafny

claude-dialog is a macOS helper that shows a keyboard-driven survey of
questions, collects the answers and writes them as a hook response. This
project models its logic:

- the answer state machine of `DialogCoordinator`: one answer state per
  question (selected slots plus free "Other" text), a focus cursor over all
  slots of all questions, the text-editing flag, toggling (single- and
  multi-select), saturating focus movement, activation, the confirmation gate,
  submission and cancellation, and the key-routing rule of its key monitor;
- the view-side transitions that drive it: a click on a row, typing into the
  "Other" field and the field losing focus;
- the response encoder `OutputFormatter.formatAnswers` and the envelope that
  `buildOutput` fills.

Modules:

- `Text` (text.dfy): trimming of surrounding whitespace and separator joins.
- `Models` (models.dfy): `Option`, `Question`, `QuestionAnswer`,
  `HookSpecificOutput` and `HookOutput` as immutable datatypes; `AnswerState`
  as a class whose fields the coordinator updates in place; the slot count and
  the index of the synthetic "Other" slot.
- `Selection` (selection.dfy): the value-level rules the coordinator follows
  for one question: initial selection, toggle, the selection invariant, the
  confirmation rule and the answer a submission derives.
- `Focus` (focus.dfy): the focus cursor, its moves, and the numbering of all
  slots in one flattened order, which the moves are proved to step through.
- `Coordinator` (coordinator.dfy): the class `DialogCoordinator` with its
  mutating methods and the key-routing function `Route`.
- `OutputFormatter` (output_formatter.dfy): the encoder as a loop method
  specified by `Formatted`, and lemmas on the shape of its result.
- `Session` (session.dfy): the link between a confirmed submission and its
  encoding, and two sample sessions driven only through the coordinator's
  contracts.

The coordinator's methods are proved against the pure functions of
`Selection` and `Focus`, and the properties are proved about those functions.

Two details of the code are easy to misread:

- A single-select question starts with slot 0 selected only when it has
  options. With no options it starts with nothing selected
  (Sources/claude-dialog/DialogCoordinator.swift:28).
- `submit` reports the trimmed "Other" text whenever "Other" is selected, even
  when that text is empty. It is the encoder that drops an empty text
  (Sources/claude-dialog/OutputFormatter.swift:12).

## Model

| member | source | states |
|---|---|---|
| Models.OptionCount | Sources/claude-dialog/DialogCoordinator.swift:78-80 | every question has at least one slot, more than it has options: the "Other" slot always exists |
| Models.OtherIndex | Sources/claude-dialog/DialogCoordinator.swift:108-110 | "Other" is the last slot (slot count minus one) and is not an option index |
| Models.AnswerState.constructor | Sources/claude-dialog/Models.swift:51-56 | a fresh answer state selects nothing and has empty text |
| Selection.InitialSelection | Sources/claude-dialog/DialogCoordinator.swift:26-32 | the initial selection is {0} exactly for a single-select question with options, else empty, and it satisfies the selection invariant |
| Selection.Toggled | Sources/claude-dialog/DialogCoordinator.swift:116-129 | multi-select: membership of the toggled slot flips and nothing else changes; single-select: exactly the toggled slot is selected; toggling an existing slot keeps the selection invariant |
| Selection.ToggleInvolution | Sources/claude-dialog/DialogCoordinator.swift:120-125 | on a multi-select question toggling one slot twice restores the selection |
| Selection.MultiSelectToggles | Sources/claude-dialog/DialogCoordinator.swift:120-125 | after any run of toggles on a multi-select question, a slot is selected iff its start state differs from the parity of its toggle count, so the order of toggles is irrelevant |
| Selection.SingleSelectToggles | Sources/claude-dialog/DialogCoordinator.swift:126-128 | after any non-empty run of toggles on a single-select question exactly the last toggled slot is selected |
| Selection.Ascending | Sources/claude-dialog/DialogCoordinator.swift:153 | the walk used for `sorted()` yields selected slots below the bound, strictly ascending |
| Selection.AscendingComplete | Sources/claude-dialog/DialogCoordinator.swift:153 | every selected slot below the bound appears in the walk |
| Selection.AscendingIsSorted | Sources/claude-dialog/DialogCoordinator.swift:153 | when all selected slots are in range the walk lists the whole selection, each slot once: it is the sorted selection |
| Selection.LabelsInIndexOrder | Sources/claude-dialog/DialogCoordinator.swift:152-155 | the submitted labels are the labels of the selected options below the "Other" slot, one per option, in ascending index order |
| Selection.SingletonLabels | Sources/claude-dialog/DialogCoordinator.swift:153-155 | a lone selected slot gives its option's label, or no label when it is "Other" |
| Selection.ConfirmedAnswerHasContent | Sources/claude-dialog/DialogCoordinator.swift:135-158 | a question that passes the confirmation rule is submitted with at least one label or a non-empty "Other" text |
| Selection.SingleSelectAnswer | Sources/claude-dialog/DialogCoordinator.swift:150-158 | a single-select question with a selection is submitted with exactly one label and no text, or with no label and the trimmed text |
| Focus.FocusUp | Sources/claude-dialog/DialogCoordinator.swift:82-89 | moving up keeps the cursor on an existing slot |
| Focus.FocusDown | Sources/claude-dialog/DialogCoordinator.swift:91-98 | moving down keeps the cursor on an existing slot |
| Focus.RankIsNumbering | Sources/claude-dialog/DialogCoordinator.swift:82-98 | the flattened position numbers the slots of all questions: in range and one-to-one |
| Focus.FocusUpStep | Sources/claude-dialog/DialogCoordinator.swift:82-89 | moving up goes back exactly one slot in flattened order, except at the first slot where it stays |
| Focus.FocusDownStep | Sources/claude-dialog/DialogCoordinator.swift:91-98 | moving down goes forward exactly one slot in flattened order, except at the last slot where it stays |
| Focus.FocusSaturates | Sources/claude-dialog/DialogCoordinator.swift:82-98 | moving up is a no-op iff at (0,0); moving down is a no-op iff at the last question's "Other" slot |
| Focus.DownThenUp | Sources/claude-dialog/DialogCoordinator.swift:82-98 | away from the last slot, down then up restores the cursor |
| Focus.UpThenDown | Sources/claude-dialog/DialogCoordinator.swift:82-98 | away from the first slot, up then down restores the cursor |
| Focus.FocusCrossesQuestions | Sources/claude-dialog/DialogCoordinator.swift:82-98 | down from a question's "Other" slot enters the next question at slot 0, and up from there comes back |
| Coordinator.Route | Sources/claude-dialog/DialogCoordinator.swift:40-67 | a key is consumed iff it is an arrow, or space while not editing; arrows always move focus; space activates only while not editing |
| Coordinator.CollectLabels | Sources/claude-dialog/DialogCoordinator.swift:153-155 | the loop over the sorted slots yields the labels of those slots that are options, in slot order (`LabelsOf`) |
| Coordinator.DialogCoordinator.constructor | Sources/claude-dialog/DialogCoordinator.swift:11-33 | one fresh, distinct answer state per question with its initial selection and empty text; focus at (0,0); not editing |
| Coordinator.DialogCoordinator.IsSelected | Sources/claude-dialog/DialogCoordinator.swift:112-114 | only an existing slot can be selected |
| Coordinator.DialogCoordinator.IsOtherSelected | Sources/claude-dialog/DialogCoordinator.swift:131-133 | "Other" selected on a single-select question means it is the whole selection |
| Coordinator.DialogCoordinator.Toggle | Sources/claude-dialog/DialogCoordinator.swift:116-129 | the question's selection becomes `Toggled` of the old one; its text, the other questions' states and the focus are unchanged; the invariant is kept |
| Coordinator.DialogCoordinator.MoveFocusUp | Sources/claude-dialog/DialogCoordinator.swift:82-89 | the cursor becomes `FocusUp` of the old cursor; nothing else changes |
| Coordinator.DialogCoordinator.MoveFocusDown | Sources/claude-dialog/DialogCoordinator.swift:91-98 | the cursor becomes `FocusDown` of the old cursor; nothing else changes |
| Coordinator.DialogCoordinator.ActivateFocused | Sources/claude-dialog/DialogCoordinator.swift:100-106 | toggles the focused slot; editing becomes true iff the focused slot is "Other" and now selected, and is otherwise unchanged |
| Coordinator.DialogCoordinator.ClickRow | Sources/claude-dialog/QuestionView.swift:29-31 | a click moves focus to the row, then toggles it |
| Coordinator.DialogCoordinator.TextFocusLost | Sources/claude-dialog/DialogView.swift:18-22 | losing text focus clears the editing flag and nothing else |
| Coordinator.DialogCoordinator.EditOtherText | Sources/claude-dialog/QuestionView.swift:72 | typing replaces the question's "Other" text; no selection changes |
| Coordinator.DialogCoordinator.CanConfirm | Sources/claude-dialog/DialogCoordinator.swift:135-144 | true iff every question has a selection and, wherever "Other" is selected, its trimmed text is non-empty |
| Coordinator.DialogCoordinator.Submit | Sources/claude-dialog/DialogCoordinator.swift:146-167 | one answer per question, in question order, with its header, text, ascending labels, and the trimmed text iff "Other" is selected |
| Coordinator.DialogCoordinator.Cancel | Sources/claude-dialog/DialogCoordinator.swift:169-172 | cancelling yields the cancelled result with no answers |
| Coordinator.DialogCoordinator.HandleKey | Sources/claude-dialog/DialogCoordinator.swift:40-67 | consumes the key iff `Route` does; while editing, an arrow clears the flag and moves focus; space while not editing activates (toggles the focused slot, keeps its text); a passed-through key changes nothing |
| Text.TrimStart | Sources/claude-dialog/DialogCoordinator.swift:139 | the result is a suffix of the input that does not start with whitespace, and all that was dropped is whitespace |
| Text.TrimEnd | Sources/claude-dialog/DialogCoordinator.swift:139 | the result is a prefix of the input that does not end with whitespace, and all that was dropped is whitespace |
| Text.TrimIsCore | Sources/claude-dialog/DialogCoordinator.swift:157 | trimming returns a contiguous piece of the text, cut only in whitespace, whose ends are not whitespace |
| Text.TrimEmptyIff | Sources/claude-dialog/DialogCoordinator.swift:139 | the trimmed text is empty iff the text is all whitespace |
| Text.TrimIdempotent | Sources/claude-dialog/DialogCoordinator.swift:157 | trimming twice equals trimming once |
| Text.JoinFramed | Sources/claude-dialog/OutputFormatter.swift:20 | joining preamble, middle parts and trailer with a separator puts each middle part, in order, between single separators |
| Text.JoinEmptyIff | Sources/claude-dialog/OutputFormatter.swift:15 | with a non-empty separator, a join is empty iff it joins nothing or one empty string |
| OutputFormatter.Sentences | Sources/claude-dialog/OutputFormatter.swift:7-17 | exactly one sentence per answer, in input order |
| OutputFormatter.Parts | Sources/claude-dialog/OutputFormatter.swift:5-20 | the parts are answers.count + 2, starting with the preamble and ending with the trailer |
| OutputFormatter.FormatAnswers | Sources/claude-dialog/OutputFormatter.swift:4-21 | the loop that collects the parts produces `Formatted(answers)` |
| OutputFormatter.BuildOutput | Sources/claude-dialog/OutputFormatter.swift:23-25 | the envelope carries the formatted reason unchanged, event "PreToolUse" and decision "deny" |
| OutputFormatter.FormattedShape | Sources/claude-dialog/OutputFormatter.swift:5-20 | the reason is the preamble, a space, each sentence in order followed by one space, then the trailer |
| OutputFormatter.FormattedFrame | Sources/claude-dialog/OutputFormatter.swift:5-19 | the reason always begins with the preamble and ends with the trailer |
| OutputFormatter.EmptyOtherIsAbsent | Sources/claude-dialog/OutputFormatter.swift:12 | an "Other" text of "" encodes exactly like no text |
| OutputFormatter.CombinedEmptyIff | Sources/claude-dialog/OutputFormatter.swift:9-15 | the answer part is empty iff the labels join to "" and there is no usable "Other" text |
| OutputFormatter.CombinedCases | Sources/claude-dialog/OutputFormatter.swift:9-16 | the answer part is "labels; Other: text", "labels", "Other: text" or empty, and the empty case gives "[H] Q -> ." |
| Session.ConfirmedSentenceHasAnswer | Sources/claude-dialog/DialogCoordinator.swift:135-158 | a question that passes the confirmation gate, with no empty option labels, encodes with a non-empty answer part |

## Left out

- Registering and removing the key monitor (`installKeyMonitor`'s
  registration, `removeKeyMonitor`, and its calls from `submit` and `cancel`):
  these are platform event-loop calls. Only the key-routing rule is modelled
  (`Route`, `HandleKey`). The key codes 126, 125 and 49 become the keys `Up`,
  `Down` and `Space`, and every other key is `Other`.
- The `completion` callback: `Submit` and `Cancel` return the `Result`
  instead of passing it to a closure.
- Observation and main-actor annotations: they concern UI propagation and
  threading, not logic.
- main.swift (reading standard input, JSON decoding, the empty-input and
  no-question exits, writing the output, the application run loop) and the
  decoded input envelope types `HookInput` and `ToolInput`: input/output and
  process plumbing.
- JSON encoding in `buildOutput`: `BuildOutput` returns the envelope record,
  not its bytes.
- Rendering in DialogWindow.swift, DialogView.swift and QuestionView.swift,
  including `abbreviatePath`, which depends on the user's home directory. The
  carried `cwd` is only stored.
- Text.IsWhitespace: a fixed, simplified set of blank and line-break
  characters stands in for the platform's full whitespace-and-newlines set.
- Coordinator.DialogCoordinator.Toggle: requires the slot index to be an
  existing slot, which every caller (key routing, row clicks) guarantees. The
  source accepts any integer, but a negative index would later make `submit`
  index outside the options.
- Coordinator.DialogCoordinator.Submit: `sorted()` of the selection is
  modelled as the ascending walk of the selected slots below the slot count.
  Under the invariant this is the whole sorted selection
  (`Selection.AscendingIsSorted`).
- Coordinator.DialogCoordinator.MoveFocusUp, MoveFocusDown, ActivateFocused
  and HandleKey require at least one question, which keeps the focus invariant
  simple. No coordinator is ever built without questions: the program exits
  before creating one when the question list is empty
  (Sources/claude-dialog/main.swift:18-20).
- `answerStates` is declared mutable in the source but never reassigned, so
  it is a constant sequence of `AnswerState` objects whose fields change.
- The option field `label` is named `labelText`, because `label` is a Dafny
  keyword.
