/** The value-level rules behind one question's answer state: the initial
    selection, what a toggle does, the state invariant, when an answer is
    complete enough to confirm, and the answer a submission derives from it. */
module Selection {
  import opened Models
  import opened Text

  /** The invariant of one question's selection: only real slots (the options
      and "Other") are selected, and a single-select question never holds more
      than one of them. */
  ghost predicate SelectionValid(q: Question, s: set<int>)
  {
    (forall i :: i in s ==> 0 <= i < OptionCount(q)) &&
    (!q.multiSelect ==> |s| <= 1)
  }

  /** The selection a question starts with: the first option of a
      single-select question that has options, nothing otherwise. */
  function InitialSelection(q: Question): (s: set<int>)
    ensures SelectionValid(q, s)
    ensures s != {} <==> !q.multiSelect && |q.options| > 0
    ensures s != {} ==> s == {0}
  {
    if !q.multiSelect && |q.options| > 0 then {0} else {}
  }

  /** The selection after toggling slot `i`: a multi-select question flips the
      membership of `i` alone, a single-select question selects `i` only. */
  function Toggled(q: Question, s: set<int>, i: int): (r: set<int>)
    ensures q.multiSelect ==> forall j :: j in r <==> (j in s) != (j == i)
    ensures !q.multiSelect ==> i in r && |r| == 1
    ensures SelectionValid(q, s) && 0 <= i < OptionCount(q) ==> SelectionValid(q, r)
  {
    if q.multiSelect then
      if i in s then s - {i} else s + {i}
    else
      {i}
  }

  /** On a multi-select question toggling the same slot twice restores the
      selection. */
  lemma ToggleInvolution(q: Question, s: set<int>, i: int)
    requires q.multiSelect
    ensures Toggled(q, Toggled(q, s, i), i) == s
  {
  }

  /** The selection after toggling the slots of `steps` one after another. */
  function Toggles(q: Question, s: set<int>, steps: seq<int>): set<int>
    decreases |steps|
  {
    if steps == [] then s else Toggles(q, Toggled(q, s, steps[0]), steps[1..])
  }

  /** On a multi-select question a slot ends up selected exactly when it started
      selected and was toggled an even number of times, or started unselected
      and was toggled an odd number of times: the order of the toggles does not
      matter. */
  lemma {:induction false} MultiSelectToggles(q: Question, s: set<int>, steps: seq<int>, j: int)
    requires q.multiSelect
    ensures j in Toggles(q, s, steps) <==> (j in s) != (multiset(steps)[j] % 2 == 1)
    decreases |steps|
  {
    if steps != [] {
      var rest := steps[1..];
      assert steps == [steps[0]] + rest;
      assert multiset(steps)[j] == multiset(rest)[j] + (if steps[0] == j then 1 else 0);
      MultiSelectToggles(q, Toggled(q, s, steps[0]), rest, j);
    }
  }

  /** On a single-select question any non-empty run of toggles leaves exactly
      the last toggled slot selected. */
  lemma {:induction false} SingleSelectToggles(q: Question, s: set<int>, steps: seq<int>)
    requires !q.multiSelect && steps != []
    ensures Toggles(q, s, steps) == {steps[|steps| - 1]}
    decreases |steps|
  {
    var t := Toggled(q, s, steps[0]);
    assert t == {steps[0]} by {
      assert |t - {steps[0]}| == 0;
    }
    if |steps| > 1 {
      SingleSelectToggles(q, t, steps[1..]);
    }
  }

  /** The members of `sel` below `n`, in ascending order. */
  function Ascending(sel: set<int>, n: nat): (r: seq<int>)
    ensures forall k :: 0 <= k < |r| ==> 0 <= r[k] < n && r[k] in sel
    ensures forall k, l :: 0 <= k < l < |r| ==> r[k] < r[l]
  {
    if n == 0 then []
    else Ascending(sel, n - 1) + (if n - 1 in sel then [n - 1] else [])
  }

  /** Every member of `sel` below `n` appears in the ascending walk. */
  lemma {:induction false} AscendingComplete(sel: set<int>, n: nat, i: int)
    requires i in sel && 0 <= i < n
    ensures i in Ascending(sel, n)
  {
    if i < n - 1 {
      AscendingComplete(sel, n - 1, i);
    }
  }

  /** With every member of `sel` in `[0, n)`, the ascending walk below `n` lists
      the whole set, each member once. */
  lemma AscendingIsSorted(sel: set<int>, n: nat)
    requires forall i :: i in sel ==> 0 <= i < n
    ensures |Ascending(sel, n)| == |sel|
    ensures forall i :: i in sel <==> i in Ascending(sel, n)
  {
    var r := Ascending(sel, n);
    assert forall k, l :: 0 <= k < l < |r| ==> r[k] != r[l];
    DistinctCardinality(r);
    forall i | i in sel ensures i in r {
      AscendingComplete(sel, n, i);
    }
    assert (set k | 0 <= k < |r| :: r[k]) == sel;
  }

  /** A sequence without repeated elements has as many elements as its set. */
  lemma {:induction false} DistinctCardinality(r: seq<int>)
    requires forall k, l :: 0 <= k < l < |r| ==> r[k] != r[l]
    ensures |set k | 0 <= k < |r| :: r[k]| == |r|
  {
    if r != [] {
      var init := r[..|r| - 1];
      DistinctCardinality(init);
      var before := set k | 0 <= k < |init| :: init[k];
      var after := set k | 0 <= k < |r| :: r[k];
      assert after == before + {r[|r| - 1]};
      assert r[|r| - 1] !in before;
    }
  }

  /** The labels of the options at the non-negative indices `idx`, in the order
      of `idx`, skipping indices past the last option (the "Other" slot). */
  function LabelsOf(options: seq<Option>, idx: seq<int>): seq<string>
    requires forall k :: 0 <= k < |idx| ==> 0 <= idx[k]
  {
    if idx == [] then []
    else
      var last := idx[|idx| - 1];
      LabelsOf(options, idx[..|idx| - 1]) + (if last < |options| then [options[last].labelText] else [])
  }

  /** The labels a submission reports for a question: those of the selected
      options, walking the selected slots in ascending order. */
  function Labels(q: Question, sel: set<int>): seq<string>
  {
    LabelsOf(q.options, Ascending(sel, OptionCount(q)))
  }

  /** The answer a submission derives from one question and its state. The
      trimmed text is reported whenever "Other" is selected, even when it is
      empty. */
  function AnswerFor(q: Question, sel: set<int>, text: string): QuestionAnswer
  {
    QuestionAnswer(
      q.header,
      q.question,
      Labels(q, sel),
      if OtherIndex(q) in sel then Some(Trim(text)) else None)
  }

  /** Indices all within the options list are mapped to their labels one to one. */
  lemma {:induction false} LabelsOfInRange(options: seq<Option>, idx: seq<int>)
    requires forall k :: 0 <= k < |idx| ==> 0 <= idx[k] < |options|
    ensures |LabelsOf(options, idx)| == |idx|
    ensures forall k :: 0 <= k < |idx| ==> LabelsOf(options, idx)[k] == options[idx[k]].labelText
  {
    if idx != [] {
      LabelsOfInRange(options, idx[..|idx| - 1]);
    }
  }

  /** The reported labels are exactly those of the selected options below the
      "Other" slot, in ascending index order, whatever order they were
      selected in. */
  lemma LabelsInIndexOrder(q: Question, sel: set<int>)
    ensures var idx := Ascending(sel, |q.options|);
      |Labels(q, sel)| == |idx| &&
      forall k :: 0 <= k < |idx| ==> Labels(q, sel)[k] == q.options[idx[k]].labelText
  {
    var o := q.options;
    var idx := Ascending(sel, |o|);
    LabelsSkipOther(o, sel);
    LabelsOfInRange(o, idx);
  }

  /** The "Other" slot contributes no label. */
  lemma LabelsSkipOther(o: seq<Option>, sel: set<int>)
    ensures LabelsOf(o, Ascending(sel, |o| + 1)) == LabelsOf(o, Ascending(sel, |o|))
  {
    var idx := Ascending(sel, |o|);
    var all := Ascending(sel, |o| + 1);
    if |o| in sel {
      assert all == idx + [|o|];
      assert all[..|all| - 1] == idx && all[|all| - 1] == |o|;
      assert LabelsOf(o, all) == LabelsOf(o, idx) + [];
    } else {
      assert all == idx;
    }
  }

  /** The confirmation rule for one question: something is selected, and if
      "Other" is among it the trimmed text is not empty. */
  predicate AnswerComplete(q: Question, sel: set<int>, text: string)
  {
    sel != {} && (OtherIndex(q) in sel ==> Trim(text) != "")
  }

  /** A question that passes the confirmation rule is answered by at least one
      label or by a non-empty "Other" text, so its encoded sentence never has an
      empty answer part for want of a selection. */
  lemma ConfirmedAnswerHasContent(q: Question, sel: set<int>, text: string)
    requires SelectionValid(q, sel) && AnswerComplete(q, sel, text)
    ensures var a := AnswerFor(q, sel, text);
      a.selectedLabels != [] || (a.otherText.Some? && a.otherText.value != "")
  {
    var i := SomeSelected(q, sel);
    var a := AnswerFor(q, sel, text);
    if i < |q.options| {
      LabelsNonEmpty(q, sel, i);
      assert a.selectedLabels != [];
    } else {
      assert a.otherText == Some(Trim(text));
    }
  }

  /** A selection that passes the invariant and is not empty has a member. */
  lemma SomeSelected(q: Question, sel: set<int>) returns (i: int)
    requires SelectionValid(q, sel) && sel != {}
    ensures i in sel && 0 <= i < OptionCount(q)
  {
    AscendingIsSorted(sel, OptionCount(q));
    i := Ascending(sel, OptionCount(q))[0];
  }

  /** Selecting any real option gives the question at least one label. */
  lemma LabelsNonEmpty(q: Question, sel: set<int>, i: int)
    requires i in sel && 0 <= i < |q.options|
    ensures Labels(q, sel) != []
  {
    LabelsInIndexOrder(q, sel);
    AscendingComplete(sel, |q.options|, i);
  }

  /** A single-select question with a selection is answered either by exactly
      one option label and no text, or by the "Other" text and no label. */
  lemma SingleSelectAnswer(q: Question, sel: set<int>, text: string)
    requires !q.multiSelect && SelectionValid(q, sel) && sel != {}
    ensures var a := AnswerFor(q, sel, text);
      (|a.selectedLabels| == 1 && a.otherText == None) ||
      (a.selectedLabels == [] && a.otherText == Some(Trim(text)))
  {
    var i := SomeSelected(q, sel);
    assert sel == {i} by {
      assert |sel - {i}| == 0;
    }
    SingletonLabels(q, i);
  }

  /** A lone selected slot yields its option's label, or no label for "Other". */
  lemma SingletonLabels(q: Question, i: int)
    requires 0 <= i < OptionCount(q)
    ensures Labels(q, {i}) == if i < |q.options| then [q.options[i].labelText] else []
  {
    AscendingSingleton(i, OptionCount(q));
    assert Labels(q, {i}) == LabelsOf(q.options, [i]);
    assert [i][..0] == [];
    assert LabelsOf(q.options, [i]) == LabelsOf(q.options, []) + (if i < |q.options| then [q.options[i].labelText] else []);
  }

  /** The ascending walk of a one-element set. */
  lemma {:induction false} AscendingSingleton(i: int, n: nat)
    ensures Ascending({i}, n) == if 0 <= i < n then [i] else []
  {
    if n > 0 {
      AscendingSingleton(i, n - 1);
    }
  }
}
