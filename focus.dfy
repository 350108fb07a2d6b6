/** The keyboard focus cursor: one position in the flattened space of every
    question's slots (options plus "Other"), moved one step at a time and
    saturating at both ends. */
module Focus {
  import opened Models

  datatype Cursor = Cursor(question: int, option: int)

  /** The cursor names a question and one of its slots. */
  predicate InBounds(qs: seq<Question>, c: Cursor)
  {
    0 <= c.question < |qs| && 0 <= c.option < OptionCount(qs[c.question])
  }

  /** The first slot of the first question, where focus starts. */
  function First(): Cursor
  {
    Cursor(0, 0)
  }

  /** The "Other" slot of the last question. */
  function Last(qs: seq<Question>): (c: Cursor)
    requires |qs| > 0
    ensures InBounds(qs, c)
  {
    Cursor(|qs| - 1, OptionCount(qs[|qs| - 1]) - 1)
  }

  /** One step up: the previous slot of the question, else the last slot of the
      previous question, else stay put. */
  function FocusUp(qs: seq<Question>, c: Cursor): (r: Cursor)
    requires InBounds(qs, c)
    ensures InBounds(qs, r)
  {
    if c.option > 0 then Cursor(c.question, c.option - 1)
    else if c.question > 0 then Cursor(c.question - 1, OptionCount(qs[c.question - 1]) - 1)
    else c
  }

  /** One step down: the next slot of the question, else the first slot of the
      next question, else stay put. */
  function FocusDown(qs: seq<Question>, c: Cursor): (r: Cursor)
    requires InBounds(qs, c)
    ensures InBounds(qs, r)
  {
    if c.option < OptionCount(qs[c.question]) - 1 then Cursor(c.question, c.option + 1)
    else if c.question < |qs| - 1 then Cursor(c.question + 1, 0)
    else c
  }

  /** Number of slots in the questions before question `n`. */
  function Offset(qs: seq<Question>, n: nat): nat
    requires n <= |qs|
  {
    if n == 0 then 0 else Offset(qs, n - 1) + OptionCount(qs[n - 1])
  }

  /** The position of a cursor in the flattened list of all slots. */
  function Rank(qs: seq<Question>, c: Cursor): int
    requires InBounds(qs, c)
  {
    Offset(qs, c.question) + c.option
  }

  lemma {:induction false} OffsetMonotone(qs: seq<Question>, m: nat, n: nat)
    requires m <= n <= |qs|
    ensures Offset(qs, m) + (n - m) <= Offset(qs, n)
  {
    if m < n {
      OffsetMonotone(qs, m, n - 1);
    }
  }

  /** Every in-bounds cursor has a rank below the total number of slots, and
      distinct cursors have distinct ranks: the rank numbers the slots. */
  lemma RankIsNumbering(qs: seq<Question>, c: Cursor, d: Cursor)
    requires InBounds(qs, c) && InBounds(qs, d)
    ensures 0 <= Rank(qs, c) < Offset(qs, |qs|)
    ensures Rank(qs, c) == Rank(qs, d) ==> c == d
  {
    OffsetMonotone(qs, c.question + 1, |qs|);
    if c.question < d.question {
      OffsetMonotone(qs, c.question + 1, d.question);
    } else if d.question < c.question {
      OffsetMonotone(qs, d.question + 1, c.question);
    }
  }

  /** Moving down advances exactly one slot in the flattened order, except at
      the last slot of the last question, where it stays. */
  lemma FocusDownStep(qs: seq<Question>, c: Cursor)
    requires InBounds(qs, c)
    ensures Rank(qs, FocusDown(qs, c)) == if c == Last(qs) then Rank(qs, c) else Rank(qs, c) + 1
  {
  }

  /** Moving up goes back exactly one slot in the flattened order, except at
      the first slot of the first question, where it stays. */
  lemma FocusUpStep(qs: seq<Question>, c: Cursor)
    requires InBounds(qs, c)
    ensures Rank(qs, FocusUp(qs, c)) == if c == First() then Rank(qs, c) else Rank(qs, c) - 1
  {
  }

  /** Moving up changes nothing exactly at the first slot, and moving down
      changes nothing exactly at the last slot: focus saturates, never wraps. */
  lemma FocusSaturates(qs: seq<Question>, c: Cursor)
    requires InBounds(qs, c)
    ensures FocusUp(qs, c) == c <==> c == First()
    ensures FocusDown(qs, c) == c <==> c == Last(qs)
  {
    FocusUpStep(qs, c);
    FocusDownStep(qs, c);
  }

  /** Away from the last slot, a step down followed by a step up restores the
      cursor. */
  lemma DownThenUp(qs: seq<Question>, c: Cursor)
    requires InBounds(qs, c) && c != Last(qs)
    ensures FocusUp(qs, FocusDown(qs, c)) == c
  {
    var d := FocusDown(qs, c);
    FocusDownStep(qs, c);
    FocusUpStep(qs, d);
    RankIsNumbering(qs, FocusUp(qs, d), c);
  }

  /** Away from the first slot, a step up followed by a step down restores the
      cursor. */
  lemma UpThenDown(qs: seq<Question>, c: Cursor)
    requires InBounds(qs, c) && c != First()
    ensures FocusDown(qs, FocusUp(qs, c)) == c
  {
    var u := FocusUp(qs, c);
    FocusUpStep(qs, c);
    FocusDownStep(qs, u);
    RankIsNumbering(qs, FocusDown(qs, u), c);
  }

  /** Moving down from the "Other" slot of a question that is not the last
      enters the next question at its first slot; moving up from there comes
      back. */
  lemma FocusCrossesQuestions(qs: seq<Question>, q: int)
    requires 0 <= q < |qs| - 1
    ensures var c := Cursor(q, OptionCount(qs[q]) - 1);
      FocusDown(qs, c) == Cursor(q + 1, 0) && FocusUp(qs, Cursor(q + 1, 0)) == c
  {
  }
}
