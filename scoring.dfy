/**
 * The scoring part of `Assessment.save`: the total score and the letter grade
 * derived from four optional continuous-assessment slots and an optional exam mark.
 * Every mark is an exact two-place decimal, held here as a whole number of hundredths.
 */
module Scoring {
  import opened Wrappers

  /** A two-decimal-place value as a count of hundredths: 12.34 is 1234. */
  type Hundredths = int

  /** Letter grades, and IC ("incomplete") for an assessment without an exam mark. */
  datatype Grade = A | BPlus | B | CPlus | C | DPlus | D | E | IC {

    /** The text stored in the `grade` column, which holds at most two characters. */
    function Code(): (s: string)
      ensures 1 <= |s| <= 2
    {
      match this
      case A => "A"
      case BPlus => "B+"
      case B => "B"
      case CPlus => "C+"
      case C => "C"
      case DPlus => "D+"
      case D => "D"
      case E => "E"
      case IC => "IC"
    }

    predicate IsLetter()
    {
      this != IC
    }

    /** Position of a letter grade on the scale, E lowest and A highest. */
    function Rank(): (r: nat)
      requires IsLetter()
      ensures r <= 7
    {
      match this
      case E => 0
      case D => 1
      case DPlus => 2
      case C => 3
      case CPlus => 4
      case B => 5
      case BPlus => 6
      case A => 7
    }
  }

  /** The letter for a total score: inclusive lower bounds 80, 75, 70, 65, 60, 55, 50, tried top-down. */
  function GradeFor(total: Hundredths): (g: Grade)
    ensures g.IsLetter()
  {
    if total >= 8000 then A
    else if total >= 7500 then BPlus
    else if total >= 7000 then B
    else if total >= 6500 then CPlus
    else if total >= 6000 then C
    else if total >= 5500 then DPlus
    else if total >= 5000 then D
    else E
  }

  /** The derived columns of an assessment. */
  datatype Derived = Derived(totalScore: Option<Hundredths>, grade: Grade)

  /** A CA slot as it enters the sum: a missing slot counts as 0. */
  function SlotValue(slot: Option<Hundredths>): Hundredths
  {
    slot.GetOr(0)
  }

  /** What `save` assigns to `total_score` and `grade` before validating. */
  function Derive(ca1: Option<Hundredths>, ca2: Option<Hundredths>, ca3: Option<Hundredths>,
                  ca4: Option<Hundredths>, exam: Option<Hundredths>): (d: Derived)
    ensures d.totalScore.Some? <==> exam.Some?
    ensures d.grade == IC <==> exam.None?
    ensures d.totalScore.Some? ==> d.grade == GradeFor(d.totalScore.value)
  {
    match exam
    case None => Derived(None, IC)
    case Some(e) =>
      var total := SlotValue(ca1) + SlotValue(ca2) + SlotValue(ca3) + SlotValue(ca4) + e;
      Derived(Some(total), GradeFor(total))
  }

  // ---------------------------------------------------------------------------
  // Reference definitions the grade table is checked against

  /** The lowest total that earns letter `g` (E has no floor of its own). */
  function Floor(g: Grade): Hundredths
    requires g.IsLetter() && g != E
  {
    match g
    case A => 8000
    case BPlus => 7500
    case B => 7000
    case CPlus => 6500
    case C => 6000
    case DPlus => 5500
    case D => 5000
  }

  /** The letter one step up the scale. */
  function Next(g: Grade): (h: Grade)
    requires g.IsLetter() && g != A
    ensures h.IsLetter() && h != E && h.Rank() == g.Rank() + 1
  {
    match g
    case E => D
    case D => DPlus
    case DPlus => C
    case C => CPlus
    case CPlus => B
    case B => BPlus
    case BPlus => A
  }

  /** The band of totals a letter covers: from its floor up to, not including, the next letter's floor. */
  predicate InBand(g: Grade, total: Hundredths)
    requires g.IsLetter()
  {
    (g == E || Floor(g) <= total) && (g == A || total < Floor(Next(g)))
  }

  /** The sum of the slots that hold a value, by recursion over the list of slots. */
  function SumPresent(slots: seq<Option<Hundredths>>): Hundredths
  {
    if slots == [] then 0
    else (if slots[0].Some? then slots[0].value else 0) + SumPresent(slots[1..])
  }

  // ---------------------------------------------------------------------------
  // Properties

  /** Without an exam mark there is no total and the grade is IC, whatever the CA slots hold. */
  lemma NoExamMeansIncomplete(ca1: Option<Hundredths>, ca2: Option<Hundredths>, ca3: Option<Hundredths>,
                              ca4: Option<Hundredths>, ca1': Option<Hundredths>, ca2': Option<Hundredths>,
                              ca3': Option<Hundredths>, ca4': Option<Hundredths>)
    ensures Derive(ca1, ca2, ca3, ca4, None) == Derived(None, IC)
    ensures Derive(ca1, ca2, ca3, ca4, None) == Derive(ca1', ca2', ca3', ca4', None)
  {
  }

  /** With an exam mark, the total is the exam mark plus the sum of the CA slots that hold a value. */
  lemma {:induction false} TotalIsSumOfPresentMarks(ca1: Option<Hundredths>, ca2: Option<Hundredths>,
                                                    ca3: Option<Hundredths>, ca4: Option<Hundredths>,
                                                    exam: Hundredths)
    ensures Derive(ca1, ca2, ca3, ca4, Some(exam)).totalScore == Some(SumPresent([ca1, ca2, ca3, ca4]) + exam)
  {
    assert [ca1, ca2, ca3, ca4][1..] == [ca2, ca3, ca4];
    assert [ca2, ca3, ca4][1..] == [ca3, ca4];
    assert [ca3, ca4][1..] == [ca4];
    assert [ca4][1..] == [];
    assert SumPresent([ca4]) == SlotValue(ca4);
    assert SumPresent([ca3, ca4]) == SlotValue(ca3) + SlotValue(ca4);
    assert SumPresent([ca2, ca3, ca4]) == SlotValue(ca2) + SlotValue(ca3) + SlotValue(ca4);
  }

  /** The grade of a present total is the letter of that total's band, and no other letter. */
  lemma GradeIsBandOfTotal(total: Hundredths, g: Grade)
    requires g.IsLetter()
    ensures GradeFor(total) == g <==> InBand(g, total)
  {
  }

  /** The grade table at its edges. */
  lemma GradeBoundaries()
    ensures GradeFor(8000) == A && GradeFor(7999) == BPlus
    ensures GradeFor(7500) == BPlus && GradeFor(7499) == B
    ensures GradeFor(5000) == D && GradeFor(4999) == E
    ensures GradeFor(0) == E && GradeFor(14000) == A
  {
  }

  /** A higher total never gets a lower letter. */
  lemma GradeMonotone(lo: Hundredths, hi: Hundredths)
    requires lo <= hi
    ensures GradeFor(lo).Rank() <= GradeFor(hi).Rank()
  {
  }

  /** Each letter grade is reached by some total: the table has no dead rows. */
  lemma EveryLetterReachable(g: Grade)
    requires g.IsLetter()
    ensures GradeFor(if g == E then 0 else Floor(g)) == g
  {
  }

  /** Every derived grade is one of the nine codes and fits the two-character column. */
  lemma GradeCodeFits(ca1: Option<Hundredths>, ca2: Option<Hundredths>, ca3: Option<Hundredths>,
                      ca4: Option<Hundredths>, exam: Option<Hundredths>)
    ensures Derive(ca1, ca2, ca3, ca4, exam).grade.Code()
            in ["A", "B+", "B", "C+", "C", "D+", "D", "E", "IC"]
    ensures |Derive(ca1, ca2, ca3, ca4, exam).grade.Code()| <= 2
  {
  }

  /** Distinct grades are stored as distinct codes. */
  lemma CodeInjective(g: Grade, h: Grade)
    requires g.Code() == h.Code()
    ensures g == h
  {
  }
}
