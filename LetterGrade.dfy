/**
 The letter grade shown under "Course Average:" on a professor card: a
 course's mean grade point is mapped to a letter by a descending chain of
 inclusive lower bounds, and a missing average is shown as "N/A".
 */
module LetterGrade {
  import opened Wrappers

  /** The label shown when no average is known. */
  const NotAvailable: string := "N/A"

  /** The letter labels, best first. */
  const Letters: seq<string> := ["A", "A-", "B+", "B", "B-", "C+", "C", "C-", "D+", "D", "F"]

  /** The inclusive lower bound of `Letters[k]`, for every letter but the last ("F"). */
  const LowerBounds: seq<real> := [4.0, 3.7, 3.3, 3.0, 2.7, 2.3, 2.0, 1.7, 1.3, 1.0]

  /** Every label the mapper can produce. */
  const Labels: seq<string> := Letters + [NotAvailable]

  /** The bounds strictly decrease, so at most one interval holds any value. */
  lemma BoundsDescending()
    ensures |LowerBounds| == |Letters| - 1
    ensures forall i, j :: 0 <= i < j < |LowerBounds| ==> LowerBounds[j] < LowerBounds[i]
  {
  }

  /** The labels are pairwise distinct. */
  lemma LabelsDistinct()
    ensures forall i, j :: 0 <= i < j < |Labels| ==> Labels[i] != Labels[j]
  {
  }

  /** `getLetterGrade`: a missing average is "N/A", a number gets the first letter whose bound it meets. */
  function LetterGrade(avg: Option<real>): (grade: string)
    ensures grade == NotAvailable <==> avg.None?
    ensures avg.Some? ==> grade in Letters
    ensures grade in Labels
  {
    match avg
    case None => NotAvailable
    case Some(x) =>
      if x >= 4.0 then "A"
      else if x >= 3.7 then "A-"
      else if x >= 3.3 then "B+"
      else if x >= 3.0 then "B"
      else if x >= 2.7 then "B-"
      else if x >= 2.3 then "C+"
      else if x >= 2.0 then "C"
      else if x >= 1.7 then "C-"
      else if x >= 1.3 then "D+"
      else if x >= 1.0 then "D"
      else "F"
  }

  /**
   Reference definition: the index of the first bound, from `i` on, that `x`
   meets, or `|LowerBounds|` (the index of "F") when it meets none.
   */
  function FirstMet(x: real, i: nat): (k: nat)
    requires i <= |LowerBounds|
    ensures i <= k <= |LowerBounds|
    ensures forall j :: i <= j < k ==> x < LowerBounds[j]
    ensures k < |LowerBounds| ==> LowerBounds[k] <= x
    decreases |LowerBounds| - i
  {
    if i == |LowerBounds| then i
    else if LowerBounds[i] <= x then i
    else FirstMet(x, i + 1)
  }

  /** The mapper agrees with the reference: the first letter whose bound is met, else "F". */
  lemma LetterGradeIsFirstMet(x: real)
    ensures LetterGrade(Some(x)) == Letters[FirstMet(x, 0)]
  {
    var k := FirstMet(x, 0);
    assert k > 0 ==> x < LowerBounds[k - 1];
    assert k < |LowerBounds| ==> LowerBounds[k] <= x;
    if k == 0 {
    } else if k == 1 {
    } else if k == 2 {
    } else if k == 3 {
    } else if k == 4 {
    } else if k == 5 {
    } else if k == 6 {
    } else if k == 7 {
    } else if k == 8 {
    } else if k == 9 {
    } else {
    }
  }

  /** Each letter owns exactly the half-open interval between its bound and the next better letter's bound. */
  lemma LetterInterval(x: real, k: nat)
    requires k < |Letters|
    ensures LetterGrade(Some(x)) == Letters[k] <==>
              (k == 0 || x < LowerBounds[k - 1]) && (k == |LowerBounds| || LowerBounds[k] <= x)
  {
    LetterGradeIsFirstMet(x);
    LabelsDistinct();
    BoundsDescending();
    var m := FirstMet(x, 0);
    assert Letters[m] == Letters[k] <==> m == k by {
      assert Letters[m] == Labels[m] && Letters[k] == Labels[k];
    }
  }

  /** Position of a letter from the bottom: "F" is 0, "A" is 10. */
  function Rank(grade: string): (r: nat)
    requires grade in Letters
    ensures r < |Letters| && Letters[|Letters| - 1 - r] == grade
  {
    RankFrom(grade, |Letters| - 1)
  }

  /** Helper of `Rank`: the position from the bottom, searching `Letters[..i + 1]` from its end. */
  function RankFrom(grade: string, i: nat): (r: nat)
    requires i < |Letters| && grade in Letters[..i + 1]
    ensures r <= i && Letters[i - r] == grade
    decreases i
  {
    if Letters[i] == grade then 0
    else
      assert Letters[..i + 1] == Letters[..i] + [Letters[i]];
      1 + RankFrom(grade, i - 1)
  }

  /** The rank of a numeric average's letter is the number of bounds it meets. */
  lemma RankIsBoundsMet(x: real)
    ensures Rank(LetterGrade(Some(x))) == |LowerBounds| - FirstMet(x, 0)
  {
    LetterGradeIsFirstMet(x);
    LabelsDistinct();
    var r := Rank(LetterGrade(Some(x)));
    var m := FirstMet(x, 0);
    assert Labels[|Letters| - 1 - r] == Labels[m];
  }

  /** Monotonicity: a higher average never gets a worse letter. */
  lemma LetterGradeMonotonic(a: real, b: real)
    requires a <= b
    ensures Rank(LetterGrade(Some(a))) <= Rank(LetterGrade(Some(b)))
  {
    RankIsBoundsMet(a);
    RankIsBoundsMet(b);
  }

  /** There is no "A+": every average at or above 4.0, up to the 4.3 grade point, is an "A". */
  lemma NoAPlus(x: real)
    ensures x >= 4.0 ==> LetterGrade(Some(x)) == "A"
    ensures LetterGrade(Some(x)) != "A+"
  {
  }

  /** Sample values at and between the bounds. */
  lemma Examples()
    ensures LetterGrade(Some(4.0)) == "A"
    ensures LetterGrade(Some(3.85)) == "A-"
    ensures LetterGrade(Some(3.125)) == "B"
    ensures LetterGrade(Some(0.0)) == "F"
    ensures LetterGrade(None) == "N/A"
  {
  }
}
