/**
 The "Courses" statistic on a professor card: the number of distinct course
 names in the professor's course list, with a literal "0" shown in place of
 a zero count.
 */
module CourseCount {

  /** The distinct elements of `s`. */
  function Elements(s: seq<string>): set<string> {
    set x | x in s
  }

  predicate NoDuplicates(s: seq<string>) {
    forall i, j :: 0 <= i < j < |s| ==> s[i] != s[j]
  }

  /** `Array.from(new Set(s))`: each course once, at its first position. */
  function Distinct(s: seq<string>): (d: seq<string>)
    ensures Elements(d) == Elements(s)
    ensures NoDuplicates(d)
    ensures |d| <= |s|
  {
    if s == [] then []
    else
      var rest := Distinct(s[..|s| - 1]);
      assert s == s[..|s| - 1] + [s[|s| - 1]];
      assert Elements(s) == Elements(s[..|s| - 1]) + {s[|s| - 1]};
      assert Elements(rest + [s[|s| - 1]]) == Elements(rest) + {s[|s| - 1]};
      if s[|s| - 1] in rest then rest else rest + [s[|s| - 1]]
  }

  /** A sequence without repeats has as many elements as distinct values. */
  lemma {:induction false} NoDuplicatesCard(s: seq<string>)
    requires NoDuplicates(s)
    ensures |Elements(s)| == |s|
  {
    if s != [] {
      var init, last := s[..|s| - 1], s[|s| - 1];
      assert s == init + [last];
      NoDuplicatesCard(init);
      assert Elements(s) == Elements(init) + {last};
      assert last !in Elements(init);
    }
  }

  /** The length of `Distinct(s)` is the number of distinct courses in `s`. */
  lemma DistinctLength(s: seq<string>)
    ensures |Distinct(s)| == |Elements(s)|
  {
    NoDuplicatesCard(Distinct(s));
  }

  /** A JSX child: a number, or a string. */
  datatype Shown = Number(n: nat) | Text(s: string)

  /** `Array.from(new Set(courses))?.length || "0"`: a zero length is falsy and falls back to "0". */
  function CourseCountShown(courses: seq<string>): (shown: Shown)
    ensures shown == Text("0") <==> courses == []
    ensures courses != [] ==> shown.Number? && shown.n == |Elements(courses)| && 1 <= shown.n <= |courses|
  {
    DistinctLength(courses);
    var n := |Distinct(courses)|;
    if n != 0 then Number(n) else Text("0")
  }

  /** The character of a decimal digit. */
  function DigitChar(d: nat): (c: char)
    requires d < 10
    ensures '0' <= c <= '9' && c as int - '0' as int == d
  {
    ('0' as int + d) as char
  }

  /** The decimal digits React prints for a non-negative integer. */
  function DecimalString(n: nat): (r: string)
    ensures |r| >= 1
    ensures forall i :: 0 <= i < |r| ==> '0' <= r[i] <= '9'
    ensures n > 0 ==> r[0] != '0'
  {
    if n < 10 then [DigitChar(n)] else DecimalString(n / 10) + [DigitChar(n % 10)]
  }

  /** The number a string of decimal digits spells, most significant digit first. */
  function DigitsValue(s: string): nat
    requires forall i :: 0 <= i < |s| ==> '0' <= s[i] <= '9'
  {
    if s == [] then 0
    else DigitsValue(s[..|s| - 1]) * 10 + (s[|s| - 1] as int - '0' as int)
  }

  /** The printed digits spell `n` back. */
  lemma {:induction false} DecimalStringValue(n: nat)
    ensures DigitsValue(DecimalString(n)) == n
  {
    var r := DecimalString(n);
    assert r[..|r| - 1] == (if n < 10 then [] else DecimalString(n / 10));
    if n >= 10 {
      DecimalStringValue(n / 10);
    }
  }

  /** The text a `Shown` child renders as. */
  function Render(shown: Shown): string {
    match shown
    case Number(n) => DecimalString(n)
    case Text(s) => s
  }

  /** In either branch the card prints the number of distinct courses. */
  lemma ShownIsDistinctCount(courses: seq<string>)
    ensures Render(CourseCountShown(courses)) == DecimalString(|Elements(courses)|)
    ensures DigitsValue(Render(CourseCountShown(courses))) == |Elements(courses)|
  {
    if courses == [] {
      assert Elements(courses) == {};
    }
    DecimalStringValue(|Elements(courses)|);
  }
}
