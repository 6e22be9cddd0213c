/**
 The five-star strip drawn for a professor's rating: the rating is split into
 whole stars, at most one half star, and empty stars that pad the strip to five.
 */
module Stars {

  datatype StarKind = Full | Half | Empty

  /** The three counts `renderStars` derives from a rating, before any star is built. */
  datatype StarCounts = StarCounts(full: int, half: bool, empty: int)

  /** Width of the strip. */
  const StripLength: nat := 5

  /** `renderStars` arithmetic: whole stars by flooring, a half star when the fraction reaches one half. */
  function CountStars(rating: real): (c: StarCounts)
    ensures c.full as real <= rating < c.full as real + 1.0
    ensures c.half <==> rating - c.full as real >= 0.5
    ensures c.full + (if c.half then 1 else 0) + c.empty == StripLength
  {
    var full := rating.Floor;
    var half := rating - full as real >= 0.5;
    StarCounts(full, half, StripLength - full - (if half then 1 else 0))
  }

  /** The counts can all be used as array lengths. */
  predicate Buildable(c: StarCounts) {
    c.full >= 0 && c.empty >= 0
  }

  /**
   The strip can be built exactly for ratings in [0, 5.5): below 0 the whole
   count is negative, and from 5.5 on the empty count is.
   */
  lemma BuildableIff(rating: real)
    ensures Buildable(CountStars(rating)) <==> 0.0 <= rating < 5.5
  {
    var c := CountStars(rating);
    if 0.0 <= rating < 5.5 {
      assert c.full <= 5;
      if c.full == 5 {
        assert rating - 5.0 < 0.5;
      }
    }
  }

  /** `n` copies of `k`, as `Array(n).fill(k)` makes them. */
  function Repeat(k: StarKind, n: nat): (r: seq<StarKind>)
    ensures |r| == n
    ensures forall i :: 0 <= i < n ==> r[i] == k
  {
    if n == 0 then [] else Repeat(k, n - 1) + [k]
  }

  /** Kinds in strip order: full before half before empty. */
  function Order(k: StarKind): nat {
    match k
    case Full => 0
    case Half => 1
    case Empty => 2
  }

  /** The strip: all whole stars, then the optional half star, then the empty stars. */
  function StarStrip(rating: real): (s: seq<StarKind>)
    requires 0.0 <= rating < 5.5
    ensures |s| == StripLength
    ensures forall i, j :: 0 <= i < j < |s| ==> Order(s[i]) <= Order(s[j])
    ensures forall i :: 0 <= i < |s| ==> (s[i] == Full <==> i < rating.Floor)
    ensures forall i :: 0 <= i < |s| ==> (s[i] == Half <==> i == rating.Floor && rating - rating.Floor as real >= 0.5)
  {
    BuildableIff(rating);
    var c := CountStars(rating);
    Repeat(Full, c.full) + (if c.half then [Half] else []) + Repeat(Empty, c.empty)
  }

  /** What a strip shows, in half stars: a whole star is two, a half star one. */
  function Halves(s: seq<StarKind>): nat {
    if s == [] then 0 else Halves(s[..|s| - 1]) + Weight(s[|s| - 1])
  }

  function Weight(k: StarKind): nat {
    match k
    case Full => 2
    case Half => 1
    case Empty => 0
  }

  lemma {:induction false} HalvesAppend(a: seq<StarKind>, b: seq<StarKind>)
    ensures Halves(a + b) == Halves(a) + Halves(b)
    decreases |b|
  {
    if b == [] {
      assert a + b == a;
    } else {
      assert (a + b)[..|a + b| - 1] == a + b[..|b| - 1];
      HalvesAppend(a, b[..|b| - 1]);
    }
  }

  lemma {:induction false} HalvesRepeat(k: StarKind, n: nat)
    ensures k == Full ==> Halves(Repeat(k, n)) == 2 * n
    ensures k == Empty ==> Halves(Repeat(k, n)) == 0
  {
    if n > 0 {
      HalvesRepeat(k, n - 1);
      assert Repeat(k, n)[..n - 1] == Repeat(k, n - 1);
    }
  }

  /** The strip rounds the rating down to the nearest half star. */
  lemma StripRoundsDownToHalf(rating: real)
    requires 0.0 <= rating < 5.5
    ensures Halves(StarStrip(rating)) as real <= 2.0 * rating < Halves(StarStrip(rating)) as real + 1.0
  {
    BuildableIff(rating);
    var c := CountStars(rating);
    var half: seq<StarKind> := if c.half then [Half] else [];
    HalvesAppend(Repeat(Full, c.full) + half, Repeat(Empty, c.empty));
    HalvesAppend(Repeat(Full, c.full), half);
    HalvesRepeat(Full, c.full);
    HalvesRepeat(Empty, c.empty);
    assert Halves(half) == if c.half then 1 else 0 by {
      if c.half { assert half[..0] == []; }
    }
    var h := Halves(StarStrip(rating));
    assert h == 2 * c.full + (if c.half then 1 else 0);
  }

  /** A higher rating never shows fewer stars. */
  lemma StripMonotonic(a: real, b: real)
    requires 0.0 <= a <= b < 5.5
    ensures Halves(StarStrip(a)) <= Halves(StarStrip(b))
  {
    StripRoundsDownToHalf(a);
    StripRoundsDownToHalf(b);
  }
}
