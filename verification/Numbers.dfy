/** Arithmetic shared by the report parsers: sums, sorting, rounding to a number of
    decimals, and the interpolated percentile. Floats are modelled by reals. */
module Numbers {
  import opened Sets

  function Max(a: int, b: int): int { if a < b then b else a }

  function Min(a: int, b: int): int { if a < b then a else b }

  function MaxReal(a: real, b: real): real { if a < b then b else a }

  function Sum(s: seq<int>): int {
    if s == [] then 0 else Sum(s[..|s| - 1]) + s[|s| - 1]
  }

  /** Sums grow by what is added at either end. */
  lemma {:induction false} SumOfMore(s: seq<int>, x: int)
    ensures Sum([]) == 0 && Sum(s + [x]) == Sum(s) + x && Sum([x] + s) == x + Sum(s)
  {
    assert (s + [x])[..|s|] == s;
    if s == [] {
      assert [x] + s == [] + [x] && ([] + [x])[..0] == [];
    } else {
      var init, last := s[..|s| - 1], s[|s| - 1];
      SumOfMore(init, x);
      assert ([x] + s)[..|s|] == [x] + init && ([x] + s)[|s|] == last;
    }
  }

  /** `t // w * w`: the start of the window of width w that t falls in. */
  function FloorTo(t: int, w: int): int
    requires w > 0
  {
    t / w * w
  }

  lemma ProductNonNegative(a: int, b: int)
    requires a >= 0 && b >= 0
    ensures a * b >= 0
  {}

  lemma SmallProduct(x: int, w: int)
    requires w > 0 && 0 <= x * w <= w
    ensures x == 0 || x == 1
    ensures x * w < w ==> x == 0
  {
    if x > 1 {
      ProductNonNegative(x - 2, w);
    } else if x < 0 {
      ProductNonNegative(-x - 1, w);
    }
  }

  lemma DivOfProduct(q: int, w: int)
    requires w > 0
    ensures q * w / w == q
  {
    var d, r := q * w / w, q * w % w;
    assert q * w == d * w + r;
    assert (q - d) * w == q * w - d * w;
    SmallProduct(q - d, w);
  }

  lemma FloorToRange(t: int, w: int)
    requires w > 0
    ensures FloorTo(t, w) <= t < FloorTo(t, w) + w
    ensures FloorTo(FloorTo(t, w), w) == FloorTo(t, w)
    ensures t >= 0 ==> FloorTo(t, w) >= 0
  {
    var q := t / w;
    DivOfProduct(q, w);
    assert t == w * q + t % w;
    if t >= 0 {
      assert q >= 0;
      ProductNonNegative(q, w);
    }
  }

  /** Two window starts at most one window apart are equal or adjacent. */
  lemma AdjacentWindows(a: int, b: int, w: int)
    requires w > 0 && FloorTo(a, w) == a && FloorTo(b, w) == b && b - w <= a <= b
    ensures a == b || a == b - w
  {
    var p, q := a / w, b / w;
    assert (q - p) * w == q * w - p * w;
    SmallProduct(q - p, w);
  }

  // ----- sorting -------------------------------------------------------------

  ghost predicate Ascending(s: seq<int>) {
    forall i, j | 0 <= i < j < |s| :: s[i] <= s[j]
  }

  function Insert(x: int, s: seq<int>): (r: seq<int>)
    ensures |r| == |s| + 1
  {
    if s == [] || x <= s[0] then [x] + s else [s[0]] + Insert(x, s[1..])
  }

  lemma {:induction false} InsertMembers(x: int, s: seq<int>)
    ensures forall y | y in Insert(x, s) :: y == x || y in s
  {
    if s != [] && x > s[0] {
      InsertMembers(x, s[1..]);
    }
  }

  lemma {:induction false} InsertAscends(x: int, s: seq<int>)
    requires Ascending(s)
    ensures Ascending(Insert(x, s))
  {
    if s != [] && x > s[0] {
      InsertMembers(x, s[1..]);
      InsertAscends(x, s[1..]);
      var r := Insert(x, s[1..]);
      forall j | 0 <= j < |r|
        ensures s[0] <= r[j]
      {
        assert r[j] in r;
      }
    }
  }

  lemma {:induction false} InsertPermutes(x: int, s: seq<int>)
    ensures multiset(Insert(x, s)) == multiset(s) + multiset{x}
  {
    if s == [] || x <= s[0] {
      assert multiset([x] + s) == multiset([x]) + multiset(s);
    } else {
      InsertPermutes(x, s[1..]);
      assert s == [s[0]] + s[1..];
    }
  }

  /** `sorted(values)`. */
  function Sorted(s: seq<int>): (r: seq<int>)
    ensures Ascending(r) && multiset(r) == multiset(s) && |r| == |s|
  {
    if s == [] then []
    else
      assert s == [s[0]] + s[1..];
      InsertAscends(s[0], Sorted(s[1..]));
      InsertPermutes(s[0], Sorted(s[1..]));
      Insert(s[0], Sorted(s[1..]))
  }

  lemma {:induction false} SumOfInsert(x: int, s: seq<int>)
    ensures Sum(Insert(x, s)) == x + Sum(s)
  {
    SumOfMore(s, x);
    if s != [] && x > s[0] {
      SumOfInsert(x, s[1..]);
      SumOfMore(Insert(x, s[1..]), s[0]);
      SumOfMore(s[1..], s[0]);
      assert [s[0]] + s[1..] == s;
    }
  }

  lemma {:induction false} SumOfSorted(s: seq<int>)
    ensures Sum(Sorted(s)) == Sum(s)
  {
    if s != [] {
      SumOfSorted(s[1..]);
      SumOfInsert(s[0], Sorted(s[1..]));
      SumOfMore(s[1..], s[0]);
      assert [s[0]] + s[1..] == s;
    }
  }

  lemma {:induction false} Least(s: set<int>) returns (m: int)
    requires s != {}
    ensures m in s && forall x | x in s :: m <= x
  {
    var y := Member(s);
    m := y;
    if s != {y} {
      assert s == {y} + (s - {y});
      var rest := Least(s - {y});
      m := Min(y, rest);
    }
  }

  ghost predicate StrictlyAscending(s: seq<int>) {
    forall i, j | 0 <= i < j < |s| :: s[i] < s[j]
  }

  ghost predicate Enumerates(r: seq<int>, s: set<int>) {
    StrictlyAscending(r) && forall x :: x in r <==> x in s
  }

  /** `sorted(keys)` over a set. */
  function SortedKeys(s: set<int>): (r: seq<int>)
    ensures Enumerates(r, s)
    decreases |s|
  {
    if s == {} then []
    else
      assert exists m :: m in s && forall x | x in s :: m <= x by { var m := Least(s); }
      var m :| m in s && forall x | x in s :: m <= x;
      [m] + SortedKeys(s - {m})
  }

  // ----- rounding ------------------------------------------------------------

  /** Round to the nearest integer, ties to the even one. */
  function RoundHalfEven(x: real): (r: int)
    ensures -0.5 <= r as real - x <= 0.5
    ensures r as real - x == 0.5 || x - r as real == 0.5 ==> r % 2 == 0
  {
    var f := x.Floor;
    var d := x - f as real;
    if d < 0.5 || (d == 0.5 && f % 2 == 0) then f else f + 1
  }

  /** `round(x, 1)` and `round(x, 2)`. */
  function Round1(x: real): real { RoundHalfEven(10.0 * x) as real / 10.0 }

  function Round2(x: real): real { RoundHalfEven(100.0 * x) as real / 100.0 }

  lemma RoundMonotone(x: real, y: real)
    requires x <= y
    ensures RoundHalfEven(x) <= RoundHalfEven(y)
    ensures Round1(x) <= Round1(y)
  {
    RoundHalfEvenMonotone(x, y);
    RoundHalfEvenMonotone(10.0 * x, 10.0 * y);
  }

  lemma RoundHalfEvenMonotone(x: real, y: real)
    requires x <= y
    ensures RoundHalfEven(x) <= RoundHalfEven(y)
  {
    assert x.Floor <= y.Floor;
  }

  // ----- percentile ----------------------------------------------------------

  /** The fractional position of the p-th percentile. */
  function Rank(n: nat, p: real): real { (n - 1) as real * p / 100.0 }

  function Interpolate(a: int, b: int, t: real): real { a as real + t * (b - a) as real }

  /** `_percentile`: linear interpolation between the two neighbours of rank (n-1)p/100. */
  function Percentile(s: seq<int>, p: real): real
    requires 0.0 <= p
  {
    var n := |s|;
    if n == 0 then 0.0
    else if n == 1 then s[0] as real
    else
      var k := Rank(n, p);
      var f := k.Floor;
      if f + 1 >= n then s[n - 1] as real else Interpolate(s[f], s[f + 1], k - f as real)
  }

  lemma Scale(d: real, t: real, u: real)
    requires 0.0 <= d && t <= u
    ensures d * t <= d * u
  {}

  lemma RankMonotone(n: nat, p: real, q: real)
    requires n > 0 && 0.0 <= p <= q <= 100.0
    ensures 0.0 <= Rank(n, p) <= Rank(n, q) <= (n - 1) as real
    ensures Rank(n, 0.0) == 0.0 && Rank(n, 100.0) == (n - 1) as real
  {
    var d := (n - 1) as real;
    Scale(d, 0.0, p);
    Scale(d, p, q);
    Scale(d, q, 100.0);
    assert d * 100.0 / 100.0 == d;
  }

  lemma InterpolateMonotone(a: int, b: int, t: real, u: real)
    requires a <= b && 0.0 <= t <= u <= 1.0
    ensures a as real <= Interpolate(a, b, t) <= Interpolate(a, b, u) <= b as real
    ensures Interpolate(a, b, 0.0) == a as real
  {
    var d := (b - a) as real;
    Scale(d, 0.0, t);
    Scale(d, t, u);
    Scale(d, u, 1.0);
  }

  /** On ascending values a percentile lies within the cell of its rank. */
  lemma PercentileCell(s: seq<int>, p: real)
    requires s != [] && Ascending(s) && 0.0 <= p <= 100.0
    ensures
      var f := Rank(|s|, p).Floor;
      && 0 <= f < |s|
      && s[f] as real <= Percentile(s, p)
      && (if f + 1 < |s| then Percentile(s, p) <= s[f + 1] as real else Percentile(s, p) == s[f] as real)
  {
    RankMonotone(|s|, p, p);
    var k := Rank(|s|, p);
    if k.Floor + 1 < |s| {
      InterpolateMonotone(s[k.Floor], s[k.Floor + 1], k - k.Floor as real, k - k.Floor as real);
    }
  }

  /** It lies within the values and hits both ends exactly. */
  lemma PercentileRange(s: seq<int>, p: real)
    requires s != [] && Ascending(s) && 0.0 <= p <= 100.0
    ensures s[0] as real <= Percentile(s, p) <= s[|s| - 1] as real
    ensures Percentile(s, 0.0) == s[0] as real
    ensures Percentile(s, 100.0) == s[|s| - 1] as real
  {
    PercentileCell(s, p);
    PercentileCell(s, 100.0);
    RankMonotone(|s|, 0.0, p);
    if |s| > 1 {
      InterpolateMonotone(s[0], s[1], 0.0, 0.0);
    }
    var f := Rank(|s|, p).Floor;
    assert s[0] <= s[f];
    assert f + 1 < |s| ==> s[f + 1] <= s[|s| - 1];
  }

  /** A larger p never gives a smaller percentile, across interpolation cells too. */
  lemma PercentileMonotone(s: seq<int>, p: real, q: real)
    requires Ascending(s) && 0.0 <= p <= q <= 100.0
    ensures Percentile(s, p) <= Percentile(s, q)
  {
    if |s| > 1 {
      PercentileCell(s, p);
      PercentileCell(s, q);
      RankMonotone(|s|, p, q);
      var k, l := Rank(|s|, p), Rank(|s|, q);
      var f, g := k.Floor, l.Floor;
      if f < g {
        assert s[f + 1] <= s[g];
      } else if f + 1 < |s| {
        InterpolateMonotone(s[f], s[f + 1], k - f as real, l - f as real);
      }
    }
  }

  /** Between two ranks a percentile goes straight from the one value to the other. */
  lemma PercentileInterpolates(s: seq<int>, p: real)
    requires s != [] && 0.0 <= p <= 100.0
    ensures
      var k := (|s| - 1) as real * p / 100.0;
      && 0 <= k.Floor < |s|
      && (if k.Floor + 1 < |s|
          then Percentile(s, p) - s[k.Floor] as real == (k - k.Floor as real) * (s[k.Floor + 1] - s[k.Floor]) as real
          else Percentile(s, p) == s[k.Floor] as real)
  {
    RankMonotone(|s|, p, p);
  }
}
