/**
 * The detection policy shared by both spore-counting screens: the parameter profile, the
 * block-size coercion, the four-predicate shape filter and the count of accepted contours.
 * The geometry (contour area, perimeter, convex hull, bounding box) is measured by the vision
 * library and enters here as given numbers.
 */
module Detection {
  import opened Optional
  import opened Counting

  type Pos = n: int | n > 0 witness 1

  /** An axis-aligned bounding box; the box of a non-empty contour is at least one pixel each way. */
  datatype Box = Box(x: int, y: int, width: Pos, height: Pos)

  /** What the filter is told about one contour: its area, closed perimeter, convex-hull area and box. */
  datatype Metrics = Metrics(area: real, perimeter: real, hullArea: real, box: Box)

  /** The tunable constants of one detection run. */
  datatype Profile = Profile(
    blockSize: int,
    bias: real,
    minArea: real,
    maxArea: real,
    minCircularity: real,
    minSolidity: real,
    openIterations: nat,
    closeIterations: nat,
    thickness: nat,
    minAspect: real,
    maxAspect: real)

  /** The outcome of filtering one contour: accepted, or the first predicate it failed. */
  datatype Verdict =
    | Accepted
    | RejectedByArea
    | RejectedByCircularity
    | RejectedBySolidity
    | RejectedByAspect

  /** The range of Java's `int`, in which the block size is held. */
  predicate IsInt32(n: int)
  {
    -0x8000_0000 <= n < 0x8000_0000
  }

  /** A block size the adaptive threshold accepts: odd and at least 3. */
  predicate ValidBlockSize(n: int)
  {
    n % 2 == 1 && n >= 3
  }

  /**
   * Bump an even block size by one, then raise anything below 3 to 3. Java's truncating `%`
   * and Dafny's Euclidean `%` agree on whether a remainder by 2 is zero, so the test is
   * written directly. The result is the least valid block size not below the input, and
   * the increment never leaves the `int` range because the largest `int` is odd.
   */
  function CoerceBlockSize(b: int): (r: int)
    requires IsInt32(b)
    ensures ValidBlockSize(r) && IsInt32(r)
    ensures r >= b
    ensures r == 3 || r - 2 < b
    ensures ValidBlockSize(b) ==> r == b
  {
    var bumped := if b % 2 == 0 then b + 1 else b;
    if bumped < 3 then 3 else bumped
  }

  /** Coercing twice is coercing once. */
  lemma CoercionIdempotent(b: int)
    requires IsInt32(b)
    ensures CoerceBlockSize(CoerceBlockSize(b)) == CoerceBlockSize(b)
  {
  }

  const DefaultId: string := "default"

  /** The identifier handed over by the previous screen; absent or empty becomes "default". */
  function NormalizeId(extra: Option<string>): (id: string)
    ensures id != ""
    ensures extra.Some? && extra.value != "" ==> id == extra.value
    ensures extra.None? || extra.value == "" ==> id == DefaultId
  {
    if extra.Some? && extra.value != "" then extra.value else DefaultId
  }

  /** Math.PI, as the exact decimal it is printed as; the proofs only rely on it being positive. */
  const Pi: real := 3.141592653589793

  lemma QuotientNonNegative(a: real, d: real)
    ensures d > 0.0 && a >= 0.0 ==> a / d >= 0.0
  {
  }

  /** 4π·area/perimeter², with a zero perimeter giving 0 instead of a division. */
  function Circularity(area: real, perimeter: real): (c: real)
    ensures perimeter == 0.0 ==> c == 0.0
    ensures perimeter != 0.0 ==> c * (perimeter * perimeter) == 4.0 * Pi * area
  {
    if perimeter == 0.0 then 0.0
    else
      assert perimeter * perimeter > 0.0;
      4.0 * Pi * area / (perimeter * perimeter)
  }

  /** area/hullArea, with a zero hull area giving 0 instead of a division. */
  function Solidity(area: real, hullArea: real): (s: real)
    ensures hullArea == 0.0 ==> s == 0.0
    ensures hullArea != 0.0 ==> s * hullArea == area
    ensures area >= 0.0 && hullArea >= 0.0 ==> s >= 0.0
  {
    if hullArea == 0.0 then 0.0
    else
      QuotientNonNegative(area, hullArea);
      area / hullArea
  }

  /** Bounding-box width over height, as a double division of the two integers. */
  function AspectRatio(b: Box): (r: real)
    ensures r > 0.0
    ensures r * (b.height as real) == b.width as real
  {
    (b.width as real) / (b.height as real)
  }

  lemma ScaleStrict(a: real, b: real, h: real)
    requires a > b && h > 0.0
    ensures a * h > b * h
  {
  }

  /** A ratio r with r·h = w, for a w ten times smaller than h, is at most 0.1. */
  lemma TallRatio(w: real, h: real, r: real)
    requires 0.0 < 10.0 * w <= h
    requires r * h == w
    ensures r <= 0.1
  {
    if r > 0.1 {
      ScaleStrict(r, 0.1, h);
    }
  }

  /** A ratio r with r·h = w, for a w ten times larger than h, is at least 10. */
  lemma WideRatio(w: real, h: real, r: real)
    requires 0.0 < h && 10.0 * h <= w
    requires r * h == w
    ensures r >= 10.0
  {
    if r < 10.0 {
      ScaleStrict(10.0, r, h);
    }
  }

  /** A box ten times taller than wide has aspect ratio at most 0.1, and the other way round at least 10. */
  lemma StripAspect(b: Box)
    ensures 10 * b.width <= b.height ==> AspectRatio(b) <= 0.1
    ensures 10 * b.height <= b.width ==> AspectRatio(b) >= 10.0
  {
    var r := AspectRatio(b);
    var w := b.width as real;
    var h := b.height as real;
    assert r * h == w;
    if 10 * b.width <= b.height {
      TallRatio(w, h, r);
    }
    if 10 * b.height <= b.width {
      WideRatio(w, h, r);
    }
  }

  /**
   * A profile whose aspect range lies strictly inside (0.1, 10) rejects any box ten times
   * longer one way than the other, such as a 2×40 strip.
   */
  lemma StripRejected(p: Profile, m: Metrics)
    requires 0.1 < p.minAspect && p.maxAspect < 10.0
    requires 10 * m.box.width <= m.box.height || 10 * m.box.height <= m.box.width
    ensures !AspectOk(p, m)
  {
    StripAspect(m.box);
  }

  predicate AreaOk(p: Profile, m: Metrics)
  {
    p.minArea <= m.area <= p.maxArea
  }

  predicate CircularityOk(p: Profile, m: Metrics)
  {
    Circularity(m.area, m.perimeter) >= p.minCircularity
  }

  predicate SolidityOk(p: Profile, m: Metrics)
  {
    Solidity(m.area, m.hullArea) >= p.minSolidity
  }

  predicate AspectOk(p: Profile, m: Metrics)
  {
    p.minAspect <= AspectRatio(m.box) <= p.maxAspect
  }

  /** A contour is a spore when it passes all four cutoffs. */
  predicate Accept(p: Profile, m: Metrics)
  {
    AreaOk(p, m) && CircularityOk(p, m) && SolidityOk(p, m) && AspectOk(p, m)
  }

  /**
   * The filter as the contour loop runs it: the cutoffs are tried in the order area,
   * circularity, solidity, aspect ratio and the first one that fails is the reason reported.
   */
  function Classify(p: Profile, m: Metrics): (v: Verdict)
    ensures v == Accepted <==> Accept(p, m)
    ensures v == RejectedByArea <==> !AreaOk(p, m)
    ensures v == RejectedByCircularity <==> AreaOk(p, m) && !CircularityOk(p, m)
    ensures v == RejectedBySolidity <==> AreaOk(p, m) && CircularityOk(p, m) && !SolidityOk(p, m)
    ensures v == RejectedByAspect <==>
              AreaOk(p, m) && CircularityOk(p, m) && SolidityOk(p, m) && !AspectOk(p, m)
  {
    if m.area < p.minArea || m.area > p.maxArea then RejectedByArea
    else if Circularity(m.area, m.perimeter) < p.minCircularity then RejectedByCircularity
    else if Solidity(m.area, m.hullArea) < p.minSolidity then RejectedBySolidity
    else if AspectRatio(m.box) < p.minAspect || AspectRatio(m.box) > p.maxAspect then RejectedByAspect
    else Accepted
  }

  /** The constraints every profile of both tables meets. */
  predicate WellFormed(p: Profile)
  {
    && IsInt32(p.blockSize)
    && ValidBlockSize(p.blockSize)
    && 0.0 <= p.minArea <= p.maxArea
    && 0.0 < p.minCircularity
    && 0.0 < p.minSolidity
    && 0.0 < p.minAspect <= p.maxAspect
  }

  /**
   * A usable profile table: the default and every entry are well formed, no entry equals the
   * default, and "default" itself is not a listed name.
   */
  predicate TableOk(table: map<string, Profile>, default: Profile)
  {
    && WellFormed(default)
    && DefaultId !in table
    && forall id :: id in table ==> WellFormed(table[id]) && table[id] != default
  }

  /** The profile switch: a listed name selects its entry, anything else the default. */
  function SelectProfile(table: map<string, Profile>, default: Profile, id: string): (p: Profile)
    requires TableOk(table, default)
    ensures WellFormed(p)
    ensures p == default <==> id !in table
  {
    if id in table then table[id] else default
  }

  /**
   * The parameters a run uses: normalise the identifier, select the profile, coerce its block
   * size. Every entry's block size is already valid, so the coercion changes nothing.
   */
  function ResolveProfile(table: map<string, Profile>, default: Profile, extra: Option<string>): (p: Profile)
    requires TableOk(table, default)
    ensures p == SelectProfile(table, default, NormalizeId(extra))
    ensures ValidBlockSize(p.blockSize)
  {
    var q := SelectProfile(table, default, NormalizeId(extra));
    q.(blockSize := CoerceBlockSize(q.blockSize))
  }

  /** An absent, empty or unlisted identifier runs with the default profile, as "default" does. */
  lemma UnknownIsDefault(table: map<string, Profile>, default: Profile, id: string)
    requires TableOk(table, default)
    requires id !in table
    ensures ResolveProfile(table, default, Some(id)) == default
    ensures ResolveProfile(table, default, None) == default
    ensures ResolveProfile(table, default, Some(DefaultId)) == default
  {
  }

  /**
   * A zero perimeter or a zero hull area forces the metric to 0, and every well-formed
   * profile demands more than 0, so such a contour is never a spore.
   */
  lemma DegenerateRejected(p: Profile, m: Metrics)
    requires WellFormed(p)
    requires m.perimeter == 0.0 || m.hullArea == 0.0
    ensures !Accept(p, m)
    ensures m.perimeter == 0.0 && AreaOk(p, m) ==> Classify(p, m) == RejectedByCircularity
  {
  }

  /** `q` is `p` with some minimums raised and some maximums lowered. */
  predicate Tighter(q: Profile, p: Profile)
  {
    && q.minArea >= p.minArea && q.maxArea <= p.maxArea
    && q.minCircularity >= p.minCircularity
    && q.minSolidity >= p.minSolidity
    && q.minAspect >= p.minAspect && q.maxAspect <= p.maxAspect
  }

  function Acceptor(p: Profile): Metrics -> bool
  {
    m => Accept(p, m)
  }

  /** The number of spores among the contours. */
  function Count(p: Profile, ms: seq<Metrics>): (n: nat)
    ensures n <= |ms|
  {
    CountIf(ms, Acceptor(p))
  }

  /** The count is the number of contours the filter accepts. */
  lemma CountIsAcceptedContours(p: Profile, ms: seq<Metrics>)
    ensures Count(p, ms) == |set k | 0 <= k < |ms| && Accept(p, ms[k])|
  {
    CountIfIsCardinality(ms, Acceptor(p));
    assert Witnesses(ms, Acceptor(p)) == set k | 0 <= k < |ms| && Accept(p, ms[k]);
  }

  /** Tightening any cutoff never turns a rejected contour into an accepted one. */
  lemma AcceptMonotone(q: Profile, p: Profile, m: Metrics)
    requires Tighter(q, p)
    ensures Accept(q, m) ==> Accept(p, m)
  {
  }

  /** Tightening any cutoff never increases the count on the same contours. */
  lemma {:induction false} CountMonotone(q: Profile, p: Profile, ms: seq<Metrics>)
    requires Tighter(q, p)
    ensures Count(q, ms) <= Count(p, ms)
  {
    CountIfMonotone(ms, Acceptor(q), Acceptor(p));
  }

  /** The contours that get drawn: the accepted ones and nothing else. */
  function Survivors(p: Profile, ms: seq<Metrics>): (r: seq<Metrics>)
    ensures |r| == Count(p, ms)
    ensures forall m :: m in r ==> m in ms && Accept(p, m)
    ensures forall k :: 0 <= k < |ms| && Accept(p, ms[k]) ==> ms[k] in r
  {
    if |ms| == 0 then []
    else
      var n := |ms| - 1;
      var prefix := Survivors(p, ms[..n]);
      assert forall k :: 0 <= k < n ==> ms[..n][k] == ms[k];
      if Accept(p, ms[n]) then prefix + [ms[n]] else prefix
  }

  /** Each accepted contour is drawn as often as it occurs, a rejected one never. */
  lemma {:induction false} SurvivorsMultiplicity(p: Profile, ms: seq<Metrics>)
    ensures forall m :: multiset(Survivors(p, ms))[m] == if Accept(p, m) then multiset(ms)[m] else 0
  {
    if |ms| > 0 {
      var n := |ms| - 1;
      SurvivorsMultiplicity(p, ms[..n]);
      assert ms == ms[..n] + [ms[n]];
      assert multiset(ms) == multiset(ms[..n]) + multiset{ms[n]};
    }
  }

  /** Filtering with a tighter profile after a looser one is filtering with the tighter one. */
  lemma {:induction false} SurvivorsNarrow(q: Profile, p: Profile, ms: seq<Metrics>)
    requires Tighter(q, p)
    ensures Survivors(q, Survivors(p, ms)) == Survivors(q, ms)
  {
    if |ms| > 0 {
      var n := |ms| - 1;
      var last := ms[n];
      SurvivorsNarrow(q, p, ms[..n]);
      var sp := Survivors(p, ms[..n]);
      if Accept(p, last) {
        assert (sp + [last])[..|sp|] == sp;
      }
    }
  }

  /**
   * The contour loop of the counting screens: classify every contour in order, count the
   * accepted ones.
   */
  method FilterContours(p: Profile, ms: seq<Metrics>) returns (count: nat, verdicts: seq<Verdict>)
    ensures |verdicts| == |ms|
    ensures forall k :: 0 <= k < |ms| ==> verdicts[k] == Classify(p, ms[k])
    ensures count == Count(p, ms)
    ensures count == |set k | 0 <= k < |ms| && verdicts[k] == Accepted|
  {
    count := 0;
    verdicts := [];
    var i := 0;
    while i < |ms|
      invariant 0 <= i <= |ms|
      invariant |verdicts| == i
      invariant forall k :: 0 <= k < i ==> verdicts[k] == Classify(p, ms[k])
      invariant count == Count(p, ms[..i])
    {
      var v := Classify(p, ms[i]);
      verdicts := verdicts + [v];
      if v == Accepted {
        count := count + 1;
      }
      assert ms[..i + 1][..i] == ms[..i];
      i := i + 1;
    }
    assert ms[..|ms|] == ms;
    CountIsAcceptedContours(p, ms);
    assert (set k | 0 <= k < |ms| && verdicts[k] == Accepted) == (set k | 0 <= k < |ms| && Accept(p, ms[k]));
  }
}
