/** JPL ephemeris files (eph/sweph/src/swejpl.c): which record and sub-interval an epoch falls into,
    and what the coefficients found there mean. */
module JplFile {
  import opened Chebyshev
  import opened Division
  import opened Numbers

  datatype Status = OK | NotAvailable | BeyondLimits

  /** Where the coefficients of a body start in a record, how many there are per component, and the number of
      sub-intervals: three consecutive entries of eh_ipt, the first one less 1 */
  datatype Block = Block(start: int, ncf: int, na: int)

  datatype Header = Header(ss0: real, ss1: real, ss2: real, ipt: seq<int>,
                           au: real, emrat: real, ncoeffs: int, km: bool)

  const EARTH := 2
  const MOON := 9
  const SUN := 10
  const SBARY := 11
  const EMB := 12
  const NUT := 13
  const LIB := 14

  function BlockOf(h: Header, i: int): Block
    requires 0 <= i <= 12 && |h.ipt| == 39
  {
    Block(h.ipt[3 * i] - 1, h.ipt[3 * i + 1], h.ipt[3 * i + 2])
  }

  function Components(i: int): int { if i == 11 then 2 else 3 }

  predicate Fits(b: Block, ncm: int, len: int) {
    0 <= b.start && 1 <= b.ncf <= 18 && 1 <= b.na && b.start + b.na * ncm * b.ncf <= len
  }

  predicate Whole(x: real) { x == x.Floor as real }

  /** Records cover whole days, start at midnight, and fill the span of the file. */
  predicate GoodSpan(h: Header) {
    Whole(h.ss0 - 0.5) && Whole(h.ss2) && h.ss2 >= 1.0 && Whole((h.ss1 - h.ss0) / h.ss2) && h.ss1 > h.ss0
  }

  predicate GoodHeader(h: Header) {
    && |h.ipt| == 39
    && 0 <= h.ncoeffs <= 1500
    && h.au != 0.0 && h.emrat + 1.0 != 0.0 && GoodSpan(h)
    && (forall i | 0 <= i <= 10 :: Fits(BlockOf(h, i), 3, h.ncoeffs))
    && (BlockOf(h, 11).ncf > 0 ==> Fits(BlockOf(h, 11), 2, h.ncoeffs))
    && (BlockOf(h, 12).ncf > 0 ==> Fits(BlockOf(h, 12), 3, h.ncoeffs))
  }

  // ------------------------------------------------------------------ sub-interval and time in it

  /** interp: the sub-interval and the Chebyshev time inside it */
  function SubInterval(na: int, t: real): (int, real) {
    var dt1 := Trunc(t) as real;
    var temp := Scaled(t, na as real);
    (Trunc(temp - dt1), (temp - Trunc(temp) as real + dt1) * 2.0 - 1.0)
  }

  lemma PartOf(na: int, t: real)
    requires na >= 1 && 0.0 <= t <= 1.0
    ensures 0.0 <= Scaled(t, na as real) <= na as real
    ensures t == 1.0 <==> Scaled(t, na as real) == na as real
    ensures Scaled(t, na as real) / na as real == t
  {
    var a := na as real;
    assert t * a + (1.0 - t) * a == a;
    RealQuotient(t * a, a, t);
  }

  /** Any time in the record, its two ends included, falls into one of the sub-intervals at its own place. */
  lemma SubIntervalFits(na: int, t: real)
    requires na >= 1 && 0.0 <= t <= 1.0
    ensures var (ni, tc) := SubInterval(na, t);
      && 0 <= ni < na && -1.0 <= tc <= 1.0
      && (ni as real + (tc + 1.0) / 2.0) / na as real == t
  {
    hide Trunc, Scaled;
    PartOf(na, t);
    PlaceOf(na, Scaled(t, na as real), t);
    var (ni, tc) := SubInterval(na, t);
    assert ni as real + (tc + 1.0) / 2.0 == Scaled(t, na as real);
  }

  lemma PlaceOf(na: int, temp: real, t: real)
    requires na >= 1 && 0.0 <= t <= 1.0 && 0.0 <= temp <= na as real && (t == 1.0 <==> temp == na as real)
    ensures var dt1 := Trunc(t) as real;
      var ni, tc := Trunc(temp - dt1), (temp - Trunc(temp) as real + dt1) * 2.0 - 1.0;
      0 <= ni < na && -1.0 <= tc <= 1.0 && ni as real + (tc + 1.0) / 2.0 == temp
  {
    if t == 1.0 {
      FloorOfWhole(na);
      FloorOfWhole(1);
      FloorOfWhole(na - 1);
    } else {
      assert Trunc(t) == 0;
    }
  }

  // ------------------------------------------------------------------ what interp computes

  function RowAt(b: Block, ncm: int, ni: int, i: int): int { b.start + (i + ni * ncm) * b.ncf }

  lemma RowFits(b: Block, ncm: int, ni: int, i: int, len: int)
    requires Fits(b, ncm, len) && 0 <= i < ncm && 0 <= ni < b.na
    ensures 0 <= RowAt(b, ncm, ni, i) <= RowAt(b, ncm, ni, i) + b.ncf <= len
  {
    var row, rows := i + ni * ncm, b.na * ncm;
    MulMonotone(0, ni, ncm);
    MulMonotone(ni + 1, b.na, ncm);
    assert (ni + 1) * ncm == ni * ncm + ncm;
    RowInBlock(row, rows, b.ncf);
  }

  lemma RowInBlock(row: int, rows: int, ncf: int)
    requires 0 <= row < rows && 0 <= ncf
    ensures 0 <= row * ncf <= row * ncf + ncf <= rows * ncf
  {
    MulMonotone(0, row, ncf);
    MulMonotone(row + 1, rows, ncf);
    assert (row + 1) * ncf == row * ncf + ncf;
  }

  function Row(rec: seq<real>, b: Block, ncm: int, t: real, i: int): (c: seq<real>)
    requires Fits(b, ncm, |rec|) && 0.0 <= t <= 1.0 && 0 <= i < ncm
    ensures |c| == b.ncf
  {
    SubIntervalFits(b.na, t);
    var ni := SubInterval(b.na, t).0;
    RowFits(b, ncm, ni, i, |rec|);
    rec[RowAt(b, ncm, ni, i)..RowAt(b, ncm, ni, i) + b.ncf]
  }

  /** Component i: the Chebyshev series of its coefficients */
  function Position(rec: seq<real>, b: Block, ncm: int, t: real, i: int): real
    requires Fits(b, ncm, |rec|) && 0.0 <= t <= 1.0 && 0 <= i < ncm
  {
    Series(Row(rec, b, ncm, t, i), SubInterval(b.na, t).1, 0)
  }

  /** Velocity i: the derivative of that series, scaled from Chebyshev time to the time unit of `intv` */
  function Velocity(rec: seq<real>, b: Block, ncm: int, t: real, intv: real, i: int): real
    requires Fits(b, ncm, |rec|) && 0.0 <= t <= 1.0 && 0 <= i < ncm && intv != 0.0
  {
    DerivSeries(Row(rec, b, ncm, t, i), SubInterval(b.na, t).1, 0) * Rate(b, intv)
  }

  function Rate(b: Block, intv: real): real
    requires intv != 0.0
  {
    (b.na + b.na) as real / intv
  }

  // ------------------------------------------------------------------ which record

  function Segments(h: Header): int
    requires h.ss2 != 0.0
  {
    ((h.ss1 - h.ss0) / h.ss2).Floor
  }

  predicate InSpan(h: Header, et: real) { h.ss0 <= et <= h.ss1 }

  function Midnight(et: real): real { (et - 0.5).Floor as real + 0.5 }

  /** state: record number; records 0 and 1 hold the header and the constants */
  function RecordNumber(h: Header, et: real): int
    requires h.ss2 != 0.0
  {
    var nr := Trunc((Midnight(et) - h.ss0) / h.ss2) + 2;
    if Midnight(et) == h.ss1 then nr - 1 else nr
  }

  /** state: time relative to the record */
  function RelTime(h: Header, et: real): real
    requires h.ss2 != 0.0
  {
    var fr := et - 0.5 - (et - 0.5).Floor as real;
    (Midnight(et) - ((RecordNumber(h, et) - 2) as real * h.ss2 + h.ss0) + fr) / h.ss2
  }

  lemma SpanInDays(h: Header)
    requires GoodSpan(h)
    ensures Segments(h) >= 1 && h.ss2.Floor >= 1 && h.ss2 == h.ss2.Floor as real
    ensures (Segments(h) * h.ss2.Floor) as real == h.ss1 - h.ss0
  {
    var n, d := Segments(h), h.ss2.Floor;
    RealOfProduct(n, d);
    assert n as real * h.ss2 == h.ss1 - h.ss0;
    RealMultiples(h.ss2, n as real);
  }

  /** Days from the start of the file to the midnight before the epoch */
  function DaysIn(h: Header, et: real): int { (Midnight(et) - h.ss0).Floor }

  lemma DaysInSpan(h: Header, et: real)
    requires GoodSpan(h) && InSpan(h, et)
    ensures 0 <= DaysIn(h, et) <= Segments(h) * h.ss2.Floor
    ensures DaysIn(h, et) as real == Midnight(et) - h.ss0
    ensures Midnight(et) <= et < Midnight(et) + 1.0
    ensures Midnight(et) == h.ss1 ==> et == h.ss1
  {
    SpanInDays(h);
    MidnightBetween((h.ss0 - 0.5).Floor, Segments(h) * h.ss2.Floor, h.ss0, h.ss1, et);
  }

  lemma MidnightBetween(first: int, days: int, ss0: real, ss1: real, et: real)
    requires ss0 == first as real + 0.5 && ss1 == ss0 + days as real && ss0 <= et <= ss1
    ensures Midnight(et) - ss0 == ((Midnight(et) - ss0).Floor) as real
    ensures 0 <= (Midnight(et) - ss0).Floor <= days
    ensures Midnight(et) <= et < Midnight(et) + 1.0
  {
    var m := (et - 0.5).Floor;
    FloorBetween(et - 0.5, first, first + days);
    assert Midnight(et) - ss0 == (m - first) as real;
    FloorOfWhole(m - first);
  }

  lemma RecordNumberInDays(h: Header, et: real)
    requires GoodSpan(h) && InSpan(h, et)
    ensures var p, d, n := DaysIn(h, et), h.ss2.Floor, Segments(h);
      RecordNumber(h, et) - 2 == if p == n * d then n - 1 else p / d
  {
    var p, d, n := DaysIn(h, et), h.ss2.Floor, Segments(h);
    SpanInDays(h);
    DaysInSpan(h, et);
    hide Segments, GoodSpan, Midnight, DaysIn;
    FloorRatio(p, d);
    WholeParts(p, d, n);
  }

  function RecordStart(h: Header, et: real): real
    requires h.ss2 != 0.0
  {
    h.ss0 + (RecordNumber(h, et) - 2) as real * h.ss2
  }

  lemma RelTimeFromStart(h: Header, et: real)
    requires h.ss2 != 0.0
    ensures RelTime(h, et) == (et - RecordStart(h, et)) / h.ss2
  {
    hide RecordNumber;
  }

  lemma RecordBounds(h: Header, et: real)
    requires GoodSpan(h) && InSpan(h, et)
    ensures 2 <= RecordNumber(h, et) < 2 + Segments(h)
    ensures RecordStart(h, et) <= et <= RecordStart(h, et) + h.ss2
  {
    var p, d, n, k := DaysIn(h, et), h.ss2.Floor, Segments(h), RecordNumber(h, et) - 2;
    SpanInDays(h);
    DaysInSpan(h, et);
    RecordNumberInDays(h, et);
    hide Segments, GoodSpan, RecordNumber, DaysIn;
    WholeParts(p, d, n);
    RealOfProduct(k, d);
    InRecord(p, d, n, k, et - h.ss0);
  }

  /** The chosen record is on the file, and the epoch lies in the time it covers, also at the very end. */
  lemma RecordCovers(h: Header, et: real)
    requires GoodSpan(h) && InSpan(h, et)
    ensures 2 <= RecordNumber(h, et) < 2 + Segments(h)
    ensures RecordStart(h, et) <= et <= RecordStart(h, et) + h.ss2
    ensures RelTime(h, et) == (et - RecordStart(h, et)) / h.ss2 && 0.0 <= RelTime(h, et) <= 1.0
  {
    hide RecordNumber, RecordStart, RelTime, Segments;
    RecordBounds(h, et);
    RelTimeFromStart(h, et);
    UpToOne(et - RecordStart(h, et), h.ss2);
  }

  lemma InRecord(p: int, d: int, n: int, k: int, x: real)
    requires d > 0 && 0 <= p <= n * d && p / d * d <= p < p / d * d + d
    requires k == if p == n * d then n - 1 else p / d
    requires p as real <= x < (p + 1) as real && (p == n * d ==> x == p as real)
    ensures (k * d) as real <= x <= (k * d) as real + d as real
  {
    if p == n * d {
      assert k * d == p - d;
    }
  }

  // ------------------------------------------------------------------ states of the bodies

  function Interval(h: Header): real { if h.km then h.ss2 * 86400.0 else h.ss2 }

  function AuFactor(h: Header): real
    requires h.au != 0.0
  {
    if h.km then 1.0 else 1.0 / h.au
  }

  predicate Readable(h: Header, rec: seq<real>, et: real) { GoodHeader(h) && |rec| == h.ncoeffs && InSpan(h, et) }

  /** Number k of the state (three coordinates, three velocities) that the record has for body i, in kilometres */
  function RawValue(h: Header, rec: seq<real>, et: real, i: int, k: int): real
    requires Readable(h, rec, et) && 0 <= i <= 10 && 0 <= k < 6
  {
    RecordCovers(h, et);
    var t := RelTime(h, et);
    if k < 3 then Position(rec, BlockOf(h, i), 3, t, k) else Velocity(rec, BlockOf(h, i), 3, t, Interval(h), k - 3)
  }

  function BodyValue(h: Header, rec: seq<real>, et: real, i: int, k: int): real
    requires Readable(h, rec, et) && 0 <= i <= 10 && 0 <= k < 6
  {
    Scaled(RawValue(h, rec, et, i, k), AuFactor(h))
  }

  function Scaled(x: real, factor: real): real { x * factor }

  /** What state writes for body i: barycentric, or heliocentric for the planets if `bary` is false */
  function PlanetValue(h: Header, rec: seq<real>, et: real, i: int, k: int, bary: bool): real
    requires Readable(h, rec, et) && 0 <= i < 10 && 0 <= k < 6
  {
    BodyValue(h, rec, et, i, k) - (if i < 9 && !bary then BodyValue(h, rec, et, SUN, k) else 0.0)
  }

  /** Barycentric state of a body 0 to 12. The file has the Earth-Moon barycentre and the geocentric Moon. */
  function Barycentric(h: Header, rec: seq<real>, et: real, body: int, k: int): real
    requires Readable(h, rec, et) && 0 <= body <= 12 && 0 <= k < 6
  {
    if body == SBARY then 0.0
    else if body == EMB then BodyValue(h, rec, et, EARTH, k)
    else if body == EARTH || body == MOON then
      var earth := EarthOf(BodyValue(h, rec, et, EARTH, k), BodyValue(h, rec, et, MOON, k), h.emrat);
      if body == EARTH then earth else earth + BodyValue(h, rec, et, MOON, k)
    else BodyValue(h, rec, et, body, k)
  }

  /** The record a file has for an epoch */
  predicate HasRecord(h: Header, file: map<int, seq<real>>, et: real) {
    && GoodHeader(h) && InSpan(h, et)
    && RecordNumber(h, et) in file && |file[RecordNumber(h, et)]| >= h.ncoeffs
  }

  /** Body `a` as seen from body `b`: a function of the file and the epoch alone */
  function Relative(h: Header, file: map<int, seq<real>>, et: real, a: int, b: int, k: int): real
    requires HasRecord(h, file, et) && 0 <= a <= 12 && 0 <= b <= 12 && 0 <= k < 6
  {
    var rec := file[RecordNumber(h, et)][..h.ncoeffs];
    Barycentric(h, rec, et, a, k) - Barycentric(h, rec, et, b, k)
  }

  lemma RelativeLaws(h: Header, file: map<int, seq<real>>, et: real, a: int, b: int, c: int, k: int)
    requires HasRecord(h, file, et) && 0 <= a <= 12 && 0 <= b <= 12 && 0 <= c <= 12 && 0 <= k < 6
    ensures Relative(h, file, et, a, b, k) == -Relative(h, file, et, b, a, k)
    ensures Relative(h, file, et, a, b, k) + Relative(h, file, et, b, c, k) == Relative(h, file, et, a, c, k)
  {
    hide Barycentric;
  }

  /** Earth from the Earth-Moon barycentre and the geocentric Moon */
  function EarthOf(emb: real, moon: real, emrat: real): real
    requires emrat + 1.0 != 0.0
  {
    emb - moon / (emrat + 1.0)
  }

  // ------------------------------------------------------------------ record size

  function BlockSize(ipt: seq<int>, i: int): int
    requires |ipt| == 39 && 0 <= i < 13
  {
    Components(i) * ipt[3 * i + 1] * ipt[3 * i + 2]
  }

  /** Blocks do not overlap: one that starts earlier ends before the other starts, and of several that start
      together the first is the longest (the others are absent from the file). */
  predicate InOrder(ipt: seq<int>)
    requires |ipt| == 39
  {
    forall i, j | 0 <= i < 13 && 0 <= j < 13 ::
      && (ipt[3 * i] < ipt[3 * j] ==> ipt[3 * i] + BlockSize(ipt, i) <= ipt[3 * j])
      && (ipt[3 * i] == ipt[3 * j] && i < j ==> BlockSize(ipt, j) <= BlockSize(ipt, i))
      && BlockSize(ipt, j) >= 0
  }

  /** Numbers in the record up to the end of block i */
  function End(ipt: seq<int>, i: int): int
    requires |ipt| == 39 && 0 <= i < 13
  {
    ipt[3 * i] - 1 + BlockSize(ipt, i)
  }

  /** Block i is the first of those that start last. */
  predicate StartsLast(ipt: seq<int>, i: int)
    requires |ipt| == 39
  {
    0 <= i < 13 && forall j | 0 <= j < 13 :: ipt[3 * j] <= ipt[3 * i] && (ipt[3 * j] == ipt[3 * i] ==> i <= j)
  }

  /** fsizer: twice the numbers in a record, found from the block that starts last */
  method RecordSize(ipt: seq<int>) returns (status: Status, ksize: int)
    requires |ipt| == 39 && exists i :: 0 <= i < 13 && ipt[3 * i] > 0
    ensures forall i | StartsLast(ipt, i) :: ksize == if 2 * End(ipt, i) == 1546 then 1652 else 2 * End(ipt, i)
    ensures InOrder(ipt) ==> forall i, j | StartsLast(ipt, i) && 0 <= j < 13 :: End(ipt, j) <= End(ipt, i)
    ensures exists i :: StartsLast(ipt, i)
    ensures status == OK <==> 1000 <= ksize <= 5000
  {
    var kmx, khi := 0, 0;
    for i := 0 to 13
      invariant 0 <= khi <= i && 0 <= kmx
      invariant khi == 0 ==> kmx == 0
      invariant khi > 0 ==> kmx == ipt[3 * (khi - 1)]
      invariant forall j | 0 <= j < i :: ipt[3 * j] <= kmx && (ipt[3 * j] == kmx && khi > 0 ==> khi - 1 <= j)
    {
      if ipt[i * 3] > kmx {
        kmx := ipt[i * 3];
        khi := i + 1;
      }
    }
    var nd := if khi == 12 then 2 else 3;
    ksize := (ipt[khi * 3 - 3] + nd * ipt[khi * 3 - 2] * ipt[khi * 3 - 1] - 1) * 2;
    assert ksize == 2 * End(ipt, khi - 1) && StartsLast(ipt, khi - 1);
    if ksize == 1546 {
      ksize := 1652;
    }
    status := if ksize < 1000 || ksize > 5000 then NotAvailable else OK;
  }
}
