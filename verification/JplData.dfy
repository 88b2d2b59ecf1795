/** What the numbers of a JPL record mean (eph/sweph/src/swejpl.c): the block of a body is written out from its
    coefficients, by sub-interval, component and degree, and the states are compared with the series over these. */
module JplData {
  import opened Chebyshev
  import opened Division
  import opened JplFile

  // ------------------------------------------------------------------ the block of a body

  function Joined(rows: seq<seq<real>>): seq<real> {
    if rows == [] then [] else rows[0] + Joined(rows[1..])
  }

  /** The numbers of a block: for each sub-interval, for each component, the coefficients from degree 0 on */
  function BlockNumbers(data: seq<seq<seq<real>>>): seq<real> {
    if data == [] then [] else Joined(data[0]) + BlockNumbers(data[1..])
  }

  predicate Regular(data: seq<seq<seq<real>>>, ncm: int, ncf: int) {
    forall n | 0 <= n < |data| ::
      |data[n]| == ncm && forall i | 0 <= i < ncm :: |data[n][i]| == ncf
  }

  lemma {:induction false} JoinedAt(rows: seq<seq<real>>, ncf: nat, i: nat)
    requires (forall j | 0 <= j < |rows| :: |rows[j]| == ncf) && i < |rows|
    ensures |Joined(rows)| == |rows| * ncf
    ensures 0 <= i * ncf <= i * ncf + ncf <= |rows| * ncf && Joined(rows)[i * ncf..i * ncf + ncf] == rows[i]
    decreases |rows|
  {
    var rest := rows[1..];
    OneLess(|rows|, ncf);
    OneLess(i, ncf);
    if rest == [] {
      assert Joined(rows) == rows[0];
    } else {
      JoinedAt(rest, ncf, if i == 0 then 0 else i - 1);
      if i > 0 {
        Behind(rows[0], Joined(rest), (i - 1) * ncf, ncf);
      }
    }
  }

  lemma OneLess(k: int, n: int)
    ensures k * n == (k - 1) * n + n
  {}

  lemma Behind(head: seq<real>, tail: seq<real>, at: int, len: int)
    requires 0 <= at <= at + len <= |tail|
    ensures (head + tail)[|head| + at..|head| + at + len] == tail[at..at + len]
  {}

  lemma {:induction false} NumbersAt(data: seq<seq<seq<real>>>, ncm: nat, ncf: nat, n: nat, i: nat)
    requires Regular(data, ncm, ncf) && n < |data| && i < ncm
    ensures |BlockNumbers(data)| == |data| * ncm * ncf
    ensures 0 <= (i + n * ncm) * ncf <= (i + n * ncm) * ncf + ncf <= |BlockNumbers(data)|
    ensures BlockNumbers(data)[(i + n * ncm) * ncf..(i + n * ncm) * ncf + ncf] == data[n][i]
    decreases |data|
  {
    var rest := data[1..];
    JoinedAt(data[0], ncf, if n == 0 then i else 0);
    Regrouped(|data|, ncm, ncf, n, i);
    if rest == [] {
      assert BlockNumbers(data) == Joined(data[0]);
    } else {
      NumbersAt(rest, ncm, ncf, if n == 0 then 0 else n - 1, i);
      if n > 0 {
        Behind(Joined(data[0]), BlockNumbers(rest), (i + (n - 1) * ncm) * ncf, ncf);
      }
    }
  }

  lemma Regrouped(len: int, ncm: int, ncf: int, n: int, i: int)
    ensures len * ncm * ncf == ncm * ncf + (len - 1) * ncm * ncf
    ensures (i + n * ncm) * ncf == ncm * ncf + (i + (n - 1) * ncm) * ncf
  {
    OneLess(len, ncm);
    OneLess(n, ncm);
  }

  // ------------------------------------------------------------------ what is computed from it

  /** The record has these coefficients in this block. */
  predicate HasBlock(rec: seq<real>, b: Block, ncm: int, data: seq<seq<seq<real>>>) {
    0 <= b.start <= |rec| && b.na == |data| && Regular(data, ncm, b.ncf) && BlockNumbers(data) <= rec[b.start..]
  }

  lemma RowIsData(rec: seq<real>, b: Block, ncm: int, t: real, i: int, data: seq<seq<seq<real>>>)
    requires Fits(b, ncm, |rec|) && HasBlock(rec, b, ncm, data) && 0.0 <= t <= 1.0 && 0 <= i < ncm
    ensures 0 <= SubInterval(b.na, t).0 < |data|
    ensures Row(rec, b, ncm, t, i) == data[SubInterval(b.na, t).0][i]
  {
    hide SubInterval, Regular, BlockNumbers;
    SubIntervalFits(b.na, t);
    var ni := SubInterval(b.na, t).0;
    RowFits(b, ncm, ni, i, |rec|);
    NumbersAt(data, ncm, b.ncf, ni, i);
    PrefixSlice(BlockNumbers(data), rec, b.start, (i + ni * ncm) * b.ncf, b.ncf);
  }

  lemma PrefixSlice(p: seq<real>, s: seq<real>, start: int, at: int, len: int)
    requires 0 <= start <= |s| && p <= s[start..] && 0 <= at <= at + len <= |p|
    ensures s[start + at..start + at + len] == p[at..at + len]
  {
    assert p == s[start..][..|p|];
  }

  /** Component i is the series of its own coefficients in the sub-interval that the time falls into, at the place it
      has there, and its velocity the derivative of that series over time. */
  lemma ComponentsFromData(rec: seq<real>, b: Block, ncm: int, t: real, intv: real, data: seq<seq<seq<real>>>)
    returns (ni: int, tc: real)
    requires Fits(b, ncm, |rec|) && HasBlock(rec, b, ncm, data) && 0.0 <= t <= 1.0 && intv != 0.0 && ncm >= 1
    ensures 0 <= ni < |data| && |data[ni]| == ncm && -1.0 <= tc <= 1.0
    ensures (ni as real + (tc + 1.0) / 2.0) / |data| as real == t
    ensures forall i | 0 <= i < ncm :: Position(rec, b, ncm, t, i) == Series(data[ni][i], tc, 0)
    ensures forall i | 0 <= i < ncm ::
      Velocity(rec, b, ncm, t, intv, i) == DerivSeries(data[ni][i], tc, 0) * (2.0 * |data| as real / intv)
  {
    hide SubInterval, BlockNumbers, Series, DerivSeries, Row;
    SubIntervalFits(b.na, t);
    ni, tc := SubInterval(b.na, t).0, SubInterval(b.na, t).1;
    forall i | 0 <= i < ncm
      ensures Row(rec, b, ncm, t, i) == data[ni][i]
    {
      RowIsData(rec, b, ncm, t, i, data);
    }
  }

  /** The state of body i, from the header and the coefficients alone: in kilometres and seconds, or in astronomical
      units and days */
  lemma BodyFromData(h: Header, rec: seq<real>, et: real, i: int, data: seq<seq<seq<real>>>)
    returns (ni: int, tc: real)
    requires Readable(h, rec, et) && 0 <= i <= 10
    requires HasBlock(rec, Block(h.ipt[3 * i] - 1, h.ipt[3 * i + 1], h.ipt[3 * i + 2]), 3, data)
    ensures 0 <= ni < |data| && |data[ni]| == 3 && -1.0 <= tc <= 1.0
    ensures h.ss0 + (RecordNumber(h, et) - 2) as real * h.ss2 <= et
    ensures (et - h.ss0 - (RecordNumber(h, et) - 2) as real * h.ss2) / h.ss2
      == (ni as real + (tc + 1.0) / 2.0) / |data| as real
    ensures forall k | 0 <= k < 3 ::
      && BodyValue(h, rec, et, i, k) == InUnits(h, Series(data[ni][k], tc, 0))
      && BodyValue(h, rec, et, i, k + 3) == InUnits(h, PerTime(h, |data|, DerivSeries(data[ni][k], tc, 0)))
  {
    hide HasBlock, RecordNumber, RelTime, Position, Velocity, Series, DerivSeries, BodyValue, RecordStart, InUnits,
      PerTime;
    RecordCovers(h, et);
    StartIs(h, et);
    ni, tc := ComponentsFromData(rec, BlockOf(h, i), 3, RelTime(h, et), Interval(h), data);
    forall k | 0 <= k < 3
      ensures BodyValue(h, rec, et, i, k) == InUnits(h, Series(data[ni][k], tc, 0))
      ensures BodyValue(h, rec, et, i, k + 3) == InUnits(h, PerTime(h, |data|, DerivSeries(data[ni][k], tc, 0)))
    {
      BodyComponent(h, rec, et, i, k, |data|, Series(data[ni][k], tc, 0), DerivSeries(data[ni][k], tc, 0));
    }
  }

  /** Kilometres, or astronomical units */
  function InUnits(h: Header, x: real): real
    requires h.au != 0.0
  {
    if h.km then x else x / h.au
  }

  /** From Chebyshev time, 2 in a sub-interval, to seconds or days: there are n sub-intervals in ss2 days. */
  function PerTime(h: Header, n: int, d: real): real
    requires h.ss2 != 0.0
  {
    d * (2.0 * n as real / (if h.km then h.ss2 * 86400.0 else h.ss2))
  }

  lemma StartIs(h: Header, et: real)
    requires h.ss2 != 0.0
    ensures RecordStart(h, et) == h.ss0 + (RecordNumber(h, et) - 2) as real * h.ss2
  {}

  lemma BodyComponent(h: Header, rec: seq<real>, et: real, i: int, k: int, n: int, p: real, d: real)
    requires Readable(h, rec, et) && 0 <= i <= 10 && 0 <= k < 3 && 0.0 <= RelTime(h, et) <= 1.0 && Interval(h) != 0.0
    requires Position(rec, BlockOf(h, i), 3, RelTime(h, et), k) == p
    requires Velocity(rec, BlockOf(h, i), 3, RelTime(h, et), Interval(h), k) == d * (2.0 * n as real / Interval(h))
    ensures BodyValue(h, rec, et, i, k) == InUnits(h, p)
    ensures BodyValue(h, rec, et, i, k + 3) == InUnits(h, PerTime(h, n, d))
  {
    hide RelTime, Position, Velocity;
    RecordCovers(h, et);
  }

  /** The file has the Moon as seen from the Earth, and the barycentre of the two, which divides their distance in the
      ratio of their masses. */
  lemma EarthAndMoon(h: Header, rec: seq<real>, et: real, k: int)
    requires Readable(h, rec, et) && 0 <= k < 6
    ensures Barycentric(h, rec, et, 9, k) - Barycentric(h, rec, et, 2, k) == BodyValue(h, rec, et, 9, k)
    ensures h.emrat * Barycentric(h, rec, et, 2, k) + Barycentric(h, rec, et, 9, k)
      == (h.emrat + 1.0) * Barycentric(h, rec, et, 12, k)
    ensures Barycentric(h, rec, et, 12, k) == BodyValue(h, rec, et, 2, k) && Barycentric(h, rec, et, 11, k) == 0.0
    ensures forall body | body in {0, 1, 3, 4, 5, 6, 7, 8, 10} ::
      Barycentric(h, rec, et, body, k) == BodyValue(h, rec, et, body, k)
  {
    hide BodyValue;
    MassRatio(BodyValue(h, rec, et, 2, k), BodyValue(h, rec, et, 9, k), h.emrat);
  }

  /** Without the flag for barycentric states, planets are as seen from the Sun; the Moon is left as it is. */
  lemma Heliocentric(h: Header, rec: seq<real>, et: real, i: int, k: int)
    requires Readable(h, rec, et) && 0 <= i < 10 && 0 <= k < 6
    ensures PlanetValue(h, rec, et, i, k, true) == BodyValue(h, rec, et, i, k)
    ensures PlanetValue(h, rec, et, i, k, false) + (if i == 9 then 0.0 else BodyValue(h, rec, et, 10, k))
      == BodyValue(h, rec, et, i, k)
  {
    hide BodyValue;
  }

  lemma MassRatio(emb: real, moon: real, emrat: real)
    requires emrat + 1.0 != 0.0
    ensures emrat * EarthOf(emb, moon, emrat) + (EarthOf(emb, moon, emrat) + moon) == (emrat + 1.0) * emb
  {
    var q := moon / (emrat + 1.0);
    assert (emrat + 1.0) * q == moon;
    assert emrat * (emb - q) + (emb - q) + moon == (emrat + 1.0) * emb - (emrat + 1.0) * q + moon;
  }
}
