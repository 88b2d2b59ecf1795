/** The reader of JPL ephemeris files (eph/sweph/src/swejpl.c): a Chebyshev evaluator that remembers polynomials
    between calls, a one-record buffer, and relative positions composed in a shared scratch array.

    A file is its header and a map from record number to the numbers in the record; a missing or short record
    stands for a read error. */
module JplReader {
  import opened Chebyshev
  import opened JplFile

  // ------------------------------------------------------------------ the evaluator

  class Reader {
    // statics: they outlive closing the file
    var np: int
    var nv: int
    var twot: real
    var nrl: int
    // the js structure
    var h: Header
    var file: map<int, seq<real>>
    var pc: array<real>
    var vc: array<real>
    var buf: array<real>
    var pv: array<real>
    var pvsun: array<real>

    ghost predicate Shape()
      reads this
    {
      && pc.Length == 18 && vc.Length == 18 && buf.Length == 1500 && pv.Length == 78 && pvsun.Length == 6
      && pc != vc && pc != buf && pc != pv && pc != pvsun && vc != buf && vc != pv && vc != pvsun
      && buf != pv && buf != pvsun && pv != pvsun
      && GoodHeader(h)
    }

    /** What the remembered polynomials are: those of the time in pc[1], as far as np and nv say,
        or of no time at all right after opening, when pc[1] is 2. */
    ghost predicate Memo()
      requires pc.Length == 18 && vc.Length == 18
      reads this, pc, vc
    {
      && pc[0] == 1.0 && vc[0] == 0.0 && vc[1] == 1.0
      && (pc[1] <= 1.0 ==>
            && 2 <= np <= 18 && 3 <= nv <= 18 && twot == 2.0 * pc[1]
            && (forall i | 0 <= i < np :: pc[i] == T(i, pc[1]))
            && (forall i | 3 <= i < nv :: vc[i] == DT(i, pc[1])))
    }

    ghost predicate Valid()
      reads this, pc, vc
    {
      Shape() && Memo()
    }

    method Allocate()
      requires GoodHeader(h)
      modifies this`pc, this`vc, this`buf, this`pv, this`pvsun
      ensures Shape() && fresh({pc, vc, buf, pv, pvsun})
    {
      hide GoodHeader;
      pc, vc := new real[18], new real[18];
      buf, pv, pvsun := new real[1500], new real[78], new real[6];
    }

    /** swi_open_jpl_file: a fresh structure, of which only four entries matter; the statics np, nv and twot
        keep their values. */
    method Open(header: Header, contents: map<int, seq<real>>)
      requires GoodHeader(header)
      modifies this`nrl, this`h, this`file, this`pc, this`vc, this`buf, this`pv, this`pvsun
      ensures Valid() && Synced() && h == header && file == contents
      ensures fresh({pc, vc, buf, pv, pvsun})
    {
      hide GoodHeader, T, DT;
      h, file, nrl := header, contents, 0;
      Allocate();
      pc[0], pc[1] := 1.0, 2.0;
      vc[0], vc[1] := 0.0, 1.0;
    }

    /** On runs without a read error the buffer holds the record it is marked with. */
    ghost predicate Synced()
      requires Shape()
      reads this, buf
    {
      nrl != 0 ==> nrl in file && |file[nrl]| >= h.ncoeffs && buf[..h.ncoeffs] == file[nrl][..h.ncoeffs]
    }

    /** A request for this time is answered from the file: the buffer is in step with it, or will be loaded. */
    ghost predicate Reliable(et: real)
      requires Shape()
      reads this, buf
    {
      Synced() || (InSpan(h, et) && nrl != RecordNumber(h, et))
    }

    /** interp: start over if the time has changed */
    method SetTime(tc: real)
      requires Valid() && -1.0 <= tc <= 1.0
      modifies this`np, this`nv, this`twot, pc
      ensures Valid() && pc[1] == tc
    {
      FirstPolynomials(tc);
      if tc != pc[1] {
        np, nv := 2, 3;
        pc[1] := tc;
        twot := tc + tc;
      }
    }

    /** interp: be sure that ncf polynomials have been evaluated */
    method ExtendPolynomials(ncf: int)
      requires Valid() && -1.0 <= pc[1] <= 1.0 && ncf <= 18
      modifies this`np, pc
      ensures Valid() && np >= ncf && pc[1] == old(pc[1])
    {
      hide T, DT, GoodHeader;
      if np < ncf {
        for i := np to ncf
          invariant pc[1] == old(pc[1]) && (forall j | 0 <= j < i :: pc[j] == T(j, pc[1]))
        {
          Recurrence(i, pc[1]);
          pc[i] := twot * pc[i - 1] - pc[i - 2];
        }
        np := ncf;
      }
    }

    /** interp: the same for their derivatives, which need the polynomials */
    method ExtendDerivatives(ncf: int)
      requires Valid() && -1.0 <= pc[1] <= 1.0 && ncf <= np
      modifies this`nv, vc
      ensures Valid() && (forall j | 0 <= j < ncf :: vc[j] == DT(j, pc[1]))
    {
      FirstPolynomials(pc[1]);
      hide T, DT, GoodHeader;
      vc[2] := twot + twot;
      if nv < ncf {
        FillDerivatives(ncf);
        nv := ncf;
      }
    }

    method FillDerivatives(ncf: int)
      requires pc.Length == 18 && vc.Length == 18 && pc != vc && 3 <= nv <= ncf <= 18 && twot == 2.0 * pc[1]
      requires forall j | 0 <= j < ncf :: pc[j] == T(j, pc[1])
      requires forall j | 0 <= j < nv :: vc[j] == DT(j, pc[1])
      modifies vc
      ensures forall j | 0 <= j < ncf :: vc[j] == DT(j, pc[1])
    {
      hide T, DT;
      for i := nv to ncf
        invariant forall j | 0 <= j < i :: vc[j] == DT(j, pc[1])
      {
        DerivRecurrence(i, pc[1]);
        vc[i] := twot * vc[i - 1] + pc[i - 1] + pc[i - 1] - vc[i - 2];
      }
    }

    /** interp: the loop that adds up one component of the position */
    method SumPositions(row: int, ncf: int, out: array<real>, k: int)
      requires Valid() && 0 <= ncf <= np && 0 <= row <= row + ncf <= buf.Length && -1.0 <= pc[1] <= 1.0
      requires out !in {pc, vc, buf} && 0 <= k < out.Length
      modifies out
      ensures out[k] == Series(buf[row..row + ncf], pc[1], 0)
      ensures forall m | 0 <= m < out.Length && m != k :: out[m] == old(out[m])
    {
      hide T, DT, GoodHeader;
      ghost var c := buf[row..row + ncf];
      out[k] := 0.0;
      var j := ncf - 1;
      while j >= 0
        invariant -1 <= j < ncf && out[k] == Series(c, pc[1], j + 1)
        invariant forall m | 0 <= m < out.Length && m != k :: out[m] == old(out[m])
      {
        assert c[j] == buf[row + j];
        out[k] := out[k] + pc[j] * buf[row + j];
        j := j - 1;
      }
    }

    /** interp: the loop that adds up one component of the velocity; it starts at T_1 */
    method SumVelocities(row: int, ncf: int, out: array<real>, k: int)
      requires Valid() && 1 <= ncf <= 18 && 0 <= row <= row + ncf <= buf.Length
      requires out !in {pc, vc, buf} && 0 <= k < out.Length
      requires forall j | 0 <= j < ncf :: vc[j] == DT(j, pc[1])
      modifies out
      ensures out[k] == DerivSeries(buf[row..row + ncf], pc[1], 0)
      ensures forall m | 0 <= m < out.Length && m != k :: out[m] == old(out[m])
    {
      hide T, DT, GoodHeader;
      ghost var c := buf[row..row + ncf];
      out[k] := 0.0;
      var j := ncf - 1;
      while j >= 1
        invariant 0 <= j < ncf && out[k] == DerivSeries(c, pc[1], j + 1)
        invariant forall m | 0 <= m < out.Length && m != k :: out[m] == old(out[m])
      {
        assert c[j] == buf[row + j];
        out[k] := out[k] + vc[j] * buf[row + j];
        j := j - 1;
      }
      assert DerivSeries(c, pc[1], 0) == DerivSeries(c, pc[1], 1) + DT(0, pc[1]) * c[0];
    }

    /** interp: the loop over the components of the position */
    method Positions(b: Block, t: real, ncm: int, out: array<real>, at: int)
      requires Valid() && 0.0 <= t <= 1.0 && Fits(b, ncm, buf.Length) && b.ncf <= np && pc[1] == SubInterval(b.na, t).1
      requires out !in {pc, vc, buf} && 0 <= at && at + ncm <= out.Length && ncm >= 1
      modifies out
      ensures forall i | 0 <= i < ncm :: out[at + i] == Position(buf[..], b, ncm, t, i)
      ensures forall m | 0 <= m < out.Length && !(at <= m < at + ncm) :: out[m] == old(out[m])
    {
      hide T, DT, GoodHeader, SubInterval, RowAt, Row, Memo, Series;
      SubIntervalFits(b.na, t);
      var ni := SubInterval(b.na, t).0;
      for i := 0 to ncm
        modifies out
        invariant forall m | 0 <= m < i :: out[at + m] == Position(buf[..], b, ncm, t, m)
        invariant forall m | 0 <= m < out.Length && !(at <= m < at + ncm) :: out[m] == old(out[m])
      {
        RowOfBuffer(b, ncm, t, i);
        SumPositions(RowAt(b, ncm, ni, i), b.ncf, out, at + i);
      }
    }

    /** interp: the loop over the components of the velocity */
    method Velocities(b: Block, t: real, intv: real, ncm: int, out: array<real>, at: int)
      requires Valid() && 0.0 <= t <= 1.0 && intv != 0.0 && Fits(b, ncm, buf.Length) && pc[1] == SubInterval(b.na, t).1
      requires forall j | 0 <= j < b.ncf :: vc[j] == DT(j, pc[1])
      requires out !in {pc, vc, buf} && 0 <= at && at + ncm <= out.Length && ncm >= 1
      modifies out
      ensures forall i | 0 <= i < ncm :: out[at + i] == Velocity(buf[..], b, ncm, t, intv, i)
      ensures forall m | 0 <= m < out.Length && !(at <= m < at + ncm) :: out[m] == old(out[m])
    {
      hide T, DT, GoodHeader, SubInterval, RowAt, Row, Memo, DerivSeries, Rate;
      var bma := Rate(b, intv);
      SubIntervalFits(b.na, t);
      var ni := SubInterval(b.na, t).0;
      for i := 0 to ncm
        modifies out
        invariant forall m | 0 <= m < i :: out[at + m] == Velocity(buf[..], b, ncm, t, intv, m)
        invariant forall m | 0 <= m < out.Length && !(at <= m < at + ncm) :: out[m] == old(out[m])
      {
        RowOfBuffer(b, ncm, t, i);
        SumVelocities(RowAt(b, ncm, ni, i), b.ncf, out, at + i);
        out[at + i] := out[at + i] * bma;
      }
    }

    /** interp, for positions (ifl up to 1) and velocities (ifl 2): whatever the tables were left as,
        the result is the series and its derivative. */
    method Interp(b: Block, t: real, intv: real, ncm: int, ifl: int, out: array<real>, at: int)
      requires Valid() && 0.0 <= t <= 1.0 && intv != 0.0 && ncm >= 1 && ifl <= 2 && Fits(b, ncm, buf.Length)
      requires out !in {pc, vc, buf} && 0 <= at && at + (if ifl == 2 then 2 * ncm else ncm) <= out.Length
      modifies this`np, this`nv, this`twot, pc, vc, out
      ensures Valid()
      ensures forall i | 0 <= i < ncm :: out[at + i] == Position(buf[..], b, ncm, t, i)
      ensures ifl == 2 ==> forall i | 0 <= i < ncm :: out[at + ncm + i] == Velocity(buf[..], b, ncm, t, intv, i)
      ensures forall m | 0 <= m < out.Length && !(at <= m < at + (if ifl == 2 then 2 * ncm else ncm)) ::
        out[m] == old(out[m])
    {
      hide T, DT, GoodHeader, SubInterval, Position, Velocity;
      SubIntervalFits(b.na, t);
      SetTime(SubInterval(b.na, t).1);
      ExtendPolynomials(b.ncf);
      Positions(b, t, ncm, out, at);
      if ifl <= 1 { return; }
      ExtendDerivatives(b.ncf);
      Velocities(b, t, intv, ncm, out, at + ncm);
    }

    lemma RowOfBuffer(b: Block, ncm: int, t: real, i: int)
      requires Fits(b, ncm, buf.Length) && 0.0 <= t <= 1.0 && 0 <= i < ncm && b.na >= 1
      ensures var ni := SubInterval(b.na, t).0;
        0 <= RowAt(b, ncm, ni, i) <= RowAt(b, ncm, ni, i) + b.ncf <= buf.Length &&
        Row(buf[..], b, ncm, t, i) == buf[RowAt(b, ncm, ni, i)..RowAt(b, ncm, ni, i) + b.ncf]
    {
      SubIntervalFits(b.na, t);
      RowFits(b, ncm, SubInterval(b.na, t).0, i, buf.Length);
    }

    // ---------------------------------------------------------------- the buffer

    ghost function Record(): seq<real>
      requires Shape()
      reads this, buf
    {
      buf[..h.ncoeffs]
    }

    /** state: read the record unless it is the one in the buffer. The mark `nrl` moves before the read succeeds. */
    method Load(nr: int) returns (ok: bool)
      requires Valid() && nr != 0
      modifies this`nrl, buf
      ensures Valid() && nrl == nr
      ensures old(nrl) == nr ==> ok && buf[..] == old(buf[..])
      ensures ok && old(Synced()) ==> Synced()
      ensures ok && old(nrl) != nr ==> Synced()
      ensures !ok ==> nr !in file || |file[nr]| < h.ncoeffs
    {
      assert 0 <= h.ncoeffs <= 1500;
      hide GoodHeader, T, DT;
      if nr == nrl { return true; }
      nrl := nr;
      if nr !in file { return false; }
      var k := 1;
      while k <= h.ncoeffs
        modifies buf
        invariant 1 <= k <= h.ncoeffs + 1 && k - 1 <= |file[nr]|
        invariant buf[..k - 1] == file[nr][..k - 1]
      {
        if k - 1 >= |file[nr]| { return false; }
        buf[k - 1] := file[nr][k - 1];
        k := k + 1;
      }
      return true;
    }

    // ---------------------------------------------------------------- states

    lemma BufferIsRecord(b: Block, ncm: int, t: real, i: int)
      requires Shape() && Fits(b, ncm, h.ncoeffs) && 0.0 <= t <= 1.0 && 0 <= i < ncm
      ensures Fits(b, ncm, buf.Length) && Row(buf[..], b, ncm, t, i) == Row(Record(), b, ncm, t, i)
    {
      assert h.ncoeffs <= 1500;
      hide SubInterval, RowAt, GoodHeader;
      SubIntervalFits(b.na, t);
      var ni := SubInterval(b.na, t).0;
      RowFits(b, ncm, ni, i, h.ncoeffs);
      assert buf[..h.ncoeffs][RowAt(b, ncm, ni, i)..RowAt(b, ncm, ni, i) + b.ncf]
        == buf[..][RowAt(b, ncm, ni, i)..RowAt(b, ncm, ni, i) + b.ncf];
    }

    lemma ValuesOfBuffer(b: Block, ncm: int, t: real, intv: real)
      requires Shape() && Fits(b, ncm, h.ncoeffs) && 0.0 <= t <= 1.0 && intv != 0.0
      ensures Fits(b, ncm, buf.Length)
      ensures forall i | 0 <= i < ncm :: Position(buf[..], b, ncm, t, i) == Position(Record(), b, ncm, t, i)
      ensures forall i | 0 <= i < ncm :: Velocity(buf[..], b, ncm, t, intv, i) == Velocity(Record(), b, ncm, t, intv, i)
    {
      assert h.ncoeffs <= 1500;
      hide Row, Series, DerivSeries, Rate, GoodHeader;
      forall i | 0 <= i < ncm { BufferIsRecord(b, ncm, t, i); }
    }

    lemma RawValueOfBuffer(et: real, i: int, k: int)
      requires Shape() && InSpan(h, et) && 0 <= i <= 10 && 0 <= k < 6
      ensures 0.0 <= RelTime(h, et) <= 1.0 && Interval(h) != 0.0 && Fits(BlockOf(h, i), 3, buf.Length)
      ensures var b, t := BlockOf(h, i), RelTime(h, et);
        RawValue(h, Record(), et, i, k) ==
          if k < 3 then Position(buf[..], b, 3, t, k) else Velocity(buf[..], b, 3, t, Interval(h), k - 3)
    {
      hide RelTime, Row, Series, DerivSeries, Rate;
      RecordCovers(h, et);
      BufferIsRecord(BlockOf(h, i), 3, RelTime(h, et), k % 3);
    }

    method InterpRaw(et: real, i: int, out: array<real>, at: int)
      requires Valid() && InSpan(h, et) && 0 <= i <= 10
      requires out !in {pc, vc, buf} && 0 <= at && at + 6 <= out.Length
      modifies this`np, this`nv, this`twot, pc, vc, out
      ensures Valid()
      ensures forall m | 0 <= m < out.Length ::
        out[m] == if at <= m < at + 6 then RawValue(h, Record(), et, i, m - at) else old(out[m])
    {
      RawValueOfBuffer(et, i, 0);
      var b, t, intv := BlockOf(h, i), RelTime(h, et), Interval(h);
      hide T, DT, GoodHeader, Memo, Position, Velocity, RelTime, Fits, InSpan, Interval, RawValue;
      Interp(b, t, intv, 3, 2, out, at);
      forall m | at <= m < at + 6
        ensures out[m] == RawValue(h, Record(), et, i, m - at)
      {
        RawValueOfBuffer(et, i, m - at);
        assert m - at < 3 ==> out[at + (m - at)] == Position(buf[..], b, 3, t, m - at);
        assert m - at >= 3 ==> out[at + 3 + (m - at - 3)] == Velocity(buf[..], b, 3, t, intv, m - at - 3);
      }
    }

    method Scale(out: array<real>, at: int, factor: real)
      requires 0 <= at && at + 6 <= out.Length
      modifies out
      ensures forall m | 0 <= m < out.Length ::
        out[m] == if at <= m < at + 6 then Scaled(old(out[m]), factor) else old(out[m])
    {
      for j := 0 to 6
        invariant forall m | 0 <= m < out.Length ::
          out[m] == if at <= m < at + j then Scaled(old(out[m]), factor) else old(out[m])
      {
        out[at + j] := out[at + j] * factor;
      }
    }

    /** state: interpolate body i with its velocity into `out` and convert to astronomical units */
    method InterpBody(et: real, i: int, out: array<real>, at: int)
      requires Valid() && InSpan(h, et) && 0 <= i <= 10
      requires out !in {pc, vc, buf} && 0 <= at && at + 6 <= out.Length
      modifies this`np, this`nv, this`twot, pc, vc, out
      ensures Valid()
      ensures forall m | 0 <= m < out.Length ::
        out[m] == if at <= m < at + 6 then BodyValue(h, Record(), et, i, m - at) else old(out[m])
    {
      var aufac := AuFactor(h);
      hide T, DT, GoodHeader, Memo, RawValue, AuFactor, Scaled;
      InterpRaw(et, i, out, at);
      Scale(out, at, aufac);
    }

    /** state: the loop over the ten bodies of the file */
    method InterpBodies(et: real, list: seq<int>, bary: bool)
      requires Valid() && InSpan(h, et) && |list| == 12 && (forall i | 0 <= i < 12 :: list[i] in {0, 2})
      requires forall k | 0 <= k < 6 :: pvsun[k] == BodyValue(h, Record(), et, SUN, k)
      modifies this`np, this`nv, this`twot, pc, vc, pv
      ensures Valid()
      ensures forall m | 0 <= m < 78 ::
        pv[m] == if m < 60 && list[m / 6] == 2 then PlanetValue(h, Record(), et, m / 6, m % 6, bary) else old(pv[m])
    {
      assert 0 <= h.ncoeffs <= 1500;
      hide T, DT, GoodHeader, Memo, BodyValue;
      for i := 0 to 10
        invariant Valid()
        invariant forall m | 0 <= m < 78 ::
          pv[m] == if m < 6 * i && list[m / 6] == 2 then PlanetValue(h, Record(), et, m / 6, m % 6, bary)
                   else old(pv[m])
      {
        if list[i] > 0 {
          InterpBody(et, i, pv, 6 * i);
          if i < 9 && !bary { SubtractSun(6 * i); }
        }
      }
    }

    method SubtractSun(at: int)
      requires Shape() && 0 <= at && at + 6 <= 78
      modifies pv
      ensures forall m | 0 <= m < 78 :: pv[m] == if at <= m < at + 6 then old(pv[m]) - pvsun[m - at] else old(pv[m])
    {
      hide GoodHeader;
      for j := 0 to 6
        invariant forall m | 0 <= m < 78 :: pv[m] == if at <= m < at + j then old(pv[m]) - pvsun[m - at] else old(pv[m])
      {
        pv[at + j] := pv[at + j] - pvsun[j];
      }
    }

    ghost predicate OnFile(i: int)
      requires Shape() && 0 <= i <= 12
      reads this
    {
      BlockOf(h, i).ncf > 0
    }

    /** Number m of the scratch array after the librations have been interpolated with flag `ifl` */
    ghost function Libration(et: real, m: int, ifl: int, before: real): real
      requires Shape() && InSpan(h, et) && 60 <= m < 66
      reads this, buf
    {
      RecordCovers(h, et);
      var b, t := BlockOf(h, 12), RelTime(h, et);
      if b.ncf <= 0 || (m >= 63 && ifl != 2) then before
      else if m < 63 then Position(Record(), b, 3, t, m - 60)
      else Velocity(Record(), b, 3, t, Interval(h), m - 63)
    }

    /** state: librations, if wanted and on the file; `ifl` is the entry for Venus, as in the source */
    method InterpLibrations(et: real, wanted: bool, ifl: int)
      requires Valid() && InSpan(h, et) && ifl in {0, 2}
      modifies this`np, this`nv, this`twot, pc, vc, pv
      ensures Valid()
      ensures forall m | 0 <= m < 78 ::
        pv[m] == if wanted && 60 <= m < 66 then Libration(et, m, ifl, old(pv[m])) else old(pv[m])
    {
      var b, t, intv := BlockOf(h, 12), RelTime(h, et), Interval(h);
      if wanted && b.ncf > 0 {
        RecordCovers(h, et);
        ValuesOfBuffer(b, 3, t, intv);
        hide T, DT, GoodHeader, Memo, Position, Velocity, RelTime, GoodSpan;
        Interp(b, t, intv, 3, ifl, pv, 60);
        forall m | 60 <= m < 66
          ensures pv[m] == Libration(et, m, ifl, old(pv[m]))
        {
          assert m < 63 ==> pv[60 + (m - 60)] == Position(buf[..], b, 3, t, m - 60);
          assert m >= 63 && ifl == 2 ==> pv[63 + (m - 63)] == Velocity(buf[..], b, 3, t, intv, m - 63);
        }
      }
    }

    /** state: nutations, if wanted and on the file */
    method InterpNutations(et: real, wanted: bool, nut: array<real>)
      requires Valid() && InSpan(h, et) && nut !in {pc, vc, buf} && nut.Length >= 4
      modifies this`np, this`nv, this`twot, pc, vc, nut
      ensures Valid()
      ensures forall m | 0 <= m < nut.Length ::
        nut[m] == if wanted && OnFile(11) && m < 4 then Nutation(et, m) else old(nut[m])
    {
      var b, t, intv := BlockOf(h, 11), RelTime(h, et), Interval(h);
      if wanted && b.ncf > 0 {
        RecordCovers(h, et);
        ValuesOfBuffer(b, 2, t, intv);
        hide T, DT, GoodHeader, Memo, Position, Velocity, RelTime, GoodSpan;
        Interp(b, t, intv, 2, 2, nut, 0);
        forall m | 0 <= m < 4
          ensures nut[m] == Nutation(et, m)
        {
          assert m < 2 ==> nut[0 + m] == Position(buf[..], b, 2, t, m);
          assert m >= 2 ==> nut[0 + 2 + (m - 2)] == Velocity(buf[..], b, 2, t, intv, m - 2);
        }
      }
    }

    ghost function Nutation(et: real, m: int): real
      requires Shape() && InSpan(h, et) && OnFile(11) && 0 <= m < 4
      reads this, buf
    {
      RecordCovers(h, et);
      var b, t := BlockOf(h, 11), RelTime(h, et);
      if m < 2 then Position(Record(), b, 2, t, m) else Velocity(Record(), b, 2, t, Interval(h), m - 2)
    }

    /** state: what it is asked for is computed from the record in the buffer, which is the right one unless
        a read failed; nothing else in the scratch array changes. */
    method State(et: real, list: seq<int>, bary: bool, nut: array<real>) returns (r: Status)
      requires Valid() && |list| == 12 && (forall i | 0 <= i < 12 :: list[i] in {0, 2})
      requires nut !in {pc, vc, buf, pv, pvsun} && nut.Length >= 4
      modifies this`np, this`nv, this`twot, this`nrl, pc, vc, buf, pv, pvsun, nut
      ensures Valid()
      ensures r == BeyondLimits <==> !InSpan(h, et)
      ensures r == BeyondLimits ==> nrl == old(nrl) && buf[..] == old(buf[..])
      ensures r != BeyondLimits ==> nrl == RecordNumber(h, et)
      ensures r != BeyondLimits && old(nrl) == RecordNumber(h, et) ==> r == OK && buf[..] == old(buf[..])
      ensures r == OK && old(Reliable(et)) ==> Synced()
      ensures r == BeyondLimits && old(Synced()) ==> Synced()
      ensures r == NotAvailable ==> !HasRecord(h, file, et)
      ensures r != OK ==> pv[..] == old(pv[..]) && nut[..] == old(nut[..])
      ensures r == OK ==> forall k | 0 <= k < 6 :: pvsun[k] == BodyValue(h, Record(), et, SUN, k)
      ensures r == OK ==> forall m | 0 <= m < 78 ::
        pv[m] == if m < 60 && list[m / 6] == 2 then PlanetValue(h, Record(), et, m / 6, m % 6, bary)
                 else if 60 <= m < 66 && list[11] == 2 then Libration(et, m, list[1], old(pv[m]))
                 else old(pv[m])
      ensures r == OK ==> forall m | 0 <= m < nut.Length ::
        nut[m] == if list[10] == 2 && OnFile(11) && m < 4 then Nutation(et, m) else old(nut[m])
    {
      assert 0 <= h.ncoeffs <= 1500;
      if et < h.ss0 || et > h.ss1 { return BeyondLimits; }
      RecordCovers(h, et);
      hide T, DT, GoodHeader, Memo, BodyValue, PlanetValue, Libration, Nutation, RecordNumber, GoodSpan;
      var ok := Load(RecordNumber(h, et));
      if !ok { return NotAvailable; }
      InterpBody(et, SUN, pvsun, 0);
      InterpBodies(et, list, bary);
      InterpNutations(et, list[10] > 0, nut);
      InterpLibrations(et, list[11] > 0, list[1]);
      return OK;
    }

    /** After a failed read the same request succeeds, on whatever the failed read has left in the buffer. */
    method RetryAfterReadError(et: real, list: seq<int>, bary: bool, nut: array<real>)
      returns (first: Status, second: Status)
      requires Valid() && |list| == 12 && (forall i | 0 <= i < 12 :: list[i] in {0, 2})
      requires nut !in {pc, vc, buf, pv, pvsun} && nut.Length >= 4
      modifies this`np, this`nv, this`twot, this`nrl, pc, vc, buf, pv, pvsun, nut
      ensures Valid()
      ensures first == NotAvailable ==> second == OK && nrl == RecordNumber(h, et)
    {
      hide T, DT, GoodHeader, Memo, Libration, Nutation, RecordNumber, BodyValue, PlanetValue, Synced;
      first := State(et, list, bary, nut);
      second := State(et, list, bary, nut);
    }

    // ---------------------------------------------------------------- relative positions

    predicate Slot(i: int) { 0 <= i <= 12 }

    method CopySlot(src: array<real>, at: int, i: int)
      requires pv.Length == 78 && Slot(i) && 0 <= at && at + 6 <= src.Length
      requires (src == pv ==> at + 6 <= 6 * i || 6 * i + 6 <= at)
      modifies pv
      ensures forall m | 0 <= m < 78 :: pv[m] == if m / 6 == i then old(src[at + m % 6]) else old(pv[m])
    {
      for j := 0 to 6
        invariant forall m | 0 <= m < 78 :: pv[m] == if 6 * i <= m < 6 * i + j then old(src[at + m % 6]) else old(pv[m])
      {
        pv[6 * i + j] := src[at + j];
      }
    }

    method ClearSlot(i: int)
      requires pv.Length == 78 && Slot(i)
      modifies pv
      ensures forall m | 0 <= m < 78 :: pv[m] == if m / 6 == i then 0.0 else old(pv[m])
    {
      for j := 0 to 6
        invariant forall m | 0 <= m < 78 :: pv[m] == if 6 * i <= m < 6 * i + j then 0.0 else old(pv[m])
      {
        pv[6 * i + j] := 0.0;
      }
    }

    /** Earth from the Earth-Moon barycentre */
    method EarthFromEmb()
      requires pv.Length == 78 && h.emrat + 1.0 != 0.0
      modifies pv
      ensures forall m | 0 <= m < 78 ::
        pv[m] == if m / 6 == EARTH then EarthOf(old(pv[m]), old(pv[m + 42]), h.emrat) else old(pv[m])
    {
      for j := 0 to 6
        invariant forall m | 0 <= m < 78 ::
          pv[m] == if 12 <= m < 12 + j then EarthOf(old(pv[m]), old(pv[m + 42]), h.emrat) else old(pv[m])
      {
        pv[6 * EARTH + j] := EarthOf(pv[6 * EARTH + j], pv[6 * MOON + j], h.emrat);
      }
    }

    /** Barycentric Moon from the geocentric one */
    method AddEarthToMoon()
      requires pv.Length == 78
      modifies pv
      ensures forall m | 0 <= m < 78 :: pv[m] == if m / 6 == MOON then old(pv[m]) + old(pv[m - 42]) else old(pv[m])
    {
      for j := 0 to 6
        invariant forall m | 0 <= m < 78 ::
          pv[m] == if 54 <= m < 54 + j then old(pv[m]) + old(pv[m - 42]) else old(pv[m])
      {
        pv[6 * MOON + j] := pv[6 * MOON + j] + pv[6 * EARTH + j];
      }
    }

    static function RequestFor(list: seq<int>, body: int): (l: seq<int>)
      requires |list| == 12 && 0 <= body <= 12
      ensures |l| == 12
    {
      var l1 := if body < SUN then list[body := 2] else list;
      var l2 := if body == MOON || body == EMB then l1[EARTH := 2] else l1;
      if body == EARTH then l2[MOON := 2] else l2
    }

    /** The steps of swi_pleph after state: the slots that are not on the file ... */
    method FillSlots(ntarg: int, ncent: int)
      requires pv.Length == 78 && pvsun.Length == 6 && pvsun != pv && h.emrat + 1.0 != 0.0
      requires 0 <= ntarg <= 12 && 0 <= ncent <= 12
      modifies pv
      ensures forall m | 0 <= m < 60 :: pv[m] == old(pv[m])
      ensures forall m | 60 <= m < 78 && (m / 6 == ntarg || m / 6 == ncent) ::
        pv[m] == Completed(old(pv[..]), old(pvsun[..]), h.emrat, m / 6, m % 6)
    {
      if ntarg == SUN || ncent == SUN { CopySlot(pvsun, 0, SUN); }
      if ntarg == SBARY || ncent == SBARY { ClearSlot(SBARY); }
      if ntarg == EMB || ncent == EMB { CopySlot(pv, 6 * EARTH, EMB); }
    }

    /** ... then Earth and Moon, unless only their difference is wanted ... */
    method SettleEarthAndMoon(ntarg: int, ncent: int, list: seq<int>)
      requires pv.Length == 78 && h.emrat + 1.0 != 0.0
      requires 0 <= ntarg <= 12 && 0 <= ncent <= 12 && ntarg != ncent
      requires |list| == 12 && list == RequestFor(RequestFor(seq(12, _ => 0), ntarg), ncent)
      modifies pv
      ensures forall m | 0 <= m < 78 && m / 6 != EARTH && m / 6 != MOON :: pv[m] == old(pv[m])
      ensures {ntarg, ncent} == {EARTH, MOON} ==>
        forall m | 0 <= m < 78 :: pv[m] == if m / 6 == EARTH then 0.0 else old(pv[m])
      ensures {ntarg, ncent} != {EARTH, MOON} && EARTH in {ntarg, ncent} ==>
        forall m | 12 <= m < 18 :: pv[m] == EarthOf(old(pv[m]), old(pv[m + 42]), h.emrat)
      ensures {ntarg, ncent} != {EARTH, MOON} && MOON in {ntarg, ncent} ==>
        forall m | 54 <= m < 60 :: pv[m] == EarthOf(old(pv[m - 42]), old(pv[m]), h.emrat) + old(pv[m])
    {
      hide EarthOf;
      if (ntarg == EARTH && ncent == MOON) || (ntarg == MOON && ncent == EARTH) {
        ClearSlot(EARTH);
      } else {
        if list[EARTH] == 2 { EarthFromEmb(); }
        if list[MOON] == 2 { AddEarthToMoon(); }
      }
    }

    /** ... so that the two slots differ as the barycentric states do. */
    method CompleteSlots(ntarg: int, ncent: int, list: seq<int>)
      requires pv.Length == 78 && pvsun.Length == 6 && pvsun != pv && h.emrat + 1.0 != 0.0
      requires 0 <= ntarg <= 12 && 0 <= ncent <= 12 && ntarg != ncent
      requires |list| == 12 && list == RequestFor(RequestFor(seq(12, _ => 0), ntarg), ncent)
      modifies pv
      ensures forall k | 0 <= k < 6 ::
        pv[6 * ntarg + k] - pv[6 * ncent + k] ==
        Completed(old(pv[..]), old(pvsun[..]), h.emrat, ntarg, k)
          - Completed(old(pv[..]), old(pvsun[..]), h.emrat, ncent, k)
    {
      hide EarthOf;
      FillSlots(ntarg, ncent);
      SettleEarthAndMoon(ntarg, ncent, list);
    }

    /** ... and subtract. */
    method Subtract(ntarg: int, ncent: int, rrd: array<real>)
      requires pv.Length == 78 && 0 <= ntarg <= 12 && 0 <= ncent <= 12 && rrd != pv && rrd.Length == 6
      modifies rrd
      ensures forall k | 0 <= k < 6 :: rrd[k] == pv[6 * ntarg + k] - pv[6 * ncent + k]
    {
      for j := 0 to 6
        invariant forall k | 0 <= k < j :: rrd[k] == pv[6 * ntarg + k] - pv[6 * ncent + k]
      {
        rrd[j] := pv[j + ntarg * 6] - pv[j + ncent * 6];
      }
    }

    /** The barycentric state that the scratch array and the Sun stand for */
    static function Completed(pv: seq<real>, sun: seq<real>, emrat: real, body: int, k: int): real
      requires |pv| == 78 && |sun| == 6 && emrat + 1.0 != 0.0 && 0 <= body <= 12 && 0 <= k < 6
    {
      if body == SUN then sun[k]
      else if body == SBARY then 0.0
      else if body == EMB then pv[12 + k]
      else if body == EARTH || body == MOON then
        var earth := EarthOf(pv[12 + k], pv[54 + k], emrat);
        if body == EARTH then earth else earth + pv[54 + k]
      else pv[6 * body + k]
    }

    static lemma CompletedIsBarycentric(h: Header, rec: seq<real>, et: real, list: seq<int>, was: seq<real>,
                                        sun: seq<real>, body: int, k: int)
      requires Readable(h, rec, et) && h.emrat + 1.0 != 0.0 && |list| == 12 && |was| == 78 && |sun| == 6
      requires 0 <= body <= 12 && 0 <= k < 6
      requires forall m | 0 <= m < 60 && list[m / 6] == 2 :: was[m] == PlanetValue(h, rec, et, m / 6, m % 6, true)
      requires forall j | 0 <= j < 6 :: sun[j] == BodyValue(h, rec, et, SUN, j)
      requires body < 10 ==> list[body] == 2
      requires body == MOON || body == EMB ==> list[EARTH] == 2
      requires body == EARTH ==> list[MOON] == 2
      ensures Completed(was, sun, h.emrat, body, k) == Barycentric(h, rec, et, body, k)
    {
      hide BodyValue, EarthOf, GoodHeader, InSpan;
      var slot := if body == EMB then EARTH else body;
      assert slot < 10 ==> (6 * slot + k) / 6 == slot && (6 * slot + k) % 6 == k;
      assert (12 + k) / 6 == EARTH && (54 + k) / 6 == MOON && (12 + k) % 6 == k && (54 + k) % 6 == k;
    }

    /** The answer to a request for bodies 0 to 12: the difference of two barycentric states from the record of `et` */
    ghost predicate Answered(et: real, ntarg: int, ncent: int, rrd: array<real>)
      requires Shape() && 0 <= ntarg <= 12 && 0 <= ncent <= 12 && rrd.Length == 6
      reads this, buf, rrd
    {
      && InSpan(h, et) && nrl == RecordNumber(h, et)
      && forall k | 0 <= k < 6 ::
           rrd[k] == Barycentric(h, Record(), et, ntarg, k) - Barycentric(h, Record(), et, ncent, k)
    }

    method PlephBodies(et: real, ntarg: int, ncent: int, rrd: array<real>) returns (r: Status)
      requires Valid() && 0 <= ntarg <= 12 && 0 <= ncent <= 12 && ntarg != ncent
      requires rrd !in {pc, vc, buf, pv, pvsun} && rrd.Length == 6
      modifies this`np, this`nv, this`twot, this`nrl, pc, vc, buf, pv, pvsun, rrd
      ensures Valid()
      ensures r != NotAvailable && old(Synced()) ==> Synced()
      ensures r == OK && old(Reliable(et)) ==> Synced()
      ensures r == OK ==> Answered(et, ntarg, ncent, rrd)
      ensures r == BeyondLimits <==> !InSpan(h, et)
      ensures r == NotAvailable ==> !HasRecord(h, file, et)
    {
      assert 0 <= h.ncoeffs <= 1500 && h.emrat + 1.0 != 0.0;
      hide T, DT, GoodHeader, Memo, BodyValue, Barycentric, Libration, RecordNumber, InSpan, Synced, EarthOf;
      hide Completed, PlanetValue;
      var list := RequestFor(RequestFor(seq(12, _ => 0), ntarg), ncent);
      r := State(et, list, true, rrd);
      if r == OK {
        ghost var was, sun, rec := pv[..], pvsun[..], Record();
        forall body, k | body in {ntarg, ncent} && 0 <= k < 6
          ensures Completed(was, sun, h.emrat, body, k) == Barycentric(h, rec, et, body, k)
        {
          CompletedIsBarycentric(h, rec, et, list, was, sun, body, k);
        }
        CompleteSlots(ntarg, ncent, list);
        Subtract(ntarg, ncent, rrd);
      }
    }

    method PlephNutations(et: real, rrd: array<real>) returns (r: Status)
      requires Valid() && rrd !in {pc, vc, buf, pv, pvsun} && rrd.Length == 6
      modifies this`np, this`nv, this`twot, this`nrl, pc, vc, buf, pv, pvsun, rrd
      ensures Valid()
      ensures r != NotAvailable && old(Synced()) ==> Synced()
      ensures r == OK && old(Reliable(et)) ==> Synced()
      ensures r == OK ==> InSpan(h, et) && OnFile(11)
      ensures r == OK ==> forall k | 0 <= k < 6 :: rrd[k] == if k < 4 then Nutation(et, k) else old(rrd[k])
    {
      assert |h.ipt| == 39;
      hide T, DT, GoodHeader, Memo, Nutation, Libration, RecordNumber, InSpan, Synced;
      if h.ipt[34] <= 0 { return NotAvailable; }
      r := State(et, seq(12, _ => 0)[10 := 2], false, rrd);
    }

    /** Librations: the source passes the flag for Venus, which is 0, so only the three angles are computed;
        the rates are what an earlier call left in the scratch array. */
    method PlephLibrations(et: real, rrd: array<real>) returns (r: Status)
      requires Valid() && rrd !in {pc, vc, buf, pv, pvsun} && rrd.Length == 6
      modifies this`np, this`nv, this`twot, this`nrl, pc, vc, buf, pv, pvsun, rrd
      ensures Valid()
      ensures r != NotAvailable && old(Synced()) ==> Synced()
      ensures r == OK && old(Reliable(et)) ==> Synced()
      ensures r == OK ==> InSpan(h, et) && OnFile(12)
      ensures r == OK ==> forall k | 0 <= k < 6 :: rrd[k] == Libration(et, 60 + k, 0, old(pv[60 + k]))
    {
      assert |h.ipt| == 39;
      hide T, DT, GoodHeader, Memo, Nutation, Libration, RecordNumber, InSpan, Synced;
      if h.ipt[37] <= 0 { return NotAvailable; }
      r := State(et, seq(12, _ => 0)[11 := 2], false, rrd);
      if r == OK {
        for i := 0 to 6
          modifies rrd
          invariant forall k | 0 <= k < i :: rrd[k] == pv[60 + k]
        {
          rrd[i] := pv[i + 60];
        }
      }
    }

    lemma AnswerFromFile(et: real, ntarg: int, ncent: int, rrd: array<real>)
      requires Shape() && Synced() && 0 <= ntarg <= 12 && 0 <= ncent <= 12 && rrd.Length == 6
      requires Answered(et, ntarg, ncent, rrd)
      ensures HasRecord(h, file, et)
      ensures forall k | 0 <= k < 6 :: rrd[k] == Relative(h, file, et, ntarg, ncent, k)
    {
      RecordCovers(h, et);
      hide Barycentric, RecordNumber;
    }

    /** swi_pleph: the state of body `ntarg` as seen from body `ncent` */
    method Pleph(et: real, ntarg: int, ncent: int, rrd: array<real>) returns (r: Status)
      requires Valid() && 0 <= ntarg <= 14 && 0 <= ncent <= 12
      requires rrd !in {pc, vc, buf, pv, pvsun} && rrd.Length == 6
      modifies this`np, this`nv, this`twot, this`nrl, pc, vc, buf, pv, pvsun, rrd
      ensures Valid()
      ensures r != NotAvailable && old(Synced()) ==> Synced()
      ensures ntarg == ncent ==> r == OK && rrd[..] == seq(6, _ => 0.0)
      // except in the record of a failed read the answer does not depend on earlier calls
      ensures r == OK && old(Reliable(et)) && ntarg != ncent ==> Synced()
      ensures r == OK && old(Reliable(et)) && ntarg <= 12 && ntarg != ncent ==> HasRecord(h, file, et)
      ensures r == OK && old(Reliable(et)) && ntarg <= 12 && ntarg != ncent ==>
        forall k | 0 <= k < 6 :: rrd[k] == Relative(h, file, et, ntarg, ncent, k)
      ensures r == OK && ntarg <= 12 && ntarg != ncent ==> Answered(et, ntarg, ncent, rrd)
      ensures ntarg <= 12 && ntarg != ncent ==>
        (r == BeyondLimits <==> !InSpan(h, et)) && (HasRecord(h, file, et) ==> r == OK)
      ensures r == OK && ntarg == NUT ==> InSpan(h, et) && OnFile(11)
      ensures r == OK && ntarg == NUT ==> forall k | 0 <= k < 6 :: rrd[k] == if k < 4 then Nutation(et, k) else 0.0
      ensures r == OK && ntarg == LIB ==> InSpan(h, et) && OnFile(12)
      ensures r == OK && ntarg == LIB ==> forall k | 0 <= k < 6 :: rrd[k] == Libration(et, 60 + k, 0, old(pv[60 + k]))
    {
      hide T, DT, GoodHeader, Memo, Nutation, Libration, Answered, RecordNumber, InSpan, Synced;
      for i := 0 to 6
        modifies rrd
        invariant forall k | 0 <= k < i :: rrd[k] == 0.0
      {
        rrd[i] := 0.0;
      }
      if ntarg == ncent { return OK; }
      if ntarg == NUT {
        r := PlephNutations(et, rrd);
      } else if ntarg == LIB {
        r := PlephLibrations(et, rrd);
      } else {
        r := PlephBodies(et, ntarg, ncent, rrd);
        if r == OK && old(Reliable(et)) { AnswerFromFile(et, ntarg, ncent, rrd); }
      }
    }

    /** Any run of requests for bodies 0 to 12 on a file without missing records, from whatever state earlier requests
        have left: each answer is the function of file and request that `AnswerOf` is. */
    method Run(queries: seq<Query>) returns (answers: seq<Answer>)
      requires Valid() && Synced()
      requires forall i | 0 <= i < |queries| && InSpan(h, queries[i].et) :: HasRecord(h, file, queries[i].et)
      requires forall i | 0 <= i < |queries| :: 0 <= queries[i].ntarg <= 12 && 0 <= queries[i].ncent <= 12
      modifies this`np, this`nv, this`twot, this`nrl, pc, vc, buf, pv, pvsun
      ensures Valid() && Synced() && |answers| == |queries|
      ensures forall i | 0 <= i < |queries| :: answers[i] == AnswerOf(h, file, queries[i])
    {
      hide T, DT, GoodHeader, Memo, Answered, RecordNumber, InSpan, HasRecord, Relative, Synced;
      answers := [];
      for i := 0 to |queries|
        invariant Valid() && Synced() && |answers| == i
        invariant forall k | 0 <= k < i :: answers[k] == AnswerOf(h, file, queries[k])
      {
        var q := queries[i];
        var rrd := new real[6];
        var r := Pleph(q.et, q.ntarg, q.ncent, rrd);
        var answer := if r == OK then Found(rrd[..]) else OutOfRange;
        assert answer == AnswerOf(h, file, q);
        answers := answers + [answer];
      }
    }
  }

  datatype Query = Query(et: real, ntarg: int, ncent: int)

  datatype Answer = Found(rrd: seq<real>) | OutOfRange

  function AnswerOf(h: Header, file: map<int, seq<real>>, q: Query): Answer
    requires InSpan(h, q.et) ==> HasRecord(h, file, q.et)
    requires 0 <= q.ntarg <= 12 && 0 <= q.ncent <= 12
  {
    if q.ntarg == q.ncent then Found(seq(6, _ => 0.0))
    else if !InSpan(h, q.et) then OutOfRange
    else Found(seq(6, k requires 0 <= k < 6 => Relative(h, file, q.et, q.ntarg, q.ncent, k)))
  }
}
