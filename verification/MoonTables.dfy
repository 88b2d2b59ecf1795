/** Stepping through the perturbation tables of the Moon (chewm in eph/sweph/src/swemmoon.c). */
module MoonTables {
  import opened UnitPair
  import opened AngleTables
  import opened Division

  /** Numbers in a line after the multiples, for each kind of table */
  function Width(typflg: int): nat {
    if typflg == 1 then 4 else if typflg == 2 || typflg == 3 then 2 else if typflg == 4 then 1 else 0
  }

  predicate Complete(pt: seq<int>, nlines: int, nangles: int, typflg: int) {
    0 <= nlines && 0 <= nangles && nlines * (nangles + Width(typflg)) <= |pt|
  }

  lemma LineFits(pt: seq<int>, nlines: int, nangles: int, typflg: int, i: int)
    requires Complete(pt, nlines, nangles, typflg) && 0 <= i < nlines
    ensures 0 <= i * (nangles + Width(typflg)) <= (i + 1) * (nangles + Width(typflg)) <= |pt|
    ensures (i + 1) * (nangles + Width(typflg)) == i * (nangles + Width(typflg)) + nangles + Width(typflg)
  {
    MulMonotone(0, i, nangles + Width(typflg));
    MulMonotone(i + 1, nlines, nangles + Width(typflg));
  }

  /** The numbers of line i */
  function Line(pt: seq<int>, nlines: int, nangles: int, typflg: int, i: int): (line: seq<int>)
    requires Complete(pt, nlines, nangles, typflg) && 0 <= i < nlines
    ensures |line| == nangles + Width(typflg)
  {
    LineFits(pt, nlines, nangles, typflg, i);
    pt[i * (nangles + Width(typflg))..(i + 1) * (nangles + Width(typflg))]
  }

  /** The multiples of the angles at the start of a line */
  function Multiples(line: seq<int>, nangles: int): seq<Term>
    requires 0 <= nangles <= |line|
  {
    seq(nangles, m requires 0 <= m < nangles => Term(line[m], m))
  }

  /** Amplitude of longitude (0), latitude (1) or radius (2). Large tables split it into ten-thousands and rest. */
  function Amplitude(amp: seq<int>, typflg: int, c: int): int
    requires |amp| == Width(typflg)
  {
    if typflg == 1 && c == 0 then 10000 * amp[0] + amp[1]
    else if typflg == 1 && c == 2 then 10000 * amp[2] + amp[3]
    else if typflg == 2 && c == 0 then amp[0]
    else if typflg == 2 && c == 2 then amp[1]
    else if typflg == 3 && c == 1 then 10000 * amp[0] + amp[1]
    else if typflg == 4 && c == 1 then amp[0]
    else 0
  }

  /** Longitude and latitude take the sine of the combined angle, the radius its cosine. */
  function Share(amp: seq<int>, typflg: int, c: int, v: Pair): real
    requires |amp| == Width(typflg)
  {
    Scale(Amplitude(amp, typflg, c), if c == 2 then v.c else v.s)
  }

  function Scale(a: int, x: real): real { a as real * x }

  lemma ScaleZero(x: real)
    ensures Scale(0, x) == 0.0
  {}

  lemma ScaleIs(a: int)
    ensures Scale(a, 1.0) == a as real && Scale(a, 0.0) == 0.0
  {}

  /** What a line contributes, in the numbers of the line: sines to longitude and latitude, cosines to the radius */
  lemma LineInNumbers(amp: seq<int>, typflg: int)
    requires |amp| == Width(typflg)
    ensures match typflg
      case 1 =>
        && AtQuarters(amp, 1, 0, 0, 10000 * amp[0] + amp[1])
        && AtQuarters(amp, 1, 1, 0, 0)
        && AtQuarters(amp, 1, 2, 10000 * amp[2] + amp[3], 0)
      case 2 =>
        && AtQuarters(amp, 2, 0, 0, amp[0])
        && AtQuarters(amp, 2, 1, 0, 0)
        && AtQuarters(amp, 2, 2, amp[1], 0)
      case 3 =>
        && AtQuarters(amp, 3, 0, 0, 0)
        && AtQuarters(amp, 3, 1, 0, 10000 * amp[0] + amp[1])
        && AtQuarters(amp, 3, 2, 0, 0)
      case 4 =>
        && AtQuarters(amp, 4, 0, 0, 0)
        && AtQuarters(amp, 4, 1, 0, amp[0])
        && AtQuarters(amp, 4, 2, 0, 0)
      case _ => amp == []
  {
    hide Scale;
    forall a: int { ScaleIs(a); }
  }

  /** The contribution at angle 0 and at a quarter of a circle */
  predicate AtQuarters(amp: seq<int>, typflg: int, c: int, cosine: int, sine: int)
    requires |amp| == Width(typflg)
  {
    Share(amp, typflg, c, ONE) == cosine as real && Share(amp, typflg, c, QUARTER) == sine as real
  }

  /** ... and between these it follows the cosine and sine of the angle. */
  lemma ShareIsLinear(amp: seq<int>, typflg: int, c: int, v: Pair)
    requires |amp| == Width(typflg)
    ensures Share(amp, typflg, c, v) == Share(amp, typflg, c, ONE) * v.c + Share(amp, typflg, c, QUARTER) * v.s
  {
    hide Amplitude;
  }

  /** What the source adds: a large radius whose rest is 0 is dropped with its ten-thousands. */
  function Addend(amp: seq<int>, typflg: int, c: int, v: Pair): real
    requires |amp| == Width(typflg)
  {
    if typflg == 1 && c == 2 && amp[3] == 0 then 0.0 else Share(amp, typflg, c, v)
  }

  predicate KeepsRadius(amp: seq<int>, typflg: int)
    requires |amp| == Width(typflg)
  {
    typflg != 1 || amp[3] != 0 || amp[2] == 0
  }

  /** A line adds its amplitudes at every angle if and only if no radius is dropped. */
  lemma RadiusKept(amp: seq<int>, typflg: int)
    requires |amp| == Width(typflg)
    ensures (forall v, c | 0 <= c < 3 :: Addend(amp, typflg, c, v) == Share(amp, typflg, c, v))
      <==> KeepsRadius(amp, typflg)
  {
    if KeepsRadius(amp, typflg) {
      forall v: Pair { ScaleZero(v.c); }
    } else {
      assert Addend(amp, typflg, 2, ONE) != Share(amp, typflg, 2, ONE);
    }
  }

  /** Sum of amplitude times sine or cosine of the angle of each line, over the first n lines */
  function DirectSum(base: seq<Pair>, pt: seq<int>, nlines: int, nangles: int, typflg: int, n: nat, c: int): real
    requires Complete(pt, nlines, nangles, typflg) && n <= nlines && nangles <= |base|
  {
    if n == 0 then 0.0
    else
      var line := Line(pt, nlines, nangles, typflg, n - 1);
      DirectSum(base, pt, nlines, nangles, typflg, n - 1, c)
        + Share(line[nangles..], typflg, c, AngleSum(base, Multiples(line, nangles)))
  }

  ghost predicate LinesInTable(g: Angles, pt: seq<int>, nlines: int, nangles: int, typflg: int)
    requires g.Valid() && Complete(pt, nlines, nangles, typflg)
    reads g
  {
    forall i, m | 0 <= i < nlines && 0 <= m < nangles ::
      g.InTable(Multiples(Line(pt, nlines, nangles, typflg, i), nangles)[m])
  }

  /** The same sum over whatever the table of multiple angles holds */
  ghost function TableSum(g: Angles, pt: seq<int>, nlines: int, nangles: int, typflg: int, n: nat, c: int): real
    requires g.Valid() && Complete(pt, nlines, nangles, typflg) && n <= nlines
    requires LinesInTable(g, pt, nlines, nangles, typflg)
    reads g, g.ss, g.cc
  {
    if n == 0 then 0.0
    else
      var line := Line(pt, nlines, nangles, typflg, n - 1);
      TableSum(g, pt, nlines, nangles, typflg, n - 1, c)
        + Addend(line[nangles..], typflg, c, g.Combined(Multiples(line, nangles)).v)
  }

  /** The innermost loop: combine the multiples of one line */
  method CombineLine(g: Angles, line: seq<int>, nangles: int) returns (v: Pair)
    requires g.Valid() && 0 <= nangles <= |line| && forall m | 0 <= m < nangles :: g.InTable(Term(line[m], m))
    ensures v == g.Combined(Multiples(line, nangles)).v
  {
    var terms := Multiples(line, nangles);
    var comb := NOTHING;
    for m := 0 to nangles
      invariant comb == g.Combined(terms[..m])
    {
      assert terms[..m + 1][..m] == terms[..m];
      comb := g.Combine(comb, Term(line[m], m));
    }
    assert terms[..nangles] == terms;
    v := comb.v;
  }

  /** The switch: add one line to the answer */
  method Accumulate(amp: seq<int>, typflg: int, v: Pair, ans: array<real>)
    requires |amp| == Width(typflg) && ans.Length >= 3
    modifies ans
    ensures forall c | 0 <= c < 3 :: ans[c] == old(ans[c]) + Addend(amp, typflg, c, v)
  {
    hide Scale;
    ScaleZero(v.s);
    ScaleZero(v.c);
    match typflg
    case 1 =>
      ans[0] := ans[0] + Scale(10000 * amp[0] + amp[1], v.s);
      if amp[3] != 0 { ans[2] := ans[2] + Scale(10000 * amp[2] + amp[3], v.c); }
    case 2 =>
      ans[0] := ans[0] + Scale(amp[0], v.s);
      ans[2] := ans[2] + Scale(amp[1], v.c);
    case 3 =>
      ans[1] := ans[1] + Scale(10000 * amp[0] + amp[1], v.s);
    case 4 =>
      ans[1] := ans[1] + Scale(amp[0], v.s);
    case _ =>
  }

  /** chewm */
  method Chewm(g: Angles, pt: seq<int>, nlines: int, nangles: int, typflg: int, ans: array<real>)
    requires g.Valid() && Complete(pt, nlines, nangles, typflg) && LinesInTable(g, pt, nlines, nangles, typflg)
    requires ans.Length >= 3
    modifies ans
    ensures forall c | 0 <= c < 3 :: ans[c] == old(ans[c]) + TableSum(g, pt, nlines, nangles, typflg, nlines, c)
  {
    var p := 0;
    for i := 0 to nlines
      invariant p == i * (nangles + Width(typflg))
      invariant forall c | 0 <= c < 3 :: ans[c] == old(ans[c]) + TableSum(g, pt, nlines, nangles, typflg, i, c)
    {
      LineFits(pt, nlines, nangles, typflg, i);
      var line := pt[p..p + nangles + Width(typflg)];
      assert line == Line(pt, nlines, nangles, typflg, i);
      forall m | 0 <= m < nangles
        ensures g.InTable(Term(line[m], m))
      {
        assert Multiples(line, nangles)[m] == Term(line[m], m);
      }
      var v := CombineLine(g, line, nangles);
      Accumulate(line[nangles..], typflg, v, ans);
      p := p + nangles + Width(typflg);
    }
  }

  // ------------------------------------------------------------------ which lines are summed as meant

  /** The multiples of line i */
  function TermsOf(pt: seq<int>, nlines: int, nangles: int, typflg: int, i: int): (terms: seq<Term>)
    requires Complete(pt, nlines, nangles, typflg) && 0 <= i < nlines
    ensures |terms| == nangles && forall m | 0 <= m < nangles :: terms[m].angle == m
  {
    Multiples(Line(pt, nlines, nangles, typflg, i), nangles)
  }

  /** The amplitudes of line i */
  function AmpsOf(pt: seq<int>, nlines: int, nangles: int, typflg: int, i: int): (amp: seq<int>)
    requires Complete(pt, nlines, nangles, typflg) && 0 <= i < nlines
    ensures |amp| == Width(typflg)
  {
    Line(pt, nlines, nangles, typflg, i)[nangles..]
  }

  /** All multiples of a line lie within the filled harmonics, and one is not zero. */
  ghost predicate Heard(g: Angles, counts: seq<int>, terms: seq<Term>)
    requires g.Valid() && |counts| == g.ss.Length0
    reads g
  {
    g.WithinCounts(counts, terms) && !AllZero(terms)
  }

  ghost predicate AllHeard(g: Angles, counts: seq<int>, pt: seq<int>, nlines: int, nangles: int, typflg: int)
    requires g.Valid() && |counts| == g.ss.Length0 && Complete(pt, nlines, nangles, typflg)
    reads g
  {
    forall i | 0 <= i < nlines ::
      Heard(g, counts, TermsOf(pt, nlines, nangles, typflg, i))
      && KeepsRadius(AmpsOf(pt, nlines, nangles, typflg, i), typflg)
  }

  /** With the harmonics of every line filled in and no radius dropped, the sum is that of the angles themselves. */
  lemma {:induction false} TableSumIsDirect(g: Angles, base: seq<Pair>, counts: seq<int>,
                                            pt: seq<int>, nlines: int, nangles: int, typflg: int, n: nat, c: int)
    requires g.Valid() && |base| == |counts| == g.ss.Length0 && g.Tabulated(base, counts) && nangles <= |base|
    requires Complete(pt, nlines, nangles, typflg) && n <= nlines && 0 <= c < 3
    requires LinesInTable(g, pt, nlines, nangles, typflg) && AllHeard(g, counts, pt, nlines, nangles, typflg)
    ensures TableSum(g, pt, nlines, nangles, typflg, n, c) == DirectSum(base, pt, nlines, nangles, typflg, n, c)
  {
    hide Line, Multiples, Share, Addend, KeepsRadius, LinesInTable, AllHeard, Complete;
    if n > 0 {
      TableSumIsDirect(g, base, counts, pt, nlines, nangles, typflg, n - 1, c);
      LineIsDirect(g, base, counts, pt, nlines, nangles, typflg, n - 1, c);
    }
  }

  lemma LineIsDirect(g: Angles, base: seq<Pair>, counts: seq<int>,
                     pt: seq<int>, nlines: int, nangles: int, typflg: int, i: int, c: int)
    requires g.Valid() && |base| == |counts| == g.ss.Length0 && g.Tabulated(base, counts) && nangles <= |base|
    requires Complete(pt, nlines, nangles, typflg) && 0 <= i < nlines && 0 <= c < 3
    requires LinesInTable(g, pt, nlines, nangles, typflg)
    requires AllHeard(g, counts, pt, nlines, nangles, typflg)
    ensures var line := Line(pt, nlines, nangles, typflg, i);
      Addend(line[nangles..], typflg, c, g.Combined(Multiples(line, nangles)).v)
      == Share(line[nangles..], typflg, c, AngleSum(base, Multiples(line, nangles)))
  {
    hide Line, Multiples, Share, Addend, Scale, KeepsRadius;
    g.CombinedIsSum(base, counts, TermsOf(pt, nlines, nangles, typflg, i));
    RadiusKept(AmpsOf(pt, nlines, nangles, typflg, i), typflg);
  }

  // ------------------------------------------------------------------ the cleared tables

  /** Harmonics that are not filled in are 0. */
  ghost predicate ClearedBeyond(g: Angles, counts: seq<int>)
    requires g.Valid() && |counts| == g.ss.Length0
    reads g, g.ss, g.cc
  {
    forall m, i | 0 <= m < g.ss.Length0 && 0 <= i < g.ss.Length1 && i >= counts[m] :: g.Entry(m, i) == NOTHING.v
  }

  /** What the combination of a line is, for any multiples in a table that was cleared and then filled: a multiple
      beyond the filled harmonics silences its line. */
  lemma CombinedWhenCleared(g: Angles, base: seq<Pair>, counts: seq<nat>, terms: seq<Term>)
    requires g.Valid() && |base| == |counts| == g.ss.Length0 && g.Tabulated(base, counts) && ClearedBeyond(g, counts)
    requires forall i | 0 <= i < |terms| :: g.InTable(terms[i])
    ensures g.Combined(terms).v == HeardAngle(Heard(g, counts, terms), base, terms)
  {
    if g.WithinCounts(counts, terms) {
      g.CombinedIsSum(base, counts, terms);
    } else {
      var k :| 0 <= k < |terms| && !(-counts[terms[k].angle] <= terms[k].multiple <= counts[terms[k].angle]);
      ClearedHarmonic(g, terms, k);
    }
  }

  /** An entry that is 0 silences its line. */
  lemma {:induction false} ClearedHarmonic(g: Angles, terms: seq<Term>, k: nat)
    requires g.Valid() && k < |terms| && forall i | 0 <= i < |terms| :: g.InTable(terms[i])
    requires terms[k].multiple != 0 && g.Lookup(terms[k]) == Pair(0.0, 0.0)
    ensures g.Combined(terms) == Combination(true, Pair(0.0, 0.0))
  {
    if k < |terms| - 1 { ClearedHarmonic(g, terms[..|terms| - 1], k); }
  }

  lemma AddendOfNothing(amp: seq<int>, typflg: int, c: int)
    requires |amp| == Width(typflg)
    ensures Addend(amp, typflg, c, NOTHING.v) == 0.0
  {}

  /** The combination of a line in a cleared table */
  function HeardAngle(heard: bool, base: seq<Pair>, terms: seq<Term>): Pair
    requires forall i | 0 <= i < |terms| :: 0 <= terms[i].angle < |base|
  {
    if heard then AngleSum(base, terms) else NOTHING.v
  }

  ghost predicate Angular(base: seq<Pair>, n: int) {
    |base| == n && forall m | 0 <= m < |base| :: Unit(base[m])
  }

  /** The terms of a line are multiples of different angles. */
  predicate Distinct(terms: seq<Term>) {
    forall i, j | 0 <= i < j < |terms| :: terms[i].angle != terms[j].angle
  }

  /** The written amplitudes add 0 at every angle: all are 0, or the angle is and there is no radius. */
  predicate Silent(amp: seq<int>, typflg: int, terms: seq<Term>)
    requires |amp| == Width(typflg)
  {
    && Amplitude(amp, typflg, 2) == 0
    && (AllZero(terms) || (Amplitude(amp, typflg, 0) == 0 && Amplitude(amp, typflg, 1) == 0))
  }

  lemma SilentAddsNothing(v: Pair, terms: seq<Term>, amp: seq<int>, typflg: int, c: int)
    requires |amp| == Width(typflg) && Silent(amp, typflg, terms) && 0 <= c < 3 && (AllZero(terms) ==> v.s == 0.0)
    ensures Addend(amp, typflg, c, v) == Share(amp, typflg, c, v) == 0.0
  {
    hide Amplitude, AllZero, Scale;
    ScaleZero(v.s);
    ScaleZero(v.c);
    ScaleOfZero(Amplitude(amp, typflg, c));
  }

  lemma ScaleNonZero(a: int, x: real)
    requires a != 0 && x != 0.0
    ensures Scale(a, x) != 0.0
  {}

  lemma DroppedRadius(amp: seq<int>, typflg: int, v: Pair)
    requires |amp| == Width(typflg) && !KeepsRadius(amp, typflg)
    ensures Amplitude(amp, typflg, 2) != 0 && Addend(amp, typflg, 2, v) == 0.0
  {}

  lemma ScaleOfZero(a: int)
    ensures Scale(a, 0.0) == 0.0
  {}

  /** Some angle at which a line that is not silent should add something, to the radius if it has one */
  lemma LoudAngle(terms: seq<Term>, n: nat, amp: seq<int>, typflg: int) returns (base: seq<Pair>, c: int)
    requires |amp| == Width(typflg) && !Silent(amp, typflg, terms) && Distinct(terms)
    requires forall i | 0 <= i < |terms| :: 0 <= terms[i].angle < n
    ensures Angular(base, n) && 0 <= c < 3 && Share(amp, typflg, c, AngleSum(base, terms)) != 0.0
    ensures Amplitude(amp, typflg, 2) != 0 ==> c == 2
  {
    hide Amplitude, AngleSum, Pow, Scale;
    base := seq(n, _ => ONE);
    if Amplitude(amp, typflg, 2) != 0 {
      c := 2;
      OneAngle(base, terms, |terms|);
      ScaleNonZero(Amplitude(amp, typflg, 2), 1.0);
    } else {
      c := if Amplitude(amp, typflg, 0) != 0 then 0 else 1;
      var k :| 0 <= k < |terms| && terms[k].multiple != 0;
      base := base[terms[k].angle := THREE_FOUR];
      OneAngle(base, terms, k);
      SineNotZero(terms[k].multiple);
      ScaleNonZero(Amplitude(amp, typflg, c), AngleSum(base, terms).s);
    }
  }

  /** If all angles but one are 0, a line takes its multiple of that one. */
  lemma {:induction false} OneAngle(base: seq<Pair>, terms: seq<Term>, k: nat)
    requires Distinct(terms) && forall i | 0 <= i < |terms| :: 0 <= terms[i].angle < |base|
    requires forall i | 0 <= i < |terms| && i != k :: base[terms[i].angle] == ONE
    ensures AngleSum(base, terms) == if k < |terms| then Pow(base[terms[k].angle], terms[k].multiple) else ONE
  {
    hide Pow, Mul;
    if terms != [] {
      var n := |terms| - 1;
      OneAngle(base, terms[..n], k);
      PowerOfOne(terms[n].multiple);
      MulOne(ONE);
      MulOne(AngleSum(base, terms[..n]));
      MulOne(Pow(base[terms[n].angle], terms[n].multiple));
    }
  }

  /** So a line of any kind is added as written at every angle if and only if it is heard and keeps its radius, or has
      nothing to add. */
  lemma HeardIsExact(g: Angles, counts: seq<nat>, terms: seq<Term>, amp: seq<int>, typflg: int)
    requires g.Valid() && |counts| == g.ss.Length0 && |amp| == Width(typflg)
    requires Distinct(terms) && forall i | 0 <= i < |terms| :: 0 <= terms[i].angle < |counts|
    ensures (forall base, c | Angular(base, |counts|) && 0 <= c < 3 ::
        Addend(amp, typflg, c, HeardAngle(Heard(g, counts, terms), base, terms))
        == Share(amp, typflg, c, AngleSum(base, terms)))
      <==> (Heard(g, counts, terms) && KeepsRadius(amp, typflg)) || Silent(amp, typflg, terms)
  {
    hide AngleSum, Amplitude, Addend, Share, KeepsRadius, Heard, Silent;
    var heard := Heard(g, counts, terms);
    if heard && KeepsRadius(amp, typflg) {
      RadiusKept(amp, typflg);
    } else if Silent(amp, typflg, terms) {
      forall base, c | Angular(base, |counts|) && 0 <= c < 3
        ensures Addend(amp, typflg, c, HeardAngle(heard, base, terms))
          == Share(amp, typflg, c, AngleSum(base, terms)) == 0.0
      {
        if AllZero(terms) { SumOfZeros(base, terms); }
        SilentAddsNothing(AngleSum(base, terms), terms, amp, typflg, c);
        SilentAddsNothing(NOTHING.v, terms, amp, typflg, c);
      }
    } else {
      var base, c := LoudAngle(terms, |counts|, amp, typflg);
      AddendOfNothing(amp, typflg, c);
      if heard { DroppedRadius(amp, typflg, AngleSum(base, terms)); }
    }
  }

  /** The sum over the lines that are heard, with what the source adds for them */
  ghost function HeardSum(g: Angles, base: seq<Pair>, counts: seq<int>,
                          pt: seq<int>, nlines: int, nangles: int, typflg: int, n: nat, c: int): real
    requires g.Valid() && |base| == |counts| == g.ss.Length0 && nangles <= |base|
    requires Complete(pt, nlines, nangles, typflg) && n <= nlines
    reads g
  {
    if n == 0 then 0.0
    else
      var terms := TermsOf(pt, nlines, nangles, typflg, n - 1);
      HeardSum(g, base, counts, pt, nlines, nangles, typflg, n - 1, c)
        + if Heard(g, counts, terms)
          then Addend(AmpsOf(pt, nlines, nangles, typflg, n - 1), typflg, c, AngleSum(base, terms)) else 0.0
  }

  /** In a cleared table every line either adds for the sum of its angles or adds nothing. */
  lemma {:induction false} TableSumWhenCleared(g: Angles, base: seq<Pair>, counts: seq<nat>,
                                               pt: seq<int>, nlines: int, nangles: int, typflg: int, n: nat, c: int)
    requires g.Valid() && |base| == |counts| == g.ss.Length0 && g.Tabulated(base, counts) && ClearedBeyond(g, counts)
    requires nangles <= |base| && Complete(pt, nlines, nangles, typflg) && n <= nlines
    requires LinesInTable(g, pt, nlines, nangles, typflg)
    ensures TableSum(g, pt, nlines, nangles, typflg, n, c)
      == HeardSum(g, base, counts, pt, nlines, nangles, typflg, n, c)
  {
    hide Line, Multiples, Addend, Heard;
    if n > 0 {
      TableSumWhenCleared(g, base, counts, pt, nlines, nangles, typflg, n - 1, c);
      CombinedWhenCleared(g, base, counts, TermsOf(pt, nlines, nangles, typflg, n - 1));
      AddendOfNothing(AmpsOf(pt, nlines, nangles, typflg, n - 1), typflg, c);
    }
  }

  /** Multiples of D, M, MP and NF that moon1 fills in; the fifth row stays cleared. */
  const MOON_COUNTS: seq<nat> := [6, 4, 4, 4, 0]

  /** moon1, up to its tables */
  method Prepare(g: Angles, base: seq<Pair>)
    requires g.Valid() && g.ss.Length0 == 5 && g.ss.Length1 == 8 && |base| == 5
    modifies g.ss, g.cc
    ensures g.Tabulated(base, MOON_COUNTS) && ClearedBeyond(g, MOON_COUNTS)
    ensures forall m, i | 0 <= m < 5 && 0 <= i < 8 ::
      g.Entry(m, i) == if (m == 0 && i < 6) || (1 <= m <= 3 && i < 4) then Pow(base[m], i + 1) else Pair(0.0, 0.0)
  {
    hide Pow;
    Clear(g);
    var counts := [0, 0, 0, 0, 0];
    for k := 0 to 4
      modifies g.ss, g.cc
      invariant forall m, i | 0 <= m < 5 && 0 <= i < 8 ::
        g.Entry(m, i) == if m < k && i < MOON_COUNTS[m] then Pow(base[m], i + 1) else NOTHING.v
    {
      label before:
      g.Sscc(k, base[k], MOON_COUNTS[k]);
      assert g.Filled(k, base[k], MOON_COUNTS[k]);
      assert forall m, i | 0 <= m < 5 && 0 <= i < 8 && (m != k || i >= MOON_COUNTS[k]) ::
        g.Entry(m, i) == old@before(g.Entry(m, i));
    }
  }

  method Clear(g: Angles)
    requires g.Valid() && g.ss.Length0 == 5 && g.ss.Length1 == 8
    modifies g.ss, g.cc
    ensures forall m, i | 0 <= m < 5 && 0 <= i < 8 :: g.Entry(m, i) == NOTHING.v
  {
    for i := 0 to 5
      invariant forall m, k | 0 <= m < i && 0 <= k < 8 :: g.ss[m, k] == 0.0 && g.cc[m, k] == 0.0
    {
      for j := 0 to 8
        invariant forall m, k | 0 <= m < i && 0 <= k < 8 :: g.ss[m, k] == 0.0 && g.cc[m, k] == 0.0
        invariant forall k | 0 <= k < j :: g.ss[i, k] == 0.0 && g.cc[i, k] == 0.0
      {
        g.ss[i, j] := 0.0;
        g.cc[i, j] := 0.0;
      }
    }
  }

  /** The line of table LR with the fifth multiple of MP adds nothing, though its amplitudes are not zero. */
  method FifthMultiple(g: Angles, base: seq<Pair>, ans: array<real>)
    requires g.Valid() && g.ss.Length0 == 5 && g.ss.Length1 == 8 && |base| == 5 && ans.Length >= 3
    modifies g.ss, g.cc, ans
    ensures forall c | 0 <= c < 3 :: ans[c] == old(ans[c])
  {
    hide Pow, Addend, Heard, ClearedBeyond;
    var pt := [0, 0, 5, 0, 0, 1110, 0, -589];
    Prepare(g, base);
    LineOfFive(g, pt);
    TableSumWhenCleared(g, base, MOON_COUNTS, pt, 1, 4, 1, 1, 0);
    TableSumWhenCleared(g, base, MOON_COUNTS, pt, 1, 4, 1, 1, 1);
    TableSumWhenCleared(g, base, MOON_COUNTS, pt, 1, 4, 1, 1, 2);
    Chewm(g, pt, 1, 4, 1, ans);
  }

  lemma LineOfFive(g: Angles, pt: seq<int>)
    requires g.Valid() && g.ss.Length0 == 5 && g.ss.Length1 == 8 && pt == [0, 0, 5, 0, 0, 1110, 0, -589]
    ensures Complete(pt, 1, 4, 1) && LinesInTable(g, pt, 1, 4, 1) && !Heard(g, MOON_COUNTS, TermsOf(pt, 1, 4, 1, 0))
  {
    assert Line(pt, 1, 4, 1, 0) == pt;
    var terms := TermsOf(pt, 1, 4, 1, 0);
    assert terms[2] == Term(5, 2) && terms[0].multiple == terms[1].multiple == terms[3].multiple == 0;
  }
}
