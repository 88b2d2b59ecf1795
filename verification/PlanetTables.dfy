/** The interpreter of the planetary perturbation tables (swi_moshplan2 in eph/sweph/src/swemplan.c).

    A theory is a list of polynomial and periodic terms. The source stores it in four tables, one of integers that
    steers the interpreter and three of coefficients, and walks them with one pointer each. */
module PlanetTables {
  import opened UnitPair
  import opened AngleTables
  import opened Numbers

  // ------------------------------------------------------------------ a theory and what it means

  /** Coefficients run from the highest power of T to the constant. A periodic coefficient is a pair of the
      amplitudes of cosine and sine. */
  datatype Part =
    | Polynomial(lon: seq<real>, lat: seq<real>, rad: seq<real>)
    | Periodic(args: seq<Term>, lonp: seq<Pair>, latp: seq<Pair>, radp: seq<Pair>)

  predicate WellFormed(p: Part) {
    match p
    case Polynomial(lon, lat, rad) => |lon| == |lat| == |rad| && |lon| >= 1
    case Periodic(args, lonp, latp, radp) => |args| >= 1 && |lonp| == |latp| == |radp| && |lonp| >= 1
  }

  /** The polynomial with these coefficients, written out in powers */
  function Value(c: seq<real>, x: real): real {
    if c == [] then 0.0 else c[0] * Power(x, |c| - 1) + Value(c[1..], x)
  }

  function Cosines(c: seq<Pair>): seq<real> { seq(|c|, i requires 0 <= i < |c| => c[i].c) }

  function Sines(c: seq<Pair>): seq<real> { seq(|c|, i requires 0 <= i < |c| => c[i].s) }

  function PeriodicValue(c: seq<Pair>, x: real, angle: Pair): real {
    Mix(Value(Cosines(c), x), Value(Sines(c), x), angle)
  }

  function Mix(cu: real, su: real, angle: Pair): real { cu * angle.c + su * angle.s }

  /** The angle of a periodic term; a term without any multiple contributes nothing. */
  function AngleOf(base: seq<Pair>, args: seq<Term>): Pair
    requires forall i | 0 <= i < |args| :: 0 <= args[i].angle < |base|
  {
    if AllZero(args) then Pair(0.0, 0.0) else AngleSum(base, args)
  }

  datatype Coordinates = Coordinates(lon: real, lat: real, rad: real)

  function Plus(a: Coordinates, b: Coordinates): Coordinates {
    Coordinates(a.lon + b.lon, a.lat + b.lat, a.rad + b.rad)
  }

  function Meaning(p: Part, x: real, angle: Pair): Coordinates {
    match p
    case Polynomial(lon, lat, rad) => Coordinates(Mods3600(Value(lon, x)), Value(lat, x), Value(rad, x))
    case Periodic(args, lonp, latp, radp) =>
      Coordinates(PeriodicValue(lonp, x, angle), PeriodicValue(latp, x, angle), PeriodicValue(radp, x, angle))
  }

  predicate AnglesWithin(theory: seq<Part>, n: int) {
    forall t | 0 <= t < |theory| && theory[t].Periodic? ::
      forall i | 0 <= i < |theory[t].args| :: 0 <= theory[t].args[i].angle < n
  }

  /** The sum over the terms of the theory */
  function Total(theory: seq<Part>, x: real, base: seq<Pair>): Coordinates
    requires AnglesWithin(theory, |base|)
  {
    if theory == [] then Coordinates(0.0, 0.0, 0.0)
    else
      var p := theory[0];
      var angle := if p.Periodic? then AngleOf(base, p.args) else ONE;
      Plus(Meaning(p, x, angle), Total(theory[1..], x, base))
  }

  // ------------------------------------------------------------------ what a term contributes

  /** Amplitudes r cos(phase) and r sin(phase) of cosine and sine stand for r cos(angle - phase). */
  lemma Harmonic(c: seq<Pair>, x: real, angle: Pair, r: real, phase: Pair)
    requires Value(Cosines(c), x) == r * phase.c && Value(Sines(c), x) == r * phase.s
    ensures PeriodicValue(c, x, angle) == r * Mul(angle, Conj(phase)).c
  {
    hide Value, Cosines, Sines;
    assert (r * phase.c) * angle.c + (r * phase.s) * angle.s == r * (angle.c * phase.c - angle.s * -phase.s);
  }

  /** At angle 0 a theory of one periodic term is the polynomial of its cosine amplitudes, and at a quarter of a circle
      that of its sine amplitudes. */
  lemma PeriodicAtQuarters(p: Part, x: real, base: seq<Pair>)
    requires p.Periodic? && AnglesWithin([p], |base|) && !AllZero(p.args)
    requires forall i | 0 <= i < |p.args| :: 0 <= p.args[i].angle < |base|
    ensures var total := Total([p], x, base);
      && (AngleSum(base, p.args) == ONE ==>
            total.lon == Value(Cosines(p.lonp), x) && total.lat == Value(Cosines(p.latp), x) &&
            total.rad == Value(Cosines(p.radp), x))
      && (AngleSum(base, p.args) == QUARTER ==>
            total.lon == Value(Sines(p.lonp), x) && total.lat == Value(Sines(p.latp), x) &&
            total.rad == Value(Sines(p.radp), x))
  {
    hide Value, Cosines, Sines, AngleSum, AllZero;
    assert [p][0] == p && [p][1..] == [];
  }

  /** A theory of one polynomial term is its polynomials, the longitude reduced to a full circle. */
  lemma PolynomialAlone(p: Part, x: real, base: seq<Pair>)
    requires p.Polynomial?
    ensures Total([p], x, base) == Coordinates(Mods3600(Value(p.lon, x)), Value(p.lat, x), Value(p.rad, x))
  {
    hide Value, Mods3600;
    assert [p][0] == p && [p][1..] == [];
  }

  /** Theories add up. */
  lemma {:induction false} TotalAdds(s: seq<Part>, t: seq<Part>, x: real, base: seq<Pair>)
    requires AnglesWithin(s, |base|) && AnglesWithin(t, |base|)
    ensures AnglesWithin(s + t, |base|)
    ensures Total(s + t, x, base) == Plus(Total(s, x, base), Total(t, x, base))
    decreases |s|
  {
    hide Meaning;
    if s == [] {
      assert s + t == t;
    } else {
      assert (s + t)[1..] == s[1..] + t;
      TotalAdds(s[1..], t, x, base);
    }
  }

  // ------------------------------------------------------------------ the tables

  /** Multiple and planet number, counted from 1, of each argument */
  function ArgPairs(args: seq<Term>): seq<int> {
    if args == [] then [] else [args[0].multiple, args[0].angle + 1] + ArgPairs(args[1..])
  }

  function Flatten(c: seq<Pair>): seq<real> { if c == [] then [] else [c[0].c, c[0].s] + Flatten(c[1..]) }

  /** Number of arguments, the arguments, highest power of T; no argument marks a polynomial. */
  function ArgRow(p: Part): seq<int> {
    match p
    case Polynomial(lon, _, _) => [0, |lon| - 1]
    case Periodic(args, lonp, _, _) => [|args|] + ArgPairs(args) + [|lonp| - 1]
  }

  function LonRow(p: Part): seq<real> { if p.Polynomial? then p.lon else Flatten(p.lonp) }

  function LatRow(p: Part): seq<real> { if p.Polynomial? then p.lat else Flatten(p.latp) }

  function RadRow(p: Part): seq<real> { if p.Polynomial? then p.rad else Flatten(p.radp) }

  /** The table that steers the interpreter; -1 marks the end. */
  function ArgTable(theory: seq<Part>): seq<int> {
    if theory == [] then [-1] else ArgRow(theory[0]) + ArgTable(theory[1..])
  }

  function LonTable(theory: seq<Part>): seq<real> {
    if theory == [] then [] else LonRow(theory[0]) + LonTable(theory[1..])
  }

  function LatTable(theory: seq<Part>): seq<real> {
    if theory == [] then [] else LatRow(theory[0]) + LatTable(theory[1..])
  }

  function RadTable(theory: seq<Part>): seq<real> {
    if theory == [] then [] else RadRow(theory[0]) + RadTable(theory[1..])
  }

  /** The pairs of a periodic term, found in a table at a pointer */
  predicate PairsAt(s: seq<real>, at: int, c: seq<Pair>) {
    0 <= at && at + 2 * |c| <= |s| &&
    forall i {:trigger c[i]} | 0 <= i < |c| :: s[at + 2 * i] == c[i].c && s[at + 2 * i + 1] == c[i].s
  }

  predicate ArgsAt(s: seq<int>, at: int, args: seq<Term>) {
    0 <= at && at + 2 * |args| <= |s| &&
    forall i {:trigger args[i]} | 0 <= i < |args| ::
      s[at + 2 * i] == args[i].multiple && s[at + 2 * i + 1] == args[i].angle + 1
  }

  lemma {:induction false} FlattenAt(s: seq<real>, at: int, c: seq<Pair>, tail: seq<real>)
    requires 0 <= at <= |s| && s[at..] == Flatten(c) + tail
    ensures PairsAt(s, at, c) && |Flatten(c)| == 2 * |c|
    decreases |c|
  {
    if c != [] {
      assert s[at] == s[at..][0] && s[at + 1] == s[at..][1];
      assert s[at + 2..] == s[at..][2..] == Flatten(c[1..]) + tail;
      FlattenAt(s, at + 2, c[1..], tail);
      forall i {:trigger c[i]} | 0 <= i < |c|
        ensures s[at + 2 * i] == c[i].c && s[at + 2 * i + 1] == c[i].s
      {
        if i > 0 { assert c[i] == c[1..][i - 1]; }
      }
    }
  }

  lemma {:induction false} ArgPairsAt(s: seq<int>, at: int, args: seq<Term>, tail: seq<int>)
    requires 0 <= at <= |s| && s[at..] == ArgPairs(args) + tail
    ensures ArgsAt(s, at, args) && |ArgPairs(args)| == 2 * |args|
    decreases |args|
  {
    if args != [] {
      assert s[at] == s[at..][0] && s[at + 1] == s[at..][1];
      assert s[at + 2..] == s[at..][2..] == ArgPairs(args[1..]) + tail;
      ArgPairsAt(s, at + 2, args[1..], tail);
      forall i {:trigger args[i]} | 0 <= i < |args|
        ensures s[at + 2 * i] == args[i].multiple && s[at + 2 * i + 1] == args[i].angle + 1
      {
        if i > 0 { assert args[i] == args[1..][i - 1]; }
      }
    }
  }

  // ------------------------------------------------------------------ Horner's rule

  lemma {:induction false} HornerStep(c: seq<real>, last: real, x: real)
    ensures Value(c + [last], x) == Value(c, x) * x + last
  {
    var d := c + [last];
    if c == [] {
      assert d[1..] == [];
    } else {
      assert d[1..] == c[1..] + [last];
      HornerStep(c[1..], last, x);
      LeadingTerm(c[0], |c|, Value(c[1..], x), x);
    }
  }

  lemma LeadingTerm(a: real, n: nat, v: real, x: real)
    requires n > 0
    ensures a * Power(x, n) + v * x == (a * Power(x, n - 1) + v) * x
  {
    assert Power(x, n) == x * Power(x, n - 1);
  }

  /** One coefficient list: the loops of the polynomial terms */
  method Horner(table: seq<real>, at: int, nt: int, x: real) returns (cu: real, next: int)
    requires 0 <= at && 0 <= nt && at + nt + 1 <= |table|
    ensures next == at + nt + 1 && cu == Value(table[at..next], x)
  {
    cu, next := table[at], at + 1;
    HornerStep([], table[at], x);
    assert table[at..at + 1] == [] + [table[at]];
    for ip := 0 to nt
      invariant next == at + ip + 1 && cu == Value(table[at..next], x)
    {
      HornerStep(table[at..next], table[next], x);
      assert table[at..next + 1] == table[at..next] + [table[next]];
      cu, next := cu * x + table[next], next + 1;
    }
  }

  /** Two interleaved lists: the loops of the periodic terms */
  method HornerPairs(table: seq<real>, at: int, nt: int, x: real, ghost c: seq<Pair>)
    returns (cu: real, su: real, next: int)
    requires |c| == nt + 1 && nt >= 0 && PairsAt(table, at, c)
    ensures next == at + 2 * |c| && cu == Value(Cosines(c), x) && su == Value(Sines(c), x)
  {
    hide Value;
    ghost var cs, sn := Cosines(c), Sines(c);
    assert table[at] == c[0].c;
    cu, su, next := table[at], table[at + 1], at + 2;
    HornerStep([], cs[0], x);
    HornerStep([], sn[0], x);
    EmptyValue(x);
    assert cs[..1] == [] + [cs[0]] && sn[..1] == [] + [sn[0]];
    for ip := 0 to nt
      invariant next == at + 2 * (ip + 1) && cu == Value(cs[..ip + 1], x) && su == Value(sn[..ip + 1], x)
    {
      HornerStep(cs[..ip + 1], c[ip + 1].c, x);
      HornerStep(sn[..ip + 1], c[ip + 1].s, x);
      assert cs[..ip + 2] == cs[..ip + 1] + [c[ip + 1].c] && sn[..ip + 2] == sn[..ip + 1] + [c[ip + 1].s];
      cu, su, next := cu * x + table[next], su * x + table[next + 1], next + 2;
    }
    assert cs[..nt + 1] == cs && sn[..nt + 1] == sn;
  }

  lemma EmptyValue(x: real)
    ensures Value([], x) == 0.0
  {}

  // ------------------------------------------------------------------ the interpreter

  datatype Tables = Tables(arg: seq<int>, lon: seq<real>, lat: seq<real>, rad: seq<real>)

  /** The four table pointers */
  datatype Cursor = Cursor(p: int, pl: int, pb: int, pr: int)

  function TablesOf(theory: seq<Part>): Tables {
    Tables(ArgTable(theory), LonTable(theory), LatTable(theory), RadTable(theory))
  }

  /** The pointers stand where the terms of `rest` are still to come. */
  ghost predicate Ahead(t: Tables, c: Cursor, rest: seq<Part>) {
    && 0 <= c.p <= |t.arg| && 0 <= c.pl <= |t.lon| && 0 <= c.pb <= |t.lat| && 0 <= c.pr <= |t.rad|
    && t.arg[c.p..] == ArgTable(rest) && t.lon[c.pl..] == LonTable(rest)
    && t.lat[c.pb..] == LatTable(rest) && t.rad[c.pr..] == RadTable(rest)
  }

  lemma Split<T>(s: seq<T>, at: int, head: seq<T>, tail: seq<T>)
    requires 0 <= at <= |s| && s[at..] == head + tail
    ensures at + |head| <= |s| && s[at..at + |head|] == head && s[at + |head|..] == tail
  {
    assert s[at..][..|head|] == head;
    assert s[at..][|head|..] == tail;
  }

  /** Where the pointers stand after the next term */
  function After(c: Cursor, p: Part): Cursor {
    Cursor(c.p + |ArgRow(p)|, c.pl + |LonRow(p)|, c.pb + |LatRow(p)|, c.pr + |RadRow(p)|)
  }

  lemma Advance(t: Tables, c: Cursor, rest: seq<Part>)
    requires Ahead(t, c, rest) && rest != []
    ensures Ahead(t, After(c, rest[0]), rest[1..])
    ensures t.arg[c.p..] == ArgRow(rest[0]) + ArgTable(rest[1..])
    ensures t.lon[c.pl..] == LonRow(rest[0]) + LonTable(rest[1..])
    ensures t.lat[c.pb..] == LatRow(rest[0]) + LatTable(rest[1..])
    ensures t.rad[c.pr..] == RadRow(rest[0]) + RadTable(rest[1..])
  {
    hide ArgRow, LonRow, LatRow, RadRow;
    Split(t.arg, c.p, ArgRow(rest[0]), ArgTable(rest[1..]));
    Split(t.lon, c.pl, LonRow(rest[0]), LonTable(rest[1..]));
    Split(t.lat, c.pb, LatRow(rest[0]), LatTable(rest[1..]));
    Split(t.rad, c.pr, RadRow(rest[0]), RadTable(rest[1..]));
  }

  lemma PolynomialAhead(t: Tables, c: Cursor, rest: seq<Part>)
    requires Ahead(t, c, rest) && rest != [] && rest[0].Polynomial? && WellFormed(rest[0])
    ensures Ahead(t, After(c, rest[0]), rest[1..])
    ensures var (q, n) := (rest[0], |rest[0].lon|);
      && After(c, q) == Cursor(c.p + 2, c.pl + n, c.pb + n, c.pr + n)
      && c.p + 2 <= |t.arg| && c.pl + n <= |t.lon| && c.pb + n <= |t.lat| && c.pr + n <= |t.rad|
      && t.arg[c.p] == 0 && t.arg[c.p + 1] == n - 1
      && t.lon[c.pl..c.pl + n] == q.lon && t.lat[c.pb..c.pb + n] == q.lat && t.rad[c.pr..c.pr + n] == q.rad
  {
    hide ArgTable, LonTable, LatTable, RadTable, Ahead, ArgRow, LonRow, LatRow, RadRow, WellFormed;
    PolynomialRows(rest[0]);
    AheadBounds(t, c, rest);
    Advance(t, c, rest);
    ZeroRowAhead(t.arg, c.p, rest[0], ArgTable(rest[1..]));
    Split(t.lon, c.pl, rest[0].lon, LonTable(rest[1..]));
    Split(t.lat, c.pb, rest[0].lat, LatTable(rest[1..]));
    Split(t.rad, c.pr, rest[0].rad, RadTable(rest[1..]));
  }

  lemma PolynomialRows(q: Part)
    requires q.Polynomial? && WellFormed(q)
    ensures ArgRow(q) == [0, |q.lon| - 1] && LonRow(q) == q.lon && LatRow(q) == q.lat && RadRow(q) == q.rad
    ensures |q.lon| == |q.lat| == |q.rad|
  {}

  lemma ZeroRowAhead(s: seq<int>, at: int, q: Part, tail: seq<int>)
    requires q.Polynomial? && 0 <= at <= |s| && s[at..] == ArgRow(q) + tail
    ensures at + 2 <= |s| && s[at] == 0 && s[at + 1] == |q.lon| - 1
  {
    assert s[at] == s[at..][0] && s[at + 1] == s[at..][1];
  }

  method PolynomialTerm(t: Tables, c: Cursor, x: real, ghost rest: seq<Part>) returns (m: Coordinates, c': Cursor)
    requires Ahead(t, c, rest) && rest != [] && rest[0].Polynomial? && WellFormed(rest[0])
    ensures m == Meaning(rest[0], x, ONE) && c' == After(c, rest[0])
  {
    hide Value, Mods3600, Ahead, After;
    AheadBounds(t, c, rest);
    PolynomialAhead(t, c, rest);
    var nt := t.arg[c.p + 1];
    var cu, pl := Horner(t.lon, c.pl, nt, x);
    var sl := Mods3600(cu);
    var sb, pb := Horner(t.lat, c.pb, nt, x);
    var sr, pr := Horner(t.rad, c.pr, nt, x);
    m := Coordinates(sl, sb, sr);
    c' := Cursor(c.p + 2, pl, pb, pr);
  }

  lemma PeriodicAhead(t: Tables, c: Cursor, rest: seq<Part>)
    requires Ahead(t, c, rest) && rest != [] && rest[0].Periodic? && WellFormed(rest[0])
    ensures Ahead(t, After(c, rest[0]), rest[1..])
    ensures var (q, n, k) := (rest[0], |rest[0].args|, 2 * |rest[0].lonp|);
      && After(c, q) == Cursor(c.p + 2 * n + 2, c.pl + k, c.pb + k, c.pr + k)
      && c.p + 2 * n + 2 <= |t.arg| && t.arg[c.p] == n
      && ArgsAt(t.arg, c.p + 1, q.args) && t.arg[c.p + 2 * n + 1] == |q.lonp| - 1
      && PairsAt(t.lon, c.pl, q.lonp) && PairsAt(t.lat, c.pb, q.latp) && PairsAt(t.rad, c.pr, q.radp)
  {
    hide ArgTable, LonTable, LatTable, RadTable, Ahead, ArgPairs, Flatten, PairsAt, ArgsAt;
    var q, tail := rest[0], rest[1..];
    AheadBounds(t, c, rest);
    Advance(t, c, rest);
    FlattenAt(t.lon, c.pl, q.lonp, LonTable(tail));
    FlattenAt(t.lat, c.pb, q.latp, LatTable(tail));
    FlattenAt(t.rad, c.pr, q.radp, RadTable(tail));
    ArgRowAhead(t.arg, c.p, q, ArgTable(tail));
  }

  lemma ArgRowAhead(s: seq<int>, at: int, q: Part, tail: seq<int>)
    requires q.Periodic? && 0 <= at <= |s| && s[at..] == ArgRow(q) + tail
    ensures var n := |q.args|;
      && at + 2 * n + 2 <= |s| && |ArgRow(q)| == 2 * n + 2 && s[at] == n
      && ArgsAt(s, at + 1, q.args) && s[at + 2 * n + 1] == |q.lonp| - 1
  {
    hide ArgPairs, ArgsAt;
    var after := [|q.lonp| - 1] + tail;
    assert s[at..] == [|q.args|] + (ArgPairs(q.args) + after);
    assert s[at] == s[at..][0];
    assert s[at + 1..] == s[at..][1..] == ArgPairs(q.args) + after;
    ArgPairsAt(s, at + 1, q.args, after);
    Split(s, at + 1, ArgPairs(q.args), after);
    assert s[at + 1 + 2 * |q.args|] == s[at + 1 + 2 * |q.args|..][0];
  }

  /** The loop over the arguments of a periodic term */
  method CombineArgs(g: Angles, argTbl: seq<int>, at: int, np: int, ghost args: seq<Term>) returns (v: Pair, p: int)
    requires g.Valid() && |args| == np && ArgsAt(argTbl, at, args)
    requires forall i | 0 <= i < |args| :: g.InTable(args[i])
    ensures v == g.Combined(args).v && p == at + 2 * np
  {
    p := at;
    var comb := NOTHING;
    for ip := 0 to np
      invariant p == at + 2 * ip && comb == g.Combined(args[..ip])
    {
      assert args[..ip + 1][..ip] == args[..ip];
      assert args[ip] == Term(argTbl[p], argTbl[p + 1] - 1);
      comb := g.Combine(comb, Term(argTbl[p], argTbl[p + 1] - 1));
      p := p + 2;
    }
    assert args[..np] == args;
    v := comb.v;
  }

  method PeriodicTerm(g: Angles, t: Tables, c: Cursor, x: real, ghost rest: seq<Part>)
    returns (m: Coordinates, c': Cursor)
    requires g.Valid() && Ahead(t, c, rest) && rest != [] && rest[0].Periodic? && WellFormed(rest[0])
    requires forall i | 0 <= i < |rest[0].args| :: g.InTable(rest[0].args[i])
    ensures m == Meaning(rest[0], x, g.Combined(rest[0].args).v) && c' == After(c, rest[0])
  {
    hide Value, Ahead, After, PairsAt, ArgsAt, Cosines, Sines, Mix;
    AheadBounds(t, c, rest);
    PeriodicAhead(t, c, rest);
    var np := t.arg[c.p];
    var v, p := CombineArgs(g, t.arg, c.p + 1, np, rest[0].args);
    var nt := t.arg[p];
    var cu, su, pl := HornerPairs(t.lon, c.pl, nt, x, rest[0].lonp);
    var sl := Mix(cu, su, v);
    var pb, pr;
    cu, su, pb := HornerPairs(t.lat, c.pb, nt, x, rest[0].latp);
    var sb := Mix(cu, su, v);
    cu, su, pr := HornerPairs(t.rad, c.pr, nt, x, rest[0].radp);
    var sr := Mix(cu, su, v);
    m := Coordinates(sl, sb, sr);
    c' := Cursor(p + 1, pl, pb, pr);
  }

  ghost predicate InTables(g: Angles, theory: seq<Part>)
    reads g
  {
    forall t | 0 <= t < |theory| && theory[t].Periodic? ::
      forall i | 0 <= i < |theory[t].args| :: g.InTable(theory[t].args[i])
  }

  /** The sum over the terms when angles come from the table of multiples, whatever it holds */
  ghost function TableTotal(g: Angles, theory: seq<Part>, x: real): Coordinates
    requires g.Valid() && InTables(g, theory)
    reads g, g.ss, g.cc
  {
    if theory == [] then Coordinates(0.0, 0.0, 0.0)
    else
      var p := theory[0];
      Plus(Meaning(p, x, if p.Periodic? then g.Combined(p.args).v else ONE), TableTotal(g, theory[1..], x))
  }

  lemma MarkerAhead(t: Tables, c: Cursor, rest: seq<Part>)
    requires Ahead(t, c, rest) && forall i | 0 <= i < |rest| :: WellFormed(rest[i])
    ensures c.p < |t.arg|
    ensures t.arg[c.p] < 0 <==> rest == []
    ensures rest != [] ==> (t.arg[c.p] == 0 <==> rest[0].Polynomial?) && Ahead(t, After(c, rest[0]), rest[1..])
    ensures rest == [] ==> c == Cursor(|t.arg| - 1, |t.lon|, |t.lat|, |t.rad|)
  {
    if rest == [] {
      assert t.arg[c.p] == t.arg[c.p..][0];
    } else if rest[0].Polynomial? {
      PolynomialAhead(t, c, rest);
    } else {
      PeriodicAhead(t, c, rest);
    }
  }

  lemma PlusZero(a: Coordinates)
    ensures Plus(a, Coordinates(0.0, 0.0, 0.0)) == a == Plus(Coordinates(0.0, 0.0, 0.0), a)
  {}

  lemma PlusAssoc(a: Coordinates, b: Coordinates, c: Coordinates)
    ensures Plus(Plus(a, b), c) == Plus(a, Plus(b, c))
  {}

  /** The interpreter loop of swi_moshplan2: it adds up the terms, stops at the end marker, and has then read every
      number of all four tables. */
  method Interpret(g: Angles, t: Tables, x: real, ghost theory: seq<Part>) returns (sum: Coordinates, c: Cursor)
    requires g.Valid() && t == TablesOf(theory) && InTables(g, theory)
    requires forall i | 0 <= i < |theory| :: WellFormed(theory[i])
    ensures sum == TableTotal(g, theory, x)
    ensures c == Cursor(|t.arg|, |t.lon|, |t.lat|, |t.rad|)
  {
    hide Meaning, Ahead, After, WellFormed, TablesOf, Plus;
    c, sum := Cursor(0, 0, 0, 0), Coordinates(0.0, 0.0, 0.0);
    StartAhead(theory);
    PlusZero(TableTotal(g, theory, x));
    ghost var rest := theory;
    while true
      invariant Ahead(t, c, rest) && InTables(g, rest) && 0 <= c.p
      invariant forall i | 0 <= i < |rest| :: WellFormed(rest[i])
      invariant Plus(sum, TableTotal(g, rest, x)) == TableTotal(g, theory, x)
      decreases |rest|
    {
      MarkerAhead(t, c, rest);
      var np := t.arg[c.p];
      if np < 0 {
        c := c.(p := c.p + 1);
        PlusZero(sum);
        break;
      }
      var m: Coordinates;
      if np == 0 {
        m, c := PolynomialTerm(t, c, x, rest);
      } else {
        m, c := PeriodicTerm(g, t, c, x, rest);
      }
      PlusAssoc(sum, m, TableTotal(g, rest[1..], x));
      sum := Plus(sum, m);
      rest := rest[1..];
      AheadBounds(t, c, rest);
    }
  }

  lemma AheadBounds(t: Tables, c: Cursor, rest: seq<Part>)
    requires Ahead(t, c, rest)
    ensures 0 <= c.p <= |t.arg| && 0 <= c.pl <= |t.lon| && 0 <= c.pb <= |t.lat| && 0 <= c.pr <= |t.rad|
  {}

  lemma StartAhead(theory: seq<Part>)
    ensures Ahead(TablesOf(theory), Cursor(0, 0, 0, 0), theory)
  {}

  ghost predicate HarmonicsWithin(g: Angles, counts: seq<int>, theory: seq<Part>)
    requires g.Valid() && |counts| == g.ss.Length0
    reads g
  {
    forall t | 0 <= t < |theory| && theory[t].Periodic? :: g.WithinCounts(counts, theory[t].args)
  }

  /** With its harmonics filled in, the theory is summed over the angles themselves. */
  lemma {:induction false} TableTotalIsTotal(g: Angles, base: seq<Pair>, counts: seq<int>, theory: seq<Part>, x: real)
    requires g.Valid() && |base| == |counts| == g.ss.Length0 && g.Tabulated(base, counts)
    requires HarmonicsWithin(g, counts, theory)
    ensures InTables(g, theory) && AnglesWithin(theory, |base|)
    ensures TableTotal(g, theory, x) == Total(theory, x, base)
  {
    if theory != [] {
      TableTotalIsTotal(g, base, counts, theory[1..], x);
      if theory[0].Periodic? { g.CombinedIsSum(base, counts, theory[0].args); }
    }
  }

  /** swi_moshplan2: fill the multiples of the nine angles as far as this planet needs them */
  method FillAngles(g: Angles, base: seq<Pair>, counts: seq<int>)
    requires g.Valid() && |base| == |counts| == g.ss.Length0
    requires forall m | 0 <= m < |counts| :: counts[m] <= g.ss.Length1
    modifies g.ss, g.cc
    ensures g.Tabulated(base, counts)
  {
    for i := 0 to |counts|
      invariant forall m | 0 <= m < i :: g.Filled(m, base[m], counts[m])
    {
      if counts[i] > 0 {
        label before:
        g.Sscc(i, base[i], counts[i]);
        forall m | 0 <= m < i
          ensures g.Filled(m, base[m], counts[m])
        {
          assert forall j | 0 <= j < g.ss.Length1 :: g.Entry(m, j) == old@before(g.Entry(m, j));
        }
      }
    }
  }

  datatype Plan = Plan(maxHarmonic: seq<int>, tables: Tables, distance: real)

  /** swi_moshplan2, from the angles at time T on: longitude, latitude and radius; `str` is radians per arc second */
  method Moshplan2(g: Angles, plan: Plan, base: seq<Pair>, x: real, str: real, ghost theory: seq<Part>)
    returns (pobj: Coordinates)
    requires g.Valid() && |base| == |plan.maxHarmonic| == g.ss.Length0
    requires forall m | 0 <= m < |base| :: plan.maxHarmonic[m] <= g.ss.Length1
    requires plan.tables == TablesOf(theory) && HarmonicsWithin(g, plan.maxHarmonic, theory)
    requires forall i | 0 <= i < |theory| :: WellFormed(theory[i])
    modifies g.ss, g.cc
    ensures AnglesWithin(theory, |base|)
    ensures var sum := Total(theory, x, base);
      pobj == Coordinates(str * sum.lon, str * sum.lat, str * plan.distance * sum.rad + plan.distance)
  {
    hide TablesOf, WellFormed, Total, TableTotal;
    FillAngles(g, base, plan.maxHarmonic);
    TableTotalIsTotal(g, base, plan.maxHarmonic, theory, x);
    var sum, c := Interpret(g, plan.tables, x, theory);
    assert sum == Total(theory, x, base);
    pobj := Coordinates(str * sum.lon, str * sum.lat, str * plan.distance * sum.rad + plan.distance);
  }
}
