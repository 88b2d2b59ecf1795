/** The parser for orbital elements that depend on time (check_t_terms in eph/sweph/src/swemplan.c): signed terms,
    each a product of decimal numbers and powers of T, the time in Julian centuries.

    A pointer into the text is modelled by the rest of the text it points to. `atof` is a parameter. */
module TermParser {
  import opened Numbers

  predicate Blank(c: char) { c == ' ' || c == '\t' }

  predicate Sign(c: char) { c == '+' || c == '-' }

  predicate Digit(c: char) { '0' <= c <= '9' }

  predicate Numeric(c: char) { Digit(c) || c == '.' }

  predicate LetterT(c: char) { c == 't' || c == 'T' }

  /** The characters the parser can move past */
  predicate Known(c: char) { Blank(c) || Sign(c) || Numeric(c) || LetterT(c) || c == '*' }

  predicate Readable(r: string) { forall i | 0 <= i < |r| :: Known(r[i]) }

  function SkipBlanks(r: string): (s: string)
    ensures |s| <= |r| && (s != "" ==> !Blank(s[0])) && (Readable(r) ==> Readable(s))
  {
    if r != "" && Blank(r[0]) then SkipBlanks(r[1..]) else r
  }

  function SkipStars(r: string): (s: string)
    ensures |s| <= |r| && (s != "" ==> !Blank(s[0]) && s[0] != '*') && (Readable(r) ==> Readable(s))
    ensures r != "" && r[0] == '*' ==> |s| < |r|
    ensures r != "" && r[0] != '*' && !Blank(r[0]) ==> s == r
  {
    if r != "" && (Blank(r[0]) || r[0] == '*') then SkipStars(r[1..]) else r
  }

  function SkipNumeric(r: string): (s: string)
    ensures |s| <= |r| && (Readable(r) ==> Readable(s))
    ensures r != "" && Numeric(r[0]) ==> |s| < |r|
    ensures r == "" || !Numeric(r[0]) ==> s == r
  {
    if r != "" && Numeric(r[0]) then SkipNumeric(r[1..]) else r
  }

  // ------------------------------------------------------------------ atoi, and the powers of T

  function DigitsValue(r: string, acc: int): int {
    if r != "" && Digit(r[0]) then DigitsValue(r[1..], 10 * acc + (r[0] as int - '0' as int)) else acc
  }

  /** C's atoi on these texts: blanks, an optional sign, digits */
  function Atoi(r: string): int {
    var s := SkipBlanks(r);
    if s != "" && s[0] == '-' then -DigitsValue(s[1..], 0)
    else if s != "" && s[0] == '+' then DigitsValue(s[1..], 0)
    else DigitsValue(s, 0)
  }

  /** The table tt, whose entry 0 is T and not 1 */
  function TimePower(x: real, i: int): real
    requires 0 <= i <= 4
  {
    if i == 0 then x else Power(x, i)
  }

  /** What the source multiplies by after a letter T, with `r` the text behind it */
  function TFactor(r: string, x: real): real {
    if r != "" && Sign(r[0]) then x
    else if 0 <= Atoi(r) <= 4 then TimePower(x, Atoi(r))
    else 1.0
  }

  function NumberFactor(r: string, atof: string -> real): real {
    if atof(r) != 0.0 || (r != "" && r[0] == '0') then atof(r) else 1.0
  }

  function Times(a: real, b: real): real { a * b }

  // ------------------------------------------------------------------ the parser

  /** The value the loop arrives at from text `r`, with sum `out`, product `fac`, and whether anything was read */
  function Parse(r: string, x: real, atof: string -> real, out: real, fac: real, started: bool): real
    requires Readable(r)
    decreases |r|
  {
    var r1 := SkipBlanks(r);
    var out' := if started then out + fac else out;
    if r1 == "" then out'
    else if Sign(r1[0]) then Parse(r1[1..], x, atof, out', if r1[0] == '-' then -1.0 else 1.0, true)
    else
      var r2 := SkipStars(r1);
      if r2 != "" && LetterT(r2[0]) then
        Parse(SkipNumeric(r2[1..]), x, atof, out, Times(fac, TFactor(r2[1..], x)), true)
      else Parse(SkipNumeric(r2), x, atof, out, Times(fac, NumberFactor(r2, atof)), true)
  }

  predicate HasSign(r: string) { exists i :: 0 <= i < |r| && Sign(r[i]) }

  /** check_t_terms; x is t / 36525 */
  method CheckTTerms(t: real, sinp: string, atof: string -> real) returns (retc: int, doutp: real)
    requires Readable(sinp)
    ensures doutp == Parse(sinp, t / 36525.0, atof, 0.0, 1.0, false)
    ensures retc == if HasSign(sinp) then 1 else 0
  {
    hide Times, TFactor, NumberFactor, SkipBlanks, SkipStars, SkipNumeric, Steps, Readable, Known;
    var x := t / 36525.0;
    FirstStep(sinp);
    retc := 0;
    for i := 0 to |sinp|
      invariant retc == if exists j :: 0 <= j < i && Sign(sinp[j]) then 1 else 0
    {
      if Sign(sinp[i]) { retc := 1; }
    }
    var r, fac, z := sinp, 1.0, 0;
    doutp := 0.0;
    while true
      invariant Readable(r) && z >= 0 && r == Steps(sinp, z)
      invariant Parse(r, x, atof, doutp, fac, z > 0) == Parse(sinp, x, atof, 0.0, 1.0, false)
      decreases |r|
    {
      NextStep(sinp, z);
      StepKeepsReadable(r);
      EmptyStep();
      r := SkipBlanks(r);
      if r == "" || Sign(r[0]) {
        if z > 0 { doutp := doutp + fac; }
        fac := 1.0;
        if r == "" { return; }
        if r[0] == '-' { fac := -1.0; }
        r := r[1..];
      } else {
        r := SkipStars(r);
        if r != "" && LetterT(r[0]) {
          r := r[1..];
          fac := Times(fac, TFactor(r, x));
        } else {
          fac := Times(fac, NumberFactor(r, atof));
        }
        r := SkipNumeric(r);
      }
      z := z + 1;
    }
  }

  // ------------------------------------------------------------------ when the loop ends

  /** What one iteration leaves of the text; "" is where it returns. */
  function Step(r: string): string {
    var r1 := SkipBlanks(r);
    if r1 == "" then ""
    else if Sign(r1[0]) then r1[1..]
    else
      var r2 := SkipStars(r1);
      if r2 != "" && LetterT(r2[0]) then SkipNumeric(r2[1..]) else SkipNumeric(r2)
  }

  function Steps(r: string, n: nat): string { if n == 0 then r else Step(Steps(r, n - 1)) }

  lemma FirstStep(r: string)
    ensures Steps(r, 0) == r
  {}

  lemma NextStep(r: string, n: nat)
    ensures Steps(r, n + 1) == Step(Steps(r, n))
  {}

  /** Skipping passes known characters only. */
  lemma {:induction false} SkipsKnown(r: string)
    ensures Readable(SkipBlanks(r)) <==> Readable(r)
    ensures Readable(SkipStars(r)) <==> Readable(r)
    ensures Readable(SkipNumeric(r)) <==> Readable(r)
  {
    if r != "" && Known(r[0]) {
      SkipsKnown(r[1..]);
      assert r == [r[0]] + r[1..];
    }
  }

  lemma StepKeepsReadable(r: string)
    ensures Readable(Step(r)) <==> Readable(r)
    ensures Readable(r) && r != "" ==> |Step(r)| < |r|
  {
    hide SkipBlanks, SkipStars, SkipNumeric;
    var r1 := SkipBlanks(r);
    SkipsKnown(r);
    if r1 != "" {
      var r2 := SkipStars(r1);
      SkipsKnown(r1);
      SkipsKnown(r2);
      assert r1 == [r1[0]] + r1[1..];
      if r2 != "" {
        assert r2 == [r2[0]] + r2[1..];
        SkipsKnown(r2[1..]);
      }
    }
  }

  lemma {:induction false} StepsKeepReadable(r: string, n: nat)
    ensures Readable(Steps(r, n)) <==> Readable(r)
    ensures Readable(r) ==> |Steps(r, n)| <= if n < |r| then |r| - n else 0
  {
    hide Step, Readable;
    if n > 0 {
      StepsKeepReadable(r, n - 1);
      StepKeepsReadable(Steps(r, n - 1));
      EmptyStep();
    }
  }

  lemma EmptyStep()
    ensures Step("") == "" && Readable("")
  {}

  /** check_t_terms returns if and only if the text holds no character but blanks, signs, digits, points, stars and Ts:
      at any other character the loop goes on for ever. */
  lemma LoopEnds(r: string)
    ensures (exists n :: Steps(r, n) == "") <==> Readable(r)
  {
    StepsKeepReadable(r, |r|);
    assert Readable(r) ==> Steps(r, |r|) == "";
    forall n | Steps(r, n) == ""
      ensures Readable(r)
    {
      StepsKeepReadable(r, n);
    }
  }

  // ------------------------------------------------------------------ the printed form

  /** A decimal number, or T with a written power; power 0 is a T without one. */
  datatype Factor = Number(digits: string, frac: string) | Century(power: nat)

  /** A sign after blanks, or a factor after blanks and stars */
  datatype Token = SignToken(sep: string, sign: char) | FactorToken(sep: string, f: Factor)

  predicate AllDigits(s: string) { forall i | 0 <= i < |s| :: Digit(s[i]) }

  predicate Blanks(s: string) { forall i | 0 <= i < |s| :: Blank(s[i]) }

  predicate Separator(s: string) { forall i | 0 <= i < |s| :: Blank(s[i]) || s[i] == '*' }

  predicate GoodFactor(f: Factor) {
    match f
    case Number(digits, frac) => digits != "" && AllDigits(digits) && AllDigits(frac)
    case Century(power) => power <= 4
  }

  function FactorText(f: Factor): (s: string)
    ensures s != "" || f.Number?
  {
    match f
    case Number(digits, frac) => digits + (if frac == "" then "" else "." + frac)
    case Century(power) => "T" + PowerText(power)
  }

  function PowerText(power: nat): string {
    if power == 1 then "1" else if power == 2 then "2" else if power == 3 then "3" else if power == 4 then "4" else ""
  }

  function Text(tokens: seq<Token>): string {
    if tokens == [] then ""
    else
      (match tokens[0]
       case SignToken(sep, sign) => sep + [sign]
       case FactorToken(sep, f) => sep + FactorText(f)) + Text(tokens[1..])
  }

  /** Signs are signs, and a number that follows another factor is set off from it. */
  predicate GoodTokens(tokens: seq<Token>) {
    tokens == [] ||
    (GoodTokens(tokens[1..]) &&
     match tokens[0]
     case SignToken(sep, sign) => Blanks(sep) && Sign(sign)
     case FactorToken(sep, f) => Separator(sep) && GoodFactor(f) && SetOff(tokens[1..]))
  }

  predicate SetOff(tokens: seq<Token>) {
    tokens != [] && tokens[0].FactorToken? && tokens[0].f.Number? ==> tokens[0].sep != ""
  }

  lemma TenPowerPositive(k: nat)
    ensures Power(10.0, k) > 0.0
  {}

  function DecimalValue(digits: string, frac: string): real {
    TenPowerPositive(|frac|);
    DigitsValue(digits, 0) as real + DigitsValue(frac, 0) as real / Power(10.0, |frac|)
  }

  /** Text that cannot belong to a number before it */
  predicate Ends(r: string) { r == "" || Blank(r[0]) || Sign(r[0]) || r[0] == '*' || LetterT(r[0]) }

  /** The library's atof reads decimal numbers as written. */
  ghost predicate ReadsDecimals(atof: string -> real) {
    forall digits, frac, r | GoodFactor(Number(digits, frac)) && Ends(r) ::
      atof(FactorText(Number(digits, frac)) + r) == DecimalValue(digits, frac)
  }

  /** The value a factor is read with, given the text behind it */
  function ReadValue(f: Factor, after: string, x: real): real {
    match f
    case Number(digits, frac) => DecimalValue(digits, frac)
    case Century(power) => if power == 0 then TFactor(after, x) else Power(x, power)
  }

  /** Sum of products over the tokens, from sum `out` and product `fac` */
  function Fold(tokens: seq<Token>, x: real, out: real, fac: real, started: bool): real {
    if tokens == [] then (if started then out + fac else out)
    else match tokens[0]
      case SignToken(_, sign) =>
        Fold(tokens[1..], x, if started then out + fac else out, if sign == '-' then -1.0 else 1.0, true)
      case FactorToken(_, f) =>
        Fold(tokens[1..], x, out, Times(fac, ReadValue(f, Text(tokens[1..]), x)), true)
  }

  // ------------------------------------------------------------------ reading what was printed

  lemma {:induction false} SkipBlanksOver(b: string, r: string)
    requires Blanks(b)
    ensures SkipBlanks(b + r) == SkipBlanks(r)
  {
    if b == "" {
      assert b + r == r;
    } else {
      assert (b + r)[1..] == b[1..] + r;
      SkipBlanksOver(b[1..], r);
    }
  }

  lemma {:induction false} SkipStarsOver(b: string, r: string)
    requires Separator(b)
    ensures SkipStars(b + r) == SkipStars(r)
  {
    if b == "" {
      assert b + r == r;
    } else {
      assert (b + r)[1..] == b[1..] + r;
      SkipStarsOver(b[1..], r);
    }
  }

  lemma EndsNumber(r: string)
    requires Ends(r)
    ensures r == "" || !Numeric(r[0])
  {}

  lemma {:induction false} SkipNumericOver(d: string, r: string)
    requires (forall i | 0 <= i < |d| :: Numeric(d[i])) && Ends(r)
    ensures SkipNumeric(d + r) == r
  {
    hide Ends, Numeric;
    EndsNumber(r);
    if d == "" {
      assert d + r == r;
    } else {
      assert (d + r)[1..] == d[1..] + r;
      SkipNumericOver(d[1..], r);
    }
  }

  /** A separator in front of a factor is skipped, whether by the first or by the second loop. */
  lemma {:induction false} SkipToFactor(sep: string, r: string)
    requires Separator(sep) && r != "" && !Blank(r[0]) && r[0] != '*' && !Sign(r[0])
    ensures var r1 := SkipBlanks(sep + r); r1 != "" && !Sign(r1[0]) && SkipStars(r1) == r
  {
    if sep == "" {
      assert sep + r == r;
    } else {
      assert (sep + r)[1..] == sep[1..] + r;
      if Blank(sep[0]) {
        SkipToFactor(sep[1..], r);
      } else {
        SkipStarsOver(sep, r);
      }
    }
  }

  lemma ReadableConcat(a: string, b: string)
    requires Readable(a) && Readable(b)
    ensures Readable(a + b)
  {}

  lemma {:induction false} TextReadable(tokens: seq<Token>)
    requires GoodTokens(tokens)
    ensures Readable(Text(tokens))
  {
    if tokens != [] {
      TextReadable(tokens[1..]);
      match tokens[0]
      case SignToken(sep, sign) => ReadableConcat(sep + [sign], Text(tokens[1..]));
      case FactorToken(sep, f) =>
        assert Readable(FactorText(f));
        ReadableConcat(sep + FactorText(f), Text(tokens[1..]));
    }
  }

  /** What follows a factor does not run into it. */
  lemma TextEnds(tokens: seq<Token>)
    requires GoodTokens(tokens) && SetOff(tokens)
    ensures Ends(Text(tokens))
  {
    if tokens != [] {
      var t := tokens[0];
      if t.sep != "" {
        assert Text(tokens)[0] == t.sep[0];
      } else if t.SignToken? {
        assert Text(tokens)[0] == t.sign;
      } else {
        assert Text(tokens)[0] == 'T';
      }
    }
  }

  lemma {:induction false} DigitsValueGrows(r: string, acc: int)
    requires acc >= 0
    ensures DigitsValue(r, acc) >= acc
  {
    if r != "" && Digit(r[0]) { DigitsValueGrows(r[1..], 10 * acc + (r[0] as int - '0' as int)); }
  }

  /** A numeral of value zero starts with the digit 0, which is what the source looks for. */
  lemma ZeroStartsWithZero(digits: string, frac: string)
    requires GoodFactor(Number(digits, frac)) && DecimalValue(digits, frac) == 0.0
    ensures digits[0] == '0'
  {
    TenPowerPositive(|frac|);
    DigitsValueGrows(frac, 0);
    assert DigitsValue(frac, 0) as real / Power(10.0, |frac|) >= 0.0;
    DigitsValueGrows(digits[1..], digits[0] as int - '0' as int);
  }

  lemma PowerTextRead(power: nat, r: string, x: real)
    requires power <= 4 && Ends(r)
    ensures TFactor(PowerText(power) + r, x) == ReadValue(Century(power), r, x)
    ensures SkipNumeric(PowerText(power) + r) == r
  {
    hide Power, SkipNumeric, Atoi;
    SkipNumericOver(PowerText(power), r);
    if power == 0 {
      assert PowerText(power) + r == r;
    } else {
      AtoiOfDigit(power, r);
    }
  }

  lemma DigitFacts(c: char)
    requires Digit(c)
    ensures !Blank(c) && !Sign(c)
  {
    assert '0' as int <= c as int && ' ' as int == 32 && '\t' as int == 9 && '+' as int == 43 && '-' as int == 45;
  }

  lemma PowerDigit(power: nat)
    requires 1 <= power <= 4
    ensures var p := PowerText(power); |p| == 1 && Digit(p[0]) && p[0] as int - '0' as int == power
  {}

  /** atoi stops behind the digit. */
  lemma AtoiOfDigit(power: nat, r: string)
    requires 1 <= power <= 4 && Ends(r)
    ensures var s := PowerText(power) + r; Atoi(s) == power && !Sign(s[0])
  {
    var s := PowerText(power) + r;
    PowerDigit(power);
    DigitFacts(s[0]);
    DigitsEnd(r, power);
    hide Ends, PowerText, Digit, Blank;
    assert s[1..] == r && s[0] == PowerText(power)[0];
    assert SkipBlanks(s) == s && s[0] != '-' && s[0] != '+';
    assert DigitsValue(s, 0) == DigitsValue(r, power);
  }

  lemma DigitsEnd(r: string, acc: int)
    requires Ends(r)
    ensures DigitsValue(r, acc) == acc
  {}

  /** One pass of the loop reads one factor. */
  lemma ReadFactor(sep: string, f: Factor, r: string, x: real, atof: string -> real,
                   out: real, fac: real, started: bool)
    requires Separator(sep) && GoodFactor(f) && Ends(r) && Readable(r) && ReadsDecimals(atof)
    ensures Readable(sep + FactorText(f) + r)
    ensures Parse(sep + FactorText(f) + r, x, atof, out, fac, started)
      == Parse(r, x, atof, out, Times(fac, ReadValue(f, r, x)), true)
  {
    hide Times, TFactor, ReadsDecimals, DecimalValue, Parse, SkipBlanks, SkipStars, SkipNumeric,
      NumberFactor, Ends, Power;
    var body := FactorText(f) + r;
    assert sep + FactorText(f) + r == sep + body;
    ReadableConcat(FactorText(f), r);
    ReadableConcat(sep, body);
    FactorStart(f);
    assert body[0] == FactorText(f)[0];
    hide Separator, Readable;
    SkipToFactor(sep, body);
    ParseFactor(sep + body, body, x, atof, out, fac, started);
    match f
    case Century(power) =>
      assert body[1..] == PowerText(power) + r;
      PowerTextRead(power, r, x);
    case Number(digits, frac) =>
      SkipNumericOver(FactorText(f), r);
      NumberRead(digits, frac, r, atof);
  }

  lemma FactorStart(f: Factor)
    requires GoodFactor(f)
    ensures Readable(FactorText(f)) && FactorText(f) != ""
    ensures var c := FactorText(f)[0]; !Blank(c) && c != '*' && !Sign(c) && (LetterT(c) <==> f.Century?)
    ensures f.Number? ==> forall i | 0 <= i < |FactorText(f)| :: Numeric(FactorText(f)[i])
  {}

  /** The branch of the loop for a factor: past blanks and stars, a power of T or a number */
  lemma ParseFactor(s: string, r2: string, x: real, atof: string -> real, out: real, fac: real, started: bool)
    requires Readable(s) && r2 != ""
    requires var r1 := SkipBlanks(s); r1 != "" && !Sign(r1[0]) && SkipStars(r1) == r2
    ensures Readable(r2) && Readable(SkipNumeric(r2)) && Readable(SkipNumeric(r2[1..]))
    ensures Parse(s, x, atof, out, fac, started)
      == if LetterT(r2[0]) then Parse(SkipNumeric(r2[1..]), x, atof, out, Times(fac, TFactor(r2[1..], x)), true)
         else Parse(SkipNumeric(r2), x, atof, out, Times(fac, NumberFactor(r2, atof)), true)
  {
    hide Times, TFactor, NumberFactor, SkipBlanks, SkipStars, SkipNumeric;
  }

  lemma NumberRead(digits: string, frac: string, r: string, atof: string -> real)
    requires GoodFactor(Number(digits, frac)) && Ends(r) && ReadsDecimals(atof)
    ensures NumberFactor(FactorText(Number(digits, frac)) + r, atof) == DecimalValue(digits, frac)
  {
    hide DecimalValue;
    if DecimalValue(digits, frac) == 0.0 { ZeroStartsWithZero(digits, frac); }
  }

  lemma ReadSign(sep: string, sign: char, r: string, x: real, atof: string -> real, out: real, fac: real, started: bool)
    requires Blanks(sep) && Sign(sign) && Readable(r)
    ensures Readable(sep + [sign] + r)
    ensures Parse(sep + [sign] + r, x, atof, out, fac, started)
      == Parse(r, x, atof, if started then out + fac else out, if sign == '-' then -1.0 else 1.0, true)
  {
    ReadableConcat([sign], r);
    ReadableConcat(sep, [sign] + r);
    assert sep + [sign] + r == sep + ([sign] + r);
    SkipBlanksOver(sep, [sign] + r);
    assert ([sign] + r)[1..] == r;
  }

  /** The parser reads a printed text token by token. */
  lemma {:induction false} ParseText(tokens: seq<Token>, x: real, atof: string -> real,
                                       out: real, fac: real, started: bool)
    requires GoodTokens(tokens) && ReadsDecimals(atof)
    ensures Readable(Text(tokens))
    ensures Parse(Text(tokens), x, atof, out, fac, started) == Fold(tokens, x, out, fac, started)
    decreases |tokens|
  {
    hide Times, ReadValue, FactorText, ReadsDecimals;
    TextReadable(tokens);
    if tokens != [] {
      var rest := tokens[1..];
      TextReadable(rest);
      match tokens[0]
      case SignToken(sep, sign) =>
        ReadSign(sep, sign, Text(rest), x, atof, out, fac, started);
        ParseText(rest, x, atof, if started then out + fac else out, if sign == '-' then -1.0 else 1.0, true);
      case FactorToken(sep, f) =>
        TextEnds(rest);
        ReadFactor(sep, f, Text(rest), x, atof, out, fac, started);
        ParseText(rest, x, atof, out, Times(fac, ReadValue(f, Text(rest), x)), true);
    }
  }

  // ------------------------------------------------------------------ sums of terms

  /** A term: its sign, and a product of factors with what separates them */
  datatype Item = Item(sep: string, f: Factor)

  datatype SignedTerm = SignedTerm(sep: string, sign: char, items: seq<Item>)

  function ItemTokens(items: seq<Item>): seq<Token> {
    if items == [] then [] else [FactorToken(items[0].sep, items[0].f)] + ItemTokens(items[1..])
  }

  function TermTokens(terms: seq<SignedTerm>): seq<Token> {
    if terms == [] then []
    else [SignToken(terms[0].sep, terms[0].sign)] + ItemTokens(terms[0].items) + TermTokens(terms[1..])
  }

  /** The text: the sign of the first term may be left out. */
  function Tokens(first: seq<Item>, terms: seq<SignedTerm>): seq<Token> { ItemTokens(first) + TermTokens(terms) }

  /** The value of a factor at time x */
  function FactorValue(f: Factor, x: real): real {
    match f
    case Number(digits, frac) => DecimalValue(digits, frac)
    case Century(power) => if power == 0 then x else Power(x, power)
  }

  /** `fac` times the factors */
  function Product(items: seq<Item>, x: real, fac: real): real {
    if items == [] then fac else Product(items[1..], x, Times(fac, FactorValue(items[0].f, x)))
  }

  function Sum(terms: seq<SignedTerm>, x: real): real {
    if terms == [] then 0.0
    else Product(terms[0].items, x, if terms[0].sign == '-' then -1.0 else 1.0) + Sum(terms[1..], x)
  }

  /** Behind a T without a written power: the end, a sign at once, or something atoi makes 0 or 1 of */
  predicate SafeAfterT(r: string) { r == "" || Sign(r[0]) || Atoi(r) in {0, 1} }

  /** A T without a written power is read as T exactly if the text behind it is safe; a sign set off by blanks but
      not from its number, as in "T +3", is not. */
  lemma BareTExact(r: string)
    ensures (forall x :: TFactor(r, x) == x) <==> SafeAfterT(r)
  {
    assert Power(2.0, 1) == 2.0 && Power(2.0, 2) == 4.0 && Power(2.0, 3) == 8.0 && Power(2.0, 4) == 16.0;
    if SafeAfterT(r) {
      forall x
        ensures TFactor(r, x) == x
      {
        assert Power(x, 1) == x;
      }
    } else {
      assert TFactor(r, 2.0) != 2.0;
    }
  }

  predicate SafeTokens(tokens: seq<Token>) {
    tokens != [] ==>
      SafeTokens(tokens[1..]) && (tokens[0].FactorToken? && tokens[0].f == Century(0) ==> SafeAfterT(Text(tokens[1..])))
  }

  lemma SafeReadValue(f: Factor, after: string, x: real)
    requires f == Century(0) ==> SafeAfterT(after)
    ensures ReadValue(f, after, x) == FactorValue(f, x)
  {
    if f == Century(0) { BareTExact(after); }
  }

  lemma {:induction false} FoldItems(items: seq<Item>, rest: seq<Token>, x: real, out: real, fac: real, started: bool)
    requires SafeTokens(ItemTokens(items) + rest)
    ensures SafeTokens(rest)
    ensures Fold(ItemTokens(items) + rest, x, out, fac, started)
      == Fold(rest, x, out, Product(items, x, fac), started || items != [])
    decreases |items|
  {
    hide Times, ReadValue, FactorValue, SafeAfterT;
    var tokens := ItemTokens(items) + rest;
    if items == [] {
      assert tokens == rest;
    } else {
      assert tokens[1..] == ItemTokens(items[1..]) + rest;
      SafeReadValue(items[0].f, Text(tokens[1..]), x);
      FoldItems(items[1..], rest, x, out, Times(fac, FactorValue(items[0].f, x)), true);
    }
  }

  lemma {:induction false} FoldTerms(terms: seq<SignedTerm>, x: real, out: real, fac: real)
    requires SafeTokens(TermTokens(terms))
    ensures Fold(TermTokens(terms), x, out, fac, true) == out + fac + Sum(terms, x)
    decreases |terms|
  {
    hide Times, ReadValue, FactorValue, SafeAfterT;
    if terms != [] {
      var t, rest := terms[0], TermTokens(terms[1..]);
      var unit := if t.sign == '-' then -1.0 else 1.0;
      assert TermTokens(terms)[1..] == ItemTokens(t.items) + rest;
      FoldItems(t.items, rest, x, out + fac, unit, true);
      FoldTerms(terms[1..], x, out + fac, Product(t.items, x, unit));
    }
  }

  /** check_t_terms undoes printing: a sum of signed products of decimal numbers and powers of T is read as its value,
      for any spacing that does not put blanks between a T without a written power and a signed number. */
  lemma ReadsWhatWasPrinted(first: seq<Item>, terms: seq<SignedTerm>, x: real, atof: string -> real)
    requires first != [] && GoodTokens(Tokens(first, terms)) && SafeTokens(Tokens(first, terms)) && ReadsDecimals(atof)
    ensures Readable(Text(Tokens(first, terms)))
    ensures Parse(Text(Tokens(first, terms)), x, atof, 0.0, 1.0, false) == Product(first, x, 1.0) + Sum(terms, x)
  {
    hide ReadsDecimals, Times, FactorValue, Parse, Text, GoodTokens, SafeAfterT, Readable, ReadValue;
    ParseText(Tokens(first, terms), x, atof, 0.0, 1.0, false);
    FoldItems(first, TermTokens(terms), x, 0.0, 1.0, false);
    FoldTerms(terms, x, 0.0, Product(first, x, 1.0));
  }

  /** The same when the first term is signed as well */
  lemma ReadsSignedTerms(terms: seq<SignedTerm>, x: real, atof: string -> real)
    requires terms != [] && GoodTokens(TermTokens(terms)) && SafeTokens(TermTokens(terms)) && ReadsDecimals(atof)
    ensures Readable(Text(TermTokens(terms)))
    ensures Parse(Text(TermTokens(terms)), x, atof, 0.0, 1.0, false) == Sum(terms, x)
  {
    hide ReadsDecimals, Times, FactorValue, Parse, Text, GoodTokens, SafeAfterT, Readable, ReadValue;
    var t, rest := terms[0], TermTokens(terms[1..]);
    var unit := if t.sign == '-' then -1.0 else 1.0;
    ParseText(TermTokens(terms), x, atof, 0.0, 1.0, false);
    assert TermTokens(terms)[1..] == ItemTokens(t.items) + rest;
    FoldItems(t.items, rest, x, 0.0, unit, true);
    FoldTerms(terms[1..], x, 0.0, Product(t.items, x, unit));
  }

  // ------------------------------------------------------------------ a T that is misread

  /** T plus three, with the sign set off from the T only */
  const T_ALONE: seq<Item> := [Item("", Century(0))]
  const PLUS_THREE: seq<SignedTerm> := [SignedTerm(" ", '+', [Item("", THREE)])]
  const THREE := Number("3", "")

  /** It is read as the third power of T, plus three. */
  lemma TPlusThree(x: real, atof: string -> real)
    requires ReadsDecimals(atof)
    ensures Text(Tokens(T_ALONE, PLUS_THREE)) == "T +3" && Readable("T +3") && !SafeAfterT(" +3")
    ensures Product(T_ALONE, x, 1.0) + Sum(PLUS_THREE, x) == x + 3.0
    ensures Parse("T +3", x, atof, 0.0, 1.0, false) == Power(x, 3) + 3.0
  {
    PlusThreeMeans(x);
    PlusThreeText();
    hide Parse, ReadsDecimals, Text, GoodTokens, Tokens, Readable, SafeAfterT;
    var tokens := Tokens(T_ALONE, PLUS_THREE);
    ParseText(tokens, x, atof, 0.0, 1.0, false);
    PlusThreeFold(x);
  }

  lemma ThreeIsThree()
    ensures DecimalValue("3", "") == 3.0 && GoodFactor(THREE) && FactorText(THREE) == "3"
  {
    assert "3"[1..] == "";
    assert DigitsValue("3", 0) == 3;
  }

  lemma PlusThreeMeans(x: real)
    ensures Product(T_ALONE, x, 1.0) + Sum(PLUS_THREE, x) == x + 3.0
  {
    hide DecimalValue;
    ThreeIsThree();
    assert T_ALONE[1..] == [] && PLUS_THREE[1..] == [] && PLUS_THREE[0].items[1..] == [];
    assert Product(T_ALONE, x, 1.0) == Product([], x, Times(1.0, x));
    assert Product([Item("", THREE)], x, 1.0) == Product([], x, Times(1.0, 3.0));
  }

  lemma PlusThreeText()
    ensures Tokens(T_ALONE, PLUS_THREE) == [FactorToken("", Century(0)), SignToken(" ", '+'), FactorToken("", THREE)]
    ensures Text([FactorToken("", THREE)]) == "3"
    ensures Text([SignToken(" ", '+'), FactorToken("", THREE)]) == " +3"
    ensures Text(Tokens(T_ALONE, PLUS_THREE)) == "T +3" && GoodTokens(Tokens(T_ALONE, PLUS_THREE))
    ensures Readable("T +3") && !SafeAfterT(" +3") && Atoi(" +3") == 3
  {
    hide DigitsValue, Atoi;
    ThreeIsThree();
    AtoiOfThree();
    var three := [FactorToken("", THREE)];
    var two := [SignToken(" ", '+'), FactorToken("", THREE)];
    var all := [FactorToken("", Century(0)), SignToken(" ", '+'), FactorToken("", THREE)];
    assert Tokens(T_ALONE, PLUS_THREE) == all by { PlusThreeTokens(); }
    hide Tokens;
    assert three[1..] == [] && two[1..] == three && all[1..] == two;
    assert Text(three) == "3" && GoodTokens(three);
    assert Text(two) == " +3" && GoodTokens(two);
  }

  lemma PlusThreeTokens()
    ensures Tokens(T_ALONE, PLUS_THREE) == [FactorToken("", Century(0)), SignToken(" ", '+'), FactorToken("", THREE)]
  {
    assert PLUS_THREE[1..] == [] && PLUS_THREE[0].items[1..] == [] && T_ALONE[1..] == [];
    assert ItemTokens(PLUS_THREE[0].items) == [FactorToken("", THREE)] && TermTokens(PLUS_THREE[1..]) == [];
    assert TermTokens(PLUS_THREE) == [SignToken(" ", '+')] + [FactorToken("", THREE)] + [];
  }

  lemma AtoiOfThree()
    ensures Atoi(" +3") == 3
  {
    assert " +3"[1..] == "+3" && "+3"[1..] == "3" && "3"[1..] == "";
    assert SkipBlanks(" +3") == "+3";
    assert DigitsValue("3", 0) == 3;
  }

  lemma PlusThreeFold(x: real)
    ensures Fold(Tokens(T_ALONE, PLUS_THREE), x, 0.0, 1.0, false) == Power(x, 3) + 3.0
  {
    PlusThreeText();
    ThreeIsThree();
    hide Text, GoodTokens, Tokens, Readable, SafeAfterT, DecimalValue, Power, Atoi;
    var three := [FactorToken("", THREE)];
    var two := [SignToken(" ", '+'), FactorToken("", THREE)];
    assert three[1..] == [] && two[1..] == three;
    assert Tokens(T_ALONE, PLUS_THREE)[1..] == two;
    assert TFactor(" +3", x) == Power(x, 3);
    assert Fold(three, x, Power(x, 3), 1.0, true) == Fold([], x, Power(x, 3), Times(1.0, 3.0), true);
    assert Fold(two, x, 0.0, Times(1.0, Power(x, 3)), true) == Fold(three, x, Power(x, 3), 1.0, true);
  }
}
