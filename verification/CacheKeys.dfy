/** Cache keys of the ephemeris services (pkg/cache/keys.go).

    Parameter values are taken as the text that %v prints for them. The digest is a parameter: a function from texts to
    the 32 hexadecimal digits of their MD5 sum. */
module CacheKeys {

  // ------------------------------------------------------------------ the order of strings

  predicate Below(a: string, b: string) {
    a == [] || (b != [] && (a[0] < b[0] || (a[0] == b[0] && Below(a[1..], b[1..]))))
  }

  lemma {:induction false} BelowTotal(a: string, b: string)
    ensures Below(a, b) || Below(b, a)
    ensures Below(a, b) && Below(b, a) ==> a == b
  {
    if a != [] && b != [] && a[0] == b[0] {
      BelowTotal(a[1..], b[1..]);
      assert a == [a[0]] + a[1..] && b == [b[0]] + b[1..];
    }
  }

  lemma {:induction false} BelowTransitive(a: string, b: string, c: string)
    requires Below(a, b) && Below(b, c)
    ensures Below(a, c)
  {
    if a != [] && a[0] == b[0] == c[0] {
      BelowTransitive(a[1..], b[1..], c[1..]);
    }
  }

  predicate Sorted(s: seq<string>) {
    forall i, j | 0 <= i <= j < |s| :: Below(s[i], s[j])
  }

  predicate Distinct(s: seq<string>) {
    forall i, j | 0 <= i < j < |s| :: s[i] != s[j]
  }

  predicate Lists(s: seq<string>, ks: set<string>) {
    Distinct(s) && (forall i | 0 <= i < |s| :: s[i] in ks) && (forall k | k in ks :: k in s)
  }

  /** A set of strings has one sorted list. */
  lemma {:induction false} OneSortedList(s: seq<string>, t: seq<string>, ks: set<string>)
    requires Lists(s, ks) && Lists(t, ks) && Sorted(s) && Sorted(t)
    ensures s == t
    decreases |s|
  {
    hide Below;
    if s == [] {
      assert ks == {};
      assert t == [];
    } else {
      assert s[0] in ks && s[0] in t;
      assert t[0] in ks && t[0] in s;
      BelowTotal(s[0], t[0]);
      assert s[0] == t[0];
      WithoutFirst(s, ks);
      WithoutFirst(t, ks);
      OneSortedList(s[1..], t[1..], ks - {s[0]});
      assert s == [s[0]] + s[1..] && t == [t[0]] + t[1..];
    }
  }

  lemma WithoutFirst(s: seq<string>, ks: set<string>)
    requires Lists(s, ks) && s != []
    ensures Lists(s[1..], ks - {s[0]}) && (Sorted(s) ==> Sorted(s[1..]))
  {
    hide Below;
    forall k | k in ks - {s[0]}
      ensures k in s[1..]
    {
      var i :| 0 <= i < |s| && s[i] == k;
      assert s[1..][i - 1] == k;
    }
  }

  ghost predicate Smallest(k: string, ks: set<string>) {
    k in ks && forall l | l in ks :: Below(k, l)
  }

  lemma {:induction false} SmallestExists(ks: set<string>)
    requires ks != {}
    ensures exists k :: Smallest(k, ks)
    decreases ks
  {
    hide Below;
    var k :| k in ks;
    BelowTotal(k, k);
    if ks == {k} {
      assert Smallest(k, ks);
    } else {
      SmallestExists(ks - {k});
      var m :| Smallest(m, ks - {k});
      BelowTotal(k, m);
      if Below(m, k) {
        assert Smallest(m, ks);
      } else {
        forall l | l in ks
          ensures Below(k, l)
        {
          if l != k { BelowTransitive(k, m, l); }
        }
        assert Smallest(k, ks);
      }
    }
  }

  /** The sorted list of a set of strings */
  ghost function Listing(ks: set<string>): (s: seq<string>)
    ensures Lists(s, ks) && Sorted(s)
  {
    if ks == {} then []
    else
      SmallestExists(ks);
      var k :| Smallest(k, ks);
      var rest := Listing(ks - {k});
      WithFirst(k, rest, ks);
      [k] + rest
  }

  lemma WithFirst(k: string, rest: seq<string>, ks: set<string>)
    requires Smallest(k, ks) && Lists(rest, ks - {k}) && Sorted(rest)
    ensures Lists([k] + rest, ks) && Sorted([k] + rest)
  {
    hide Below;
    var s := [k] + rest;
    forall l | l in ks
      ensures l in s
    {
      assert s[0] == k && (l in rest || l == k);
    }
  }

  function Members(s: seq<string>): set<string> {
    set k | k in s
  }

  /** sort.Strings: insertion of one string after the other */
  method SortStrings(s: seq<string>) returns (t: seq<string>)
    requires Distinct(s)
    ensures Sorted(t) && Lists(t, Members(s))
  {
    hide Sorted, Lists, Below;
    t := [];
    assert Sorted(t) && Lists(t, Members(s[..0])) by { Nothing(); assert s[..0] == []; }
    for i := 0 to |s|
      invariant Sorted(t) && Lists(t, Members(s[..i]))
    {
      InsertedLists(s[i], t, Members(s[..i]));
      t := Inserted(s[i], t);
      assert Members(s[..i + 1]) == Members(s[..i]) + {s[i]} by { assert s[..i + 1] == s[..i] + [s[i]]; }
    }
    assert s[..|s|] == s;
  }

  lemma Nothing()
    ensures Sorted([]) && Lists([], Members([]))
  {}

  function Inserted(x: string, s: seq<string>): seq<string> {
    if s == [] then [x] else if Below(x, s[0]) then [x] + s else [s[0]] + Inserted(x, s[1..])
  }

  lemma {:induction false} InsertedLists(x: string, s: seq<string>, ks: set<string>)
    requires Sorted(s) && Lists(s, ks) && x !in ks
    ensures Sorted(Inserted(x, s)) && Lists(Inserted(x, s), ks + {x})
    decreases |s|
  {
    hide Below;
    BelowTotal(x, x);
    if s != [] {
      var k, rest := s[0], Inserted(x, s[1..]);
      BelowTotal(x, k);
      WithoutFirst(s, ks);
      if Below(x, k) {
        forall l | l in ks
          ensures Below(x, l)
        {
          BelowTransitive(x, k, l);
        }
        assert ks == ks + {x} - {x};
        WithFirst(x, s, ks + {x});
      } else {
        InsertedLists(x, s[1..], ks - {k});
        assert ks - {k} + {x} == ks + {x} - {k};
        WithFirst(k, rest, ks + {x});
      }
    }
  }

  // ------------------------------------------------------------------ the key

  function Part(k: string, params: map<string, string>): string
    requires k in params
  {
    k + "=" + params[k]
  }

  function Parts(keys: seq<string>, params: map<string, string>): (r: seq<string>)
    requires forall i | 0 <= i < |keys| :: keys[i] in params
  {
    seq(|keys|, i requires 0 <= i < |keys| => Part(keys[i], params))
  }

  /** strings.Join(parts, "&") */
  function Join(parts: seq<string>): string {
    if parts == [] then "" else if |parts| == 1 then parts[0] else parts[0] + "&" + Join(parts[1..])
  }

  ghost function ParamString(params: map<string, string>): string {
    Join(Parts(Listing(params.Keys), params))
  }

  ghost function Key(md5: string -> string, operation: string, params: map<string, string>): string {
    "eph:" + operation + ":" + md5(ParamString(params))
  }

  /** The loop over the map meets the keys in any order. */
  method CollectKeys(params: map<string, string>) returns (keys: seq<string>)
    ensures Lists(keys, params.Keys)
  {
    keys := [];
    var left := params.Keys;
    while left != {}
      invariant left <= params.Keys && Lists(keys, params.Keys - left)
      decreases left
    {
      var k :| k in left;
      keys := keys + [k];
      left := left - {k};
    }
    assert params.Keys - left == params.Keys;
  }

  method FormatParts(keys: seq<string>, params: map<string, string>) returns (parts: seq<string>)
    requires forall i | 0 <= i < |keys| :: keys[i] in params
    ensures parts == Parts(keys, params)
  {
    parts := [];
    for i := 0 to |keys|
      invariant |parts| == i && forall j | 0 <= j < i :: parts[j] == Part(keys[j], params)
    {
      parts := parts + [Part(keys[i], params)];
    }
  }

  method GenerateEphemerisKey(md5: string -> string, operation: string, params: map<string, string>)
    returns (key: string)
    ensures key == Key(md5, operation, params)
  {
    hide Sorted, Below, Join, Parts;
    var keys := CollectKeys(params);
    ghost var ks := params.Keys;
    assert Members(keys) == ks;
    keys := SortStrings(keys);
    OneSortedList(keys, Listing(ks), ks);
    var parts := FormatParts(keys, params);
    var paramStr := Join(parts);
    key := "eph:" + operation + ":" + md5(paramStr);
  }

  // ------------------------------------------------------------------ different parameters, different text

  predicate Free(s: string, c: char) {
    forall i | 0 <= i < |s| :: s[i] != c
  }

  /** No "=" in a name and no "&" in a name or a value */
  predicate Clean(params: map<string, string>) {
    forall k | k in params :: Free(k, '=') && Free(k, '&') && Free(params[k], '&')
  }

  /** The first occurrence of a character splits a text in one way only. */
  lemma SplitAtFirst(a: string, b: string, c: string, d: string, sep: char)
    requires Free(a, sep) && Free(c, sep) && a + [sep] + b == c + [sep] + d
    ensures a == c && b == d
  {
    var s, t := a + [sep] + b, c + [sep] + d;
    assert s[|a|] == sep && t[|c|] == sep;
    assert s[..|a|] == a && t[..|c|] == c;
    assert s[|a| + 1..] == b && t[|c| + 1..] == d;
  }

  predicate AllFree(parts: seq<string>) {
    forall i | 0 <= i < |parts| :: Free(parts[i], '&') && parts[i] != ""
  }

  function Tail(s: seq<string>): string {
    if |s| <= 1 then "" else "&" + Join(s[1..])
  }

  lemma {:induction false} JoinInjective(s: seq<string>, t: seq<string>)
    requires AllFree(s) && AllFree(t) && Join(s) == Join(t)
    ensures s == t
    decreases |s|
  {
    hide Join, Tail, Free;
    JoinIs(s);
    JoinIs(t);
    if s != [] && t != [] {
      SplitTail(s[0], Tail(s), t[0], Tail(t));
      if |s| > 1 {
        JoinInjective(s[1..], t[1..]);
      }
      assert s == [s[0]] + s[1..] && t == [t[0]] + t[1..];
    }
  }

  lemma JoinIs(s: seq<string>)
    requires AllFree(s)
    ensures Join(s) == "" <==> s == []
    ensures s != [] ==> Join(s) == s[0] + Tail(s)
    ensures Tail(s) == "" <==> |s| <= 1
    ensures |s| > 1 ==> Tail(s)[0] == '&' && Tail(s)[1..] == Join(s[1..])
  {}

  lemma SplitTail(a: string, x: string, b: string, y: string)
    requires Free(a, '&') && Free(b, '&') && a + x == b + y
    requires (x == "" || x[0] == '&') && (y == "" || y[0] == '&')
    ensures a == b && x == y
  {
    var x1, y1 := (x + "&")[1..], (y + "&")[1..];
    assert x + "&" == ['&'] + x1 && y + "&" == ['&'] + y1;
    assert a + ['&'] + x1 == (a + x) + "&" && b + ['&'] + y1 == (b + y) + "&";
    SplitAtFirst(a, x1, b, y1, '&');
    assert x == (a + x)[|a|..] && y == (b + y)[|b|..];
  }

  /** Clean parameters can be read off the text, so different ones have different texts. */
  lemma ParamStringInjective(m: map<string, string>, n: map<string, string>)
    requires Clean(m) && Clean(n)
    ensures ParamString(m) == ParamString(n) <==> m == n
  {
    hide Below;
    if ParamString(m) == ParamString(n) {
      var s, t := Listing(m.Keys), Listing(n.Keys);
      PartsFree(s, m);
      PartsFree(t, n);
      JoinInjective(Parts(s, m), Parts(t, n));
      assert |s| == |Parts(s, m)| == |Parts(t, n)| == |t|;
      forall i | 0 <= i < |s|
        ensures s[i] == t[i] && m[s[i]] == n[t[i]]
      {
        assert Parts(s, m)[i] == Parts(t, n)[i];
        assert Part(s[i], m) == s[i] + ['='] + m[s[i]] && Part(t[i], n) == t[i] + ['='] + n[t[i]];
        SplitAtFirst(s[i], m[s[i]], t[i], n[t[i]], '=');
      }
      assert s == t;
      assert forall k | k in m :: k in s && k in n && m[k] == n[k];
    }
  }

  lemma PartsFree(s: seq<string>, m: map<string, string>)
    requires Clean(m) && forall i | 0 <= i < |s| :: s[i] in m
    ensures AllFree(Parts(s, m))
  {}

  /** Two keys are the same exactly if the operations and the digests are. */
  lemma SameKey(md5: string -> string, op1: string, m: map<string, string>, op2: string, n: map<string, string>)
    requires |md5(ParamString(m))| == 32 && |md5(ParamString(n))| == 32
    ensures Key(md5, op1, m) == Key(md5, op2, n) <==> op1 == op2 && md5(ParamString(m)) == md5(ParamString(n))
  {
    var h, g := md5(ParamString(m)), md5(ParamString(n));
    var s, t := Key(md5, op1, m), Key(md5, op2, n);
    assert s == "eph:" + op1 + ":" + h && t == "eph:" + op2 + ":" + g;
    assert s[|s| - 32..] == h && t[|t| - 32..] == g;
    assert s[4..|s| - 33] == op1 && t[4..|t| - 33] == op2;
  }

  /** Hence, unless the digest collides on these two texts, the key tells the operation and all parameters. */
  lemma KeyInjective(md5: string -> string, op1: string, m: map<string, string>, op2: string, n: map<string, string>)
    requires Clean(m) && Clean(n)
    requires |md5(ParamString(m))| == 32 && |md5(ParamString(n))| == 32
    requires md5(ParamString(m)) == md5(ParamString(n)) ==> ParamString(m) == ParamString(n)
    ensures Key(md5, op1, m) == Key(md5, op2, n) <==> op1 == op2 && m == n
  {
    hide ParamString, Key;
    SameKey(md5, op1, m, op2, n);
    ParamStringInjective(m, n);
  }

  /** With an "&" in a value, different parameters share a text. */
  lemma AmpersandClash(k: string, v: string, l: string, w: string)
    requires k != l && Below(k, l)
    ensures var m, n := map[k := v + "&" + l + "=" + w], map[k := v, l := w];
      m != n && ParamString(m) == ParamString(n) == k + "=" + v + "&" + l + "=" + w
  {
    hide Below;
    var m, n := map[k := v + "&" + l + "=" + w], map[k := v, l := w];
    assert l !in m && l in n;
    BelowTotal(k, k);
    BelowTotal(l, l);
    OneSortedList([k], Listing(m.Keys), m.Keys);
    OneSortedList([k, l], Listing(n.Keys), n.Keys);
    assert Parts([k], m) == [Part(k, m)];
    assert Parts([k, l], n) == [Part(k, n), Part(l, n)];
    JoinTwo(Part(k, n), Part(l, n));
    assert Part(k, m) == Part(k, n) + "&" + Part(l, n);
  }

  lemma JoinTwo(x: string, y: string)
    ensures Join([x, y]) == x + "&" + y && Join([x]) == x
  {
    assert [x, y][1..] == [y];
  }

  // ------------------------------------------------------------------ printed values

  function Digit(d: nat): char
    requires d < 10
  {
    "0123456789"[d]
  }

  function ShowNat(n: nat): (s: string)
    ensures s != "" && forall i | 0 <= i < |s| :: s[i] != '&' && s[i] != '-'
  {
    if n < 10 then [Digit(n)] else ShowNat(n / 10) + [Digit(n % 10)]
  }

  /** %v of an int */
  function ShowInt(i: int): (s: string)
    ensures Free(s, '&')
  {
    if i < 0 then "-" + ShowNat(-i) else ShowNat(i)
  }

  /** %v of a bool */
  function ShowBool(b: bool): (s: string)
    ensures Free(s, '&')
  {
    if b then "true" else "false"
  }

  lemma {:induction false} ShowNatInjective(m: nat, n: nat)
    requires ShowNat(m) == ShowNat(n)
    ensures m == n
  {
    var s, t := ShowNat(m), ShowNat(n);
    assert s[|s| - 1] == Digit(m % 10) && t[|t| - 1] == Digit(n % 10);
    if m >= 10 && n >= 10 {
      assert s[..|s| - 1] == ShowNat(m / 10) && t[..|t| - 1] == ShowNat(n / 10);
      ShowNatInjective(m / 10, n / 10);
    }
  }

  lemma ShowIntInjective(i: int, j: int)
    requires ShowInt(i) == ShowInt(j)
    ensures i == j
  {
    hide ShowNat;
    var s, t := ShowInt(i), ShowInt(j);
    assert (i < 0) == (s[0] == '-') && (j < 0) == (t[0] == '-');
    if i < 0 {
      assert s[1..] == ShowNat(-i) && t[1..] == ShowNat(-j);
      ShowNatInjective(-i, -j);
    } else {
      ShowNatInjective(i, j);
    }
  }
}
