/** The ephemeris service behind a cache, against the service without one (eph/cache.go, eph/direct.go).

    The calculations are parameters: deterministic functions of what the code passes to them. A float64 argument is
    represented by the text that %v prints for it. A cache entry holds a reference to a result, so a result that was
    handed out earlier is the object that a later call changes. */
module CachedService {
  import opened CacheKeys

  datatype Result<T> = Ok(value: T) | Err(error: string)

  type Number = s: string | Free(s, '&') witness "0"

  datatype Moment = Moment(year: int, month: int, day: int, ut: Number)

  datatype Place = Place(lat: Number, lng: Number)

  datatype Config = Config(traditional: bool, nodes: bool, asteroids: bool, centaurs: bool, customBodies: seq<int>,
                           useSpeed: bool, flags: int)

  datatype Body = Body(id: int, name: string, kind: string, longitude: Number, retrograde: bool)

  datatype House = House(id: int, longitude: Number, hsys: string)

  /** GetPlanets, GetHouses and CalculateCelestialBodies */
  datatype Engine = Engine(planets: Moment -> Result<seq<Body>>, houses: (Moment, Place) -> seq<House>,
                           bodies: (Moment, Config) -> Result<seq<Body>>)

  datatype Metadata = Metadata(calculationTimeMs: int, bodiesCalculated: nat, cached: bool, cacheKey: string)

  class EphemerisResult {
    var bodies: seq<Body>
    var houses: seq<House>
    var metadata: Metadata

    constructor (bodies: seq<Body>, metadata: Metadata)
      ensures this.bodies == bodies && this.houses == [] && this.metadata == metadata
    {
      this.bodies, this.houses, this.metadata := bodies, [], metadata;
    }
  }

  /** What the cache returns: a value of one of the types that the service stores, or of another one */
  datatype Entry = Planets(bodies: seq<Body>) | Houses(houses: seq<House>)
                 | Chart(chartBodies: seq<Body>, chartHouses: seq<House>) | Stored(result: EphemerisResult) | Foreign

  // ------------------------------------------------------------------ the keys

  function PlanetsParams(m: Moment): map<string, string> {
    map["year" := ShowInt(m.year), "month" := ShowInt(m.month), "day" := ShowInt(m.day), "ut" := m.ut]
  }

  function PlaceParams(m: Moment, p: Place): map<string, string> {
    map["year" := ShowInt(m.year), "month" := ShowInt(m.month), "day" := ShowInt(m.day), "ut" := m.ut,
        "lat" := p.lat, "lng" := p.lng]
  }

  function BodiesParams(m: Moment, gregorian: bool, c: Config): map<string, string> {
    PlanetsParams(m) + (KindParams(c) + MethodParams(gregorian, c))
  }

  function KindParams(c: Config): map<string, string> {
    map["traditional" := ShowBool(c.traditional), "nodes" := ShowBool(c.nodes), "asteroids" := ShowBool(c.asteroids),
        "centaurs" := ShowBool(c.centaurs)]
  }

  function MethodParams(gregorian: bool, c: Config): map<string, string> {
    map["gregorian" := ShowBool(gregorian), "speed" := ShowBool(c.useSpeed), "flags" := ShowInt(c.flags)]
  }

  lemma PlanetsParamsTell(m: Moment, n: Moment)
    ensures Clean(PlanetsParams(m))
    ensures PlanetsParams(m) == PlanetsParams(n) <==> m == n
  {
    var a, b := PlanetsParams(m), PlanetsParams(n);
    if a == b {
      assert a["year"] == b["year"] && a["month"] == b["month"] && a["day"] == b["day"] && a["ut"] == b["ut"];
      SameMoment(m, n);
    }
  }

  lemma SameMoment(m: Moment, n: Moment)
    requires ShowInt(m.year) == ShowInt(n.year) && ShowInt(m.month) == ShowInt(n.month)
    requires ShowInt(m.day) == ShowInt(n.day)
    requires m.ut == n.ut
    ensures m == n
  {
    ShowIntInjective(m.year, n.year);
    ShowIntInjective(m.month, n.month);
    ShowIntInjective(m.day, n.day);
  }

  lemma PlaceParamsTell(m: Moment, p: Place, n: Moment, q: Place)
    ensures Clean(PlaceParams(m, p))
    ensures PlaceParams(m, p) == PlaceParams(n, q) <==> m == n && p == q
  {
    var a, b := PlaceParams(m, p), PlaceParams(n, q);
    if a == b {
      assert a["year"] == b["year"] && a["month"] == b["month"] && a["day"] == b["day"] && a["ut"] == b["ut"];
      assert a["lat"] == b["lat"] && a["lng"] == b["lng"];
      SameMoment(m, n);
    }
  }

  lemma SumTells(a: map<string, string>, b: map<string, string>, c: map<string, string>, d: map<string, string>)
    requires a.Keys == c.Keys && b.Keys == d.Keys && a.Keys !! b.Keys
    ensures a + b == c + d <==> a == c && b == d
    ensures (a + b).Keys == (c + d).Keys == a.Keys + b.Keys
    ensures Clean(a) && Clean(b) ==> Clean(a + b)
  {
    if a + b == c + d {
      assert a == a + b - b.Keys && c == c + d - b.Keys;
      assert forall k | k in b :: b[k] == (a + b)[k] && d[k] == (c + d)[k];
    }
  }

  /** The parameters of CalculateBodies tell everything but the custom bodies. */
  lemma BodiesParamsTell(m: Moment, g: bool, c: Config, n: Moment, h: bool, d: Config)
    ensures Clean(BodiesParams(m, g, c))
    ensures BodiesParams(m, g, c) == BodiesParams(n, h, d) <==>
      m == n && g == h && c.(customBodies := []) == d.(customBodies := [])
  {
    ParamNames(m, g, c);
    ParamNames(n, h, d);
    PlanetsParamsTell(m, n);
    KindParamsTell(c, d);
    MethodParamsTell(g, c, h, d);
    hide PlanetsParams, KindParams, MethodParams, Clean;
    SumTells(KindParams(c), MethodParams(g, c), KindParams(d), MethodParams(h, d));
    SumTells(PlanetsParams(m), KindParams(c) + MethodParams(g, c),
             PlanetsParams(n), KindParams(d) + MethodParams(h, d));
  }

  lemma ParamNames(m: Moment, g: bool, c: Config)
    ensures PlanetsParams(m).Keys == {"year", "month", "day", "ut"}
    ensures KindParams(c).Keys == {"traditional", "nodes", "asteroids", "centaurs"}
    ensures MethodParams(g, c).Keys == {"gregorian", "speed", "flags"}
    ensures KindParams(c).Keys !! MethodParams(g, c).Keys
    ensures PlanetsParams(m).Keys !! KindParams(c).Keys + MethodParams(g, c).Keys
  {
    assert {"traditional", "nodes", "asteroids", "centaurs"} !! {"gregorian", "speed", "flags"};
    NamesApart();
  }

  lemma NamesApart()
    ensures {"year", "month", "day", "ut"} !!
      {"traditional", "nodes", "asteroids", "centaurs"} + {"gregorian", "speed", "flags"}
  {}

  lemma KindParamsTell(c: Config, d: Config)
    ensures Clean(KindParams(c))
    ensures KindParams(c) == KindParams(d) <==>
      c.traditional == d.traditional && c.nodes == d.nodes && c.asteroids == d.asteroids && c.centaurs == d.centaurs
  {
    hide Clean;
    KindClean(c);
    var a, b := KindParams(c), KindParams(d);
    if a == b {
      assert a["traditional"] == b["traditional"] && a["nodes"] == b["nodes"];
      assert a["asteroids"] == b["asteroids"] && a["centaurs"] == b["centaurs"];
    }
  }

  lemma KindClean(c: Config)
    ensures Clean(KindParams(c))
  {}

  lemma MethodParamsTell(g: bool, c: Config, h: bool, d: Config)
    ensures Clean(MethodParams(g, c))
    ensures MethodParams(g, c) == MethodParams(h, d) <==> g == h && c.useSpeed == d.useSpeed && c.flags == d.flags
  {
    var a, b := MethodParams(g, c), MethodParams(h, d);
    if a == b {
      assert a["gregorian"] == b["gregorian"] && a["speed"] == b["speed"] && a["flags"] == b["flags"];
      ShowIntInjective(c.flags, d.flags);
    }
  }

  ghost function PlanetsKey(md5: string -> string, m: Moment): string {
    Key(md5, "planets", PlanetsParams(m))
  }

  ghost function HousesKey(md5: string -> string, m: Moment, p: Place): string {
    Key(md5, "houses", PlaceParams(m, p))
  }

  ghost function ChartKey(md5: string -> string, m: Moment, p: Place): string {
    Key(md5, "chart", PlaceParams(m, p))
  }

  ghost function BodiesKey(md5: string -> string, m: Moment, g: bool, c: Config): string {
    Key(md5, "bodies", BodiesParams(m, g, c))
  }

  /** What a cache is used for: the parameter texts of its requests, and the custom bodies that go with each of them */
  datatype Use = Use(texts: set<string>, custom: (Moment, bool, Config) -> seq<int>)

  /** The digest has 32 digits, and does not collide on the texts of the requests in use. */
  ghost predicate Collisionless(md5: string -> string, use: Use) {
    && (forall s | s in use.texts :: |md5(s)| == 32)
    && (forall s, t | s in use.texts && t in use.texts && md5(s) == md5(t) :: s == t)
  }

  ghost predicate InUse(use: Use, params: map<string, string>) {
    ParamString(params) in use.texts
  }

  /** The same for a request of bodies, with the custom bodies that always go with its other parameters */
  ghost predicate BodiesInUse(use: Use, m: Moment, g: bool, c: Config) {
    InUse(use, BodiesParams(m, g, c)) && c.customBodies == use.custom(m, g, c.(customBodies := []))
  }

  lemma UsedKeysTell(md5: string -> string, use: Use, op: string, a: map<string, string>, b: map<string, string>)
    requires Collisionless(md5, use) && InUse(use, a) && InUse(use, b) && Clean(a) && Clean(b)
    ensures Key(md5, op, a) == Key(md5, op, b) <==> a == b
  {
    hide Key, ParamString, Clean;
    KeyInjective(md5, op, a, op, b);
  }

  // ------------------------------------------------------------------ what the cache may hold

  /** The entry is what the calculation gives, for every request in use with this key. */
  ghost predicate EntrySound(engine: Engine, md5: string -> string, use: Use, key: string, e: Entry)
    reads (if e.Stored? then {e.result} else {})`bodies
  {
    match e
    case Planets(b) =>
      forall m | PlanetsKey(md5, m) == key && InUse(use, PlanetsParams(m)) :: engine.planets(m) == Ok(b)
    case Houses(h) =>
      forall m, p | HousesKey(md5, m, p) == key && InUse(use, PlaceParams(m, p)) :: engine.houses(m, p) == h
    case Chart(b, h) =>
      forall m, p | ChartKey(md5, m, p) == key && InUse(use, PlaceParams(m, p)) ::
        engine.planets(m) == Ok(b) && engine.houses(m, p) == h
    case Stored(r) =>
      forall m, g, c | BodiesKey(md5, m, g, c) == key && BodiesInUse(use, m, g, c) ::
        engine.bodies(m, c) == Ok(r.bodies)
    case Foreign => true
  }

  lemma PlanetsSound(engine: Engine, md5: string -> string, use: Use, m: Moment, b: seq<Body>)
    requires Collisionless(md5, use) && InUse(use, PlanetsParams(m)) && engine.planets(m) == Ok(b)
    ensures EntrySound(engine, md5, use, PlanetsKey(md5, m), Planets(b))
  {
    hide PlanetsParams, Collisionless, InUse, Key;
    forall n | PlanetsKey(md5, n) == PlanetsKey(md5, m) && InUse(use, PlanetsParams(n))
      ensures n == m
    {
      PlanetsParamsTell(m, n);
      PlanetsParamsTell(n, m);
      UsedKeysTell(md5, use, "planets", PlanetsParams(m), PlanetsParams(n));
    }
  }

  lemma HousesSound(engine: Engine, md5: string -> string, use: Use, m: Moment, p: Place)
    requires Collisionless(md5, use) && InUse(use, PlaceParams(m, p))
    ensures EntrySound(engine, md5, use, HousesKey(md5, m, p), Houses(engine.houses(m, p)))
  {
    hide PlaceParams, Collisionless, InUse, Key;
    forall n, q | HousesKey(md5, n, q) == HousesKey(md5, m, p) && InUse(use, PlaceParams(n, q))
      ensures n == m && q == p
    {
      PlaceParamsTell(m, p, n, q);
      PlaceParamsTell(n, q, m, p);
      UsedKeysTell(md5, use, "houses", PlaceParams(m, p), PlaceParams(n, q));
    }
  }

  lemma ChartSound(engine: Engine, md5: string -> string, use: Use, m: Moment, p: Place, b: seq<Body>)
    requires Collisionless(md5, use) && InUse(use, PlaceParams(m, p)) && engine.planets(m) == Ok(b)
    ensures EntrySound(engine, md5, use, ChartKey(md5, m, p), Chart(b, engine.houses(m, p)))
  {
    hide PlaceParams, Collisionless, InUse, Key;
    forall n, q | ChartKey(md5, n, q) == ChartKey(md5, m, p) && InUse(use, PlaceParams(n, q))
      ensures n == m && q == p
    {
      PlaceParamsTell(m, p, n, q);
      PlaceParamsTell(n, q, m, p);
      UsedKeysTell(md5, use, "chart", PlaceParams(m, p), PlaceParams(n, q));
    }
  }

  lemma StoredSound(engine: Engine, md5: string -> string, use: Use, m: Moment, g: bool, c: Config, r: EphemerisResult)
    requires Collisionless(md5, use) && BodiesInUse(use, m, g, c)
    requires engine.bodies(m, c) == Ok(r.bodies)
    ensures EntrySound(engine, md5, use, BodiesKey(md5, m, g, c), Stored(r))
  {
    hide BodiesParams, Collisionless, InUse, Key;
    forall n, h, d | BodiesKey(md5, n, h, d) == BodiesKey(md5, m, g, c) && BodiesInUse(use, n, h, d)
      ensures n == m && d == c
    {
      BodiesParamsTell(m, g, c, n, h, d);
      BodiesParamsTell(n, h, d, m, g, c);
      UsedKeysTell(md5, use, "bodies", BodiesParams(m, g, c), BodiesParams(n, h, d));
    }
  }

  // ------------------------------------------------------------------ the service

  /** Which of the writes to the cache fail */
  datatype Faults = Faults(delete: bool, set_: bool)

  /** The entries after a miss: an entry of another type is deleted, and the new value set. */
  function AfterMiss(entries: map<string, Entry>, key: string, value: Result<Entry>,
                     faults: Faults): map<string, Entry> {
    var rest := if faults.delete then entries else entries - {key};
    if value.Ok? && !faults.set_ then rest[key := value.value] else rest
  }

  /** The results stored before are still stored. */
  ghost predicate KeepsStored(before: map<string, Entry>, after: map<string, Entry>) {
    forall k | k in before && before[k].Stored? :: k in after && after[k] == before[k]
  }

  lemma MissKeeps(entries: map<string, Entry>, key: string, value: Result<Entry>, faults: Faults)
    ensures KeepsStored(entries - {key}, AfterMiss(entries, key, value, faults))
    ensures KeepsStored(entries - {key}, entries)
  {}

  function PlanetsEntry(r: Result<seq<Body>>): Result<Entry> {
    match r case Ok(b) => Ok(Planets(b)) case Err(e) => Err(e)
  }

  function ChartEntry(r: Result<(seq<Body>, seq<House>)>): Result<Entry> {
    match r case Ok(c) => Ok(Chart(c.0, c.1)) case Err(e) => Err(e)
  }

  function StoredEntry(r: Result<EphemerisResult>): Result<Entry> {
    match r case Ok(o) => Ok(Stored(o)) case Err(e) => Err(e)
  }

  function BodiesOf(r: Result<EphemerisResult>): Result<seq<Body>>
    reads (if r.Ok? then {r.value} else {})`bodies
  {
    match r case Ok(o) => Ok(o.bodies) case Err(e) => Err(e)
  }

  class CachedEphemerisService {
    const engine: Engine
    const md5: string -> string
    var entries: map<string, Entry>

    constructor (engine: Engine, md5: string -> string)
      ensures this.engine == engine && this.md5 == md5 && entries == map[] && OneKey()
      ensures forall use | Collisionless(md5, use) :: Sound(use)
    {
      this.engine, this.md5, entries := engine, md5, map[];
    }

    ghost function Objects(): set<EphemerisResult>
      reads this
    {
      set k | k in entries && entries[k].Stored? :: entries[k].result
    }

    ghost predicate Sound(use: Use)
      reads this, Objects()`bodies
    {
      && Collisionless(md5, use)
      && forall k | k in entries :: EntrySound(engine, md5, use, k, entries[k])
    }

    /** No stored result has got the houses of a full chart. */
    ghost predicate NoHouses()
      reads this, Objects()`houses
    {
      forall o | o in Objects() :: o.houses == []
    }

    /** Each stored result is under one key only. */
    ghost predicate OneKey()
      reads this
    {
      forall k, l | k in entries && l in entries && entries[k].Stored? && entries[k] == entries[l] :: k == l
    }

    /** cache.Delete and cache.Set, which may fail */
    method Delete(key: string, fails: bool, ghost use: Use)
      modifies this
      ensures entries == if fails then old(entries) else old(entries) - {key}
      ensures old(Sound(use)) ==> Sound(use)
      ensures Objects() <= old(Objects())
      ensures old(NoHouses()) ==> NoHouses()
      ensures old(OneKey()) ==> OneKey()
    {
      hide Collisionless, EntrySound;
      if !fails {
        entries := entries - {key};
      }
    }

    method Set(key: string, e: Entry, fails: bool, ghost use: Use)
      modifies this
      ensures entries == if fails then old(entries) else old(entries)[key := e]
      ensures old(Sound(use)) && old(EntrySound(engine, md5, use, key, e)) ==> Sound(use)
      ensures Objects() <= old(Objects()) + if e.Stored? then {e.result} else {}
      ensures old(NoHouses()) && (e.Stored? ==> e.result.houses == []) ==> NoHouses()
      ensures old(OneKey()) && (e.Stored? ==> e.result !in old(Objects())) ==> OneKey()
    {
      hide Collisionless, EntrySound;
      if !fails {
        entries := entries[key := e];
      }
    }

    method GetPlanetsCached(m: Moment, faults: Faults, ghost use: Use) returns (r: Result<seq<Body>>)
      modifies this
      ensures var key := PlanetsKey(md5, m);
        if key in old(entries) && old(entries)[key].Planets? then
          r == Ok(old(entries)[key].bodies) && entries == old(entries)
        else r == engine.planets(m) && entries == AfterMiss(old(entries), key, PlanetsEntry(r), faults)
      ensures old(Sound(use)) && InUse(use, PlanetsParams(m)) ==> Sound(use) && r == engine.planets(m)
      ensures Objects() <= old(Objects())
      ensures old(OneKey()) ==> OneKey()
    {
      hide PlanetsParams, Key, Collisionless, InUse, EntrySound, OneKey;
      var key := GenerateEphemerisKey(md5, "planets", PlanetsParams(m));
      ghost var known := Sound(use) && InUse(use, PlanetsParams(m));
      if key in entries {
        match entries[key]
        case Planets(bodies) =>
          if known { SoundPlanets(use, m); }
          return Ok(bodies);
        case _ =>
          Delete(key, faults.delete, use);
      }
      r := engine.planets(m);
      if r.Err? {
        return;
      }
      if known { PlanetsSound(engine, md5, use, m, r.value); }
      Set(key, Planets(r.value), faults.set_, use);
    }

    lemma SoundPlanets(use: Use, m: Moment)
      requires Sound(use) && InUse(use, PlanetsParams(m))
      requires PlanetsKey(md5, m) in entries && entries[PlanetsKey(md5, m)].Planets?
      ensures engine.planets(m) == Ok(entries[PlanetsKey(md5, m)].bodies)
    {
      hide PlanetsParams, Key, Collisionless, InUse;
      assert EntrySound(engine, md5, use, PlanetsKey(md5, m), entries[PlanetsKey(md5, m)]);
    }

    method GetHousesCached(m: Moment, p: Place, faults: Faults, ghost use: Use) returns (houses: seq<House>)
      modifies this
      ensures var key := HousesKey(md5, m, p);
        if key in old(entries) && old(entries)[key].Houses? then
          houses == old(entries)[key].houses && entries == old(entries)
        else houses == engine.houses(m, p) && entries == AfterMiss(old(entries), key, Ok(Houses(houses)), faults)
      ensures old(Sound(use)) && InUse(use, PlaceParams(m, p)) ==> Sound(use) && houses == engine.houses(m, p)
      ensures KeepsStored(old(entries) - {HousesKey(md5, m, p)}, entries)
      ensures Objects() <= old(Objects())
      ensures old(OneKey()) ==> OneKey()
    {
      hide PlaceParams, Key, Collisionless, InUse, EntrySound, OneKey;
      var key := GenerateEphemerisKey(md5, "houses", PlaceParams(m, p));
      ghost var known := Sound(use) && InUse(use, PlaceParams(m, p));
      if key in entries {
        match entries[key]
        case Houses(h) =>
          if known { SoundHouses(use, m, p); }
          return h;
        case _ =>
          Delete(key, faults.delete, use);
      }
      houses := engine.houses(m, p);
      if known { HousesSound(engine, md5, use, m, p); }
      Set(key, Houses(houses), faults.set_, use);
    }

    lemma SoundHouses(use: Use, m: Moment, p: Place)
      requires Sound(use) && InUse(use, PlaceParams(m, p))
      requires HousesKey(md5, m, p) in entries && entries[HousesKey(md5, m, p)].Houses?
      ensures engine.houses(m, p) == entries[HousesKey(md5, m, p)].houses
    {
      hide PlaceParams, Key, Collisionless, InUse;
      assert EntrySound(engine, md5, use, HousesKey(md5, m, p), entries[HousesKey(md5, m, p)]);
    }

    method GetChartCached(m: Moment, p: Place, faults: Faults, ghost use: Use)
      returns (r: Result<(seq<Body>, seq<House>)>)
      modifies this
      ensures var key := ChartKey(md5, m, p);
        if key in old(entries) && old(entries)[key].Chart? then
          r == Ok((old(entries)[key].chartBodies, old(entries)[key].chartHouses)) && entries == old(entries)
        else
          r == DirectChart(engine, m, p) && entries == AfterMiss(old(entries), key, ChartEntry(r), faults)
      ensures old(Sound(use)) && InUse(use, PlaceParams(m, p)) ==> Sound(use) && r == DirectChart(engine, m, p)
      ensures Objects() <= old(Objects())
      ensures old(OneKey()) ==> OneKey()
    {
      hide PlaceParams, Key, Collisionless, InUse, EntrySound, OneKey;
      var key := GenerateEphemerisKey(md5, "chart", PlaceParams(m, p));
      ghost var known := Sound(use) && InUse(use, PlaceParams(m, p));
      if key in entries {
        match entries[key]
        case Chart(b, h) =>
          if known { SoundChart(use, m, p); }
          return Ok((b, h));
        case _ =>
          Delete(key, faults.delete, use);
      }
      var bodies := engine.planets(m);
      if bodies.Err? {
        return Err(bodies.error);
      }
      var houses := engine.houses(m, p);
      if known { ChartSound(engine, md5, use, m, p, bodies.value); }
      Set(key, Chart(bodies.value, houses), faults.set_, use);
      r := Ok((bodies.value, houses));
    }

    lemma SoundChart(use: Use, m: Moment, p: Place)
      requires Sound(use) && InUse(use, PlaceParams(m, p))
      requires ChartKey(md5, m, p) in entries && entries[ChartKey(md5, m, p)].Chart?
      ensures var e := entries[ChartKey(md5, m, p)]; DirectChart(engine, m, p) == Ok((e.chartBodies, e.chartHouses))
    {
      hide PlaceParams, Key, Collisionless, InUse;
      assert EntrySound(engine, md5, use, ChartKey(md5, m, p), entries[ChartKey(md5, m, p)]);
    }

    /** A hit hands out the object in the cache, after marking it as cached. */
    method CalculateBodies(m: Moment, gregorian: bool, config: Config, faults: Faults, ghost use: Use)
      returns (r: Result<EphemerisResult>)
      modifies this, Objects()`metadata
      ensures var key := BodiesKey(md5, m, gregorian, config);
        if key in old(entries) && old(entries)[key].Stored? then
          && r == Ok(old(entries)[key].result) && entries == old(entries)
          && r.value.metadata == old(entries[key].result.metadata).(cached := true, cacheKey := key)
        else
          && BodiesOf(r) == engine.bodies(m, config)
          && entries == AfterMiss(old(entries), key, StoredEntry(r), faults)
          && (r.Ok? ==> fresh(r.value) && r.value.houses == [])
          && (r.Ok? ==> !r.value.metadata.cached && r.value.metadata.cacheKey == key)
          && (r.Ok? ==> r.value.metadata.bodiesCalculated == |r.value.bodies|)
      ensures forall o | o in old(Objects()) && !(r.Ok? && o == r.value) :: o.metadata == old(o.metadata)
      ensures old(Sound(use)) && BodiesInUse(use, m, gregorian, config) ==>
        Sound(use) && BodiesOf(r) == engine.bodies(m, config)
      ensures old(NoHouses()) ==> NoHouses() && (r.Ok? ==> r.value.houses == [])
      ensures KeepsStored(old(entries), entries)
      ensures var key := BodiesKey(md5, m, gregorian, config);
        && (r.Ok? && !faults.set_ ==> Holds(key, r.value))
        && (r.Ok? && r.value in Objects() ==> !faults.set_ || (key in old(entries) && old(entries)[key].Stored?))
      ensures old(OneKey()) ==> OneKey()
      ensures forall o | o in Objects() :: o in old(Objects()) || fresh(o)
      ensures r.Ok? ==> r.value in old(Objects()) || fresh(r.value)
    {
      hide BodiesParams, Key, Collisionless, InUse, EntrySound, Sound, OneKey;
      var key := GenerateEphemerisKey(md5, "bodies", BodiesParams(m, gregorian, config));
      ghost var known := Sound(use) && BodiesInUse(use, m, gregorian, config);
      if key in entries && entries[key].Stored? {
        if known { SoundBodies(use, m, gregorian, config); }
        var result := entries[key].result;
        result.metadata := result.metadata.(cached := true, cacheKey := key);
        return Ok(result);
      }
      r := CalculateAndStore(m, gregorian, config, key, faults, use);
    }

    /** The part of CalculateBodies that follows a miss */
    method CalculateAndStore(m: Moment, gregorian: bool, config: Config, key: string, faults: Faults, ghost use: Use)
      returns (r: Result<EphemerisResult>)
      requires key == BodiesKey(md5, m, gregorian, config)
      modifies this
      ensures BodiesOf(r) == engine.bodies(m, config)
      ensures entries == AfterMiss(old(entries), key, StoredEntry(r), faults)
      ensures r.Ok? ==> fresh(r.value) && r.value.houses == []
      ensures r.Ok? ==> !r.value.metadata.cached && r.value.metadata.cacheKey == key
      ensures r.Ok? ==> r.value.metadata.bodiesCalculated == |r.value.bodies|
      ensures old(Sound(use)) && BodiesInUse(use, m, gregorian, config) ==> Sound(use)
      ensures old(NoHouses()) ==> NoHouses()
      ensures old(OneKey()) ==> OneKey()
      ensures forall o | o in Objects() :: o in old(Objects()) || fresh(o)
    {
      hide BodiesParams, Key, Collisionless, InUse, EntrySound, Sound, NoHouses, OneKey;
      if key in entries {
        Delete(key, faults.delete, use);
      }
      var bodies := engine.bodies(m, config);
      if bodies.Err? {
        return Err(bodies.error);
      }
      var result := StoreNew(m, gregorian, config, key, bodies.value, faults.set_, use);
      r := Ok(result);
    }

    method StoreNew(m: Moment, gregorian: bool, config: Config, key: string, bodies: seq<Body>, fails: bool,
                    ghost use: Use)
      returns (result: EphemerisResult)
      requires key == BodiesKey(md5, m, gregorian, config) && engine.bodies(m, config) == Ok(bodies)
      modifies this
      ensures fresh(result) && result.bodies == bodies && result.houses == []
      ensures !result.metadata.cached && result.metadata.cacheKey == key
      ensures result.metadata.bodiesCalculated == |bodies|
      ensures entries == if fails then old(entries) else old(entries)[key := Stored(result)]
      ensures old(Sound(use)) && BodiesInUse(use, m, gregorian, config) ==> Sound(use)
      ensures old(NoHouses()) ==> NoHouses()
      ensures old(OneKey()) ==> OneKey()
      ensures Objects() <= old(Objects()) + {result}
    {
      hide BodiesParams, Key, InUse, Collisionless, EntrySound, OneKey;
      var time :| time >= 0;
      result := new EphemerisResult(bodies, Metadata(time, |bodies|, false, key));
      if Sound(use) && BodiesInUse(use, m, gregorian, config) {
        StoredSound(engine, md5, use, m, gregorian, config, result);
      }
      Set(key, Stored(result), fails, use);
    }

    lemma SoundBodies(use: Use, m: Moment, g: bool, c: Config)
      requires Sound(use) && BodiesInUse(use, m, g, c)
      requires BodiesKey(md5, m, g, c) in entries && entries[BodiesKey(md5, m, g, c)].Stored?
      ensures engine.bodies(m, c) == Ok(entries[BodiesKey(md5, m, g, c)].result.bodies)
    {
      hide BodiesParams, Key, Collisionless, InUse;
      assert EntrySound(engine, md5, use, BodiesKey(md5, m, g, c), entries[BodiesKey(md5, m, g, c)]);
    }

    /** The houses are put into the object that CalculateBodies returned, which may be the one in the cache. */
    method GetFullChart(m: Moment, gregorian: bool, p: Place, faults: Faults, ghost use: Use)
      returns (r: Result<EphemerisResult>)
      modifies this, Objects()`metadata, Objects()`houses
      ensures old(Sound(use)) && BodiesInUse(use, m, gregorian, ALL_BODIES) && InUse(use, PlaceParams(m, p)) ==>
        && Sound(use) && BodiesOf(r) == engine.bodies(m, ALL_BODIES)
        && (r.Ok? ==> r.value.houses == engine.houses(m, p) && r.value.metadata.bodiesCalculated == |r.value.bodies|)
      ensures var key := BodiesKey(md5, m, gregorian, ALL_BODIES);
        old(Sound(use)) && BodiesInUse(use, m, gregorian, ALL_BODIES) && InUse(use, PlaceParams(m, p)) && r.Ok? &&
        (!faults.set_ || (key in old(entries) && old(entries)[key].Stored?)) ==>
        Holds(key, r.value)
      ensures var key := BodiesKey(md5, m, gregorian, ALL_BODIES);
        if key in old(entries) && old(entries)[key].Stored? then r == Ok(old(entries)[key].result)
        else r.Ok? ==> fresh(r.value) && (r.value in Objects() ==> !faults.set_)
      ensures forall o | o in old(Objects()) && !(r.Ok? && o == r.value) ::
        o.houses == old(o.houses) && o.metadata == old(o.metadata)
      ensures KeepsStored(old(entries) - {HousesKey(md5, m, p)}, entries)
      ensures old(OneKey()) ==> OneKey()
      ensures forall o | o in Objects() :: o in old(Objects()) || fresh(o)
      ensures r.Ok? ==> r.value in old(Objects()) || fresh(r.value)
    {
      hide BodiesParams, PlaceParams, Key, Collisionless, InUse, EntrySound, Sound, OneKey, AfterMiss, NoHouses;
      ghost var known := Sound(use) && BodiesInUse(use, m, gregorian, ALL_BODIES) && InUse(use, PlaceParams(m, p));
      r := CalculateBodies(m, gregorian, ALL_BODIES, faults, use);
      if r.Err? {
        return;
      }
      if known { DifferentKeys(use, m, gregorian, ALL_BODIES, "houses", PlaceParams(m, p)); }
      var houses := GetHousesCached(m, p, faults, use);
      r.value.houses := houses;
      r.value.metadata := r.value.metadata.(bodiesCalculated := |r.value.bodies|);
    }

    /** The cache has this object under this key. */
    ghost predicate Holds(key: string, o: EphemerisResult)
      reads this
    {
      key in entries && entries[key] == Stored(o)
    }

    /** The request is for the full chart that this object holds the bodies of. */
    ghost predicate ChartUnder(r: Request, o: EphemerisResult)
      reads this
    {
      r.FullChart? && Holds(BodiesKey(md5, r.m, r.gregorian, ALL_BODIES), o)
    }

    lemma DifferentKeys(use: Use, m: Moment, g: bool, c: Config, op: string, params: map<string, string>)
      requires Sound(use) && InUse(use, BodiesParams(m, g, c)) && InUse(use, params) && op != "" && op[0] != 'b'
      ensures BodiesKey(md5, m, g, c) != Key(md5, op, params)
    {
      hide BodiesParams, Key, ParamString, EntrySound;
      SameKey(md5, "bodies", BodiesParams(m, g, c), op, params);
      assert "bodies"[0] == 'b';
    }

    method InvalidateCache(ghost use: Use)
      modifies this
      ensures entries == map[]
      ensures old(Sound(use)) ==> Sound(use)
      ensures old(NoHouses()) ==> NoHouses()
      ensures OneKey()
    {
      entries := map[];
    }

    /** What happens to the cache meanwhile: an entry runs out or is deleted, or is replaced by something else. */
    method Disturb(key: string, foreign: bool, ghost use: Use)
      modifies this
      ensures old(Sound(use)) ==> Sound(use)
      ensures old(NoHouses()) ==> NoHouses()
      ensures old(OneKey()) ==> OneKey()
      ensures old(OneKey()) && key in old(entries) && old(entries)[key].Stored? ==>
        old(entries)[key].result !in Objects()
      ensures entries == if foreign then old(entries)[key := Foreign] else old(entries) - {key}
    {
      hide Collisionless;
      entries := if foreign then entries[key := Foreign] else entries - {key};
    }

    /** Any run of calls, invalidations and disturbances is answered as without a cache. */
    method Serve(requests: seq<Request>, ghost use: Use) returns (answers: seq<Answer>)
      requires Sound(use)
      requires forall i | 0 <= i < |requests| :: Admissible(use, requests[i])
      modifies this, Objects()`metadata, Objects()`houses
      ensures Sound(use) && |answers| == |requests|
      ensures forall i | 0 <= i < |requests| :: answers[i] == DirectAnswer(engine, requests[i])
      ensures old(OneKey()) ==> OneKey()
    {
      hide Sound, Admissible, DirectAnswer, OneKey;
      answers := [];
      for i := 0 to |requests|
        invariant Sound(use) && |answers| == i && (old(OneKey()) ==> OneKey())
        invariant forall k | 0 <= k < i :: answers[k] == DirectAnswer(engine, requests[k])
        invariant forall o | o in Objects() :: o in old(Objects()) || fresh(o)
      {
        var answer := ServeOne(requests[i], use);
        answers := answers + [answer];
      }
    }

    method ServeOne(request: Request, ghost use: Use) returns (answer: Answer)
      requires Sound(use) && Admissible(use, request)
      modifies this, Objects()`metadata, Objects()`houses
      ensures Sound(use) && answer == DirectAnswer(engine, request)
      ensures forall o | o in Objects() :: o in old(Objects()) || fresh(o)
      ensures !request.Invalidate? ==> KeepsStored(old(entries) - Touched(md5, request), entries)
      ensures old(OneKey()) ==> OneKey()
      ensures forall k | Removes(request, k) && k in old(entries) && old(entries)[k].Stored? && old(OneKey()) ::
        old(entries)[k].result !in Objects()
      ensures forall o | o in old(Objects()) ::
        o.houses == if old(ChartUnder(request, o)) then engine.houses(request.m, request.p) else old(o.houses)
    {
      hide BodiesParams, PlaceParams, PlanetsParams, Key, Collisionless, InUse, EntrySound, Sound, AfterMiss, OneKey;
      match request
      case GetPlanets(m, faults) =>
        MissKeeps(entries, PlanetsKey(md5, m), PlanetsEntry(engine.planets(m)), faults);
        var r := GetPlanetsCached(m, faults, use);
        answer := PlanetsAnswer(r);
      case GetHouses(m, p, faults) =>
        var h := GetHousesCached(m, p, faults, use);
        answer := HousesAnswer(h);
      case GetChart(m, p, faults) =>
        MissKeeps(entries, ChartKey(md5, m, p), ChartEntry(DirectChart(engine, m, p)), faults);
        var r := GetChartCached(m, p, faults, use);
        answer := ChartAnswer(r);
      case GetBodies(m, g, c, faults) =>
        var r := CalculateBodies(m, g, c, faults, use);
        answer := PlanetsAnswer(BodiesOf(r));
      case FullChart(m, g, p, faults) =>
        var r := GetFullChart(m, g, p, faults, use);
        answer := ChartAnswer(if r.Ok? then Ok((r.value.bodies, r.value.houses)) else Err(r.error));
      case Invalidate =>
        InvalidateCache(use);
        answer := NoAnswer;
      case Disturbance(key, foreign) =>
        Disturb(key, foreign, use);
        answer := NoAnswer;
    }

    /** From an empty cache the same holds of every run that never asks for two lists of custom bodies with otherwise
        equal parameters. */
    method ServeFresh(requests: seq<Request>, ghost texts: set<string>) returns (answers: seq<Answer>)
      requires entries == map[] && Consistent(requests)
      requires Collisionless(md5, Use(texts, CustomOf(requests)))
      requires forall i | 0 <= i < |requests| :: TextsInUse(texts, requests[i])
      modifies this, Objects()`metadata, Objects()`houses
      ensures |answers| == |requests|
      ensures forall i | 0 <= i < |requests| :: answers[i] == DirectAnswer(engine, requests[i])
    {
      hide Admissible, Collisionless, TextsInUse, DirectAnswer;
      ghost var use := Use(texts, CustomOf(requests));
      forall i | 0 <= i < |requests|
        ensures Admissible(use, requests[i])
      {
        ConsistentIsAdmissible(requests, texts, i);
      }
      answers := Serve(requests, use);
    }

    /** The results of two full charts of one moment are one object, with the houses of the second place. */
    method TwoCharts(m: Moment, gregorian: bool, p: Place, q: Place, ghost use: Use)
      returns (first: Result<EphemerisResult>, second: Result<EphemerisResult>)
      requires Sound(use) && BodiesInUse(use, m, gregorian, ALL_BODIES)
      requires InUse(use, PlaceParams(m, p)) && InUse(use, PlaceParams(m, q))
      modifies this, Objects()`metadata, Objects()`houses
      ensures first.Ok? <==> engine.bodies(m, ALL_BODIES).Ok?
      ensures first.Ok? ==> second == first && first.value.houses == engine.houses(m, q)
    {
      hide BodiesParams, PlaceParams, Key, Collisionless, InUse, EntrySound, Sound;
      first := GetFullChart(m, gregorian, p, Faults(false, false), use);
      second := GetFullChart(m, gregorian, q, Faults(false, false), use);
    }

    /** An object that is stored under this key if it is stored at all, with these houses */
    ghost predicate Watched(key: string, o: EphemerisResult, f: Fate)
      reads this, o`houses
    {
      o.houses == f.houses && (o in Objects() ==> f.held) && (f.held ==> Holds(key, o))
    }

    /** Serve, with an eye on the full chart of (m, gregorian) that was handed out earlier */
    method ServeWatching(requests: seq<Request>, ghost m: Moment, ghost gregorian: bool, ghost o: EphemerisResult,
                         ghost f: Fate, ghost use: Use)
      returns (answers: seq<Answer>)
      requires Sound(use) && OneKey() && BodiesInUse(use, m, gregorian, ALL_BODIES)
      requires Watched(BodiesKey(md5, m, gregorian, ALL_BODIES), o, f)
      requires forall i | 0 <= i < |requests| :: Admissible(use, requests[i])
      modifies this, Objects()`metadata, Objects()`houses
      ensures Sound(use) && OneKey() && |answers| == |requests|
      ensures forall i | 0 <= i < |requests| :: answers[i] == DirectAnswer(engine, requests[i])
      ensures Watched(BodiesKey(md5, m, gregorian, ALL_BODIES), o, FateAfter(engine, md5, m, gregorian, f, requests))
    {
      hide Sound, Admissible, DirectAnswer, OneKey, Watched, BodiesInUse;
      answers := [];
      for i := 0 to |requests|
        invariant Sound(use) && OneKey() && |answers| == i
        invariant forall k | 0 <= k < i :: answers[k] == DirectAnswer(engine, requests[k])
        invariant forall o | o in Objects() :: o in old(Objects()) || fresh(o)
        invariant Watched(BodiesKey(md5, m, gregorian, ALL_BODIES), o,
                          FateAfter(engine, md5, m, gregorian, f, requests[..i]))
      {
        var answer := ServeWatched(requests[i], m, gregorian, o,
                                   FateAfter(engine, md5, m, gregorian, f, requests[..i]), use);
        answers := answers + [answer];
        assert requests[..i + 1][..i] == requests[..i];
      }
      assert requests[..|requests|] == requests;
    }

    method ServeWatched(request: Request, ghost m: Moment, ghost gregorian: bool, ghost o: EphemerisResult,
                        ghost f: Fate, ghost use: Use)
      returns (answer: Answer)
      requires Sound(use) && OneKey() && BodiesInUse(use, m, gregorian, ALL_BODIES)
      requires Watched(BodiesKey(md5, m, gregorian, ALL_BODIES), o, f)
      requires Admissible(use, request)
      modifies this, Objects()`metadata, Objects()`houses
      ensures Sound(use) && OneKey() && answer == DirectAnswer(engine, request)
      ensures Watched(BodiesKey(md5, m, gregorian, ALL_BODIES), o, FateNext(engine, md5, m, gregorian, f, request))
      ensures forall o | o in Objects() :: o in old(Objects()) || fresh(o)
    {
      hide Sound, Admissible, DirectAnswer, BodiesKey, BodiesInUse, Touched;
      ghost var key := BodiesKey(md5, m, gregorian, ALL_BODIES);
      BodiesUntouched(use, request, m, gregorian);
      answer := ServeOne(request, use);
    }

    /** Only requests for this full chart, and the removal of its entry, matter to the entry. */
    lemma BodiesUntouched(use: Use, r: Request, m: Moment, g: bool)
      requires Sound(use) && Admissible(use, r) && BodiesInUse(use, m, g, ALL_BODIES)
      ensures BodiesKey(md5, m, g, ALL_BODIES) in Touched(md5, r) ==> Removes(r, BodiesKey(md5, m, g, ALL_BODIES))
      ensures r.FullChart? ==>
        (BodiesKey(md5, r.m, r.gregorian, ALL_BODIES) == BodiesKey(md5, m, g, ALL_BODIES) <==>
        r.m == m && r.gregorian == g)
    {
      hide BodiesParams, PlaceParams, PlanetsParams, Key, ParamString, EntrySound, Collisionless;
      match r
      case GetPlanets(n, _) =>
        DifferentKeys(use, m, g, ALL_BODIES, "planets", PlanetsParams(n));
      case GetHouses(n, p, _) =>
        DifferentKeys(use, m, g, ALL_BODIES, "houses", PlaceParams(n, p));
      case GetChart(n, p, _) =>
        DifferentKeys(use, m, g, ALL_BODIES, "chart", PlaceParams(n, p));
      case FullChart(n, h, p, _) =>
        DifferentKeys(use, m, g, ALL_BODIES, "houses", PlaceParams(n, p));
        BodiesParamsTell(m, g, ALL_BODIES, n, h, ALL_BODIES);
        BodiesParamsTell(n, h, ALL_BODIES, m, g, ALL_BODIES);
        UsedKeysTell(md5, use, "bodies", BodiesParams(n, h, ALL_BODIES), BodiesParams(m, g, ALL_BODIES));
      case _ =>
    }

    /** A full chart that was handed out has, after any run, the houses of the last full chart of its moment that was
        served while its entry was in the cache. */
    method RunAfterChart(m: Moment, gregorian: bool, p: Place, faults: Faults, requests: seq<Request>, ghost use: Use)
      returns (chart: Result<EphemerisResult>, answers: seq<Answer>)
      requires Sound(use) && OneKey() && BodiesInUse(use, m, gregorian, ALL_BODIES) && InUse(use, PlaceParams(m, p))
      requires forall i | 0 <= i < |requests| :: Admissible(use, requests[i])
      modifies this, Objects()`metadata, Objects()`houses
      ensures chart.Ok? <==> engine.bodies(m, ALL_BODIES).Ok?
      ensures Sound(use) && OneKey() && |answers| == |requests|
      ensures forall i | 0 <= i < |requests| :: answers[i] == DirectAnswer(engine, requests[i])
      ensures var key := BodiesKey(md5, m, gregorian, ALL_BODIES);
        var held := (key in old(entries) && old(entries)[key].Stored?) || !faults.set_;
        var fate := FateAfter(engine, md5, m, gregorian, Fate(held, engine.houses(m, p)), requests);
        chart.Ok? ==> chart.value.houses == fate.houses
    {
      hide BodiesParams, PlaceParams, Key, Collisionless, InUse, EntrySound, Sound, OneKey, FateAfter, Admissible;
      ghost var key := BodiesKey(md5, m, gregorian, ALL_BODIES);
      ghost var held := (key in entries && entries[key].Stored?) || !faults.set_;
      chart := GetFullChart(m, gregorian, p, faults, use);
      if chart.Err? {
        answers := Serve(requests, use);
      } else {
        answers := ServeWatching(requests, m, gregorian, chart.value, Fate(held, engine.houses(m, p)), use);
      }
    }

    /** A later chart leaves the houses of an earlier one alone if and only if it is of another moment, or its place
        has the same houses. */
    method ChartAfterChart(m: Moment, g: bool, p: Place, n: Moment, h: bool, q: Place, ghost use: Use)
      returns (first: Result<EphemerisResult>)
      requires Sound(use) && OneKey()
      requires BodiesInUse(use, m, g, ALL_BODIES) && InUse(use, PlaceParams(m, p))
      requires BodiesInUse(use, n, h, ALL_BODIES) && InUse(use, PlaceParams(n, q))
      modifies this, Objects()`metadata, Objects()`houses
      ensures first.Ok? <==> engine.bodies(m, ALL_BODIES).Ok?
      ensures first.Ok? ==>
        (first.value.houses == engine.houses(m, p) <==>
        (n, h) != (m, g) || engine.houses(m, q) == engine.houses(m, p))
    {
      hide BodiesParams, PlaceParams, Key, Collisionless, InUse, EntrySound, Sound, OneKey;
      var second := FullChart(n, h, q, Faults(false, false));
      ghost var f := Fate(true, engine.houses(m, p));
      assert FateAfter(engine, md5, m, g, f, [second][..0]) == f;
      var answers;
      first, answers := RunAfterChart(m, g, p, Faults(false, false), [second], use);
    }

    /** After a full chart, asking for its bodies alone gives its houses too: none exactly if the chart had none. */
    method BodiesAfterChart(m: Moment, gregorian: bool, p: Place, ghost use: Use)
      returns (chart: Result<EphemerisResult>, bodies: Result<EphemerisResult>)
      requires Sound(use) && BodiesInUse(use, m, gregorian, ALL_BODIES) && InUse(use, PlaceParams(m, p))
      modifies this, Objects()`metadata, Objects()`houses
      ensures chart.Ok? <==> engine.bodies(m, ALL_BODIES).Ok?
      ensures chart.Ok? ==> bodies == chart && bodies.value.houses == engine.houses(m, p)
    {
      hide BodiesParams, PlaceParams, Key, Collisionless, InUse, EntrySound, Sound;
      chart := GetFullChart(m, gregorian, p, Faults(false, false), use);
      bodies := CalculateBodies(m, gregorian, ALL_BODIES, Faults(false, false), use);
    }

    /** A request whose configuration differs in the custom bodies only gets the bodies of the earlier one. */
    method CustomBodiesIgnored(m: Moment, gregorian: bool, c: Config, d: Config) returns (r: Result<EphemerisResult>)
      requires BodiesKey(md5, m, gregorian, c) !in entries
      requires c.(customBodies := []) == d.(customBodies := []) && engine.bodies(m, c).Ok?
      modifies this, Objects()`metadata
      ensures BodiesOf(r) == engine.bodies(m, c)
    {
      hide BodiesParams, Key, Sound;
      BodiesParamsTell(m, gregorian, c, m, gregorian, d);
      var earlier := CalculateBodies(m, gregorian, c, Faults(false, false), Use({}, (_, _, _) => []));
      r := CalculateBodies(m, gregorian, d, Faults(false, false), Use({}, (_, _, _) => []));
    }
  }

  /** GetAllBodiesConfig, with SEFLG_SWIEPH | SEFLG_SPEED */
  const ALL_BODIES := Config(true, true, true, true, [], true, 258)

  datatype Request = GetPlanets(m: Moment, faults: Faults) | GetHouses(m: Moment, p: Place, faults: Faults)
                   | GetChart(m: Moment, p: Place, faults: Faults)
                   | GetBodies(m: Moment, gregorian: bool, config: Config, faults: Faults)
                   | FullChart(m: Moment, gregorian: bool, p: Place, faults: Faults)
                   | Invalidate | Disturbance(key: string, foreign: bool)

  ghost predicate Removes(r: Request, key: string) {
    r.Invalidate? || (r.Disturbance? && r.key == key)
  }

  /** Keys other than those of stored results whose entries a request may change */
  ghost function Touched(md5: string -> string, r: Request): set<string> {
    match r
    case GetPlanets(m, _) => {PlanetsKey(md5, m)}
    case GetHouses(m, p, _) => {HousesKey(md5, m, p)}
    case GetChart(m, p, _) => {ChartKey(md5, m, p)}
    case FullChart(m, _, p, _) => {HousesKey(md5, m, p)}
    case Disturbance(key, _) => {key}
    case _ => {}
  }

  /** Whether the object of a full chart is still in the cache, and its houses */
  datatype Fate = Fate(held: bool, houses: seq<House>)

  ghost function FateNext(engine: Engine, md5: string -> string, m: Moment, g: bool, f: Fate, r: Request): Fate {
    if Removes(r, BodiesKey(md5, m, g, ALL_BODIES)) then f.(held := false)
    else if f.held && ChartOf(r, m, g) then f.(houses := engine.houses(m, r.p))
    else f
  }

  predicate ChartOf(r: Request, m: Moment, g: bool) { r.FullChart? && r.m == m && r.gregorian == g }

  ghost function FateAfter(engine: Engine, md5: string -> string, m: Moment, g: bool, f: Fate,
                           requests: seq<Request>): Fate {
    if requests == [] then f
    else
      var n := |requests| - 1;
      FateNext(engine, md5, m, g, FateAfter(engine, md5, m, g, f, requests[..n]), requests[n])
  }

  /** A chart keeps its houses at every moment of a run if and only if no chart of the same moment, served before its
      entry is removed, has other houses. */
  lemma {:induction false} KeptExactly(engine: Engine, md5: string -> string, m: Moment, g: bool, f: Fate,
                                       rs: seq<Request>)
    ensures var key := BodiesKey(md5, m, g, ALL_BODIES);
      (forall i | 0 <= i <= |rs| :: FateAfter(engine, md5, m, g, f, rs[..i]).houses == f.houses) <==>
      (forall i | 0 <= i < |rs| && HeldUntil(key, f, rs, i) && ChartOf(rs[i], m, g) ::
        engine.houses(m, rs[i].p) == f.houses)
  {
    hide BodiesKey, FateAfter, HeldUntil;
    var key := BodiesKey(md5, m, g, ALL_BODIES);
    if forall i | 0 <= i <= |rs| :: FateAfter(engine, md5, m, g, f, rs[..i]).houses == f.houses {
      forall i | 0 <= i < |rs| && HeldUntil(key, f, rs, i) && ChartOf(rs[i], m, g)
        ensures engine.houses(m, rs[i].p) == f.houses
      {
        OneRequest(engine, md5, m, g, f, rs, i);
      }
    }
    if forall i | 0 <= i < |rs| && HeldUntil(key, f, rs, i) && ChartOf(rs[i], m, g) ::
        engine.houses(m, rs[i].p) == f.houses {
      forall i | 0 <= i <= |rs|
        ensures FateAfter(engine, md5, m, g, f, rs[..i]).houses == f.houses
      {
        KeptUntil(engine, md5, m, g, f, rs, i);
      }
    }
  }

  lemma {:induction false} KeptUntil(engine: Engine, md5: string -> string, m: Moment, g: bool, f: Fate,
                                     rs: seq<Request>, n: nat)
    requires n <= |rs|
    requires var key := BodiesKey(md5, m, g, ALL_BODIES);
      forall i | 0 <= i < |rs| && HeldUntil(key, f, rs, i) && ChartOf(rs[i], m, g) ::
        engine.houses(m, rs[i].p) == f.houses
    ensures FateAfter(engine, md5, m, g, f, rs[..n]).houses == f.houses
  {
    hide BodiesKey, FateAfter, HeldUntil;
    if n == 0 {
      NoRequests(engine, md5, m, g, f);
    } else {
      KeptUntil(engine, md5, m, g, f, rs, n - 1);
      OneRequest(engine, md5, m, g, f, rs, n - 1);
    }
  }

  lemma NoRequests(engine: Engine, md5: string -> string, m: Moment, g: bool, f: Fate)
    ensures FateAfter(engine, md5, m, g, f, []) == f
  {}

  lemma OneRequest(engine: Engine, md5: string -> string, m: Moment, g: bool, f: Fate, rs: seq<Request>, i: nat)
    requires i < |rs|
    ensures FateAfter(engine, md5, m, g, f, rs[..i + 1]).houses
      == if HeldUntil(BodiesKey(md5, m, g, ALL_BODIES), f, rs, i) && ChartOf(rs[i], m, g)
         then engine.houses(m, rs[i].p)
         else FateAfter(engine, md5, m, g, f, rs[..i]).houses
  {
    hide BodiesKey, HeldUntil, FateAfter;
    HeldAfter(engine, md5, m, g, f, rs, i);
    LastRequest(engine, md5, m, g, f, rs, i + 1);
    if HeldUntil(BodiesKey(md5, m, g, ALL_BODIES), f, rs, i) && ChartOf(rs[i], m, g) {
      assert !Removes(rs[i], BodiesKey(md5, m, g, ALL_BODIES));
    }
  }

  /** The object was in the cache at the beginning, and none of the first n requests removes its entry. */
  ghost predicate HeldUntil(key: string, f: Fate, rs: seq<Request>, n: int)
    requires n <= |rs|
  {
    f.held && forall j | 0 <= j < n :: !Removes(rs[j], key)
  }

  lemma {:induction false} HeldAfter(engine: Engine, md5: string -> string, m: Moment, g: bool, f: Fate,
                                     rs: seq<Request>, n: nat)
    requires n <= |rs|
    ensures FateAfter(engine, md5, m, g, f, rs[..n]).held
      == HeldUntil(BodiesKey(md5, m, g, ALL_BODIES), f, rs, n)
  {
    hide BodiesKey, FateAfter, Removes;
    if n == 0 {
      NoRequests(engine, md5, m, g, f);
    } else {
      HeldAfter(engine, md5, m, g, f, rs, n - 1);
      LastRequest(engine, md5, m, g, f, rs, n);
    }
  }

  lemma LastRequest(engine: Engine, md5: string -> string, m: Moment, g: bool, f: Fate, rs: seq<Request>, n: nat)
    requires 0 < n <= |rs|
    ensures FateAfter(engine, md5, m, g, f, rs[..n])
      == FateNext(engine, md5, m, g, FateAfter(engine, md5, m, g, f, rs[..n - 1]), rs[n - 1])
  {
    hide FateNext;
    assert rs[..n][..n - 1] == rs[..n - 1];
  }

  datatype Answer = PlanetsAnswer(bodies: Result<seq<Body>>) | HousesAnswer(houses: seq<House>)
                  | ChartAnswer(chart: Result<(seq<Body>, seq<House>)>) | NoAnswer

  ghost predicate Admissible(use: Use, r: Request) {
    match r
    case GetPlanets(m, _) => InUse(use, PlanetsParams(m))
    case GetHouses(m, p, _) => InUse(use, PlaceParams(m, p))
    case GetChart(m, p, _) => InUse(use, PlaceParams(m, p))
    case GetBodies(m, g, c, _) => BodiesInUse(use, m, g, c)
    case FullChart(m, g, p, _) => BodiesInUse(use, m, g, ALL_BODIES) && InUse(use, PlaceParams(m, p))
    case _ => true
  }

  predicate AsksBodies(r: Request) { r.GetBodies? || r.FullChart? }

  function ConfigOf(r: Request): Config
    requires AsksBodies(r)
  {
    if r.GetBodies? then r.config else ALL_BODIES
  }

  /** The request asks for bodies of this moment with this configuration, custom bodies apart. */
  predicate Asks(r: Request, m: Moment, g: bool, c: Config) {
    AsksBodies(r) && r.m == m && r.gregorian == g && ConfigOf(r).(customBodies := []) == c
  }

  /** No two requests differ in the custom bodies only. */
  predicate Consistent(requests: seq<Request>) {
    forall i, j | 0 <= i < |requests| && 0 <= j < |requests| && AsksBodies(requests[i]) &&
      Asks(requests[j], requests[i].m, requests[i].gregorian, ConfigOf(requests[i]).(customBodies := [])) ::
      ConfigOf(requests[i]).customBodies == ConfigOf(requests[j]).customBodies
  }

  function FirstCustom(requests: seq<Request>, m: Moment, g: bool, c: Config): seq<int> {
    if requests == [] then []
    else if Asks(requests[0], m, g, c) then ConfigOf(requests[0]).customBodies
    else FirstCustom(requests[1..], m, g, c)
  }

  function CustomOf(requests: seq<Request>): (Moment, bool, Config) -> seq<int> {
    (m, g, c) => FirstCustom(requests, m, g, c)
  }

  lemma {:induction false} FirstCustomOf(requests: seq<Request>, m: Moment, g: bool, c: Config, i: int)
    requires 0 <= i < |requests| && Asks(requests[i], m, g, c)
    ensures exists j | 0 <= j <= i ::
        Asks(requests[j], m, g, c) && FirstCustom(requests, m, g, c) == ConfigOf(requests[j]).customBodies
    decreases i
  {
    if Asks(requests[0], m, g, c) {
    } else {
      FirstCustomOf(requests[1..], m, g, c, i - 1);
      var j :| 0 <= j <= i - 1 && Asks(requests[1..][j], m, g, c)
        && FirstCustom(requests[1..], m, g, c) == ConfigOf(requests[1..][j]).customBodies;
      assert requests[j + 1] == requests[1..][j];
    }
  }

  ghost predicate TextsInUse(texts: set<string>, r: Request) {
    match r
    case GetPlanets(m, _) => ParamString(PlanetsParams(m)) in texts
    case GetHouses(m, p, _) => ParamString(PlaceParams(m, p)) in texts
    case GetChart(m, p, _) => ParamString(PlaceParams(m, p)) in texts
    case GetBodies(m, g, c, _) => ParamString(BodiesParams(m, g, c)) in texts
    case FullChart(m, g, p, _) =>
      ParamString(BodiesParams(m, g, ALL_BODIES)) in texts && ParamString(PlaceParams(m, p)) in texts
    case _ => true
  }

  lemma ConsistentIsAdmissible(requests: seq<Request>, texts: set<string>, i: int)
    requires Consistent(requests) && 0 <= i < |requests| && TextsInUse(texts, requests[i])
    ensures Admissible(Use(texts, CustomOf(requests)), requests[i])
  {
    hide ParamString, BodiesParams, PlaceParams, PlanetsParams;
    var r := requests[i];
    if AsksBodies(r) {
      FirstCustomOf(requests, r.m, r.gregorian, ConfigOf(r).(customBodies := []), i);
    }
  }

  // ------------------------------------------------------------------ custom bodies that the key leaves out

  /** A calculation that gives one body for each custom body */
  const CUSTOM_ONLY := Engine(_ => Ok([]), (_, _) => [], (_, c: Config) => Ok(CustomAlone(c.customBodies)))

  function CustomAlone(ids: seq<int>): seq<Body> {
    seq(|ids|, i requires 0 <= i < |ids| => Body(ids[i], "", "", "0", false))
  }

  /** Whenever two requests differ in their custom bodies but not in their key, there is a calculation for which the
      second is answered wrongly. */
  method CustomBodiesClash(md5: string -> string, m: Moment, g: bool, c: Config, n: Moment, h: bool, d: Config)
    returns (r: Result<seq<Body>>)
    requires BodiesParams(m, g, c) == BodiesParams(n, h, d) && c.customBodies != d.customBodies
    ensures r != CUSTOM_ONLY.bodies(n, d)
  {
    hide BodiesParams, Key;
    BodiesParamsTell(m, g, c, n, h, d);
    var service := new CachedEphemerisService(CUSTOM_ONLY, md5);
    var result := service.CustomBodiesIgnored(m, g, c, d);
    r := BodiesOf(result);
    CustomAloneTells(c.customBodies, d.customBodies);
  }

  lemma CustomAloneTells(s: seq<int>, t: seq<int>)
    ensures CustomAlone(s) == CustomAlone(t) <==> s == t
  {
    if CustomAlone(s) == CustomAlone(t) {
      assert |s| == |CustomAlone(s)| && |t| == |CustomAlone(t)|;
      assert forall i | 0 <= i < |s| :: CustomAlone(s)[i].id == s[i] && CustomAlone(t)[i].id == t[i];
    }
  }

  /** CalculateCelestialBodies: the numbers of the bodies it looks up */
  function BodyIds(c: Config): seq<int> {
    (if c.traditional then [0, 1, 2, 3, 4, 5, 6, 7, 8, 9] else [])
      + (if c.nodes then [10, 11, 12, 13] else [])
      + (if c.centaurs then [15, 16] else [])
      + (if c.asteroids then [17, 18, 19, 20] else [])
      + c.customBodies
  }

  /** The configuration of a full chart asks for every body that a configuration without custom bodies can ask for. */
  lemma AllBodiesAreAll(c: Config)
    requires c.customBodies == []
    ensures forall id | id in BodyIds(c) :: id in BodyIds(ALL_BODIES)
    ensures forall id | id in BodyIds(ALL_BODIES) :: 0 <= id <= 20 && id != 14
    ensures |BodyIds(ALL_BODIES)| == 20 && ALL_BODIES.useSpeed && ALL_BODIES.flags == 2 + 256
  {}

  predicate Has(bodies: seq<Body>, id: int) { exists k | 0 <= k < |bodies| :: bodies[k].id == id }

  /** With the planets cached, asking for the planets and Ceres gives the planets. */
  method CeresForgotten(engine: Engine, md5: string -> string, m: Moment, g: bool) returns (r: Result<seq<Body>>)
    requires forall c :: engine.bodies(m, c).Ok? && (Has(engine.bodies(m, c).value, 17) <==> 17 in BodyIds(c))
    ensures r.Ok? && !Has(r.value, 17)
    ensures Has(engine.bodies(m, Config(true, false, false, false, [17], true, 258)).value, 17)
  {
    hide Key, Has, BodiesParams;
    var c := Config(true, false, false, false, [], true, 258);
    var d := c.(customBodies := [17]);
    assert 17 !in BodyIds(c) && 17 in BodyIds(d);
    var service := new CachedEphemerisService(engine, md5);
    var result := service.CustomBodiesIgnored(m, g, c, d);
    r := BodiesOf(result);
  }

  /** The answer without a cache, the bodies and the houses of a full chart apart */
  function DirectAnswer(engine: Engine, r: Request): Answer {
    match r
    case GetPlanets(m, _) => PlanetsAnswer(engine.planets(m))
    case GetHouses(m, p, _) => HousesAnswer(engine.houses(m, p))
    case GetChart(m, p, _) => ChartAnswer(DirectChart(engine, m, p))
    case GetBodies(m, _, c, _) => PlanetsAnswer(engine.bodies(m, c))
    case FullChart(m, _, p, _) => ChartAnswer(FullChartOf(engine, m, p))
    case _ => NoAnswer
  }

  function FullChartOf(engine: Engine, m: Moment, p: Place): Result<(seq<Body>, seq<House>)> {
    var bodies := engine.bodies(m, ALL_BODIES);
    if bodies.Err? then Err(bodies.error) else Ok((bodies.value, engine.houses(m, p)))
  }

  function DirectChart(engine: Engine, m: Moment, p: Place): Result<(seq<Body>, seq<House>)> {
    var bodies := engine.planets(m);
    if bodies.Err? then Err(bodies.error) else Ok((bodies.value, engine.houses(m, p)))
  }

  // ------------------------------------------------------------------ the full chart of the service without a cache

  function HouseBody(h: House): Body {
    Body(h.id, "House " + ShowInt(h.id), "house", h.longitude, false)
  }

  predicate ShowsHouse(b: Body, h: House) {
    && b.id == h.id && b.name == "House " + ShowInt(h.id) && b.kind == "house"
    && b.longitude == h.longitude && !b.retrograde
  }

  lemma HouseBodyShows(h: House)
    ensures ShowsHouse(HouseBody(h), h)
  {}

  /** DirectEphemerisService.GetFullChart: the houses become bodies. */
  method DirectFullChart(engine: Engine, m: Moment, p: Place) returns (r: Result<seq<Body>>)
    ensures match FullChartOf(engine, m, p)
      case Err(e) => r == Err(e)
      case Ok((bodies, houses)) =>
        && r.Ok? && |r.value| == |bodies| + |houses| && bodies <= r.value
        && forall i | 0 <= i < |houses| ::
             ShowsHouse(r.value[|bodies| + i], houses[i])
    ensures r.Ok? ==> (r == engine.bodies(m, ALL_BODIES) <==> engine.houses(m, p) == [])
  {
    hide HouseBody, ShowsHouse;
    var bodies := engine.bodies(m, ALL_BODIES);
    if bodies.Err? {
      return bodies;
    }
    var houses := engine.houses(m, p);
    var houseBodies := [];
    for i := 0 to |houses|
      invariant |houseBodies| == i && forall k | 0 <= k < i :: ShowsHouse(houseBodies[k], houses[k])
    {
      HouseBodyShows(houses[i]);
      houseBodies := houseBodies + [HouseBody(houses[i])];
    }
    var all := bodies.value + houseBodies;
    assert |all| == |bodies.value| + |houses|;
    assert houses == [] ==> all == bodies.value;
    r := Ok(all);
  }
}
