/** The circuit breaker in front of the ephemeris calculations (eph/circuit_breaker.go).

    Any number of calls may be in flight. Admitting a call and recording its outcome are single steps here; the last
    section splits the recording functions into their atomic operations. */
module CircuitBreaker {

  datatype State = Closed | Open | HalfOpen

  datatype Config = Config(failureThreshold: int, recoveryTimeout: int)

  const SUCCESS_THRESHOLD := 3

  /** The four atomic variables of the breaker */
  datatype Counters = Counters(state: State, failures: int, lastFailTime: int, successes: int)

  const FRESH := Counters(Closed, 0, 0, 0)

  predicate Refuses(cfg: Config, c: Counters, now: int) {
    c.state == Open && now - c.lastFailTime < cfg.recoveryTimeout
  }

  function Admitted(c: Counters): Counters {
    if c.state == Open then c.(state := HalfOpen, successes := 0) else c
  }

  function Failure(cfg: Config, c: Counters, now: int): Counters {
    var n := c.failures + 1;
    c.(failures := n, lastFailTime := now, state := if n >= cfg.failureThreshold then Open else c.state)
  }

  function Success(c: Counters): Counters {
    if c.state != HalfOpen then c
    else if c.successes + 1 >= SUCCESS_THRESHOLD then c.(successes := c.successes + 1, state := Closed, failures := 0)
    else c.(successes := c.successes + 1)
  }

  // ------------------------------------------------------------------ the breaker object

  datatype Outcome = Refused | Failed | Succeeded

  class Breaker {
    var state: State
    var failures: int
    var lastFailTime: int
    var successes: int
    const cfg: Config

    function Contents(): Counters
      reads this
    {
      Counters(state, failures, lastFailTime, successes)
    }

    constructor (failureThreshold: int, recoveryTimeout: int)
      ensures Contents() == FRESH && cfg == Config(failureThreshold, recoveryTimeout)
    {
      state, failures, lastFailTime, successes := Closed, 0, 0, 0;
      cfg := Config(failureThreshold, recoveryTimeout);
    }

    /** Call, up to the call of fn */
    method Begin(now: int) returns (admitted: bool)
      modifies this
      ensures old(state) != Open ==> admitted && Contents() == old(Contents())
      ensures old(state) == Open ==> (admitted <==> now >= old(lastFailTime) + cfg.recoveryTimeout)
      ensures admitted == !Refuses(cfg, old(Contents()), now)
      ensures Contents() == if admitted then Admitted(old(Contents())) else old(Contents())
    {
      if state == Open {
        if now - lastFailTime < cfg.recoveryTimeout {
          return false;
        }
        state := HalfOpen;
        successes := 0;
      }
      admitted := true;
    }

    method RecordFailure(now: int)
      modifies this
      ensures Contents() == Failure(cfg, old(Contents()), now)
    {
      failures := failures + 1;
      lastFailTime := now;
      if failures >= cfg.failureThreshold {
        state := Open;
      }
    }

    method RecordSuccess()
      modifies this
      ensures Contents() == Success(old(Contents()))
    {
      if state == HalfOpen {
        successes := successes + 1;
        if successes >= SUCCESS_THRESHOLD {
          state := Closed;
          failures := 0;
        }
      }
    }

    /** Call, when no other call is in flight: fn fails or not, and is done at `end` */
    method Call(start: int, fails: bool, end: int) returns (outcome: Outcome)
      requires start <= end
      modifies this
      ensures outcome == if Refuses(cfg, old(Contents()), start) then Refused else if fails then Failed else Succeeded
      ensures Contents() == After(cfg, World(old(Contents()), 0), Episode(outcome, start, end)).c
    {
      ghost var w := World(Contents(), 0);
      var admitted := Begin(start);
      if !admitted {
        return Refused;
      }
      if fails {
        RecordFailure(end);
        outcome := Failed;
      } else {
        RecordSuccess();
        outcome := Succeeded;
      }
      OneMore(cfg, w, Episode(outcome, start, end), 0);
      OneMore(cfg, w, Episode(outcome, start, end), 1);
      assert Episode(outcome, start, end)[..2] == Episode(outcome, start, end);
    }
  }

  function Episode(outcome: Outcome, start: int, end: int): seq<Event> {
    match outcome
    case Refused => [Start(start)]
    case Failed => [Start(start), Fail(end)]
    case Succeeded => [Start(start), Succeed]
  }

  // ------------------------------------------------------------------ runs with calls in flight

  datatype Event = Start(now: int) | Fail(now: int) | Succeed

  datatype World = World(c: Counters, inFlight: nat)

  predicate Enabled(w: World, e: Event) {
    e.Start? || w.inFlight > 0
  }

  function Next(cfg: Config, w: World, e: Event): World {
    match e
    case Start(now) => if Refuses(cfg, w.c, now) then w else World(Admitted(w.c), w.inFlight + 1)
    case Fail(now) => World(Failure(cfg, w.c, now), Done(w.inFlight))
    case Succeed => World(Success(w.c), Done(w.inFlight))
  }

  function Done(n: nat): nat {
    if n > 0 then n - 1 else 0
  }

  /** The events happen in this order; only calls in flight end. */
  ghost predicate Possible(cfg: Config, w: World, es: seq<Event>) {
    forall i | 0 <= i < |es| :: Enabled(After(cfg, w, es[..i]), es[i])
  }

  function After(cfg: Config, w: World, es: seq<Event>): World {
    if es == [] then w else Next(cfg, After(cfg, w, es[..|es| - 1]), es[|es| - 1])
  }

  function Fails(es: seq<Event>): nat {
    if es == [] then 0 else Fails(es[..|es| - 1]) + if es[|es| - 1].Fail? then 1 else 0
  }

  function Successes(es: seq<Event>): nat {
    if es == [] then 0 else Successes(es[..|es| - 1]) + if es[|es| - 1].Succeed? then 1 else 0
  }

  /** Failures below the threshold while closed, at the threshold otherwise; less than three successes while testing */
  predicate Consistent(cfg: Config, c: Counters) {
    && 0 <= c.failures && 0 <= c.successes
    && (c.state == Closed ==> c.failures < cfg.failureThreshold)
    && (c.state != Closed ==> c.failures >= cfg.failureThreshold)
    && (c.state == HalfOpen ==> c.successes < SUCCESS_THRESHOLD)
  }

  /** The breaker is consistent in every run if and only if the threshold is positive. */
  lemma {:induction false} AlwaysConsistent(cfg: Config, es: seq<Event>)
    ensures Consistent(cfg, After(cfg, World(FRESH, 0), es).c) || cfg.failureThreshold <= 0
    ensures cfg.failureThreshold <= 0 ==> !Consistent(cfg, After(cfg, World(FRESH, 0), []).c)
    decreases |es|
  {
    if es != [] {
      AlwaysConsistent(cfg, es[..|es| - 1]);
    }
  }

  /** Hence one failure while testing reopens the circuit at once, and three successes are needed to close it. */
  lemma TestingIsStrict(cfg: Config, es: seq<Event>, e: Event)
    requires cfg.failureThreshold > 0 && After(cfg, World(FRESH, 0), es).c.state == HalfOpen
    ensures var c := After(cfg, World(FRESH, 0), es + [e]).c;
      && (e.Fail? ==> c.state == Open && c.lastFailTime == e.now)
      && (c.state == Closed <==> e.Succeed? && After(cfg, World(FRESH, 0), es).c.successes == SUCCESS_THRESHOLD - 1)
      && (c.state == Closed ==> c.failures == 0)
  {
    AlwaysConsistent(cfg, es);
    assert (es + [e])[..|es|] == es;
  }

  // ------------------------------------------------------------------ every call unless open

  function Starts(es: seq<Event>): nat {
    if es == [] then 0 else Starts(es[..|es| - 1]) + if es[|es| - 1].Start? then 1 else 0
  }

  /** Whatever happened before, a call that starts while the circuit is not open is admitted, and changes no counter. */
  lemma AdmittedUnlessOpen(cfg: Config, w: World, es: seq<Event>, now: int)
    requires After(cfg, w, es).c.state != Open
    ensures var before, after := After(cfg, w, es), After(cfg, w, es + [Start(now)]);
      after.inFlight == before.inFlight + 1 && after.c == before.c
  {
    assert (es + [Start(now)])[..|es|] == es;
  }

  /** In a run that never opens the circuit every call is in flight until it ends. */
  lemma {:induction false} NoneRefused(cfg: Config, w: World, es: seq<Event>)
    requires Possible(cfg, w, es)
    requires forall i | 0 <= i < |es| :: After(cfg, w, es[..i]).c.state != Open
    ensures After(cfg, w, es).inFlight == w.inFlight + Starts(es) - Fails(es) - Successes(es)
    decreases |es|
  {
    if es != [] {
      var n := |es| - 1;
      assert forall i | 0 <= i < n :: es[..n][..i] == es[..i];
      assert Enabled(After(cfg, w, es[..n]), es[n]);
      NoneRefused(cfg, w, es[..n]);
    }
  }

  // ------------------------------------------------------------------ no call while open

  predicate InOrder(t: int, es: seq<Event>) {
    forall i | 0 <= i < |es| && !es[i].Succeed? :: t <= es[i].now
  }

  /** After a failure at time t that reaches the threshold, nothing that happens makes the breaker admit a call before
      t + recoveryTimeout, whatever calls are still in flight. */
  lemma {:induction false} OpenIsQuiet(cfg: Config, w: World, t: int, es: seq<Event>)
    requires w.c.failures + 1 >= cfg.failureThreshold
    requires InOrder(t, es)
    requires forall i | 0 <= i < |es| && es[i].Start? :: es[i].now < t + cfg.recoveryTimeout
    ensures var first := Next(cfg, w, Fail(t));
      var end := After(cfg, first, es);
      && end.c.state == Open && end.c.lastFailTime >= t && end.c.failures >= cfg.failureThreshold
      && end.inFlight <= first.inFlight
      && forall i | 0 <= i < |es| && es[i].Start? :: Refuses(cfg, After(cfg, first, es[..i]).c, es[i].now)
    decreases |es|
  {
    if es != [] {
      var n := |es| - 1;
      var first := Next(cfg, w, Fail(t));
      OpenIsQuiet(cfg, w, t, es[..n]);
      forall i | 0 <= i < |es| && es[i].Start?
        ensures Refuses(cfg, After(cfg, first, es[..i]).c, es[i].now)
      {
        if i < n {
          assert es[..n][..i] == es[..i] && es[..n][i] == es[i];
        }
      }
    }
  }

  /** Time of the last failure recorded in `es`, or t if there is none */
  function LastFailure(t: int, es: seq<Event>): int {
    if es == [] then t
    else if es[|es| - 1].Fail? then es[|es| - 1].now
    else LastFailure(t, es[..|es| - 1])
  }

  lemma {:induction false} LastFailureStamped(cfg: Config, w: World, t: int, es: seq<Event>)
    requires w.c.failures + 1 >= cfg.failureThreshold && InOrder(t, es)
    requires forall i | 0 <= i < |es| && es[i].Start? :: es[i].now < t + cfg.recoveryTimeout
    ensures After(cfg, Next(cfg, w, Fail(t)), es).c.lastFailTime == LastFailure(t, es)
    decreases |es|
  {
    if es != [] {
      OpenIsQuiet(cfg, w, t, es[..|es| - 1]);
      LastFailureStamped(cfg, w, t, es[..|es| - 1]);
    }
  }

  /** The next call after that is admitted if and only if it comes at least the timeout after the last recorded failure,
      those of calls still in flight included; it makes the breaker count successes from zero. */
  lemma AdmittedAfterTimeout(cfg: Config, w: World, t: int, es: seq<Event>, now: int)
    requires w.c.failures + 1 >= cfg.failureThreshold && InOrder(t, es)
    requires forall i | 0 <= i < |es| && es[i].Start? :: es[i].now < t + cfg.recoveryTimeout
    ensures var end := After(cfg, Next(cfg, w, Fail(t)), es);
      var next := Next(cfg, end, Start(now));
      && (next.inFlight > end.inFlight <==> now >= LastFailure(t, es) + cfg.recoveryTimeout)
      && (next.c.state == HalfOpen <==> next.inFlight > end.inFlight)
      && (next.c.state == HalfOpen ==> next.c.successes == 0)
  {
    OpenIsQuiet(cfg, w, t, es);
    LastFailureStamped(cfg, w, t, es);
  }

  // ------------------------------------------------------------------ what it takes to open and to close

  /** Below the threshold the breaker stays closed and forgets no failure: successes in between do not count. */
  lemma {:induction false} StaysClosed(cfg: Config, w: World, es: seq<Event>)
    requires w.c.state == Closed && w.c.failures + Fails(es) < cfg.failureThreshold
    ensures After(cfg, w, es).c.state == Closed && After(cfg, w, es).c.failures == w.c.failures + Fails(es)
    decreases |es|
  {
    if es != [] {
      StaysClosed(cfg, w, es[..|es| - 1]);
    }
  }

  /** In particular no call is refused, however recent the failures. */
  lemma ClosedAdmitsAll(cfg: Config, w: World, es: seq<Event>)
    requires Possible(cfg, w, es) && w.c.state == Closed && w.c.failures + Fails(es) < cfg.failureThreshold
    ensures After(cfg, w, es).inFlight == w.inFlight + Starts(es) - Fails(es) - Successes(es)
  {
    hide After, Possible;
    forall i | 0 <= i < |es|
      ensures After(cfg, w, es[..i]).c.state != Open
    {
      FailsOfPrefix(es, i);
      StaysClosed(cfg, w, es[..i]);
    }
    NoneRefused(cfg, w, es);
  }

  lemma {:induction false} FailsOfPrefix(es: seq<Event>, i: nat)
    requires i <= |es|
    ensures Fails(es[..i]) <= Fails(es)
    decreases |es|
  {
    if i < |es| {
      assert es[..|es| - 1][..i] == es[..i];
      FailsOfPrefix(es[..|es| - 1], i);
    } else {
      assert es[..i] == es;
    }
  }

  /** The failure that reaches the threshold opens it. */
  lemma OpensAtThreshold(cfg: Config, w: World, es: seq<Event>, now: int)
    requires w.c.state == Closed && w.c.failures + Fails(es) + 1 == cfg.failureThreshold
    ensures After(cfg, w, es + [Fail(now)]).c.state == Open
    ensures After(cfg, w, es + [Fail(now)]).c.lastFailTime == now
  {
    StaysClosed(cfg, w, es);
    assert (es + [Fail(now)])[..|es|] == es;
  }

  /** Successes that a breaker in this state still needs before it can be closed */
  function Needed(c: Counters): int {
    if c.state == Closed then 0 else if c.state == Open then SUCCESS_THRESHOLD else SUCCESS_THRESHOLD - c.successes
  }

  /** Every way from open to closed holds at least three successes, however often it opens again in between. */
  lemma {:induction false} ClosingTakesSuccesses(cfg: Config, w: World, es: seq<Event>)
    requires cfg.failureThreshold > 0 && Consistent(cfg, w.c)
    ensures Consistent(cfg, After(cfg, w, es).c)
    ensures Successes(es) + Needed(After(cfg, w, es).c) >= Needed(w.c)
    ensures w.c.state == Open && After(cfg, w, es).c.state == Closed ==> Successes(es) >= SUCCESS_THRESHOLD
    decreases |es|
  {
    if es != [] {
      ClosingTakesSuccesses(cfg, w, es[..|es| - 1]);
    }
  }

  // ------------------------------------------------------------------ which calls close it

  /** An event; if a call ends with it, whether that call was in flight at the beginning */
  datatype Marked = Marked(e: Event, older: bool)

  function Events(ms: seq<Marked>): seq<Event> {
    if ms == [] then [] else Events(ms[..|ms| - 1]) + [ms[|ms| - 1].e]
  }

  /** Calls in flight at the beginning that have ended */
  function OlderEnded(ms: seq<Marked>): nat {
    if ms == [] then 0
    else OlderEnded(ms[..|ms| - 1]) + if ms[|ms| - 1].older && !ms[|ms| - 1].e.Start? then 1 else 0
  }

  /** Successes of calls admitted since */
  function NewerSuccesses(ms: seq<Marked>): nat {
    if ms == [] then 0
    else NewerSuccesses(ms[..|ms| - 1]) + if !ms[|ms| - 1].older && ms[|ms| - 1].e.Succeed? then 1 else 0
  }

  /** A call that ends is one of the older ones that are left, or one of the others in flight. */
  predicate CanHappen(inFlight: nat, olderLeft: int, m: Marked) {
    m.e.Start? || if m.older then olderLeft > 0 else inFlight > olderLeft
  }

  ghost predicate PossibleMarked(cfg: Config, w: World, ms: seq<Marked>) {
    ms == [] ||
    (var n := |ms| - 1;
     PossibleMarked(cfg, w, ms[..n]) &&
     CanHappen(After(cfg, w, Events(ms[..n])).inFlight, w.inFlight - OlderEnded(ms[..n]), ms[n]))
  }

  /** The marked runs are the possible runs, ... */
  lemma {:induction false} MarkedIsPossible(cfg: Config, w: World, ms: seq<Marked>)
    requires PossibleMarked(cfg, w, ms)
    ensures Possible(cfg, w, Events(ms))
    ensures 0 <= w.inFlight - OlderEnded(ms) <= After(cfg, w, Events(ms)).inFlight
    decreases |ms|
  {
    hide Possible;
    if ms == [] {
      NoEvents(cfg, w);
    } else {
      var n := |ms| - 1;
      MarkedIsPossible(cfg, w, ms[..n]);
      Extended(cfg, w, Events(ms[..n]), ms[n].e);
    }
  }

  /** ... and every possible run can be marked. */
  lemma {:induction false} PossibleIsMarked(cfg: Config, w: World, es: seq<Event>) returns (ms: seq<Marked>)
    requires Possible(cfg, w, es)
    ensures PossibleMarked(cfg, w, ms) && Events(ms) == es
    decreases |es|
  {
    hide After;
    if es == [] {
      ms := [];
    } else {
      var n := |es| - 1;
      assert Enabled(After(cfg, w, es[..n]), es[n]);
      assert forall i | 0 <= i < n :: es[..n][..i] == es[..i];
      var before := PossibleIsMarked(cfg, w, es[..n]);
      var m := Marked(es[n], w.inFlight > OlderEnded(before));
      ms := before + [m];
      assert ms[..n] == before by { EventsLength(before); }
      assert es == es[..n] + [es[n]];
    }
  }

  lemma {:induction false} EventsLength(ms: seq<Marked>)
    ensures |Events(ms)| == |ms|
    decreases |ms|
  {
    if ms != [] {
      EventsLength(ms[..|ms| - 1]);
    }
  }

  lemma {:induction false} SuccessesSplit(ms: seq<Marked>)
    ensures Successes(Events(ms)) <= OlderEnded(ms) + NewerSuccesses(ms)
    decreases |ms|
  {
    if ms != [] {
      var n := |ms| - 1;
      SuccessesSplit(ms[..n]);
      assert Events(ms)[..n] == Events(ms[..n]) by { EventsLength(ms[..n]); }
    }
  }

  /** From open, calls admitted since must contribute all successes but one for each older call in flight. */
  lemma ClosingTakesNewSuccesses(cfg: Config, w: World, ms: seq<Marked>)
    requires cfg.failureThreshold > 0 && Consistent(cfg, w.c) && w.c.state == Open
    requires PossibleMarked(cfg, w, ms) && After(cfg, w, Events(ms)).c.state == Closed
    ensures NewerSuccesses(ms) >= SUCCESS_THRESHOLD - w.inFlight
  {
    ClosingTakesSuccesses(cfg, w, Events(ms));
    SuccessesSplit(ms);
    MarkedIsPossible(cfg, w, ms);
  }

  /** Three calls are admitted, then three succeed: older ones as long as there are any. */
  function Closing(t: int, k: nat): seq<Marked> {
    [Marked(Start(t), false), Marked(Start(t), false), Marked(Start(t), false),
     Marked(Succeed, k > 0), Marked(Succeed, k > 1), Marked(Succeed, k > 2)]
  }

  function AtLeastZero(n: int): nat { if n < 0 then 0 else n }

  lemma ClosingCloses(cfg: Config, w: World)
    requires w.c.state == Open
    ensures var ms := Closing(w.c.lastFailTime + cfg.recoveryTimeout, w.inFlight);
      && PossibleMarked(cfg, w, ms)
      && After(cfg, w, Events(ms)) == World(Counters(Closed, 0, w.c.lastFailTime, SUCCESS_THRESHOLD), w.inFlight)
      && NewerSuccesses(ms) == AtLeastZero(SUCCESS_THRESHOLD - w.inFlight)
  {
    hide Possible, After, PossibleMarked, Events, OlderEnded, NewerSuccesses;
    var k := w.inFlight;
    var t := w.c.lastFailTime + cfg.recoveryTimeout;
    var m := Marked(Start(t), false);
    NothingMarked(cfg, w);
    MarkedExtended(cfg, w, [], m);
    var ms1 := [] + [m];
    MarkedExtended(cfg, w, ms1, m);
    var ms2 := ms1 + [m];
    MarkedExtended(cfg, w, ms2, m);
    var ms3 := ms2 + [m];
    MarkedExtended(cfg, w, ms3, Marked(Succeed, k > 0));
    var ms4 := ms3 + [Marked(Succeed, k > 0)];
    MarkedExtended(cfg, w, ms4, Marked(Succeed, k > 1));
    var ms5 := ms4 + [Marked(Succeed, k > 1)];
    MarkedExtended(cfg, w, ms5, Marked(Succeed, k > 2));
    assert Closing(t, k) == ms5 + [Marked(Succeed, k > 2)];
  }

  lemma NothingMarked(cfg: Config, w: World)
    ensures PossibleMarked(cfg, w, []) && After(cfg, w, Events([])) == w
    ensures OlderEnded([]) == NewerSuccesses([]) == 0
  {}

  lemma MarkedExtended(cfg: Config, w: World, ms: seq<Marked>, m: Marked)
    requires PossibleMarked(cfg, w, ms)
    requires CanHappen(After(cfg, w, Events(ms)).inFlight, w.inFlight - OlderEnded(ms), m)
    ensures After(cfg, w, Events(ms + [m])) == Next(cfg, After(cfg, w, Events(ms)), m.e)
    ensures OlderEnded(ms + [m]) == OlderEnded(ms) + if m.older && !m.e.Start? then 1 else 0
    ensures NewerSuccesses(ms + [m]) == NewerSuccesses(ms) + if !m.older && m.e.Succeed? then 1 else 0
    ensures PossibleMarked(cfg, w, ms + [m])
  {
    hide After;
    assert (ms + [m])[..|ms|] == ms;
    Extended(cfg, w, Events(ms), m.e);
  }

  /** The successes that close an open circuit all come from calls sent to test it if and only if no older call is in
      flight; otherwise each older call can take the place of one of them. */
  lemma OnlyTestCallsClose(cfg: Config, w: World)
    requires cfg.failureThreshold > 0 && Consistent(cfg, w.c) && w.c.state == Open
    ensures (forall ms: seq<Marked> | PossibleMarked(cfg, w, ms) && After(cfg, w, Events(ms)).c.state == Closed ::
               NewerSuccesses(ms) >= SUCCESS_THRESHOLD) <==>
            w.inFlight == 0
    ensures exists ms: seq<Marked> | PossibleMarked(cfg, w, ms) && After(cfg, w, Events(ms)).c.state == Closed ::
      NewerSuccesses(ms) == AtLeastZero(SUCCESS_THRESHOLD - w.inFlight)
  {
    hide Possible, After, PossibleMarked, Events, NewerSuccesses, Consistent, Closing;
    ClosingCloses(cfg, w);
    if w.inFlight == 0 {
      forall ms: seq<Marked> | PossibleMarked(cfg, w, ms) && After(cfg, w, Events(ms)).c.state == Closed
        ensures NewerSuccesses(ms) >= SUCCESS_THRESHOLD
      {
        ClosingTakesNewSuccesses(cfg, w, ms);
      }
    }
  }

  /** With every positive threshold the circuit can open with any number of calls in flight. */
  lemma OpenReached(cfg: Config, k: nat)
    requires cfg.failureThreshold > 0
    ensures var es := Opening(cfg.failureThreshold, k);
      && Possible(cfg, World(FRESH, 0), es)
      && After(cfg, World(FRESH, 0), es) == World(Counters(Open, cfg.failureThreshold, 0, 0), k)
      && Consistent(cfg, After(cfg, World(FRESH, 0), es).c)
  {
    hide After, Possible, Many;
    FailsWhileClosed(cfg, k, cfg.failureThreshold);
  }

  /** n calls that fail, and k that are still in flight then */
  function Opening(n: nat, k: nat): seq<Event> {
    Many(Start(0), n + k) + Many(Fail(0), n)
  }

  lemma OneMore(cfg: Config, w: World, es: seq<Event>, i: int)
    requires 0 <= i < |es|
    ensures After(cfg, w, es[..i + 1]) == Next(cfg, After(cfg, w, es[..i]), es[i])
  {
    assert es[..i + 1][..i] == es[..i];
  }

  // ------------------------------------------------------------------ recording, one atomic operation at a time

  /** The next atomic operation of a call that is recording its outcome */
  datatype Stage = CountFailure | StampFailure | CompareFailures | OpenCircuit
                 | LoadState | CountSuccess | CloseCircuit | ClearFailures | Over

  function Atomic(cfg: Config, c: Counters, s: Stage, now: int): (Counters, Stage) {
    match s
    case CountFailure => (c.(failures := c.failures + 1), StampFailure)
    case StampFailure => (c.(lastFailTime := now), CompareFailures)
    case CompareFailures => (c, if c.failures >= cfg.failureThreshold then OpenCircuit else Over)
    case OpenCircuit => (c.(state := Open), Over)
    case LoadState => (c, if c.state == HalfOpen then CountSuccess else Over)
    case CountSuccess =>
      (c.(successes := c.successes + 1), if c.successes + 1 >= SUCCESS_THRESHOLD then CloseCircuit else Over)
    case CloseCircuit => (c.(state := Closed), ClearFailures)
    case ClearFailures => (c.(failures := 0), Over)
    case Over => (c, Over)
  }

  function Atomics(cfg: Config, c: Counters, s: Stage, now: int, n: nat): (Counters, Stage)
    decreases n
  {
    if n == 0 then (c, s)
    else var (c1, s1) := Atomic(cfg, c, s, now); Atomics(cfg, c1, s1, now, n - 1)
  }

  /** Undisturbed, the atomic operations add up to the steps used above. */
  lemma {:induction false} AtomicsAddUp(cfg: Config, c: Counters, now: int)
    ensures Atomics(cfg, c, CountFailure, now, 4) == (Failure(cfg, c, now), Over)
    ensures Atomics(cfg, c, LoadState, now, 4) == (Success(c), Over)
  {
    var (c1, s1) := Atomic(cfg, c, CountFailure, now);
    var (c2, s2) := Atomic(cfg, c1, s1, now);
    var (c3, s3) := Atomic(cfg, c2, s2, now);
    assert Atomics(cfg, c3, s3, now, 1) == Atomic(cfg, c3, s3, now);
    assert Atomics(cfg, c2, s2, now, 2) == Atomics(cfg, c3, s3, now, 1);
    var (d1, r1) := Atomic(cfg, c, LoadState, now);
    var (d2, r2) := Atomic(cfg, d1, r1, now);
    var (d3, r3) := Atomic(cfg, d2, r2, now);
    assert Atomics(cfg, d3, r3, now, 1) == Atomic(cfg, d3, r3, now);
    assert Atomics(cfg, d2, r2, now, 2) == Atomics(cfg, d3, r3, now, 1);
  }

  /** A run that leaves the breaker one success short of closing, with three calls in flight */
  function Nearly(cfg: Config, k: nat): seq<Event> {
    Opening(k, 4) + [Start(cfg.recoveryTimeout), Succeed, Succeed]
  }

  function Many(e: Event, n: nat): seq<Event> { if n == 0 then [] else Many(e, n - 1) + [e] }

  lemma {:induction false} StartsWhileClosed(cfg: Config, n: nat)
    ensures After(cfg, World(FRESH, 0), Many(Start(0), n)) == World(FRESH, n)
    ensures Possible(cfg, World(FRESH, 0), Many(Start(0), n))
  {
    hide After, Possible;
    if n == 0 {
      NoEvents(cfg, World(FRESH, 0));
    } else {
      StartsWhileClosed(cfg, n - 1);
      Extended(cfg, World(FRESH, 0), Many(Start(0), n - 1), Start(0));
    }
  }

  lemma NoEvents(cfg: Config, w: World)
    ensures After(cfg, w, []) == w && Possible(cfg, w, [])
  {}

  lemma Extended(cfg: Config, w: World, es: seq<Event>, e: Event)
    ensures After(cfg, w, es + [e]) == Next(cfg, After(cfg, w, es), e)
    ensures Possible(cfg, w, es) && Enabled(After(cfg, w, es), e) ==> Possible(cfg, w, es + [e])
  {
    assert (es + [e])[..|es|] == es;
    assert forall i | 0 <= i < |es| :: (es + [e])[..i] == es[..i];
  }

  lemma {:induction false} FailsWhileClosed(cfg: Config, k: nat, n: nat)
    requires n <= cfg.failureThreshold && cfg.failureThreshold > 0
    ensures var es := Many(Start(0), cfg.failureThreshold + k) + Many(Fail(0), n);
      && Possible(cfg, World(FRESH, 0), es)
      && After(cfg, World(FRESH, 0), es)
         == World(Counters(if n == cfg.failureThreshold then Open else Closed, n, 0, 0), cfg.failureThreshold + k - n)
    decreases n
  {
    hide After, Possible;
    var starts := Many(Start(0), cfg.failureThreshold + k);
    if n == 0 {
      StartsWhileClosed(cfg, cfg.failureThreshold + k);
      assert starts + Many(Fail(0), n) == starts;
    } else {
      FailsWhileClosed(cfg, k, n - 1);
      assert starts + Many(Fail(0), n) == (starts + Many(Fail(0), n - 1)) + [Fail(0)];
      Extended(cfg, World(FRESH, 0), starts + Many(Fail(0), n - 1), Fail(0));
    }
  }

  lemma NearlyReached(cfg: Config)
    requires cfg.failureThreshold > 0
    ensures Possible(cfg, World(FRESH, 0), Nearly(cfg, cfg.failureThreshold))
    ensures After(cfg, World(FRESH, 0), Nearly(cfg, cfg.failureThreshold))
      == World(Counters(HalfOpen, cfg.failureThreshold, 0, SUCCESS_THRESHOLD - 1), 3)
  {
    hide After, Possible, Opening;
    OpenReached(cfg, 4);
    TestedTwice(cfg, Opening(cfg.failureThreshold, 4));
  }

  lemma TestedTwice(cfg: Config, es: seq<Event>)
    requires Possible(cfg, World(FRESH, 0), es)
    requires After(cfg, World(FRESH, 0), es) == World(Counters(Open, cfg.failureThreshold, 0, 0), 4)
    ensures var more := es + [Start(cfg.recoveryTimeout), Succeed, Succeed];
      && Possible(cfg, World(FRESH, 0), more)
      && After(cfg, World(FRESH, 0), more) == World(Counters(HalfOpen, cfg.failureThreshold, 0, 2), 3)
  {
    hide After, Possible;
    var w0, e := World(FRESH, 0), Start(cfg.recoveryTimeout);
    Extended(cfg, w0, es, e);
    Extended(cfg, w0, es + [e], Succeed);
    Extended(cfg, w0, es + [e] + [Succeed], Succeed);
    assert es + [e, Succeed, Succeed] == es + [e] + [Succeed] + [Succeed];
  }

  /** Disturbed they do not. In a state that can be reached, a success that has closed the circuit, but not yet cleared
      the failures, lets another call's failure open it again and then clears the count: open without failures. With a
      threshold above one the circuit then goes on testing through a failure. */
  lemma ClearedTooLate(cfg: Config, now: int, later: int)
    requires cfg.failureThreshold > 0 && later >= now + cfg.recoveryTimeout
    ensures var w0 := After(cfg, World(FRESH, 0), Nearly(cfg, cfg.failureThreshold));
      var c0 := w0.c;
      var (c1, s1) := Atomics(cfg, c0, LoadState, now, 3);
      var (c2, s2) := Atomics(cfg, c1, CountFailure, now, 4);
      var (c3, s3) := Atomics(cfg, c2, s1, now, 1);
      && Possible(cfg, World(FRESH, 0), Nearly(cfg, cfg.failureThreshold)) && w0.inFlight >= 2
      && Consistent(cfg, c0) && s2 == Over && s3 == Over
      && c3 == Counters(Open, 0, now, SUCCESS_THRESHOLD) && !Consistent(cfg, c3)
      && !Refuses(cfg, c3, later)
      && (cfg.failureThreshold > 1 ==> Failure(cfg, Admitted(c3), later).state == HalfOpen)
  {
    NearlyReached(cfg);
    hide After, Possible, Nearly;
    var c0 := Counters(HalfOpen, cfg.failureThreshold, 0, SUCCESS_THRESHOLD - 1);
    var d1 := Atomic(cfg, c0, LoadState, now);
    var d2 := Atomic(cfg, d1.0, d1.1, now);
    var d3 := Atomic(cfg, d2.0, d2.1, now);
    assert Atomics(cfg, d2.0, d2.1, now, 1) == d3;
    assert Atomics(cfg, d1.0, d1.1, now, 2) == d3;
    AtomicsAddUp(cfg, d3.0, now);
    var c2 := Failure(cfg, d3.0, now);
    assert Atomics(cfg, c2, ClearFailures, now, 1) == (c2.(failures := 0), Over);
  }
}
