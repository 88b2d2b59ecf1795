/** The worker pool (eph/worker_pool.go), one atomic operation of a goroutine at a time.

    A request is named by the number of its Submit call. The outcome of a calculation, the cancelling of contexts and
    the choice between ready cases of a select are left open, so every schedule is a run. */
module WorkerPool {

  /** Where a Submit call is. Sending covers the time from the increment to the choice of a case. */
  datatype Call = Sending | Withdrawn | Refusing | Refused | Left

  datatype Worker = Idle | Calculating(job: nat) | Answering(job: nat, failed: bool) | Finishing(job: nat) | Stopped

  datatype Body = ContextError | Outcome(failed: bool)

  datatype Answer = Answer(request: nat, body: Body)

  datatype Pool = Pool(calls: seq<Call>, cancelled: set<nat>, queue: seq<nat>, workers: seq<Worker>, quitting: bool,
                       activeJobs: int, jobsProcessed: int, jobsFailed: int, answers: seq<Answer>, discarded: set<nat>)

  datatype Event = Submit | Cancel(request: nat)
                 | Enqueue(request: nat) | Withdraw(request: nat) | Uncount(request: nat) | Refuse(request: nat)
                 | Take(worker: nat) | Judge(worker: nat, failed: bool) | Reply(worker: nat) | Discard(worker: nat)
                 | Finish(worker: nat)
                 | Stop | Quit(worker: nat)

  /** NewWorkerPool and Start */
  function Started(workers: nat): Pool {
    Pool([], {}, [], seq(workers, _ => Idle), false, 0, 0, 0, [], {})
  }

  predicate CallAt(p: Pool, r: nat, c: Call) {
    r < |p.calls| && p.calls[r] == c
  }

  predicate WorkerAt(p: Pool, w: nat, s: Worker) {
    w < |p.workers| && p.workers[w] == s
  }

  predicate Enabled(p: Pool, e: Event) {
    match e
    case Submit => true
    case Cancel(r) => true
    case Enqueue(r) => CallAt(p, r, Sending) && |p.queue| < 2 * |p.workers|
    case Withdraw(r) => CallAt(p, r, Sending) && r in p.cancelled
    case Uncount(r) => CallAt(p, r, Withdrawn)
    case Refuse(r) => CallAt(p, r, Refusing)
    case Take(w) => WorkerAt(p, w, Idle) && p.queue != []
    case Judge(w, failed) => w < |p.workers| && p.workers[w].Calculating?
    case Reply(w) => w < |p.workers| && p.workers[w].Answering?
    case Discard(w) => w < |p.workers| && p.workers[w].Answering? && p.workers[w].job in p.cancelled
    case Finish(w) => w < |p.workers| && p.workers[w].Finishing?
    case Stop => !p.quitting
    case Quit(w) => WorkerAt(p, w, Idle) && p.quitting
  }

  function Next(p: Pool, e: Event): Pool
    requires Enabled(p, e)
  {
    match e
    case Submit => p.(calls := p.calls + [Sending], activeJobs := p.activeJobs + 1)
    case Cancel(r) => p.(cancelled := p.cancelled + {r})
    case Enqueue(r) => p.(calls := p.calls[r := Left], queue := p.queue + [r])
    case Withdraw(r) => p.(calls := p.calls[r := Withdrawn])
    case Uncount(r) => p.(calls := p.calls[r := Refusing], activeJobs := p.activeJobs - 1)
    case Refuse(r) => p.(calls := p.calls[r := Refused], answers := p.answers + [Answer(r, ContextError)])
    case Take(w) => p.(queue := p.queue[1..], workers := p.workers[w := Calculating(p.queue[0])])
    case Judge(w, failed) =>
      p.(workers := p.workers[w := Answering(p.workers[w].job, failed)],
         jobsProcessed := p.jobsProcessed + Bit(!failed), jobsFailed := p.jobsFailed + Bit(failed))
    case Reply(w) =>
      p.(workers := p.workers[w := Finishing(p.workers[w].job)],
         answers := p.answers + [Answer(p.workers[w].job, Outcome(p.workers[w].failed))])
    case Discard(w) =>
      p.(workers := p.workers[w := Finishing(p.workers[w].job)], discarded := p.discarded + {p.workers[w].job})
    case Finish(w) => p.(workers := p.workers[w := Idle], activeJobs := p.activeJobs - 1)
    case Stop => p.(quitting := true)
    case Quit(w) => p.(workers := p.workers[w := Stopped])
  }

  ghost predicate Possible(p: Pool, es: seq<Event>)
    decreases |es|, 0
  {
    es == [] || (Possible(p, es[..|es| - 1]) && Enabled(After(p, es[..|es| - 1]), es[|es| - 1]))
  }

  ghost function After(p: Pool, es: seq<Event>): Pool
    requires Possible(p, es)
    decreases |es|, 1
  {
    if es == [] then p else Next(After(p, es[..|es| - 1]), es[|es| - 1])
  }

  // ------------------------------------------------------------------ counting

  function Bit(b: bool): int { if b then 1 else 0 }

  function Count<T>(s: seq<T>, f: T -> bool): nat {
    if s == [] then 0 else Count(s[..|s| - 1], f) + if f(s[|s| - 1]) then 1 else 0
  }

  lemma {:induction false} CountUpdate<T>(s: seq<T>, f: T -> bool, i: nat, x: T)
    requires i < |s|
    ensures Count(s[i := x], f) == Count(s, f) - Bit(f(s[i])) + Bit(f(x))
    decreases |s|
  {
    var n := |s| - 1;
    if i < n {
      CountUpdate(s[..n], f, i, x);
      assert s[i := x][..n] == s[..n][i := x];
    } else {
      assert s[i := x][..n] == s[..n];
    }
  }

  lemma CountAppend<T>(s: seq<T>, f: T -> bool, x: T)
    ensures Count(s + [x], f) == Count(s, f) + if f(x) then 1 else 0
  {
    assert (s + [x])[..|s|] == s;
  }

  lemma {:induction false} CountBounded<T>(s: seq<T>, f: T -> bool)
    ensures Count(s, f) <= |s|
    decreases |s|
  {
    if s != [] { CountBounded(s[..|s| - 1], f); }
  }

  lemma {:induction false} CountNone<T>(s: seq<T>, f: T -> bool)
    requires forall i | 0 <= i < |s| :: !f(s[i])
    ensures Count(s, f) == 0
    decreases |s|
  {
    if s != [] { CountNone(s[..|s| - 1], f); }
  }

  /** The call is counted in activeJobs, and its request is not in the queue yet. */
  predicate Submitting(c: Call) { c.Sending? || c.Withdrawn? }

  predicate HandedOver(c: Call) { c.Left? }

  predicate WasRefused(c: Call) { c.Refused? }

  /** The worker has a job, from the receive to the deferred decrement. */
  predicate Holds(w: Worker) { w.Calculating? || w.Answering? || w.Finishing? }

  predicate Calculates(w: Worker) { w.Calculating? }

  predicate Unanswered(w: Worker) { w.Calculating? || w.Answering? }

  /** No job is lost or counted twice. */
  predicate Conserved(p: Pool) {
    && p.activeJobs == Count(p.calls, Submitting) + |p.queue| + Count(p.workers, Holds)
    && Count(p.calls, HandedOver) == |p.queue| + Count(p.workers, Calculates) + p.jobsProcessed + p.jobsFailed
    && Count(p.calls, HandedOver) + Count(p.calls, WasRefused)
       == |p.queue| + Count(p.workers, Unanswered) + |p.answers| + |p.discarded|
    && |p.queue| <= 2 * |p.workers|
  }

  // ------------------------------------------------------------------ where the jobs are

  /** The jobs in the queue and with the workers come from calls that handed them over. */
  ghost predicate InHand(p: Pool) {
    && (forall i | 0 <= i < |p.queue| :: CallAt(p, p.queue[i], Left))
    && (forall w | 0 <= w < |p.workers| && Holds(p.workers[w]) :: CallAt(p, p.workers[w].job, Left))
  }

  /** A job in the queue or with a worker is in one place only. */
  ghost predicate Separate(p: Pool) {
    && (forall i, j | 0 <= i < j < |p.queue| :: p.queue[i] != p.queue[j])
    && (forall v, w | 0 <= v < w < |p.workers| && Holds(p.workers[v]) && Holds(p.workers[w]) ::
          p.workers[v].job != p.workers[w].job)
    && (forall i, w | 0 <= i < |p.queue| && 0 <= w < |p.workers| && Holds(p.workers[w]) ::
          p.queue[i] != p.workers[w].job)
  }

  /** Nobody is going to answer r (any more). */
  ghost predicate Settled(p: Pool, r: nat) {
    && (CallAt(p, r, Left) || CallAt(p, r, Refused))
    && (forall i | 0 <= i < |p.queue| :: p.queue[i] != r)
    && (forall w | 0 <= w < |p.workers| && Unanswered(p.workers[w]) :: p.workers[w].job != r)
  }

  /** No request is answered twice, or answered and discarded; only requests whose context is done are discarded. */
  ghost predicate AnsweredOnce(p: Pool) {
    && (forall k | 0 <= k < |p.answers| :: Settled(p, p.answers[k].request) && p.answers[k].request !in p.discarded)
    && (forall k, l | 0 <= k < l < |p.answers| :: p.answers[k].request != p.answers[l].request)
    && (forall r | r in p.discarded :: Settled(p, r) && r in p.cancelled)
  }

  /** A request that was handed over or refused is in the queue, with a worker, answered, or discarded. */
  ghost predicate Somewhere(p: Pool, r: nat) {
    || r in p.queue
    || (exists w :: 0 <= w < |p.workers| && Unanswered(p.workers[w]) && p.workers[w].job == r)
    || (exists k :: 0 <= k < |p.answers| && p.answers[k].request == r)
    || r in p.discarded
  }

  ghost predicate NoneLost(p: Pool) {
    forall r: nat | CallAt(p, r, Left) || CallAt(p, r, Refused) :: Somewhere(p, r)
  }

  ghost predicate Invariant(p: Pool) {
    Conserved(p) && InHand(p) && Separate(p) && AnsweredOnce(p) && NoneLost(p)
  }

  // ------------------------------------------------------------------ every step keeps all this

  lemma KeepsInHand(p: Pool, e: Event)
    requires Enabled(p, e) && InHand(p)
    ensures InHand(Next(p, e))
  {
    hide InHand;
    if ByWorker(e) {
      WorkerKeepsInHand(p, e);
    } else {
      CallKeepsInHand(p, e);
    }
  }

  lemma WorkerKeepsInHand(p: Pool, e: Event)
    requires Enabled(p, e) && InHand(p) && ByWorker(e)
    ensures InHand(Next(p, e))
  {}

  lemma CallKeepsInHand(p: Pool, e: Event)
    requires Enabled(p, e) && InHand(p) && !ByWorker(e)
    ensures InHand(Next(p, e))
  {}

  lemma KeepsSeparate(p: Pool, e: Event)
    requires Enabled(p, e) && InHand(p) && Separate(p)
    ensures Separate(Next(p, e))
  {
    hide InHand, Separate;
    if ByWorker(e) {
      WorkerSeparates(p, e);
    } else {
      CallSeparates(p, e);
    }
  }

  lemma CallSeparates(p: Pool, e: Event)
    requires Enabled(p, e) && InHand(p) && Separate(p) && !ByWorker(e)
    ensures Separate(Next(p, e))
  {}

  lemma WorkerSeparates(p: Pool, e: Event)
    requires Enabled(p, e) && Separate(p) && ByWorker(e)
    ensures Separate(Next(p, e))
  {}

  lemma KeepsSettled(p: Pool, e: Event, r: nat)
    requires Enabled(p, e) && Settled(p, r)
    ensures Settled(Next(p, e), r)
  {}

  lemma KeepsAnsweredOnce(p: Pool, e: Event)
    requires Enabled(p, e) && InHand(p) && Separate(p) && AnsweredOnce(p)
    ensures AnsweredOnce(Next(p, e))
  {
    var n := Next(p, e);
    NewlySettled(p, e);
    hide Settled, Separate, InHand;
    forall r: nat | Settled(p, r)
      ensures Settled(n, r)
    {
      KeepsSettled(p, e, r);
    }
  }

  /** A request that gets answered or discarded was open before and is settled now. */
  lemma NewlySettled(p: Pool, e: Event)
    requires Enabled(p, e) && InHand(p) && Separate(p)
    ensures e.Refuse? ==> !Settled(p, e.request) && Settled(Next(p, e), e.request)
    ensures e.Reply? || e.Discard? ==> var r := p.workers[e.worker].job; !Settled(p, r) && Settled(Next(p, e), r)
  {}

  lemma KeepsNoneLost(p: Pool, e: Event)
    requires Enabled(p, e) && NoneLost(p)
    ensures NoneLost(Next(p, e))
  {
    var n := Next(p, e);
    forall r: nat | CallAt(n, r, Left) || CallAt(n, r, Refused)
      ensures Somewhere(n, r)
    {
      if CallAt(p, r, Left) || CallAt(p, r, Refused) {
        hide NoneLost;
        KeepsSomewhere(p, e, r);
      } else if e.Enqueue? {
        assert n.queue[|p.queue|] == r;
      } else {
        assert n.answers[|p.answers|].request == r;
      }
    }
  }

  lemma KeepsSomewhere(p: Pool, e: Event, r: nat)
    requires Enabled(p, e) && Somewhere(p, r)
    ensures Somewhere(Next(p, e), r)
  {
    var n := Next(p, e);
    if r in p.queue {
      if e.Take? && p.queue[0] == r {
        assert n.workers[e.worker].job == r;
      } else {
        var i :| 0 <= i < |p.queue| && p.queue[i] == r;
        assert r == if e.Take? then n.queue[i - 1] else n.queue[i];
      }
    } else if k :| 0 <= k < |p.answers| && p.answers[k].request == r {
      assert n.answers[k].request == r;
    } else if w :| 0 <= w < |p.workers| && Unanswered(p.workers[w]) && p.workers[w].job == r {
      if e.Reply? && e.worker == w {
        assert n.answers[|p.answers|].request == r;
      } else if !(e.Discard? && e.worker == w) {
        assert Unanswered(n.workers[w]) && n.workers[w].job == r;
      }
    }
  }

  lemma KeepsConserved(p: Pool, e: Event)
    requires Enabled(p, e) && Conserved(p) && AnsweredOnce(p)
    ensures Conserved(Next(p, e))
  {
    hide Conserved, AnsweredOnce;
    if ByWorker(e) {
      WorkerConserves(p, e);
    } else {
      CallConserves(p, e);
    }
  }

  predicate ByWorker(e: Event) {
    e.Take? || e.Judge? || e.Reply? || e.Discard? || e.Finish? || e.Quit?
  }

  lemma CallConserves(p: Pool, e: Event)
    requires Enabled(p, e) && Conserved(p) && !ByWorker(e)
    ensures Conserved(Next(p, e))
  {
    hide Count;
    if e.Submit? {
      CallAdded(p.calls, Sending);
    } else if !e.Cancel? && !e.Stop? {
      var r := e.request;
      CallChanged(p.calls, r, Next(p, e).calls[r]);
    }
  }

  lemma WorkerConserves(p: Pool, e: Event)
    requires Enabled(p, e) && Conserved(p) && AnsweredOnce(p) && ByWorker(e)
    ensures Conserved(Next(p, e))
  {
    hide Count;
    WorkerChanged(p.workers, e.worker, Next(p, e).workers[e.worker]);
  }

  lemma CallAdded(s: seq<Call>, c: Call)
    ensures Count(s + [c], Submitting) == Count(s, Submitting) + if Submitting(c) then 1 else 0
    ensures Count(s + [c], HandedOver) == Count(s, HandedOver) + if HandedOver(c) then 1 else 0
    ensures Count(s + [c], WasRefused) == Count(s, WasRefused) + if WasRefused(c) then 1 else 0
  {
    CountAppend(s, Submitting, c);
    CountAppend(s, HandedOver, c);
    CountAppend(s, WasRefused, c);
  }

  lemma CallChanged(s: seq<Call>, r: nat, c: Call)
    requires r < |s|
    ensures Count(s[r := c], Submitting) == Count(s, Submitting) - Bit(Submitting(s[r])) + Bit(Submitting(c))
    ensures Count(s[r := c], HandedOver) == Count(s, HandedOver) - Bit(HandedOver(s[r])) + Bit(HandedOver(c))
    ensures Count(s[r := c], WasRefused) == Count(s, WasRefused) - Bit(WasRefused(s[r])) + Bit(WasRefused(c))
  {
    CountUpdate(s, Submitting, r, c);
    CountUpdate(s, HandedOver, r, c);
    CountUpdate(s, WasRefused, r, c);
  }

  lemma WorkerChanged(s: seq<Worker>, i: nat, w: Worker)
    requires i < |s|
    ensures Count(s[i := w], Holds) == Count(s, Holds) - Bit(Holds(s[i])) + Bit(Holds(w))
    ensures Count(s[i := w], Calculates) == Count(s, Calculates) - Bit(Calculates(s[i])) + Bit(Calculates(w))
    ensures Count(s[i := w], Unanswered) == Count(s, Unanswered) - Bit(Unanswered(s[i])) + Bit(Unanswered(w))
  {
    CountUpdate(s, Holds, i, w);
    CountUpdate(s, Calculates, i, w);
    CountUpdate(s, Unanswered, i, w);
  }

  /** In every reachable state. */
  lemma {:induction false} AlwaysInvariant(n: nat, es: seq<Event>)
    requires Possible(Started(n), es)
    ensures Invariant(After(Started(n), es)) && |After(Started(n), es).workers| == n
    decreases |es|
  {
    var p := Started(n);
    if es == [] {
      CountNone(p.workers, Holds);
      CountNone(p.workers, Calculates);
      CountNone(p.workers, Unanswered);
    } else {
      var q, e := After(p, es[..|es| - 1]), es[|es| - 1];
      AlwaysInvariant(n, es[..|es| - 1]);
      KeepsAll(q, e);
    }
  }

  lemma KeepsAll(p: Pool, e: Event)
    requires Enabled(p, e) && Invariant(p)
    ensures Invariant(Next(p, e)) && |Next(p, e).workers| == |p.workers|
  {
    hide Conserved, InHand, Separate, AnsweredOnce, NoneLost;
    KeepsConserved(p, e);
    KeepsInHand(p, e);
    KeepsSeparate(p, e);
    KeepsAnsweredOnce(p, e);
    KeepsNoneLost(p, e);
  }

  // ------------------------------------------------------------------ what follows

  /** The statistics of GetStats, at any moment of any run */
  lemma Statistics(n: nat, es: seq<Event>)
    requires Possible(Started(n), es)
    ensures var p := After(Started(n), es);
      && |p.queue| <= 2 * n && Count(p.workers, Holds) <= n
      && p.activeJobs == Count(p.calls, Submitting) + |p.queue| + Count(p.workers, Holds)
      && p.jobsProcessed + p.jobsFailed == Count(p.calls, HandedOver) - |p.queue| - Count(p.workers, Calculates)
  {
    AlwaysInvariant(n, es);
    CountBounded(After(Started(n), es).workers, Holds);
  }

  /** Calculations that ended in this way */
  function Judged(es: seq<Event>, failed: bool): nat {
    if es == [] then 0
    else
      var e := es[|es| - 1];
      Judged(es[..|es| - 1], failed) + if e.Judge? && e.failed == failed then 1 else 0
  }

  /** The calculation of r ended in this way. */
  ghost predicate JudgedAs(p: Pool, es: seq<Event>, r: nat, failed: bool)
    requires Possible(p, es)
    decreases |es|
  {
    es != [] &&
    (var n := |es| - 1;
     JudgedAs(p, es[..n], r, failed) ||
     (es[n].Judge? && es[n].failed == failed && After(p, es[..n]).workers[es[n].worker] == Calculating(r)))
  }

  /** The counters say how many calculations succeeded and how many failed. */
  lemma {:induction false} CountersCount(n: nat, es: seq<Event>)
    requires Possible(Started(n), es)
    ensures After(Started(n), es).jobsProcessed == Judged(es, false)
    ensures After(Started(n), es).jobsFailed == Judged(es, true)
    decreases |es|
  {
    if es != [] {
      CountersCount(n, es[..|es| - 1]);
    }
  }

  /** The calculation of r is over. */
  ghost predicate Calculated(p: Pool, r: nat) {
    && CallAt(p, r, Left)
    && (forall i | 0 <= i < |p.queue| :: p.queue[i] != r)
    && (forall w | 0 <= w < |p.workers| :: p.workers[w] != Calculating(r))
  }

  lemma KeepsCalculated(p: Pool, e: Event, r: nat)
    requires Enabled(p, e) && Calculated(p, r)
    ensures Calculated(Next(p, e), r)
  {}

  lemma NewlyCalculated(p: Pool, e: Event)
    requires Enabled(p, e) && InHand(p) && Separate(p) && e.Judge?
    ensures Calculated(Next(p, e), p.workers[e.worker].job) && !Calculated(p, p.workers[e.worker].job)
  {}

  /** Nothing is calculated twice, so a calculation does not both fail and succeed. */
  lemma {:induction false} JudgedOnce(n: nat, es: seq<Event>, r: nat)
    requires Possible(Started(n), es)
    ensures JudgedAs(Started(n), es, r, false) || JudgedAs(Started(n), es, r, true) ==>
      Calculated(After(Started(n), es), r)
    ensures !(JudgedAs(Started(n), es, r, false) && JudgedAs(Started(n), es, r, true))
    decreases |es|
  {
    hide Invariant, Calculated, Next, Enabled;
    if es != [] {
      var q, e := After(Started(n), es[..|es| - 1]), es[|es| - 1];
      JudgedOnce(n, es[..|es| - 1], r);
      AlwaysInvariant(n, es[..|es| - 1]);
      InvariantParts(q);
      JudgedStep(q, e, r);
    }
  }

  lemma InvariantParts(p: Pool)
    requires Invariant(p)
    ensures InHand(p) && Separate(p)
  {}

  lemma JudgedStep(p: Pool, e: Event, r: nat)
    requires Enabled(p, e) && InHand(p) && Separate(p)
    ensures Calculated(p, r) ==> Calculated(Next(p, e), r)
    ensures e.Judge? && p.workers[e.worker] == Calculating(r) ==> Calculated(Next(p, e), r) && !Calculated(p, r)
  {
    hide InHand, Separate, Calculated;
    if Calculated(p, r) { KeepsCalculated(p, e, r); }
    if e.Judge? { NewlyCalculated(p, e); }
  }

  /** Outcomes given or about to be given are those of `judged`, which lists requests with the way they ended. */
  ghost predicate TellsOutcomes(p: Pool, judged: (nat, bool) -> bool) {
    && (forall k | 0 <= k < |p.answers| && p.answers[k].body.Outcome? ::
          judged(p.answers[k].request, p.answers[k].body.failed))
    && (forall w | 0 <= w < |p.workers| && p.workers[w].Answering? :: judged(p.workers[w].job, p.workers[w].failed))
  }

  lemma KeepsTelling(p: Pool, e: Event, judged: (nat, bool) -> bool, judged': (nat, bool) -> bool)
    requires Enabled(p, e) && TellsOutcomes(p, judged) && forall r, f | judged(r, f) :: judged'(r, f)
    requires e.Judge? ==> judged'(p.workers[e.worker].job, e.failed)
    ensures TellsOutcomes(Next(p, e), judged')
  {}

  /** An answer with an outcome tells how the calculation of its own request ended. */
  lemma {:induction false} AnswersAreTrue(n: nat, es: seq<Event>)
    requires Possible(Started(n), es)
    ensures TellsOutcomes(After(Started(n), es), (r: nat, f: bool) => JudgedAs(Started(n), es, r, f))
    decreases |es|
  {
    hide Next, Enabled, TellsOutcomes;
    if es == [] {
      NothingToTell(n, (r: nat, f: bool) => JudgedAs(Started(n), es, r, f));
    } else {
      var q, e := After(Started(n), es[..|es| - 1]), es[|es| - 1];
      AnswersAreTrue(n, es[..|es| - 1]);
      if e.Judge? { JudgeHasJob(q, e); }
      KeepsTelling(q, e, (r: nat, f: bool) => JudgedAs(Started(n), es[..|es| - 1], r, f),
                   (r: nat, f: bool) => JudgedAs(Started(n), es, r, f));
    }
  }

  lemma NothingToTell(n: nat, judged: (nat, bool) -> bool)
    ensures TellsOutcomes(Started(n), judged)
  {}

  lemma JudgeHasJob(p: Pool, e: Event)
    requires Enabled(p, e) && e.Judge?
    ensures e.worker < |p.workers| && p.workers[e.worker] == Calculating(p.workers[e.worker].job)
  {}

  /** An error of the context is answered to calls that were refused, and only calls whose context is done are. */
  ghost predicate RefusedForContext(p: Pool) {
    && (forall r | 0 <= r < |p.calls| && p.calls[r] in {Withdrawn, Refusing, Refused} :: r in p.cancelled)
    && (forall k | 0 <= k < |p.answers| ::
          CallAt(p, p.answers[k].request, if p.answers[k].body.Outcome? then Left else Refused))
  }

  lemma {:induction false} AlwaysRefusedForContext(n: nat, es: seq<Event>)
    requires Possible(Started(n), es)
    ensures RefusedForContext(After(Started(n), es))
    decreases |es|
  {
    hide Next, Enabled;
    if es != [] {
      AlwaysRefusedForContext(n, es[..|es| - 1]);
      AlwaysInvariant(n, es[..|es| - 1]);
      InvariantParts(After(Started(n), es[..|es| - 1]));
      KeepsRefused(After(Started(n), es[..|es| - 1]), es[|es| - 1]);
    }
  }

  lemma KeepsRefused(p: Pool, e: Event)
    requires Enabled(p, e) && InHand(p) && RefusedForContext(p)
    ensures RefusedForContext(Next(p, e))
  {
    hide InHand, RefusedForContext;
    if ByWorker(e) {
      WorkerKeepsRefused(p, e);
    } else {
      CallKeepsRefused(p, e);
    }
  }

  lemma WorkerKeepsRefused(p: Pool, e: Event)
    requires Enabled(p, e) && InHand(p) && RefusedForContext(p) && ByWorker(e)
    ensures RefusedForContext(Next(p, e))
  {}

  lemma CallKeepsRefused(p: Pool, e: Event)
    requires Enabled(p, e) && RefusedForContext(p) && !ByWorker(e)
    ensures RefusedForContext(Next(p, e))
  {}

  /** What an answer means, at any moment of any run */
  lemma AnswerMeans(n: nat, es: seq<Event>, k: nat)
    requires Possible(Started(n), es) && k < |After(Started(n), es).answers|
    ensures var p := After(Started(n), es);
      var r := p.answers[k].request;
      match p.answers[k].body
      case Outcome(failed) => JudgedAs(Started(n), es, r, failed) && !JudgedAs(Started(n), es, r, !failed)
      case ContextError => r in p.cancelled && forall f :: !JudgedAs(Started(n), es, r, f)
  {
    hide Calculated, JudgedAs;
    var p := After(Started(n), es);
    AnswersAreTrue(n, es);
    AlwaysRefusedForContext(n, es);
    JudgedOnce(n, es, p.answers[k].request);
    if Calculated(p, p.answers[k].request) { CalculatedLeft(p, p.answers[k].request); }
  }

  lemma CalculatedLeft(p: Pool, r: nat)
    requires Calculated(p, r)
    ensures CallAt(p, r, Left)
  {}

  /** No call is in Submit and no job in the pool. */
  ghost predicate Quiet(p: Pool) {
    && p.queue == []
    && (forall r | 0 <= r < |p.calls| :: p.calls[r].Left? || p.calls[r].Refused?)
    && (forall w | 0 <= w < |p.workers| :: !Holds(p.workers[w]))
  }

  ghost predicate AnsweredBy(p: Pool, r: nat, k: nat) {
    k < |p.answers| && p.answers[k].request == r
  }

  /** When nothing is going on, nothing is counted as active, every job that was handed over has been counted as
      processed or failed, and every request has exactly one answer, or none if its context is done. */
  lemma QuietMeansAnswered(n: nat, es: seq<Event>, r: nat)
    requires Possible(Started(n), es) && Quiet(After(Started(n), es))
    requires r < |After(Started(n), es).calls|
    ensures var p := After(Started(n), es);
      && p.activeJobs == 0
      && p.jobsProcessed + p.jobsFailed == Count(p.calls, HandedOver)
      && |p.answers| + |p.discarded| == Count(p.calls, HandedOver) + Count(p.calls, WasRefused)
      && (r in p.discarded ==> r in p.cancelled && forall k :: !AnsweredBy(p, r, k))
      && (r !in p.discarded ==> exists k :: AnsweredBy(p, r, k) && forall l :: AnsweredBy(p, r, l) ==> l == k)
  {
    var p := After(Started(n), es);
    AlwaysInvariant(n, es);
    CountNone(p.calls, Submitting);
    CountNone(p.workers, Holds);
    CountNone(p.workers, Calculates);
    CountNone(p.workers, Unanswered);
    assert CallAt(p, r, Left) || CallAt(p, r, Refused);
    assert Somewhere(p, r);
    if r !in p.discarded {
      var k :| 0 <= k < |p.answers| && p.answers[k].request == r;
      assert AnsweredBy(p, r, k);
    }
  }

  // ------------------------------------------------------------------ after Stop

  ghost predicate AllStopped(p: Pool) {
    forall w | 0 <= w < |p.workers| :: p.workers[w].Stopped?
  }

  /** No worker stops before Stop is called. */
  lemma StoppedMeansStop(n: nat, es: seq<Event>, w: nat)
    requires Possible(Started(n), es) && WorkerAt(After(Started(n), es), w, Stopped)
    ensures exists i | 0 <= i < |es| :: es[i].Stop?
  {
    StoppedIsQuitting(n, es);
    QuittingMeansStop(n, es);
  }

  lemma {:induction false} StoppedIsQuitting(n: nat, es: seq<Event>)
    requires Possible(Started(n), es)
    ensures StopsOnQuit(After(Started(n), es))
    decreases |es|
  {
    hide StopsOnQuit, Next, Enabled;
    if es == [] {
      NoneStopped(n);
    } else {
      StoppedIsQuitting(n, es[..|es| - 1]);
      KeepsStopsOnQuit(After(Started(n), es[..|es| - 1]), es[|es| - 1]);
    }
  }

  ghost predicate StopsOnQuit(p: Pool) {
    (exists w | 0 <= w < |p.workers| :: p.workers[w].Stopped?) ==> p.quitting
  }

  lemma NoneStopped(n: nat)
    ensures StopsOnQuit(Started(n))
  {}

  lemma KeepsStopsOnQuit(p: Pool, e: Event)
    requires Enabled(p, e) && StopsOnQuit(p)
    ensures StopsOnQuit(Next(p, e))
  {
    if w :| 0 <= w < |Next(p, e).workers| && Next(p, e).workers[w].Stopped? {
      assert p.workers[w].Stopped? || e == Quit(w);
    }
  }

  lemma {:induction false} QuittingMeansStop(n: nat, es: seq<Event>)
    requires Possible(Started(n), es) && After(Started(n), es).quitting
    ensures exists i | 0 <= i < |es| :: es[i].Stop?
    decreases |es|
  {
    var k := |es| - 1;
    if es[k].Stop? {
    } else {
      QuittingMeansStop(n, es[..k]);
      var i :| 0 <= i < k && es[..k][i].Stop?;
      assert es[i].Stop?;
    }
  }

  /** Once Stop has returned, the jobs still in the queue stay there for ever: they remain active and get no answer.
      The calls go on filling the queue. */
  lemma {:induction false} StoppedForEver(p: Pool, es: seq<Event>)
    requires Invariant(p) && AllStopped(p) && Possible(p, es)
    ensures var q := After(p, es);
      && AllStopped(q) && Invariant(q)
      && p.queue <= q.queue && q.activeJobs >= |q.queue|
      && forall i | 0 <= i < |p.queue| :: !(exists k :: AnsweredBy(q, p.queue[i], k))
    decreases |es|
  {
    hide Invariant;
    if es != [] {
      var q := After(p, es[..|es| - 1]);
      StoppedForEver(p, es[..|es| - 1]);
      KeepsAll(q, es[|es| - 1]);
      StoppedStep(q, es[|es| - 1]);
    }
    var q := After(p, es);
    StillActive(q);
    forall i | 0 <= i < |p.queue|
      ensures !(exists k :: AnsweredBy(q, p.queue[i], k))
    {
      QueuedUnanswered(q, i);
    }
  }

  lemma StoppedStep(p: Pool, e: Event)
    requires AllStopped(p) && Enabled(p, e)
    ensures AllStopped(Next(p, e)) && p.queue <= Next(p, e).queue
  {}

  lemma StillActive(p: Pool)
    requires Invariant(p)
    ensures p.activeJobs >= |p.queue|
  {}

  lemma QueuedUnanswered(p: Pool, i: nat)
    requires Invariant(p) && i < |p.queue|
    ensures !(exists k :: AnsweredBy(p, p.queue[i], k))
  {}

  /** Once the workers have stopped, a request that was handed over is in the queue, for ever, if and only if it was
      neither answered nor discarded before. */
  lemma LeftBehindExactly(n: nat, es: seq<Event>, r: nat)
    requires Possible(Started(n), es)
    requires AllStopped(After(Started(n), es)) && CallAt(After(Started(n), es), r, Left)
    ensures var p := After(Started(n), es);
      r in p.queue <==> !(exists k :: AnsweredBy(p, r, k)) && r !in p.discarded
  {
    var p := After(Started(n), es);
    AlwaysInvariant(n, es);
    assert Somewhere(p, r);
    if r in p.queue {
      var i :| 0 <= i < |p.queue| && p.queue[i] == r;
      QueuedUnanswered(p, i);
    } else if k :| 0 <= k < |p.answers| && p.answers[k].request == r {
      assert AnsweredBy(p, r, k);
    }
  }

  /** It can happen: a pool of one worker is stopped while a call is about to enqueue its request. */
  lemma JobLeftBehind()
    ensures var es := [Submit, Stop, Quit(0), Enqueue(0)];
      && Possible(Started(1), es)
      && AllStopped(After(Started(1), es)) && After(Started(1), es).queue == [0]
      && After(Started(1), es).cancelled == {}
  {
    hide After, Possible;
    var p := Started(1);
    var p1 := Next(p, Submit);
    var p2 := Next(p1, Stop);
    var p3 := Next(p2, Quit(0));
    var es := Extended(p, [], Submit, p1);
    es := Extended(p, es, Stop, p2);
    es := Extended(p, es, Quit(0), p3);
    es := Extended(p, es, Enqueue(0), Next(p3, Enqueue(0)));
    assert es == [Submit, Stop, Quit(0), Enqueue(0)];
  }

  lemma OneMore(p: Pool, es: seq<Event>, e: Event)
    requires Possible(p, es) && Enabled(After(p, es), e)
    ensures Possible(p, es + [e]) && After(p, es + [e]) == Next(After(p, es), e)
  {
    assert (es + [e])[..|es|] == es;
  }

  // ------------------------------------------------------------------ the goroutines, undisturbed

  /** The pool with its channels. The ghost fields say where the goroutines are. */
  class WorkerPool {
    const workers: nat
    var jobQueue: seq<nat>
    var quit: bool
    var activeJobs: int
    var jobsProcessed: int
    var jobsFailed: int
    var responses: seq<Answer>
    ghost var calls: seq<Call>
    ghost var goroutines: seq<Worker>
    ghost var cancelled: set<nat>
    ghost var discarded: set<nat>

    ghost function Contents(): Pool
      reads this
    {
      Pool(calls, cancelled, jobQueue, goroutines, quit, activeJobs, jobsProcessed, jobsFailed, responses, discarded)
    }

    constructor (n: nat)
      ensures Contents() == Started(n) && workers == n
    {
      workers := n;
      jobQueue, quit, responses := [], false, [];
      activeJobs, jobsProcessed, jobsFailed := 0, 0, 0;
      calls, goroutines, cancelled, discarded := [], seq(n, _ => Idle), {}, {};
    }

    /** Submit, with the case that its select takes */
    method Submit(request: nat, contextDone: bool)
      requires request == |calls|
      requires if contextDone then request in cancelled else |jobQueue| < 2 * |goroutines|
      modifies this
      ensures Possible(old(Contents()), Submission(request, contextDone))
      ensures Contents() == After(old(Contents()), Submission(request, contextDone))
    {
      hide After, Possible;
      ghost var p := Contents();
      activeJobs := activeJobs + 1;
      calls := calls + [Sending];
      ghost var es := Extended(p, [], Event.Submit, Contents());
      if !contextDone {
        jobQueue := jobQueue + [request];
        calls := calls[request := Left];
        es := Extended(p, es, Enqueue(request), Contents());
      } else {
        calls := calls[request := Withdrawn];
        es := Extended(p, es, Withdraw(request), Contents());
        activeJobs := activeJobs - 1;
        calls := calls[request := Refusing];
        es := Extended(p, es, Uncount(request), Contents());
        responses := responses + [Answer(request, ContextError)];
        calls := calls[request := Refused];
        es := Extended(p, es, Refuse(request), Contents());
      }
    }

    /** worker w receives a job */
    method Receive(w: nat) returns (job: nat)
      requires w < |goroutines| && goroutines[w] == Idle && jobQueue != []
      modifies this
      ensures Contents() == Next(old(Contents()), Take(w)) && goroutines[w] == Calculating(job)
    {
      job := jobQueue[0];
      jobQueue := jobQueue[1..];
      goroutines := goroutines[w := Calculating(job)];
    }

    /** processJob on worker w, with the outcome of the calculation and the case that its select takes */
    method ProcessJob(w: nat, job: nat, failed: bool, contextDone: bool)
      requires w < |goroutines| && goroutines[w] == Calculating(job)
      requires contextDone ==> job in cancelled
      modifies this
      ensures Possible(old(Contents()), Processing(w, failed, contextDone))
      ensures Contents() == After(old(Contents()), Processing(w, failed, contextDone))
    {
      hide After, Possible, Next, Enabled;
      ghost var p := Contents();
      Tally(w, job, failed);
      ghost var es := Extended(p, [], Judge(w, failed), Contents());
      Respond(w, job, failed, contextDone);
      es := Extended(p, es, if contextDone then Discard(w) else Reply(w), Contents());
      Release(w, job);
      es := Extended(p, es, Finish(w), Contents());
    }

    /** worker w, with the outcomes of the jobs that it takes before it takes the other case of its select */
    method Work(w: nat, outcomes: seq<(bool, bool)>)
      requires w < |goroutines| && goroutines[w] == Idle && quit && |outcomes| <= |jobQueue|
      requires forall i | 0 <= i < |outcomes| && outcomes[i].1 :: jobQueue[i] in cancelled
      modifies this
      ensures Possible(old(Contents()), Working(w, outcomes) + [Quit(w)])
      ensures Contents() == After(old(Contents()), Working(w, outcomes) + [Quit(w)])
      ensures jobQueue == old(jobQueue)[|outcomes|..] && activeJobs == old(activeJobs) - |outcomes|
      ensures goroutines == old(goroutines)[w := Stopped]
    {
      hide After, Possible;
      ghost var p := Contents();
      NoStep(p);
      for i := 0 to |outcomes|
        invariant Possible(p, Working(w, outcomes[..i])) && Contents() == After(p, Working(w, outcomes[..i]))
        invariant jobQueue == old(jobQueue)[i..] && activeJobs == old(activeJobs) - i && quit
        invariant goroutines == old(goroutines) && cancelled == old(cancelled)
      {
        ghost var q := Contents();
        OneMore(p, Working(w, outcomes[..i]), Take(w));
        var job := Receive(w);
        Processed(Contents(), w, outcomes[i].0, outcomes[i].1);
        Appended(p, Working(w, outcomes[..i]) + [Take(w)], Processing(w, outcomes[i].0, outcomes[i].1));
        ProcessJob(w, job, outcomes[i].0, outcomes[i].1);
        assert outcomes[..i + 1][..i] == outcomes[..i];
      }
      assert outcomes[..|outcomes|] == outcomes;
      OneMore(p, Working(w, outcomes), Quit(w));
      goroutines := goroutines[w := Stopped];
    }

    method Tally(w: nat, job: nat, failed: bool)
      requires w < |goroutines| && goroutines[w] == Calculating(job)
      modifies this
      ensures Enabled(old(Contents()), Judge(w, failed)) && Contents() == Next(old(Contents()), Judge(w, failed))
      ensures goroutines == old(goroutines)[w := Answering(job, failed)] && cancelled == old(cancelled)
    {
      if failed {
        jobsFailed := jobsFailed + 1;
      } else {
        jobsProcessed := jobsProcessed + 1;
      }
      goroutines := goroutines[w := Answering(job, failed)];
    }

    method Respond(w: nat, job: nat, failed: bool, contextDone: bool)
      requires w < |goroutines| && goroutines[w] == Answering(job, failed)
      requires contextDone ==> job in cancelled
      modifies this
      ensures var e := if contextDone then Discard(w) else Reply(w);
        Enabled(old(Contents()), e) && Contents() == Next(old(Contents()), e)
      ensures goroutines == old(goroutines)[w := Finishing(job)]
    {
      if !contextDone {
        responses := responses + [Answer(job, Outcome(failed))];
      } else {
        discarded := discarded + {job};
      }
      goroutines := goroutines[w := Finishing(job)];
    }

    method Release(w: nat, job: nat)
      requires w < |goroutines| && goroutines[w] == Finishing(job)
      modifies this
      ensures Enabled(old(Contents()), Finish(w)) && Contents() == Next(old(Contents()), Finish(w))
    {
      activeJobs := activeJobs - 1;
      goroutines := goroutines[w := Idle];
    }
  }

  /** The pool has taken one more step. */
  lemma Extended(p: Pool, es: seq<Event>, e: Event, next: Pool) returns (longer: seq<Event>)
    requires es == [] || Possible(p, es)
    requires var q := if es == [] then p else After(p, es); Enabled(q, e) && next == Next(q, e)
    ensures longer == es + [e] && Possible(p, longer) && next == After(p, longer)
  {
    longer := es + [e];
    OneMore(p, es, e);
  }

  function Submission(r: nat, contextDone: bool): seq<Event> {
    if contextDone then [Event.Submit] + [Withdraw(r)] + [Uncount(r)] + [Refuse(r)] else [Event.Submit] + [Enqueue(r)]
  }

  function Working(w: nat, outcomes: seq<(bool, bool)>): seq<Event> {
    if outcomes == [] then []
    else
      var n := |outcomes| - 1;
      Working(w, outcomes[..n]) + [Take(w)] + Processing(w, outcomes[n].0, outcomes[n].1)
  }

  lemma NoStep(p: Pool)
    ensures Possible(p, []) && After(p, []) == p
  {}

  lemma LastStep(p: Pool, es: seq<Event>)
    requires es != [] && Possible(p, es)
    ensures var n := |es| - 1;
      && Possible(p, es[..n]) && Enabled(After(p, es[..n]), es[n])
      && After(p, es) == Next(After(p, es[..n]), es[n])
  {}

  lemma {:induction false} Appended(p: Pool, es: seq<Event>, more: seq<Event>)
    requires Possible(p, es) && Possible(After(p, es), more)
    ensures Possible(p, es + more) && After(p, es + more) == After(After(p, es), more)
    decreases |more|
  {
    hide Possible, After, Enabled, Next;
    if more == [] {
      NoStep(After(p, es));
      assert es + more == es;
    } else {
      var n := |more| - 1;
      LastStep(After(p, es), more);
      Appended(p, es, more[..n]);
      OneMore(p, es + more[..n], more[n]);
      assert es + more == es + more[..n] + [more[n]];
    }
  }

  /** What processJob does to the pool */
  lemma Processed(p: Pool, w: nat, failed: bool, contextDone: bool)
    requires w < |p.workers| && p.workers[w].Calculating? && (contextDone ==> p.workers[w].job in p.cancelled)
    ensures Possible(p, Processing(w, failed, contextDone))
    ensures var q := After(p, Processing(w, failed, contextDone));
      && q.queue == p.queue && q.activeJobs == p.activeJobs - 1 && q.workers == p.workers[w := Idle]
      && q.cancelled == p.cancelled && q.quitting == p.quitting
  {
    hide After, Possible;
    var e1, e2 := Judge(w, failed), if contextDone then Discard(w) else Reply(w);
    var p1 := Next(p, e1);
    var p2 := Next(p1, e2);
    var es := Extended(p, [], e1, p1);
    es := Extended(p, es, e2, p2);
    es := Extended(p, es, Finish(w), Next(p2, Finish(w)));
  }

  function Processing(w: nat, failed: bool, contextDone: bool): seq<Event> {
    [Judge(w, failed)] + [if contextDone then Discard(w) else Reply(w)] + [Finish(w)]
  }
}
