/**
 The database pipeline of the receiver: handlers offer jobs to a bounded queue, a pool of
 workers takes them in batches and saves each batch with retries. Every interleaving of the
 workers, the handlers and the shutdown is a sequence of the atomic actions below.
 */
module DbPipeline {

  type Job = nat

  const MAX_BATCH: nat := 10
  const MAX_RETRIES: nat := 2

  datatype Worker =
    | Idle
    | Draining(batch: seq<Job>)
    | Saving(batch: seq<Job>, attempt: nat)
    | Exited

  /**
   queue, workers, cancelled and closed are the channel, the goroutines and the shutdown flags;
   drops, successes and errors are the counters of the statistics. submitted, dropped, saved
   and failed record, job by job, what happened, and no action reads them.
   */
  datatype Pipeline = Pipeline(
    capacity: nat, queue: seq<Job>, workers: seq<Worker>, cancelled: bool, closed: bool,
    drops: nat, successes: nat, errors: nat,
    submitted: multiset<Job>, dropped: multiset<Job>, saved: multiset<Job>, failed: multiset<Job>)

  datatype Action =
    | Submit(job: Job)
    | Cancel
    | Close
    | Take(worker: nat)
    | Drain(worker: nat)
    | Flush(worker: nat)
    | Save(worker: nat, ok: bool)
    | Exit(worker: nat)

  function Start(capacity: nat, workers: nat): Pipeline {
    Pipeline(capacity, [], seq(workers, _ => Idle), false, false, 0, 0, 0,
             multiset{}, multiset{}, multiset{}, multiset{})
  }

  predicate ByWorker(a: Action) {
    a.Take? || a.Drain? || a.Flush? || a.Save? || a.Exit?
  }

  predicate Enabled(p: Pipeline, a: Action) {
    match a
    case Submit(_) => !p.closed
    case Cancel => true
    case Close => !p.closed
    case Take(w) => w < |p.workers| && p.workers[w].Idle? && p.queue != []
    case Drain(w) => w < |p.workers| && p.workers[w].Draining? && |p.workers[w].batch| < MAX_BATCH && p.queue != []
    case Flush(w) => w < |p.workers| && p.workers[w].Draining?
    case Save(w, _) => w < |p.workers| && p.workers[w].Saving?
    case Exit(w) => w < |p.workers| && p.workers[w].Idle? && (p.cancelled || (p.closed && p.queue == []))
  }

  function Offer(p: Pipeline, job: Job): Pipeline {
    var q := p.(submitted := p.submitted + multiset{job});
    if |p.queue| < p.capacity then q.(queue := p.queue + [job])
    else q.(drops := p.drops + 1, dropped := p.dropped + multiset{job})
  }

  /** The pipeline once a batch has been saved or given up. */
  function Settled(p: Pipeline, w: nat, ok: bool): Pipeline
    requires w < |p.workers| && p.workers[w].Saving?
  {
    var batch, q := p.workers[w].batch, p.(workers := p.workers[w := Idle]);
    if ok then q.(successes := p.successes + |batch|, saved := p.saved + multiset(batch))
    else q.(errors := p.errors + |batch|, failed := p.failed + multiset(batch))
  }

  /** One attempt to save the batch of a worker: it settles the batch, or a retry follows. */
  function Attempt(p: Pipeline, w: nat, ok: bool): Pipeline
    requires w < |p.workers| && p.workers[w].Saving?
  {
    var batch, attempt := p.workers[w].batch, p.workers[w].attempt;
    if !ok && attempt < MAX_RETRIES then p.(workers := p.workers[w := Saving(batch, attempt + 1)])
    else Settled(p, w, ok)
  }

  function Step(p: Pipeline, a: Action): Pipeline
    requires Enabled(p, a)
  {
    match a
    case Submit(job) => Offer(p, job)
    case Cancel => p.(cancelled := true)
    case Close => p.(closed := true)
    case Take(w) => p.(workers := p.workers[w := Draining([p.queue[0]])], queue := p.queue[1..])
    case Drain(w) => p.(workers := p.workers[w := Draining(p.workers[w].batch + [p.queue[0]])], queue := p.queue[1..])
    case Flush(w) => p.(workers := p.workers[w := Saving(p.workers[w].batch, 0)])
    case Save(w, ok) => Attempt(p, w, ok)
    case Exit(w) => p.(workers := p.workers[w := Exited])
  }

  ghost predicate Runs(p: Pipeline, acts: seq<Action>)
    decreases |acts|
  {
    acts == [] || (Enabled(p, acts[0]) && Runs(Step(p, acts[0]), acts[1..]))
  }

  ghost function After(p: Pipeline, acts: seq<Action>): Pipeline
    requires Runs(p, acts)
    decreases |acts|
  {
    if acts == [] then p else After(Step(p, acts[0]), acts[1..])
  }

  // ---------------------------------------------------------------- first in, first out

  /** The job that an action puts into the queue, if any. */
  function Accepted(p: Pipeline, a: Action): seq<Job> {
    if a.Submit? && |p.queue| < p.capacity then [a.job] else []
  }

  /** The job that a worker has after an action and had not before it, if any. */
  function Taken(p: Pipeline, a: Action): seq<Job>
    requires Enabled(p, a)
  {
    if a.Take? || a.Drain? then
      var had, has := Held(p.workers[a.worker]), Held(Step(p, a).workers[a.worker]);
      if had <= has then has[|had|..] else []
    else []
  }

  ghost function AcceptedIn(p: Pipeline, acts: seq<Action>): seq<Job>
    requires Runs(p, acts)
    decreases |acts|
  {
    if acts == [] then [] else Accepted(p, acts[0]) + AcceptedIn(Step(p, acts[0]), acts[1..])
  }

  ghost function TakenIn(p: Pipeline, acts: seq<Action>): seq<Job>
    requires Runs(p, acts)
    decreases |acts|
  {
    if acts == [] then [] else Taken(p, acts[0]) + TakenIn(Step(p, acts[0]), acts[1..])
  }

  lemma StepIsFifo(p: Pipeline, a: Action)
    requires Enabled(p, a)
    ensures Taken(p, a) + Step(p, a).queue == p.queue + Accepted(p, a)
  {
    if a.Take? || a.Drain? {
      assert [p.queue[0]] + p.queue[1..] == p.queue;
      var had := Held(p.workers[a.worker]);
      assert (had + [p.queue[0]])[|had|..] == [p.queue[0]];
    }
  }

  /** In every interleaving the workers together take the accepted jobs in the order they were accepted. */
  lemma {:induction false} QueueIsFifo(p: Pipeline, acts: seq<Action>)
    requires Runs(p, acts)
    ensures TakenIn(p, acts) + After(p, acts).queue == p.queue + AcceptedIn(p, acts)
    decreases |acts|
  {
    if acts != [] {
      hide Step;
      hide Taken;
      hide Accepted;
      hide Enabled;
      var q := Step(p, acts[0]);
      StepIsFifo(p, acts[0]);
      QueueIsFifo(q, acts[1..]);
      Regroup(Taken(p, acts[0]), TakenIn(q, acts[1..]), After(q, acts[1..]).queue, q.queue, AcceptedIn(q, acts[1..]),
              p.queue, Accepted(p, acts[0]));
    }
  }

  lemma Regroup(t: seq<Job>, ts: seq<Job>, end: seq<Job>, mid: seq<Job>, s: seq<Job>, start: seq<Job>, a: seq<Job>)
    requires ts + end == mid + s && t + mid == start + a
    ensures t + ts + end == start + (a + s)
  {
    assert t + ts + end == t + (ts + end) == t + mid + s == start + a + s;
  }

  // ---------------------------------------------------------------- conservation

  function Held(w: Worker): seq<Job> {
    if w.Draining? || w.Saving? then w.batch else []
  }

  function InHand(ws: seq<Worker>): multiset<Job> {
    if ws == [] then multiset{} else multiset(Held(ws[0])) + InHand(ws[1..])
  }

  ghost predicate WorkerOk(w: Worker) {
    && (w.Draining? || w.Saving? ==> 1 <= |w.batch| <= MAX_BATCH)
    && (w.Saving? ==> w.attempt <= MAX_RETRIES)
  }

  ghost predicate Balanced(total: multiset<Job>, dropped: multiset<Job>, queue: multiset<Job>, hands: multiset<Job>,
                           saved: multiset<Job>, failed: multiset<Job>) {
    total == dropped + queue + hands + saved + failed
  }

  /** Every job offered is in exactly one place, and the counters count the jobs. */
  ghost predicate Conserved(p: Pipeline) {
    && Balanced(p.submitted, p.dropped, multiset(p.queue), InHand(p.workers), p.saved, p.failed)
    && p.drops == |p.dropped| && p.successes == |p.saved| && p.errors == |p.failed|
  }

  ghost predicate Valid(p: Pipeline) {
    && Conserved(p)
    && |p.queue| <= p.capacity
    && forall i :: 0 <= i < |p.workers| ==> WorkerOk(p.workers[i])
  }

  lemma SwapHeld(now: multiset<Job>, was: multiset<Job>, rest: multiset<Job>, less: multiset<Job>, more: multiset<Job>)
    requires now + was == rest + more
    ensures less + now + was == less + rest + more
  {
    forall j ensures (less + now + was)[j] == (less + rest + more)[j] {
      assert (now + was)[j] == (rest + more)[j];
    }
  }

  lemma {:induction false} HandUpdate(ws: seq<Worker>, i: nat, w: Worker)
    requires i < |ws|
    ensures InHand(ws[i := w]) + multiset(Held(ws[i])) == InHand(ws) + multiset(Held(w))
  {
    hide Held;
    if i == 0 {
      assert ws[i := w][1..] == ws[1..];
    } else {
      assert ws[i := w][1..] == ws[1..][i - 1 := w];
      HandUpdate(ws[1..], i - 1, w);
      SwapHeld(InHand(ws[1..][i - 1 := w]), multiset(Held(ws[i])), InHand(ws[1..]), multiset(Held(ws[0])),
               multiset(Held(w)));
    }
  }

  /** Moving jobs between the hands of one worker, the queue and the results keeps the total. */
  lemma Rebalance(total: multiset<Job>, dropped: multiset<Job>, queue: multiset<Job>, hands: multiset<Job>,
                  saved: multiset<Job>, failed: multiset<Job>, was: multiset<Job>, now: multiset<Job>,
                  queue': multiset<Job>, hands': multiset<Job>, moreSaved: multiset<Job>, moreFailed: multiset<Job>)
    requires Balanced(total, dropped, queue, hands, saved, failed)
    requires hands' + was == hands + now
    requires now + queue' + moreSaved + moreFailed == was + queue
    ensures Balanced(total, dropped, queue', hands', saved + moreSaved, failed + moreFailed)
  {
    forall j
      ensures (dropped + queue + hands + saved + failed)[j]
              == (dropped + queue' + hands' + (saved + moreSaved) + (failed + moreFailed))[j]
    {
      assert (hands' + was)[j] == (hands + now)[j];
      assert (now + queue' + moreSaved + moreFailed)[j] == (was + queue)[j];
    }
  }

  /** What one worker does to the accounts: its batch changes, and the queue or the results with it. */
  lemma Transfer(p: Pipeline, w: nat, next: Worker, queue: seq<Job>, saved: multiset<Job>, failed: multiset<Job>)
    requires Valid(p) && w < |p.workers| && WorkerOk(next) && |queue| <= p.capacity
    requires multiset(Held(next)) + multiset(queue) + saved + failed == multiset(Held(p.workers[w])) + multiset(p.queue)
    ensures Valid(p.(workers := p.workers[w := next], queue := queue, saved := p.saved + saved,
                     failed := p.failed + failed,
                     successes := p.successes + |saved|, errors := p.errors + |failed|))
  {
    hide Balanced;
    hide Held;
    hide InHand;
    hide WorkerOk;
    var workers := p.workers[w := next];
    HandUpdate(p.workers, w, next);
    Rebalance(p.submitted, p.dropped, multiset(p.queue), InHand(p.workers), p.saved, p.failed,
              multiset(Held(p.workers[w])), multiset(Held(next)), multiset(queue), InHand(workers), saved, failed);
  }

  lemma HeadTail(q: seq<Job>)
    requires q != []
    ensures multiset(q) == multiset([q[0]]) + multiset(q[1..])
  {
    assert q == [q[0]] + q[1..];
  }

  lemma OfferKeepsValid(p: Pipeline, job: Job)
    requires Valid(p)
    ensures Valid(Offer(p, job))
  {
  }

  /** A worker goes on with the same batch. */
  lemma SameBatch(p: Pipeline, w: nat, next: Worker)
    requires Valid(p) && w < |p.workers| && WorkerOk(next) && Held(next) == Held(p.workers[w])
    ensures Valid(p.(workers := p.workers[w := next]))
  {
    var none: multiset<Job> := multiset{};
    assert p.saved + none == p.saved && p.failed + none == p.failed;
    hide Valid;
    Bounds(p, w);
    Transfer(p, w, next, p.queue, none, none);
  }

  /** A worker adds the first job of the queue to its batch. */
  lemma PullsJob(p: Pipeline, w: nat, next: Worker)
    requires Valid(p) && w < |p.workers| && WorkerOk(next) && p.queue != []
    requires Held(next) == Held(p.workers[w]) + [p.queue[0]]
    ensures Valid(p.(workers := p.workers[w := next], queue := p.queue[1..]))
  {
    var none: multiset<Job> := multiset{};
    assert p.saved + none == p.saved && p.failed + none == p.failed;
    hide Valid;
    Bounds(p, w);
    HeadTail(p.queue);
    Transfer(p, w, next, p.queue[1..], none, none);
  }

  /** A worker is done with its batch. */
  lemma SettleKeepsValid(p: Pipeline, w: nat, ok: bool)
    requires Valid(p) && w < |p.workers| && p.workers[w].Saving?
    ensures Valid(Settled(p, w, ok))
  {
    var none: multiset<Job> := multiset{};
    var batch := multiset(p.workers[w].batch);
    assert p.saved + none == p.saved && p.failed + none == p.failed;
    hide Valid;
    Bounds(p, w);
    if ok {
      Transfer(p, w, Idle, p.queue, batch, none);
    } else {
      Transfer(p, w, Idle, p.queue, none, batch);
    }
  }

  lemma PullKeepsValid(p: Pipeline, a: Action)
    requires Valid(p) && Enabled(p, a) && (a.Take? || a.Drain?)
    ensures Valid(Step(p, a))
  {
    var w := a.worker;
    hide Valid;
    Bounds(p, w);
    PullsJob(p, w, Draining(Held(p.workers[w]) + [p.queue[0]]));
    assert [] + [p.queue[0]] == [p.queue[0]];
  }

  lemma SaveKeepsValid(p: Pipeline, w: nat, ok: bool)
    requires Valid(p) && w < |p.workers| && p.workers[w].Saving?
    ensures Valid(Attempt(p, w, ok))
  {
    hide Valid;
    Bounds(p, w);
    hide Settled;
    var next := p.workers[w];
    if !ok && next.attempt < MAX_RETRIES {
      SameBatch(p, w, Saving(next.batch, next.attempt + 1));
    } else {
      SettleKeepsValid(p, w, ok);
    }
  }

  lemma WorkerKeepsValid(p: Pipeline, a: Action)
    requires Valid(p) && Enabled(p, a) && ByWorker(a)
    ensures Valid(Step(p, a))
  {
    var w := a.worker;
    hide Valid;
    Bounds(p, w);
    hide Attempt;
    match a {
      case Take(_) => PullKeepsValid(p, a);
      case Drain(_) => PullKeepsValid(p, a);
      case Flush(_) => SameBatch(p, w, Saving(p.workers[w].batch, 0));
      case Save(_, ok) => SaveKeepsValid(p, w, ok);
      case Exit(_) => SameBatch(p, w, Exited);
    }
  }

  lemma Bounds(p: Pipeline, w: nat)
    requires Valid(p) && w < |p.workers|
    ensures WorkerOk(p.workers[w]) && |p.queue| <= p.capacity
  {
  }

  /** Every action keeps the accounts balanced and the batches and retries within their limits. */
  lemma StepKeepsValid(p: Pipeline, a: Action)
    requires Valid(p) && Enabled(p, a)
    ensures Valid(Step(p, a))
  {
    if ByWorker(a) {
      WorkerKeepsValid(p, a);
    } else if a.Submit? {
      OfferKeepsValid(p, a.job);
    }
  }

  lemma {:induction false} NothingInHand(ws: seq<Worker>)
    requires forall i :: 0 <= i < |ws| ==> Held(ws[i]) == []
    ensures InHand(ws) == multiset{}
  {
    if ws != [] { NothingInHand(ws[1..]); }
  }

  lemma {:induction false} RunKeepsValid(p: Pipeline, acts: seq<Action>)
    requires Valid(p) && Runs(p, acts)
    ensures Valid(After(p, acts))
    decreases |acts|
  {
    if acts != [] {
      StepKeepsValid(p, acts[0]);
      RunKeepsValid(Step(p, acts[0]), acts[1..]);
    }
  }

  /** Whatever the interleaving, no job is lost, duplicated or counted twice. */
  lemma PipelineConserves(capacity: nat, workers: nat, acts: seq<Action>)
    requires Runs(Start(capacity, workers), acts)
    ensures Valid(After(Start(capacity, workers), acts))
  {
    NothingInHand(Start(capacity, workers).workers);
    RunKeepsValid(Start(capacity, workers), acts);
  }

  // ---------------------------------------------------------------- shutdown

  /** Neither cancelled nor closed, and every worker is there. */
  ghost predicate Serving(p: Pipeline) {
    !p.cancelled && !p.closed && forall i :: 0 <= i < |p.workers| ==> !p.workers[i].Exited?
  }

  lemma {:induction false} RunKeepsServing(p: Pipeline, acts: seq<Action>)
    requires Serving(p) && Runs(p, acts) && forall a :: a in acts ==> !a.Cancel? && !a.Close?
    ensures Serving(After(p, acts))
    decreases |acts|
  {
    if acts != [] {
      assert acts[0] in acts;
      StepKeepsServing(p, acts[0]);
      RunKeepsServing(Step(p, acts[0]), acts[1..]);
    }
  }

  lemma StepKeepsServing(p: Pipeline, a: Action)
    requires Serving(p) && Enabled(p, a) && !a.Cancel? && !a.Close?
    ensures Serving(Step(p, a))
  {
  }

  /** From the start until a shutdown begins, no worker leaves, whatever the interleaving and the failures. */
  lemma NobodyLeavesEarly(capacity: nat, workers: nat, acts: seq<Action>)
    requires Runs(Start(capacity, workers), acts) && forall a :: a in acts ==> !a.Cancel? && !a.Close?
    ensures Serving(After(Start(capacity, workers), acts))
    ensures |After(Start(capacity, workers), acts).workers| == workers
  {
    RunKeepsServing(Start(capacity, workers), acts);
    WorkersPersist(Start(capacity, workers), acts);
  }

  function Rank(w: Worker): nat {
    match w
    case Idle => 1
    case Draining(_) => MAX_RETRIES + 3
    case Saving(_, attempt) => if attempt <= MAX_RETRIES then MAX_RETRIES + 2 - attempt else 2
    case Exited => 0
  }

  function Work(ws: seq<Worker>): nat {
    if ws == [] then 0 else Rank(ws[0]) + Work(ws[1..])
  }

  /** What is left to do: a bound on the number of worker actions without new jobs. */
  function Remaining(p: Pipeline): nat {
    (MAX_RETRIES + 3) * |p.queue| + Work(p.workers)
  }

  lemma {:induction false} WorkUpdate(ws: seq<Worker>, i: nat, w: Worker)
    requires i < |ws|
    ensures Work(ws[i := w]) + Rank(ws[i]) == Work(ws) + Rank(w)
  {
    if i == 0 {
      assert ws[i := w][1..] == ws[1..];
    } else {
      assert ws[i := w][1..] == ws[1..][i - 1 := w];
      WorkUpdate(ws[1..], i - 1, w);
    }
  }

  /** Every worker action makes progress. */
  lemma WorkerMakesProgress(p: Pipeline, a: Action)
    requires Enabled(p, a) && ByWorker(a)
    requires forall i :: 0 <= i < |p.workers| ==> WorkerOk(p.workers[i])
    ensures Remaining(Step(p, a)) < Remaining(p)
  {
    var w := a.worker;
    assert WorkerOk(p.workers[w]);
    WorkUpdate(p.workers, w, Step(p, a).workers[w]);
  }

  /** Nothing is left to do for the workers. */
  ghost predicate Finished(p: Pipeline) {
    forall a :: ByWorker(a) ==> !Enabled(p, a)
  }

  /** Once the queue is closed the workers stop within Remaining actions. */
  lemma {:induction false} WorkersStop(p: Pipeline, acts: seq<Action>)
    requires Valid(p) && Runs(p, acts) && forall a :: a in acts ==> ByWorker(a)
    ensures |acts| <= Remaining(p)
    decreases |acts|
  {
    hide Remaining;
    hide Step;
    hide Conserved;
    if acts != [] {
      assert acts[0] in acts;
      StepKeepsValid(p, acts[0]);
      WorkerMakesProgress(p, acts[0]);
      WorkersStop(Step(p, acts[0]), acts[1..]);
    }
  }

  /** A closed or cancelled pipeline has finished exactly when every worker has exited. */
  lemma FinishedIff(p: Pipeline)
    requires p.closed
    ensures Finished(p) <==> forall i :: 0 <= i < |p.workers| ==> p.workers[i].Exited?
  {
    if Finished(p) {
      forall i | 0 <= i < |p.workers| ensures p.workers[i].Exited? {
        var w := p.workers[i];
        assert ByWorker(Take(i)) && ByWorker(Flush(i)) && ByWorker(Save(i, true)) && ByWorker(Exit(i));
        assert !Enabled(p, Take(i)) && !Enabled(p, Flush(i)) && !Enabled(p, Save(i, true)) && !Enabled(p, Exit(i));
      }
    }
  }

  /** After the workers have exited, every job was dropped, saved, failed, or is left in the queue. */
  lemma FinalAccounts(p: Pipeline)
    requires Valid(p) && p.closed && Finished(p)
    ensures p.submitted == p.dropped + p.saved + p.failed + multiset(p.queue)
    ensures |p.submitted| == p.drops + p.successes + p.errors + |p.queue|
  {
    FinishedIff(p);
    NothingInHand(p.workers);
    assert p.submitted == p.dropped + p.saved + p.failed + multiset(p.queue);
  }

  /** A worker has exited although nobody cancelled only because the queue was closed and empty. */
  ghost predicate ExitsAreDry(p: Pipeline) {
    !p.cancelled && (exists i :: 0 <= i < |p.workers| && p.workers[i].Exited?) ==> p.closed && p.queue == []
  }

  lemma StepKeepsDry(p: Pipeline, a: Action)
    requires ExitsAreDry(p) && Enabled(p, a)
    ensures ExitsAreDry(Step(p, a))
  {
    var q := Step(p, a);
    if !q.cancelled && exists i :: 0 <= i < |q.workers| && q.workers[i].Exited? {
      var i :| 0 <= i < |q.workers| && q.workers[i].Exited?;
      if !p.workers[i].Exited? { assert a == Exit(i); }
    }
  }

  lemma {:induction false} RunKeepsDry(p: Pipeline, acts: seq<Action>)
    requires ExitsAreDry(p) && Runs(p, acts)
    ensures ExitsAreDry(After(p, acts))
    decreases |acts|
  {
    if acts != [] {
      StepKeepsDry(p, acts[0]);
      RunKeepsDry(Step(p, acts[0]), acts[1..]);
    }
  }

  lemma StepKeepsWorkers(p: Pipeline, a: Action)
    requires Enabled(p, a)
    ensures |Step(p, a).workers| == |p.workers|
  {
  }

  lemma {:induction false} WorkersPersist(p: Pipeline, acts: seq<Action>)
    requires Runs(p, acts)
    ensures |After(p, acts).workers| == |p.workers|
    decreases |acts|
  {
    hide Step;
    if acts != [] {
      StepKeepsWorkers(p, acts[0]);
      WorkersPersist(Step(p, acts[0]), acts[1..]);
    }
  }

  /** Closing the queue without cancelling drains it: in the end every job was dropped, saved or failed. */
  lemma CloseAloneDrains(capacity: nat, workers: nat, acts: seq<Action>)
    requires workers > 0 && Runs(Start(capacity, workers), acts)
    ensures var p := After(Start(capacity, workers), acts);
            p.closed && !p.cancelled && Finished(p) ==> p.submitted == p.dropped + p.saved + p.failed
  {
    hide Finished;
    var start := Start(capacity, workers);
    var p := After(start, acts);
    PipelineConserves(capacity, workers, acts);
    RunKeepsDry(start, acts);
    WorkersPersist(start, acts);
    if p.closed && !p.cancelled && Finished(p) {
      FinishedIff(p);
      assert p.workers[0].Exited?;
      FinalAccounts(p);
    }
  }

  // ---------------------------------------------------------------- shutdown as the receiver does it

  /** The way one worker leaves a cancelled pipeline without touching the queue. */
  function WayOut(w: Worker, i: nat): seq<Action> {
    match w
    case Idle => [Exit(i)]
    case Draining(_) => [Flush(i), Save(i, true), Exit(i)]
    case Saving(_, _) => [Save(i, true), Exit(i)]
    case Exited => []
  }

  ghost predicate Leaves(p: Pipeline, acts: seq<Action>, n: nat) {
    && n <= |p.workers| && Runs(p, acts) && (forall a :: a in acts ==> ByWorker(a))
    && var q := After(p, acts);
       && q.queue == p.queue && q.closed == p.closed && q.cancelled == p.cancelled && |q.workers| == |p.workers|
       && forall i :: 0 <= i < n ==> q.workers[i].Exited?
  }

  lemma {:induction false} RunAppend(p: Pipeline, xs: seq<Action>, ys: seq<Action>)
    requires Runs(p, xs) && Runs(After(p, xs), ys)
    ensures Runs(p, xs + ys) && After(p, xs + ys) == After(After(p, xs), ys)
    decreases |xs|
  {
    hide Step;
    hide Enabled;
    if xs == [] {
      assert xs + ys == ys;
    } else {
      assert (xs + ys)[1..] == xs[1..] + ys;
      RunAppend(Step(p, xs[0]), xs[1..], ys);
    }
  }

  lemma AfterOne(p: Pipeline, a: Action)
    requires Enabled(p, a)
    ensures Runs(p, [a]) && After(p, [a]) == Step(p, a)
  {
  }

  lemma OneLeaves(p: Pipeline, i: nat)
    requires p.cancelled && i < |p.workers| && forall j :: 0 <= j < i ==> p.workers[j].Exited?
    ensures Leaves(p, WayOut(p.workers[i], i), i + 1)
  {
    var w := p.workers[i];
    if w.Idle? {
      AfterOne(p, Exit(i));
    } else if w.Saving? {
      SaveAndLeave(p, i);
    } else if w.Draining? {
      var q := Step(p, Flush(i));
      AfterOne(p, Flush(i));
      SaveAndLeave(q, i);
      RunAppend(p, [Flush(i)], [Save(i, true), Exit(i)]);
      assert [Flush(i)] + [Save(i, true), Exit(i)] == WayOut(w, i);
    }
  }

  lemma SaveAndLeave(p: Pipeline, i: nat)
    requires p.cancelled && i < |p.workers| && p.workers[i].Saving? && forall j :: 0 <= j < i ==> p.workers[j].Exited?
    ensures Leaves(p, [Save(i, true), Exit(i)], i + 1)
  {
    var q := Step(p, Save(i, true));
    AfterOne(p, Save(i, true));
    AfterOne(q, Exit(i));
    RunAppend(p, [Save(i, true)], [Exit(i)]);
    assert [Save(i, true)] + [Exit(i)] == [Save(i, true), Exit(i)];
  }

  lemma {:induction false} AllLeave(p: Pipeline, n: nat) returns (acts: seq<Action>)
    requires p.cancelled && n <= |p.workers|
    ensures Leaves(p, acts, n)
  {
    acts := [];
    if n > 0 {
      var before := AllLeave(p, n - 1);
      var q := After(p, before);
      OneLeaves(q, n - 1);
      var more := WayOut(q.workers[n - 1], n - 1);
      RunAppend(p, before, more);
      acts := before + more;
    }
  }

  /** Without new jobs an empty queue stays empty. */
  lemma {:induction false} EmptyStaysEmpty(p: Pipeline, acts: seq<Action>)
    requires p.queue == [] && Runs(p, acts) && forall a :: a in acts ==> !a.Submit?
    ensures After(p, acts).queue == []
    decreases |acts|
  {
    if acts != [] {
      assert acts[0] in acts;
      EmptyStaysEmpty(Step(p, acts[0]), acts[1..]);
    }
  }

  /** The shutdown as a call: it cancels, closes later, and meanwhile and afterwards the workers act. */
  ghost predicate IsShutdown(acts: seq<Action>) {
    acts != [] && acts[0] == Cancel && Close in acts && forall a :: a in acts[1..] ==> a == Close || ByWorker(a)
  }

  /** No run of the shutdown, to the point where no worker can act, leaves a job in the queue. */
  ghost predicate DrainsSurely(p: Pipeline) {
    forall acts :: IsShutdown(acts) && Runs(p, acts) && Finished(After(p, acts)) ==> After(p, acts).queue == []
  }

  /** Every worker leaves without another look at the queue. */
  lemma HastyShutdown(p: Pipeline) returns (acts: seq<Action>)
    requires !p.closed
    ensures IsShutdown(acts) && Runs(p, acts) && Finished(After(p, acts)) && After(p, acts).queue == p.queue
    ensures After(p, acts).closed && After(p, acts).cancelled
  {
    hide Finished;
    AfterOne(p, Cancel);
    var cancelled := Step(p, Cancel);
    AfterOne(cancelled, Close);
    var closed := Step(cancelled, Close);
    RunAppend(p, [Cancel], [Close]);
    var leave := AllLeave(closed, |closed.workers|);
    FinishedIff(After(closed, leave));
    acts := [Cancel] + [Close] + leave;
    RunAppend(p, [Cancel] + [Close], leave);
    assert acts[1] == Close;
    assert acts[1..] == [Close] + leave;
  }

  /**
   The receiver cancels the workers before it closes the queue, so an idle worker may leave with
   jobs still queued: called on an open pipeline, the shutdown drains the queue surely if and only
   if it is empty already.
   */
  lemma GracefulIff(p: Pipeline)
    requires !p.closed
    ensures DrainsSurely(p) <==> p.queue == []
  {
    hide Finished;
    if p.queue == [] {
      forall acts | IsShutdown(acts) && Runs(p, acts) && Finished(After(p, acts)) ensures After(p, acts).queue == [] {
        assert acts == [Cancel] + acts[1..];
        EmptyStaysEmpty(p, acts);
      }
    } else {
      var acts := HastyShutdown(p);
    }
  }

  /** One offer to a new pipeline, and a hasty shutdown. */
  lemma OfferAndLeave(capacity: nat, workers: nat, job: Job) returns (acts: seq<Action>)
    requires capacity > 0
    ensures Runs(Start(capacity, workers), acts) && acts != [] && acts[0] == Submit(job) && IsShutdown(acts[1..])
    ensures var p := After(Start(capacity, workers), acts);
            Finished(p) && p.closed && p.queue == [job] && p.submitted == multiset{job}
  {
    hide Finished;
    hide Runs;
    hide After;
    var start := Start(capacity, workers);
    AfterOne(start, Submit(job));
    var offered := Step(start, Submit(job));
    hide Step;
    hide Start;
    var rest := HastyShutdown(offered);
    RunAppend(start, [Submit(job)], rest);
    acts := [Submit(job)] + rest;
    assert acts[1..] == rest;
    assert rest == [Cancel] + rest[1..];
    SubmittedOnly(offered, rest);
  }

  /** From the start: one job is offered, the shutdown follows, and the job is neither saved nor counted. */
  lemma JobIsLost(capacity: nat, workers: nat, job: Job) returns (acts: seq<Action>)
    requires capacity > 0
    ensures Runs(Start(capacity, workers), acts) && acts != [] && acts[0] == Submit(job) && IsShutdown(acts[1..])
    ensures var p := After(Start(capacity, workers), acts);
            && Finished(p) && p.queue == [job] && p.submitted == multiset{job}
            && p.dropped == p.saved == p.failed == multiset{} && p.drops == p.successes == p.errors == 0
  {
    hide Finished;
    hide Runs;
    hide After;
    hide Valid;
    hide Start;
    acts := OfferAndLeave(capacity, workers, job);
    PipelineConserves(capacity, workers, acts);
    var p := After(Start(capacity, workers), acts);
    FinalAccounts(p);
    OnlyQueued(p, job);
  }

  lemma {:induction false} SubmittedOnly(p: Pipeline, acts: seq<Action>)
    requires Runs(p, acts) && forall a :: a in acts ==> !a.Submit?
    ensures After(p, acts).submitted == p.submitted
    decreases |acts|
  {
    if acts != [] {
      assert acts[0] in acts;
      SubmittedOnly(Step(p, acts[0]), acts[1..]);
    }
  }

  /** One job, and it is in the queue: it is nowhere else. */
  lemma OnlyQueued(p: Pipeline, job: Job)
    requires Valid(p) && p.queue == [job] && p.submitted == multiset{job}
    requires p.submitted == p.dropped + p.saved + p.failed + multiset(p.queue)
    ensures p.dropped == p.saved == p.failed == multiset{} && p.drops == p.successes == p.errors == 0
  {
    assert multiset(p.queue) == multiset{job};
    assert |p.submitted| == |p.dropped| + |p.saved| + |p.failed| + 1;
  }

  // ---------------------------------------------------------------- the retry loop of one worker

  /** The saves of a worker from a given attempt on. */
  function Saves(w: nat, outcome: nat -> bool, attempt: nat): seq<Action>
    requires attempt <= MAX_RETRIES
    decreases MAX_RETRIES - attempt
  {
    [Save(w, outcome(attempt))]
    + if outcome(attempt) || attempt == MAX_RETRIES then [] else Saves(w, outcome, attempt + 1)
  }

  /** Some attempt from the given one on succeeds. */
  predicate Succeeds(outcome: nat -> bool, attempt: nat)
    requires attempt <= MAX_RETRIES
    decreases MAX_RETRIES - attempt
  {
    outcome(attempt) || (attempt < MAX_RETRIES && Succeeds(outcome, attempt + 1))
  }

  /** A batch is saved exactly when one of its three attempts succeeds, and is counted exactly once. */
  method ExecuteBatch(batch: seq<Job>, outcome: nat -> bool) returns (successes: nat, errors: nat, attempts: nat)
    ensures successes + errors == |batch|
    ensures batch != [] ==> (successes == |batch| <==> exists a :: 0 <= a <= MAX_RETRIES && outcome(a))
    ensures successes == if Succeeds(outcome, 0) then |batch| else 0
    ensures 1 <= attempts <= MAX_RETRIES + 1
    ensures forall a :: 0 <= a < attempts - 1 ==> !outcome(a)
    ensures attempts <= MAX_RETRIES ==> outcome(attempts - 1)
  {
    successes, errors, attempts := 0, 0, 0;
    var failed := false;
    for attempt := 0 to MAX_RETRIES + 1
      invariant attempts == attempt && successes == errors == 0
      invariant forall a :: 0 <= a < attempt ==> !outcome(a)
      invariant failed <==> attempt > 0
      invariant Succeeds(outcome, 0) <==> attempt <= MAX_RETRIES && Succeeds(outcome, attempt)
    {
      attempts := attempts + 1;
      failed := !outcome(attempt);
      if !failed {
        successes := |batch|;
        break;
      }
    }
    if failed { errors := |batch|; }
  }

  lemma Retry(p: Pipeline, w: nat, ok: bool)
    requires w < |p.workers| && p.workers[w].Saving? && p.workers[w].attempt < MAX_RETRIES
    ensures var q := Step(p, Save(w, false));
            && w < |q.workers| && q.workers[w].Saving? && q.workers[w].attempt == p.workers[w].attempt + 1
            && Settled(q, w, ok) == Settled(p, w, ok)
  {
    assert p.workers[w := Step(p, Save(w, false)).workers[w]][w := Idle] == p.workers[w := Idle];
  }

  lemma FirstSave(p: Pipeline, w: nat, ok: bool)
    requires w < |p.workers| && p.workers[w].Saving?
    ensures Enabled(p, Save(w, ok)) && Runs(p, [Save(w, ok)]) && After(p, [Save(w, ok)]) == Step(p, Save(w, ok))
    ensures ok || p.workers[w].attempt >= MAX_RETRIES ==> Step(p, Save(w, ok)) == Settled(p, w, ok)
  {
  }

  /** The saves of a batch end with the worker idle and the whole batch under one heading. */
  lemma {:induction false} SavesSettle(p: Pipeline, w: nat, outcome: nat -> bool, attempt: nat)
    requires w < |p.workers| && p.workers[w].Saving? && p.workers[w].attempt == attempt <= MAX_RETRIES
    ensures Runs(p, Saves(w, outcome, attempt))
    ensures After(p, Saves(w, outcome, attempt)) == Settled(p, w, Succeeds(outcome, attempt))
    decreases MAX_RETRIES - attempt
  {
    hide After;
    hide Runs;
    hide Step;
    hide Settled;
    FirstSave(p, w, outcome(attempt));
    if outcome(attempt) || attempt == MAX_RETRIES {
      assert Saves(w, outcome, attempt) == [Save(w, outcome(attempt))];
    } else {
      Retry(p, w, Succeeds(outcome, attempt + 1));
      SavesSettle(Step(p, Save(w, false)), w, outcome, attempt + 1);
      RunAppend(p, [Save(w, false)], Saves(w, outcome, attempt + 1));
    }
  }
}
