/** What the results of delivery attempts decide, told by HTTP statuses alone: whether a batch is sent again,
    what becomes of it, and when the pipeline stops for good. */
module Deliveries {
  import opened Wrappers
  import opened RequestWorkers
  import opened EventPipelines

  predicate Accepted(r: HttpResult) { !r.isError && 200 <= r.status <= 299 }

  /** A client error other than 400, 408, 413 and 429. */
  predicate RefusedForGood(r: HttpResult) {
    !r.isError && 400 <= r.status <= 499 && r.status !in {400, 408, 413, 429}
  }

  /** An I/O error, or a status that is neither a success nor a client error other than 400, 408 and 429;
      never a status of 413. */
  predicate WorthASecondTry(r: HttpResult) {
    r.status != 413 && (r.isError || r.status < 200 || 299 < r.status < 400 || 499 < r.status || r.status in {400, 408, 429})
  }

  // ----- One worker

  /** The first result of a batch starts the retry timer, keeping the batch, exactly when it is worth it. */
  lemma FirstResultRetries<B>(w: Worker<B>, r: HttpResult)
    requires w.state == FirstChance
    ensures Attempted(w, r) == Worker(SecondChance, w.batch, RetryTimer) <==> WorthASecondTry(r)
    ensures !WorthASecondTry(r) ==> Attempted(w, r).batch == None && Attempted(w, r).pending == NoRequest
  {
  }

  /** The second result always ends the batch. */
  lemma SecondResultEnds<B>(w: Worker<B>, r: HttpResult)
    requires w.state == SecondChance
    ensures Attempted(w, r).batch == None && Attempted(w, r).pending == NoRequest
    ensures Attempted(w, r).state == if RefusedForGood(r) then PermanentlyFailed else Idle
  {
  }

  /** The owner hears of the server's time when the batch was accepted with one, and of a refusal for good. */
  lemma NoticesAre(state: WorkerState, r: HttpResult, time: int, status: nat)
    requires state == FirstChance || state == SecondChance
    ensures NoticeOf(state, r) == Some(ServerTime(time)) <==> Accepted(r) && r.serverTime == Some(time)
    ensures NoticeOf(state, r) == Some(PermanentFailure(status)) <==> RefusedForGood(r) && r.status == status
  {
  }

  // ----- Every payload of a run

  /** What the results so far say of a payload. */
  ghost predicate Explained(results: seq<HttpResult>, attempts: nat, fate: Option<Fate>) {
    && |results| <= attempts <= 2
    && (attempts == 2 ==> results != [] && WorthASecondTry(results[0]))
    && if results == [] then fate == None
       else
         var last := results[|results| - 1];
         && (fate == Some(Delivered) <==> Accepted(last))
         && (fate == Some(FailedPermanently) <==> RefusedForGood(last))
         && (fate == None <==> |results| == 1 && WorthASecondTry(last))
  }

  ghost predicate AnyRefused(results: seq<seq<HttpResult>>) {
    exists id, n :: 0 <= id < |results| && 0 <= n < |results[id]| && RefusedForGood(results[id][n])
  }

  ghost predicate WorkerExplained<K, I, O>(w: Worker<Batch<K, O>>, b: Books<K, I, O>) {
    w.batch.Some? ==>
      && w.batch.value.payloadId < |b.results|
      && var results := b.results[w.batch.value.payloadId];
      if w.state == FirstChance then results == [] else |results| == 1 && WorthASecondTry(results[0])
  }

  ghost predicate AllExplained<K, I, O>(b: Books<K, I, O>) {
    && |b.results| == |b.fates| == |b.attempts|
    && forall id :: 0 <= id < |b.results| ==> Explained(b.results[id], b.attempts[id], b.fates[id])
  }

  /** The results explain every fate and every second attempt, and the pipeline has failed exactly when some
      result was a refusal for good. */
  ghost predicate ResultsKept<K, I, O>(s: State<K, I, O>, b: Books<K, I, O>) {
    && AllExplained(b)
    && (forall k :: 0 <= k < |s.workers| ==> WorkerExplained(s.workers[k], b))
    && (s.failed <==> AnyRefused(b.results))
  }

  lemma RefusalNoted(results: seq<seq<HttpResult>>, id: nat, r: HttpResult)
    requires id < |results|
    ensures AnyRefused(Noted(results, id, r)) <==> AnyRefused(results) || RefusedForGood(r)
  {
    hide RefusedForGood;
    var after := Noted(results, id, r);
    if AnyRefused(results) {
      var k, n :| 0 <= k < |results| && 0 <= n < |results[k]| && RefusedForGood(results[k][n]);
      assert after[k][n] == results[k][n];
    }
    if RefusedForGood(r) { assert after[id][|results[id]|] == r; }
  }

  lemma FlushResults<K, I, O>(s: State<K, I, O>, b: Books<K, I, O>, capacity: nat)
    requires WorkersKept(s, b) && ResultsKept(s, b) && MakesBatch(s)
    ensures ResultsKept(Next(s, Flush, capacity), Entered(s, b, Flush, capacity))
  {
    hide RefusedForGood, WorthASecondTry, Accepted;
    var s', b' := Next(s, Flush, capacity), Entered(s, b, Flush, capacity);
    forall k | 0 <= k < |s'.workers| ensures WorkerExplained(s'.workers[k], b') {
      assert WorkerExplained(s.workers[k], b);
    }
    if AnyRefused(b.results) {
      var k, n :| 0 <= k < |b.results| && 0 <= n < |b.results[k]| && RefusedForGood(b.results[k][n]);
      assert b'.results[k][n] == b.results[k][n];
    }
  }

  lemma OneMoreResult(state: WorkerState, results: seq<HttpResult>, attempts: nat, r: HttpResult)
    requires
      || (state == FirstChance && results == [] && attempts == 1)
      || (state == SecondChance && |results| == 1 && WorthASecondTry(results[0]) && attempts == 2)
    ensures Explained(results + [r], attempts, FateOf(NextState(state, r).1))
  {
  }

  lemma ResultExplains<K, I, O>(s: State<K, I, O>, b: Books<K, I, O>, i: nat, r: HttpResult, capacity: nat)
    requires WorkersKept(s, b) && ResultsKept(s, b) && Awaits(s, i, InFlight)
    ensures AllExplained(Entered(s, b, Result(i, r), capacity))
  {
    var w := s.workers[i];
    assert WorkerKept(w, b) && WorkerExplained(w, b);
    var id := w.batch.value.payloadId;
    OneMoreResult(w.state, b.results[id], b.attempts[id], r);
    hide Explained, NextState, WorthASecondTry, RefusedForGood, Accepted, FateOf, WorkerKept, HoldersDiffer, AllAccounted;
  }

  lemma RetriedIsExplained<K, I, O>(s: State<K, I, O>, b: Books<K, I, O>, i: nat, r: HttpResult, capacity: nat)
    requires WorkersKept(s, b) && ResultsKept(s, b) && Awaits(s, i, InFlight)
    ensures WorkerExplained(Next(s, Result(i, r), capacity).workers[i], Entered(s, b, Result(i, r), capacity))
  {
    assert WorkerKept(s.workers[i], b) && WorkerExplained(s.workers[i], b);
  }

  lemma ResultResults<K, I, O>(s: State<K, I, O>, b: Books<K, I, O>, i: nat, r: HttpResult, capacity: nat)
    requires WorkersKept(s, b) && ResultsKept(s, b) && Awaits(s, i, InFlight)
    ensures ResultsKept(Next(s, Result(i, r), capacity), Entered(s, b, Result(i, r), capacity))
  {
    var s', b' := Next(s, Result(i, r), capacity), Entered(s, b, Result(i, r), capacity);
    ResultExplains(s, b, i, r, capacity);
    RetriedIsExplained(s, b, i, r, capacity);
    assert WorkerKept(s.workers[i], b) && WorkerExplained(s.workers[i], b);
    var id := s.workers[i].batch.value.payloadId;
    RefusalNoted(b.results, id, r);
    forall k | 0 <= k < |s'.workers| ensures WorkerExplained(s'.workers[k], b') {
      assert WorkerExplained(s.workers[k], b) && WorkerKept(s.workers[k], b);
      if k != i && s.workers[k].batch.Some? {
        assert Holds(s.workers[i], id) && !Holds(s.workers[k], id);
      }
    }
  }

  lemma TimerResults<K, I, O>(s: State<K, I, O>, b: Books<K, I, O>, i: nat, cancelled: bool, capacity: nat)
    requires WorkersKept(s, b) && ResultsKept(s, b) && Awaits(s, i, RetryTimer)
    ensures ResultsKept(Next(s, Timer(i, cancelled), capacity), Entered(s, b, Timer(i, cancelled), capacity))
  {
    hide RefusedForGood, WorthASecondTry, Accepted;
    var s', b' := Next(s, Timer(i, cancelled), capacity), Entered(s, b, Timer(i, cancelled), capacity);
    assert WorkerKept(s.workers[i], b) && WorkerExplained(s.workers[i], b);
    forall k | 0 <= k < |s'.workers| ensures WorkerExplained(s'.workers[k], b') {
      assert WorkerExplained(s.workers[k], b);
    }
  }

  lemma ResultsStep<K, I, O>(s: State<K, I, O>, b: Books<K, I, O>, step: Step<K, I, O>, capacity: nat)
    requires WorkersKept(s, b) && ResultsKept(s, b)
    ensures ResultsKept(Next(s, step, capacity), Entered(s, b, step, capacity))
  {
    hide RefusedForGood, WorthASecondTry, Accepted, WorkersKept;
    var s', b' := Next(s, step, capacity), Entered(s, b, step, capacity);
    if step.Flush? && MakesBatch(s) {
      FlushResults(s, b, capacity);
    } else if step.Result? && Awaits(s, step.i, InFlight) {
      ResultResults(s, b, step.i, step.r, capacity);
    } else if step.Timer? && Awaits(s, step.j, RetryTimer) {
      TimerResults(s, b, step.j, step.cancelled, capacity);
    } else {
      assert s'.workers == s.workers && s'.failed == s.failed;
      assert b'.results == b.results && b'.fates == b.fates && b'.attempts == b.attempts;
      forall k | 0 <= k < |s'.workers| ensures WorkerExplained(s'.workers[k], b') {
        assert WorkerExplained(s.workers[k], b);
      }
    }
  }

  lemma StartExplained<K, I, O>(workers: nat)
    ensures ResultsKept(Started<K, I, O>(workers), Books([], [], [], [], [], [], [], [], [], []))
  {
    IdleWorkersAre<Batch<K, O>>(workers);
  }

  /** Under every interleaving: no batch is sent a second time unless its first result was worth it; it is
      delivered exactly when its last result was an acceptance; and the pipeline has failed exactly when some
      result was a refusal for good. */
  lemma {:induction false} EveryRunExplained<K, I, O>(steps: seq<Step<K, I, O>>, workers: nat, capacity: nat)
    ensures
      var (s, b) := Run(steps, workers, capacity);
      ResultsKept(s, b)
  {
    if steps == [] {
      StartExplained<K, I, O>(workers);
    } else {
      var init, step := steps[..|steps| - 1], steps[|steps| - 1];
      EveryRunExplained(init, workers, capacity);
      EveryRunConserves(init, workers, capacity);
      var (s, b) := Run(init, workers, capacity);
      hide Next, Entered, InboxKept, OutboxKept, SummariesKept, WorkersKept, ResultsKept;
      ResultsStep(s, b, step, capacity);
    }
  }
}
