/** The event pipeline as a step system: inbox, outbox, summary, batches and workers.
    The steps are those of libs/internal/src/events/asio_event_processor.cpp, outbox.cpp and
    request_worker.cpp. I, O and K are the types of input events, output events and strings. */
module EventPipelines {
  import opened Wrappers
  import opened Summaries
  import opened RequestWorkers

  /** One payload: output events in order, and a summary (empty when there is none to send). */
  datatype Batch<K, O> = Batch(payloadId: nat, events: seq<O>, summary: Summary<K>)

  datatype State<K, I, O> = State(
    posted: seq<I>,          // accepted, handler not yet run
    inboxSize: nat,
    failed: bool,            // a delivery failed permanently
    outbox: seq<O>,
    summary: Summary<K>,
    workers: seq<Worker<Batch<K, O>>>,
    nextPayloadId: nat)

  /** A step. `Handle` runs the oldest posted handler; `outs` are the output events it makes of the input,
      and `feature` is the event it counts. */
  datatype Step<K, I, O> =
    | Send(input: I)
    | Handle(outs: seq<O>, feature: Option<Feature<K>>)
    | Flush
    | Result(i: nat, r: HttpResult)
    | Timer(j: nat, cancelled: bool)

  // ----- The steps

  function Sent<K, I, O>(s: State<K, I, O>, input: I, capacity: nat): State<K, I, O> {
    if s.failed || s.inboxSize >= capacity then s
    else s.(inboxSize := s.inboxSize + 1, posted := s.posted + [input])
  }

  /** As many of the events as there is room for; the rest overflow. */
  function Room<O>(outbox: seq<O>, outs: seq<O>, capacity: nat): (n: nat)
    ensures n <= |outs|
  {
    if |outbox| + |outs| <= capacity then |outs| else if |outbox| < capacity then capacity - |outbox| else 0
  }

  function WithFeature<K>(summary: Summary<K>, feature: Option<Feature<K>>): Summary<K> {
    if feature.Some? then Updated(summary, feature.value) else summary
  }

  function Handled<K, I, O>(s: State<K, I, O>, outs: seq<O>, feature: Option<Feature<K>>, capacity: nat): State<K, I, O> {
    if s.posted == [] then s
    else
      s.(posted := s.posted[1..],
         inboxSize := if s.inboxSize > 0 then s.inboxSize - 1 else 0,
         outbox := s.outbox + outs[..Room(s.outbox, outs, capacity)],
         summary := WithFeature(s.summary, feature))
  }

  /** The first idle worker, or the number of workers when none is. */
  function FirstIdle<B>(workers: seq<Worker<B>>): (i: nat)
    ensures i <= |workers| && (i < |workers| ==> workers[i].state == Idle)
  {
    if workers == [] || workers[0].state == Idle then 0 else 1 + FirstIdle(workers[1..])
  }

  /** Whether a flush makes a batch: there is an idle worker and something to send. */
  predicate MakesBatch<K, I, O>(s: State<K, I, O>) {
    FirstIdle(s.workers) < |s.workers| && (s.outbox != [] || s.summary.Keys != {})
  }

  function NewBatch<K, I, O>(s: State<K, I, O>): Batch<K, O> { Batch(s.nextPayloadId, s.outbox, s.summary) }

  function Flushed<K, I, O>(s: State<K, I, O>): State<K, I, O> {
    if !MakesBatch(s) then s
    else
      s.(outbox := [], summary := map[], nextPayloadId := s.nextPayloadId + 1,
         workers := s.workers[FirstIdle(s.workers) := Delivering(NewBatch(s))])
  }

  predicate Awaits<K, I, O>(s: State<K, I, O>, i: nat, pending: Pending) {
    i < |s.workers| && s.workers[i].pending == pending
  }

  function Resulted<K, I, O>(s: State<K, I, O>, i: nat, r: HttpResult): State<K, I, O> {
    if !Awaits(s, i, InFlight) then s
    else
      s.(workers := s.workers[i := Attempted(s.workers[i], r)],
         failed := s.failed || NextState(s.workers[i].state, r).1 == NotifyPermanentFailure)
  }

  function Timed<K, I, O>(s: State<K, I, O>, i: nat, cancelled: bool): State<K, I, O> {
    if !Awaits(s, i, RetryTimer) then s else s.(workers := s.workers[i := TimerFired(s.workers[i], cancelled)])
  }

  // ----- What a step does

  /** A send is posted exactly when delivery has not failed for good and the inbox has room. */
  lemma SendPosts<K, I, O>(s: State<K, I, O>, input: I, capacity: nat)
    ensures !s.failed && s.inboxSize < capacity ==> Sent(s, input, capacity).posted == s.posted + [input]
    ensures s.failed || s.inboxSize >= capacity ==> Sent(s, input, capacity) == s
  {
  }

  /** A handler's events go to the end of the outbox in order; none is discarded while there is room. */
  lemma HandleKeepsWhatFits<K, I, O>(s: State<K, I, O>, outs: seq<O>, feature: Option<Feature<K>>, capacity: nat)
    requires s.posted != [] && |s.outbox| <= capacity
    ensures
      var after := Handled(s, outs, feature, capacity).outbox;
      && s.outbox <= after <= s.outbox + outs && |after| <= capacity
      && (|after| < capacity ==> after == s.outbox + outs)
  {
  }

  ghost predicate AnyIdle<B>(workers: seq<Worker<B>>) { exists i :: 0 <= i < |workers| && workers[i].state == Idle }

  lemma {:induction false} FirstIdleIsFirst<B>(workers: seq<Worker<B>>)
    ensures FirstIdle(workers) < |workers| <==> AnyIdle(workers)
    ensures forall k :: 0 <= k < FirstIdle(workers) ==> workers[k].state != Idle
  {
    if workers != [] && workers[0].state != Idle {
      FirstIdleIsFirst(workers[1..]);
      if AnyIdle(workers) {
        var i :| 0 <= i < |workers| && workers[i].state == Idle;
        assert workers[1..][i - 1].state == Idle;
      }
    }
  }

  /** With an idle worker and something to send, a flush gives the first idle worker everything and leaves
      nothing behind; otherwise it does nothing. */
  lemma FlushSendsEverything<K, I, O>(s: State<K, I, O>)
    ensures AnyIdle(s.workers) && (s.outbox != [] || s.summary != map[]) ==>
      exists i :: 0 <= i < |s.workers| && s.workers[i].state == Idle && (forall k :: 0 <= k < i ==> s.workers[k].state != Idle)
        && Flushed(s) == s.(outbox := [], summary := map[], nextPayloadId := s.nextPayloadId + 1,
             workers := s.workers[i := Worker(FirstChance, Some(Batch(s.nextPayloadId, s.outbox, s.summary)), InFlight)])
    ensures !AnyIdle(s.workers) || (s.outbox == [] && s.summary == map[]) ==> Flushed(s) == s
  {
    FirstIdleIsFirst(s.workers);
    assert s.summary.Keys == {} <==> s.summary == map[];
  }

  // ----- What has happened so far

  datatype Made<O> = Made(event: O, kept: bool)

  datatype Fate = Delivered | Dropped | FailedPermanently

  /** The books of a run. Position b of `batches`, `fates`, `attempts`, `results` and `groups` is about payload b. */
  datatype Books<K, I, O> = Books(
    accepted: seq<I>, handled: seq<I>,
    made: seq<Made<O>>,                  // every output event, and whether the outbox had room for it
    batches: seq<Batch<K, O>>, fates: seq<Option<Fate>>, attempts: seq<nat>,
    results: seq<seq<HttpResult>>,       // the results of the attempts to deliver each payload
    groups: seq<seq<Feature<K>>>,        // the feature events summarized in each batch
    counting: seq<Feature<K>>,           // the feature events since the last batch
    features: seq<Feature<K>>)           // all feature events handled

  function FateOf(action: Action): Option<Fate> {
    match action
    case ParseDateAndReset => Some(Delivered)
    case ResetBatch => Some(Dropped)
    case NotifyPermanentFailure => Some(FailedPermanently)
    case _ => None
  }

  function MadeFrom<O>(outs: seq<O>, room: nat): seq<Made<O>> {
    if outs == [] then []
    else [Made(outs[0], room > 0)] + MadeFrom(outs[1..], if room > 0 then room - 1 else 0)
  }

  function Kept<O>(made: seq<Made<O>>): seq<O> {
    if made == [] then [] else if made[0].kept then [made[0].event] + Kept(made[1..]) else Kept(made[1..])
  }

  function Noted(results: seq<seq<HttpResult>>, id: nat, r: HttpResult): seq<seq<HttpResult>> {
    if id < |results| then results[id := results[id] + [r]] else results
  }

  function Entered<K, I, O>(s: State<K, I, O>, b: Books<K, I, O>, step: Step<K, I, O>, capacity: nat): Books<K, I, O> {
    match step
    case Send(input) =>
      if s.failed || s.inboxSize >= capacity then b else b.(accepted := b.accepted + [input])
    case Handle(outs, feature) =>
      if s.posted == [] then b
      else
        var counted := if feature.Some? then [feature.value] else [];
        b.(handled := b.handled + [s.posted[0]],
           made := b.made + MadeFrom(outs, Room(s.outbox, outs, capacity)),
           counting := b.counting + counted, features := b.features + counted)
    case Flush =>
      if !MakesBatch(s) then b
      else
        b.(batches := b.batches + [NewBatch(s)], fates := b.fates + [None], attempts := b.attempts + [1],
           results := b.results + [[]], groups := b.groups + [b.counting], counting := [])
    case Result(i, r) =>
      if !Awaits(s, i, InFlight) || s.workers[i].batch == None || s.workers[i].batch.value.payloadId >= |b.fates| then b
      else
        var id, fate := s.workers[i].batch.value.payloadId, FateOf(NextState(s.workers[i].state, r).1);
        b.(fates := if fate == None then b.fates else b.fates[id := fate], results := Noted(b.results, id, r))
    case Timer(i, cancelled) =>
      if !Awaits(s, i, RetryTimer) || cancelled || s.workers[i].batch == None
         || s.workers[i].batch.value.payloadId >= |b.attempts| then b
      else
        var id := s.workers[i].batch.value.payloadId;
        b.(attempts := b.attempts[id := b.attempts[id] + 1])
  }

  function Next<K, I, O>(s: State<K, I, O>, step: Step<K, I, O>, capacity: nat): State<K, I, O> {
    match step
    case Send(input) => Sent(s, input, capacity)
    case Handle(outs, feature) => Handled(s, outs, feature, capacity)
    case Flush => Flushed(s)
    case Result(i, r) => Resulted(s, i, r)
    case Timer(i, cancelled) => Timed(s, i, cancelled)
  }

  function IdleWorkers<B>(n: nat): seq<Worker<B>> {
    if n == 0 then [] else IdleWorkers(n - 1) + [Worker(Idle, None, NoRequest)]
  }

  function Started<K, I, O>(workers: nat): State<K, I, O> {
    State([], 0, false, [], map[], IdleWorkers(workers), 0)
  }

  function Run<K, I, O>(steps: seq<Step<K, I, O>>, workers: nat, capacity: nat): (State<K, I, O>, Books<K, I, O>) {
    if steps == [] then (Started(workers), Books([], [], [], [], [], [], [], [], [], []))
    else
      var (s, b) := Run(steps[..|steps| - 1], workers, capacity);
      var step := steps[|steps| - 1];
      (Next(s, step, capacity), Entered(s, b, step, capacity))
  }

  // ----- Inbox

  /** The counter is the number of accepted sends whose handler has not run, which are the latest ones. */
  ghost predicate InboxKept<K, I, O>(s: State<K, I, O>, b: Books<K, I, O>, capacity: nat) {
    s.inboxSize == |s.posted| <= capacity && b.accepted == b.handled + s.posted
  }

  lemma InboxStep<K, I, O>(s: State<K, I, O>, b: Books<K, I, O>, step: Step<K, I, O>, capacity: nat)
    requires InboxKept(s, b, capacity)
    ensures InboxKept(Next(s, step, capacity), Entered(s, b, step, capacity), capacity)
  {
    if step.Handle? && s.posted != [] {
      assert b.handled + s.posted == b.handled + [s.posted[0]] + s.posted[1..];
    }
  }

  // ----- Outbox

  function Flatten<K, O>(batches: seq<Batch<K, O>>): seq<O> {
    if batches == [] then [] else Flatten(batches[..|batches| - 1]) + batches[|batches| - 1].events
  }

  /** The events there was room for are, in order, those of the batches and then those of the outbox. */
  ghost predicate OutboxKept<K, I, O>(s: State<K, I, O>, b: Books<K, I, O>, capacity: nat) {
    |s.outbox| <= capacity && Kept(b.made) == Flatten(b.batches) + s.outbox
  }

  lemma {:induction false} KeptAppend<O>(a: seq<Made<O>>, b: seq<Made<O>>)
    ensures Kept(a + b) == Kept(a) + Kept(b)
  {
    if a == [] {
      assert a + b == b;
    } else {
      assert (a + b)[1..] == a[1..] + b;
      KeptAppend(a[1..], b);
      assert [a[0].event] + (Kept(a[1..]) + Kept(b)) == [a[0].event] + Kept(a[1..]) + Kept(b);
    }
  }

  lemma {:induction false} KeptMade<O>(outs: seq<O>, room: nat)
    requires room <= |outs|
    ensures Kept(MadeFrom(outs, room)) == outs[..room]
  {
    if outs != [] {
      var rest := if room > 0 then room - 1 else 0;
      KeptMade(outs[1..], rest);
      assert MadeFrom(outs, room)[1..] == MadeFrom(outs[1..], rest);
    }
  }

  lemma HandleOutbox<K, I, O>(s: State<K, I, O>, b: Books<K, I, O>, outs: seq<O>, feature: Option<Feature<K>>, capacity: nat)
    requires OutboxKept(s, b, capacity) && s.posted != []
    ensures OutboxKept(Next(s, Handle(outs, feature), capacity), Entered(s, b, Handle(outs, feature), capacity), capacity)
  {
    var room := Room(s.outbox, outs, capacity);
    KeptAppend(b.made, MadeFrom(outs, room));
    KeptMade(outs, room);
    hide Kept, MadeFrom, Flatten;
    assert Flatten(b.batches) + (s.outbox + outs[..room]) == Flatten(b.batches) + s.outbox + outs[..room];
  }

  lemma FlushOutbox<K, I, O>(s: State<K, I, O>, b: Books<K, I, O>, capacity: nat)
    requires OutboxKept(s, b, capacity) && MakesBatch(s)
    ensures OutboxKept(Next(s, Flush, capacity), Entered(s, b, Flush, capacity), capacity)
  {
    hide Kept;
    var batches := b.batches + [NewBatch(s)];
    assert batches[..|batches| - 1] == b.batches;
    assert Flatten(batches) + [] == Flatten(batches);
  }

  lemma OutboxStep<K, I, O>(s: State<K, I, O>, b: Books<K, I, O>, step: Step<K, I, O>, capacity: nat)
    requires OutboxKept(s, b, capacity)
    ensures OutboxKept(Next(s, step, capacity), Entered(s, b, step, capacity), capacity)
  {
    if step.Handle? && s.posted != [] {
      HandleOutbox(s, b, step.outs, step.feature, capacity);
    } else if step.Flush? && MakesBatch(s) {
      FlushOutbox(s, b, capacity);
    } else {
      hide Kept, Flatten;
    }
  }

  // ----- Summaries

  function FlattenGroups<T>(groups: seq<seq<T>>): seq<T> {
    if groups == [] then [] else FlattenGroups(groups[..|groups| - 1]) + groups[|groups| - 1]
  }

  /** Every feature event handled is in the summary of exactly one batch or in the pending summary. */
  ghost predicate SummariesKept<K, I, O>(s: State<K, I, O>, b: Books<K, I, O>) {
    && |b.groups| == |b.batches|
    && (forall i :: 0 <= i < |b.batches| ==> b.batches[i].summary == SummaryOf(b.groups[i]))
    && s.summary == SummaryOf(b.counting)
    && b.features == FlattenGroups(b.groups) + b.counting
  }

  lemma HandleSummaries<K, I, O>(s: State<K, I, O>, b: Books<K, I, O>, outs: seq<O>, feature: Option<Feature<K>>, capacity: nat)
    requires SummariesKept(s, b) && s.posted != []
    ensures SummariesKept(Next(s, Handle(outs, feature), capacity), Entered(s, b, Handle(outs, feature), capacity))
  {
    hide Updated, FlattenGroups, MadeFrom, Room;
    var counted := if feature.Some? then [feature.value] else [];
    assert b.features + counted == FlattenGroups(b.groups) + (b.counting + counted);
    if feature.Some? {
      assert (b.counting + counted)[..|b.counting|] == b.counting;
    } else {
      assert b.counting + counted == b.counting;
    }
  }

  lemma FlushSummaries<K, I, O>(s: State<K, I, O>, b: Books<K, I, O>, capacity: nat)
    requires SummariesKept(s, b) && MakesBatch(s)
    ensures SummariesKept(Next(s, Flush, capacity), Entered(s, b, Flush, capacity))
  {
    hide Updated;
    var groups := b.groups + [b.counting];
    assert groups[..|groups| - 1] == b.groups;
    assert FlattenGroups(groups) + [] == FlattenGroups(groups);
  }

  lemma SummariesStep<K, I, O>(s: State<K, I, O>, b: Books<K, I, O>, step: Step<K, I, O>, capacity: nat)
    requires SummariesKept(s, b)
    ensures SummariesKept(Next(s, step, capacity), Entered(s, b, step, capacity))
  {
    hide SummaryOf, FlattenGroups, Updated;
    if step.Handle? && s.posted != [] {
      HandleSummaries(s, b, step.outs, step.feature, capacity);
    } else if step.Flush? && MakesBatch(s) {
      FlushSummaries(s, b, capacity);
    }
  }

  // ----- Batches and workers

  ghost predicate Holds<K, O>(w: Worker<Batch<K, O>>, id: nat) { w.batch.Some? && w.batch.value.payloadId == id }

  /** A worker with a batch holds an unfinished payload, attempted once or, on the second chance, twice. */
  ghost predicate WorkerKept<K, I, O>(w: Worker<Batch<K, O>>, b: Books<K, I, O>) {
    if w.state == Idle || w.state == PermanentlyFailed then w.batch == None && w.pending == NoRequest
    else
      && w.batch.Some?
      && var id := w.batch.value.payloadId;
      && id < |b.batches| == |b.fates| == |b.attempts|
      && b.batches[id] == w.batch.value && b.fates[id] == None
      && (w.state == FirstChance ==> w.pending == InFlight)
      && b.attempts[id] == if w.state == SecondChance && w.pending == InFlight then 2 else 1
  }

  /** No two workers hold the same payload. */
  ghost predicate HoldersDiffer<K, O>(workers: seq<Worker<Batch<K, O>>>) {
    forall i, j, id: nat :: 0 <= i < j < |workers| && Holds(workers[i], id) ==> !Holds(workers[j], id)
  }

  /** Every payload is finished or held by a worker. */
  ghost predicate AllAccounted<K, I, O>(workers: seq<Worker<Batch<K, O>>>, b: Books<K, I, O>) {
    forall id: nat :: id < |b.fates| && b.fates[id] == None ==> exists i :: 0 <= i < |workers| && Holds(workers[i], id)
  }

  ghost predicate Numbered<K, I, O>(s: State<K, I, O>, b: Books<K, I, O>) {
    && |b.batches| == |b.fates| == |b.attempts| == s.nextPayloadId
    && forall id :: 0 <= id < |b.batches| ==> b.batches[id].payloadId == id && 1 <= b.attempts[id] <= 2
  }

  ghost predicate WorkersKept<K, I, O>(s: State<K, I, O>, b: Books<K, I, O>) {
    && Numbered(s, b)
    && (forall i :: 0 <= i < |s.workers| ==> WorkerKept(s.workers[i], b))
    && HoldersDiffer(s.workers)
    && AllAccounted(s.workers, b)
  }

  lemma HolderReplaced<K, O>(workers: seq<Worker<Batch<K, O>>>, i: nat, w: Worker<Batch<K, O>>)
    requires i < |workers| && HoldersDiffer(workers)
    requires forall id: nat :: Holds(w, id) ==> Holds(workers[i], id) || forall j :: 0 <= j < |workers| ==> !Holds(workers[j], id)
    ensures HoldersDiffer(workers[i := w])
  {
  }

  lemma FlushWorkers<K, I, O>(s: State<K, I, O>, b: Books<K, I, O>, capacity: nat)
    requires WorkersKept(s, b) && MakesBatch(s)
    ensures WorkersKept(Next(s, Flush, capacity), Entered(s, b, Flush, capacity))
  {
    var i, batch := FirstIdle(s.workers), NewBatch(s);
    var s', b' := Next(s, Flush, capacity), Entered(s, b, Flush, capacity);
    HolderReplaced(s.workers, i, Delivering(batch));
    forall k | 0 <= k < |s'.workers| ensures WorkerKept(s'.workers[k], b') {
      assert WorkerKept(s.workers[k], b);
    }
    forall id: nat | id < |b'.fates| && b'.fates[id] == None
      ensures exists k :: 0 <= k < |s'.workers| && Holds(s'.workers[k], id)
    {
      if id == |b.fates| {
        assert Holds(s'.workers[i], id);
      } else {
        var k :| 0 <= k < |s.workers| && Holds(s.workers[k], id);
        assert WorkerKept(s.workers[k], b) && WorkerKept(s.workers[i], b);
        assert Holds(s'.workers[k], id);
      }
    }
  }

  lemma ResultWorkers<K, I, O>(s: State<K, I, O>, b: Books<K, I, O>, i: nat, r: HttpResult, capacity: nat)
    requires WorkersKept(s, b) && Awaits(s, i, InFlight)
    ensures WorkersKept(Next(s, Result(i, r), capacity), Entered(s, b, Result(i, r), capacity))
  {
    var s', b' := Next(s, Result(i, r), capacity), Entered(s, b, Result(i, r), capacity);
    var w, w' := s.workers[i], s'.workers[i];
    assert WorkerKept(w, b);
    HolderReplaced(s.workers, i, w');
    forall k | 0 <= k < |s'.workers| ensures WorkerKept(s'.workers[k], b') {
      assert WorkerKept(s.workers[k], b);
      if k != i && s.workers[k].batch.Some? { assert !(Holds(s.workers[k], w.batch.value.payloadId)); }
    }
    forall id: nat | id < |b'.fates| && b'.fates[id] == None
      ensures exists k :: 0 <= k < |s'.workers| && Holds(s'.workers[k], id)
    {
      var k :| 0 <= k < |s.workers| && Holds(s.workers[k], id);
      assert Holds(s'.workers[k], id);
    }
  }

  lemma TimerWorkers<K, I, O>(s: State<K, I, O>, b: Books<K, I, O>, i: nat, cancelled: bool, capacity: nat)
    requires WorkersKept(s, b) && Awaits(s, i, RetryTimer)
    ensures WorkersKept(Next(s, Timer(i, cancelled), capacity), Entered(s, b, Timer(i, cancelled), capacity))
  {
    var s', b' := Next(s, Timer(i, cancelled), capacity), Entered(s, b, Timer(i, cancelled), capacity);
    var w, w' := s.workers[i], s'.workers[i];
    assert WorkerKept(w, b);
    HolderReplaced(s.workers, i, w');
    forall k | 0 <= k < |s'.workers| ensures WorkerKept(s'.workers[k], b') {
      assert WorkerKept(s.workers[k], b);
      if k != i && s.workers[k].batch.Some? { assert !(Holds(s.workers[k], w.batch.value.payloadId)); }
    }
    forall id: nat | id < |b'.fates| && b'.fates[id] == None
      ensures exists k :: 0 <= k < |s'.workers| && Holds(s'.workers[k], id)
    {
      var k :| 0 <= k < |s.workers| && Holds(s.workers[k], id);
      assert Holds(s'.workers[k], id);
    }
  }

  lemma WorkersStep<K, I, O>(s: State<K, I, O>, b: Books<K, I, O>, step: Step<K, I, O>, capacity: nat)
    requires WorkersKept(s, b)
    ensures WorkersKept(Next(s, step, capacity), Entered(s, b, step, capacity))
  {
    var s', b' := Next(s, step, capacity), Entered(s, b, step, capacity);
    if step.Flush? && MakesBatch(s) {
      FlushWorkers(s, b, capacity);
    } else if step.Result? && Awaits(s, step.i, InFlight) {
      ResultWorkers(s, b, step.i, step.r, capacity);
    } else if step.Timer? && Awaits(s, step.j, RetryTimer) {
      TimerWorkers(s, b, step.j, step.cancelled, capacity);
    } else {
      assert s'.workers == s.workers && s'.nextPayloadId == s.nextPayloadId;
      assert b'.batches == b.batches && b'.fates == b.fates && b'.attempts == b.attempts;
      forall k | 0 <= k < |s'.workers| ensures WorkerKept(s'.workers[k], b') {
        assert WorkerKept(s.workers[k], b);
      }
    }
  }

  /** The fate of a payload never changes. */
  lemma FatesAreFinal<K, I, O>(s: State<K, I, O>, b: Books<K, I, O>, step: Step<K, I, O>, id: nat, capacity: nat)
    requires WorkersKept(s, b) && id < |b.fates| && b.fates[id].Some?
    ensures id < |Entered(s, b, step, capacity).fates| && Entered(s, b, step, capacity).fates[id] == b.fates[id]
  {
    if step.Result? && Awaits(s, step.i, InFlight) {
      assert WorkerKept(s.workers[step.i], b);
    }
  }

  // ----- Every interleaving

  ghost predicate Conserved<K, I, O>(s: State<K, I, O>, b: Books<K, I, O>, capacity: nat) {
    InboxKept(s, b, capacity) && OutboxKept(s, b, capacity) && SummariesKept(s, b) && WorkersKept(s, b)
  }

  lemma {:induction false} IdleWorkersAre<B>(n: nat)
    ensures |IdleWorkers<B>(n)| == n
    ensures forall i :: 0 <= i < n ==> IdleWorkers<B>(n)[i] == Worker(Idle, None, NoRequest)
  {
    if n > 0 { IdleWorkersAre<B>(n - 1); }
  }

  lemma StartConserved<K, I, O>(workers: nat, capacity: nat)
    ensures Conserved(Started<K, I, O>(workers), Books([], [], [], [], [], [], [], [], [], []), capacity)
  {
    IdleWorkersAre<Batch<K, O>>(workers);
    var s: State<K, I, O> := Started(workers);
    assert forall i, id: nat :: 0 <= i < |s.workers| ==> !Holds(s.workers[i], id);
  }

  /** Under every interleaving of sends, handlers, flushes, results and timers, the books balance. */
  lemma {:induction false} EveryRunConserves<K, I, O>(steps: seq<Step<K, I, O>>, workers: nat, capacity: nat)
    ensures
      var (s, b) := Run(steps, workers, capacity);
      Conserved(s, b, capacity)
  {
    if steps == [] {
      StartConserved<K, I, O>(workers, capacity);
    } else {
      var init, step := steps[..|steps| - 1], steps[|steps| - 1];
      EveryRunConserves(init, workers, capacity);
      var (s, b) := Run(init, workers, capacity);
      hide Next, Entered, InboxKept, OutboxKept, SummariesKept, WorkersKept;
      InboxStep(s, b, step, capacity);
      OutboxStep(s, b, step, capacity);
      SummariesStep(s, b, step, capacity);
      WorkersStep(s, b, step, capacity);
    }
  }
}
