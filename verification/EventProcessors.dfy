/** The event processor object and its outbox, step by step.
    Models libs/internal/src/events/outbox.cpp and asio_event_processor.cpp. Contexts are opaque apart from
    their canonical key; K is the type of strings and X the rest of a context or event. */
module EventProcessors {
  import opened Wrappers
  import opened Recency
  import opened LruCaches
  import opened Summaries
  import opened RequestWorkers
  import opened EventPipelines

  class Outbox<O> {
    const capacity: nat
    var items: seq<O>

    constructor (capacity: nat)
      ensures items == [] && this.capacity == capacity
    {
      this.capacity := capacity;
      items := [];
    }

    method Push(item: O) returns (pushed: bool)
      modifies this
      ensures pushed <==> |old(items)| < capacity
      ensures items == if pushed then old(items) + [item] else old(items)
    {
      if |items| >= capacity { return false; }
      items := items + [item];
      return true;
    }

    /** Pushes until the first refusal; everything from there on is discarded. */
    method PushDiscardingOverflow(outs: seq<O>) returns (all: bool)
      requires |items| <= capacity
      modifies this
      ensures items == old(items) + outs[..Room(old(items), outs, capacity)]
      ensures all <==> Room(old(items), outs, capacity) == |outs|
    {
      for i := 0 to |outs|
        invariant i <= Room(old(items), outs, capacity)
        invariant items == old(items) + outs[..i]
      {
        var pushed := Push(outs[i]);
        if !pushed { return false; }
        assert outs[..i + 1] == outs[..i] + [outs[i]];
      }
      return true;
    }

    method Consume() returns (out: seq<O>)
      modifies this
      ensures out == old(items) && items == []
    {
      out := [];
      while items != []
        invariant out + items == old(items)
        decreases |items|
      {
        out := out + [items[0]];
        items := items[1..];
      }
    }
  }

  datatype Context<K, X> = Context(canonicalKey: K, body: X)

  /** A context after the filter, with or without redaction of anonymous contexts. */
  datatype Filtered<K, X> = Filtered(context: Context<K, X>, redactAnonymous: bool)

  datatype Input<K, X> =
    | FeatureInput(feature: Feature<K>, context: Context<K, X>, date: int, requireFullEvent: bool, debugUntil: Option<int>)
    | IdentifyInput(context: Context<K, X>, date: int)
    | TrackInput(key: K, context: Context<K, X>, date: int, data: X)

  datatype Output<K, X> =
    | IndexEvent(date: int, filtered: Filtered<K, X>)
    | DebugEvent(feature: Feature<K>, date: int, filtered: Filtered<K, X>)
    | FeatureEvent(feature: Feature<K>, date: int, filtered: Filtered<K, X>)
    | IdentifyEvent(date: int, filtered: Filtered<K, X>)
    | TrackEvent(key: K, date: int, filtered: Filtered<K, X>, data: X)

  /** What processing depends on besides the input: the kind of SDK, and the clock readings. */
  datatype Setting = Setting(server: bool, now: int, lastKnownPastTime: Option<int>) {
    /** The later of the local time and the server's, the epoch standing in for an unknown server time. */
    function ConservativeNow(): int {
      var past := if lastKnownPastTime.Some? then lastKnownPastTime.value else 0;
      if now < past then past else now
    }
  }

  /** The output events of an input; `known` says whether its context key was in the cache. */
  function Outputs<K, X>(x: Input<K, X>, setting: Setting, known: bool): seq<Output<K, X>> {
    var plain := Filtered(x.context, false);
    var index := if setting.server && !known then [IndexEvent(x.date, plain)] else [];
    match x
    case FeatureInput(feature, context, date, full, debugUntil) =>
      index
      + (if debugUntil.Some? && setting.ConservativeNow() < debugUntil.value then [DebugEvent(feature, date, plain)] else [])
      + (if full then [FeatureEvent(feature, date, Filtered(context, true))] else [])
    case IdentifyInput(_, date) => [IdentifyEvent(date, plain)]
    case TrackInput(key, context, date, data) =>
      index + [TrackEvent(key, date, Filtered(context, setting.server), data)]
  }

  function FeatureOf<K, X>(x: Input<K, X>): Option<Feature<K>> {
    if x.FeatureInput? then Some(x.feature) else None
  }

  class EventProcessor<K(==), X> {
    const capacity: nat
    const server: bool
    const outbox: Outbox<Output<K, X>>
    const workers: seq<RequestWorker<Batch<K, Output<K, X>>>>
    /** The server SDK's cache of context keys; the client SDK does not use one. */
    const cache: LruCache?<K>
    var summarizer: Summarizer<K>
    var posted: seq<Input<K, X>>
    var inboxSize: nat
    var failed: bool
    var nextPayloadId: nat
    var lastKnownPastTime: Option<int>
    var fullInboxEncountered: bool
    var fullOutboxEncountered: bool

    constructor (capacity: nat, flushWorkers: nat, server: bool, cacheCapacity: nat)
      requires server ==> cacheCapacity >= 1
      ensures Valid() && |workers| == flushWorkers
      ensures this.capacity == capacity && this.server == server
      ensures View() == Started(flushWorkers)
      ensures server ==> cache.capacity == cacheCapacity && cache.list == []
    {
      this.capacity, this.server := capacity, server;
      var pool: seq<RequestWorker<Batch<K, Output<K, X>>>> := [];
      for i := 0 to flushWorkers
        invariant |pool| == i
        invariant forall k :: 0 <= k < i ==> pool[k].View() == Worker(Idle, None, NoRequest)
        invariant forall k, l :: 0 <= k < l < i ==> pool[k] != pool[l]
      {
        var worker := new RequestWorker();
        pool := pool + [worker];
      }
      workers := pool;
      outbox := new Outbox(capacity);
      summarizer := new Summarizer();
      if server { cache := new LruCache(cacheCapacity); } else { cache := null; }
      posted, inboxSize, failed, nextPayloadId := [], 0, false, 0;
      lastKnownPastTime, fullInboxEncountered, fullOutboxEncountered := None, false, false;
      new;
      IdleView(flushWorkers);
    }

    ghost predicate Valid()
      reads this, outbox, cache, workers
    {
      && outbox.capacity == capacity && |outbox.items| <= capacity
      && (server ==> cache != null && cache.Valid())
      && (forall i, j :: 0 <= i < j < |workers| ==> workers[i] != workers[j])
    }

    ghost function WorkersView(n: nat): (view: seq<Worker<Batch<K, Output<K, X>>>>)
      requires n <= |workers|
      reads workers
      ensures |view| == n
    {
      if n == 0 then [] else WorkersView(n - 1) + [workers[n - 1].View()]
    }

    ghost function View(): State<K, Input<K, X>, Output<K, X>>
      reads this, outbox, summarizer, workers
    {
      State(posted, inboxSize, failed, outbox.items, summarizer.features, WorkersView(|workers|), nextPayloadId)
    }

    method InboxIncrement() returns (accepted: bool)
      modifies this`inboxSize, this`fullInboxEncountered
      ensures accepted <==> !failed && old(inboxSize) < capacity
      ensures inboxSize == old(inboxSize) + if accepted then 1 else 0
    {
      if failed { return false; }
      if inboxSize < capacity {
        inboxSize := inboxSize + 1;
        return true;
      }
      if !fullInboxEncountered { fullInboxEncountered := true; }
      return false;
    }

    method InboxDecrement()
      modifies this`inboxSize
      ensures inboxSize == if old(inboxSize) > 0 then old(inboxSize) - 1 else 0
    {
      if inboxSize > 0 { inboxSize := inboxSize - 1; }
    }

    method SendAsync(input: Input<K, X>)
      requires Valid()
      modifies this`inboxSize, this`fullInboxEncountered, this`posted
      ensures Valid() && View() == Sent(old(View()), input, capacity)
    {
      var accepted := InboxIncrement();
      if !accepted { return; }
      posted := posted + [input];
    }

    method Process(x: Input<K, X>, now: int) returns (out: seq<Output<K, X>>)
      requires Valid()
      modifies summarizer, cache
      ensures Valid()
      ensures
        var known := server && x.context.canonicalKey in Elements(old(if server then cache.list else []));
        out == Outputs(x, Setting(server, now, lastKnownPastTime), known)
      ensures server ==> cache.list == Noticed(old(cache.list), x.context.canonicalKey, cache.capacity)
      ensures summarizer.features == WithFeature(old(summarizer.features), FeatureOf(x))
    {
      out := [];
      match x {
        case FeatureInput(feature, context, date, full, debugUntil) =>
          summarizer.Update(feature);
          if server {
            var known := cache.Notice(context.canonicalKey);
            if !known { out := out + [IndexEvent(date, Filtered(context, false))]; }
          }
          var conservativeNow := Setting(server, now, lastKnownPastTime).ConservativeNow();
          if debugUntil.Some? && conservativeNow < debugUntil.value {
            out := out + [DebugEvent(feature, date, Filtered(context, false))];
          }
          if full {
            out := out + [FeatureEvent(feature, date, Filtered(context, true))];
          }
        case IdentifyInput(context, date) =>
          if server {
            var _ := cache.Notice(context.canonicalKey);
          }
          out := out + [IdentifyEvent(date, Filtered(context, false))];
        case TrackInput(key, context, date, data) =>
          if server {
            var known := cache.Notice(context.canonicalKey);
            if !known { out := out + [IndexEvent(date, Filtered(context, false))]; }
          }
          out := out + [TrackEvent(key, date, Filtered(context, server), data)];
      }
    }

    /** Runs the oldest posted handler. */
    method RunPosted(now: int)
      requires Valid() && posted != []
      modifies this, outbox, summarizer, cache
      ensures Valid()
      ensures
        var x := old(posted)[0];
        var known := server && x.context.canonicalKey in Elements(old(if server then cache.list else []));
        View() == Handled(old(View()), Outputs(x, Setting(server, now, old(lastKnownPastTime)), known), FeatureOf(x), capacity)
      ensures server ==> cache.list == Noticed(old(cache.list), old(posted)[0].context.canonicalKey, cache.capacity)
    {
      hide Outputs, Noticed, WithFeature, Room, Elements;
      var event := posted[0];
      posted := posted[1..];
      InboxDecrement();
      HandleSend(event, now);
    }

    method HandleSend(event: Input<K, X>, now: int)
      requires Valid()
      modifies this`fullOutboxEncountered, outbox, summarizer, cache
      ensures Valid()
      ensures
        var known := server && event.context.canonicalKey in Elements(old(if server then cache.list else []));
        var outs := Outputs(event, Setting(server, now, lastKnownPastTime), known);
        && outbox.items == old(outbox.items) + outs[..Room(old(outbox.items), outs, capacity)]
        && summarizer.features == WithFeature(old(summarizer.features), FeatureOf(event))
      ensures server ==> cache.list == Noticed(old(cache.list), event.context.canonicalKey, cache.capacity)
    {
      hide Outputs, Noticed;
      var outputEvents := Process(event, now);
      var inserted := outbox.PushDiscardingOverflow(outputEvents);
      fullOutboxEncountered := !inserted;
    }

    lemma IdleView(n: nat)
      requires n <= |workers| && forall k :: 0 <= k < n ==> workers[k].View() == Worker(Idle, None, NoRequest)
      ensures WorkersView(n) == IdleWorkers(n)
    {
      if n > 0 { IdleView(n - 1); }
    }

    lemma WorkersViewAt(n: nat)
      requires n <= |workers|
      ensures |WorkersView(n)| == n && forall k :: 0 <= k < n ==> WorkersView(n)[k] == workers[k].View()
    {
      if n > 0 { WorkersViewAt(n - 1); }
    }

    /** The batch to send, or none when there is nothing: the events are taken from the outbox. */
    method CreateBatch() returns (batch: Option<Batch<K, Output<K, X>>>)
      modifies outbox, this`nextPayloadId
      ensures outbox.items == []
      ensures old(outbox.items) == [] && summarizer.features.Keys == {} ==> batch == None && nextPayloadId == old(nextPayloadId)
      ensures old(outbox.items) != [] || summarizer.features.Keys != {} ==>
                && batch == Some(Batch(old(nextPayloadId), old(outbox.items), summarizer.features))
                && nextPayloadId == old(nextPayloadId) + 1
    {
      var events := outbox.Consume();
      var hasSummary := !summarizer.Empty();
      if !hasSummary && events == [] { return None; }
      batch := Some(Batch(nextPayloadId, events, summarizer.features));
      nextPayloadId := nextPayloadId + 1;
    }

    method FindWorker() returns (i: nat)
      ensures i == FirstIdle(WorkersView(|workers|)) <= |workers|
    {
      WorkersViewAt(|workers|);
      i := 0;
      while i < |workers| && !workers[i].Available()
        invariant 0 <= i <= |workers|
        invariant forall k :: 0 <= k < i ==> workers[k].state != Idle
      {
        i := i + 1;
      }
      FirstIdleIs(WorkersView(|workers|), i);
    }

    method Deliver(i: nat, batch: Batch<K, Output<K, X>>)
      requires Valid() && i < |workers|
      modifies workers
      ensures Valid()
      ensures |old(WorkersView(|workers|))| == |workers|
      ensures WorkersView(|workers|) == old(WorkersView(|workers|))[i := Delivering(batch)]
    {
      WorkersViewAt(|workers|);
      ghost var before := WorkersView(|workers|);
      workers[i].AsyncDeliver(batch);
      WorkersViewAt(|workers|);
      assert WorkersView(|workers|) == before[i := Delivering(batch)];
    }

    method FlushEvents()
      requires Valid()
      modifies this, outbox, workers
      ensures Valid() && View() == Flushed(old(View()))
    {
      hide FirstIdle, WorkersView, Distinct, Elements;
      var i := FindWorker();
      WorkersViewLength();
      if i == |workers| { return; }
      var batch := CreateBatch();
      if batch == None { return; }
      Deliver(i, batch.value);
      summarizer := new Summarizer();
    }

    lemma WorkersViewLength()
      ensures |WorkersView(|workers|)| == |workers|
    {
      WorkersViewAt(|workers|);
    }

    /** The result of the request a worker has in flight. */
    method OnRequestResult(i: nat, r: HttpResult)
      requires Valid() && i < |workers| && workers[i].pending == InFlight
      modifies this, workers
      ensures Valid() && View() == Resulted(old(View()), i, r)
      ensures lastKnownPastTime ==
                match NoticeOf(old(workers[i].state), r)
                case Some(ServerTime(time)) => Some(time)
                case _ => old(lastKnownPastTime)
    {
      hide Attempted;
      WorkersViewAt(|workers|);
      var notice := RunAttempt(i, r);
      if notice.Some? { OnEventDeliveryResult(notice.value); }
    }

    /** The worker's own part of a result, before the processor hears of it. */
    method RunAttempt(i: nat, r: HttpResult) returns (notice: Option<Notice>)
      requires Valid() && i < |workers|
      modifies workers
      ensures Valid() && notice == NoticeOf(old(workers[i].state), r)
      ensures WorkersView(|workers|) == old(WorkersView(|workers|))[i := Attempted(old(workers[i].View()), r)]
    {
      hide Attempted, NoticeOf;
      WorkersViewAt(|workers|);
      notice := workers[i].OnDeliveryAttempt(r);
      WorkersViewAt(|workers|);
    }

    method OnEventDeliveryResult(notice: Notice)
      modifies this`failed, this`lastKnownPastTime
      ensures failed == (old(failed) || notice.PermanentFailure?)
      ensures lastKnownPastTime == if notice.ServerTime? then Some(notice.time) else old(lastKnownPastTime)
    {
      match notice {
        case ServerTime(time) => lastKnownPastTime := Some(time);
        case PermanentFailure(_) => if !failed { failed := true; }
      }
    }

    method OnRetryTimer(i: nat, cancelled: bool)
      requires Valid() && i < |workers| && workers[i].pending == RetryTimer
      modifies workers
      ensures Valid() && View() == Timed(old(View()), i, cancelled)
    {
      WorkersViewAt(|workers|);
      ghost var before := WorkersView(|workers|);
      workers[i].OnRetryTimer(cancelled);
      WorkersViewAt(|workers|);
      assert WorkersView(|workers|) == before[i := TimerFired(before[i], cancelled)];
    }
  }

  lemma {:induction false} FirstIdleIs<B>(workers: seq<Worker<B>>, i: nat)
    requires i <= |workers| && (i < |workers| ==> workers[i].state == Idle)
    requires forall k :: 0 <= k < i ==> workers[k].state != Idle
    ensures FirstIdle(workers) == i
  {
    if i > 0 { FirstIdleIs(workers[1..], i - 1); }
  }

  // ----- Index events

  /** The context keys of inputs, oldest first. */
  function Keys<K, X>(inputs: seq<Input<K, X>>): seq<K> {
    if inputs == [] then [] else Keys(inputs[..|inputs| - 1]) + [inputs[|inputs| - 1].context.canonicalKey]
  }

  ghost predicate HasIndexEvent<K, X>(outs: seq<Output<K, X>>) {
    exists i :: 0 <= i < |outs| && outs[i].IndexEvent?
  }

  /** In the server SDK a feature or track event makes an index event exactly when its context was not
      among the most recently seen contexts, as many as the cache holds. */
  lemma IndexEventIffNotRecent<K(!new), X>(earlier: seq<Input<K, X>>, x: Input<K, X>, setting: Setting, capacity: nat)
    requires capacity >= 1 && setting.server && !x.IdentifyInput?
    ensures
      var key := x.context.canonicalKey;
      var known := key in Elements(AfterRun(Keys(earlier), capacity));
      HasIndexEvent(Outputs(x, setting, known)) <==> !AmongMostRecent(Keys(earlier), key, capacity)
  {
    var key := x.context.canonicalKey;
    HitsExactlyMostRecent(Keys(earlier), key, capacity);
    var known := key in Elements(AfterRun(Keys(earlier), capacity));
    hide AmongMostRecent, AfterRun;
    if !known { assert Outputs(x, setting, known)[0].IndexEvent?; }
  }

  // ----- Which events an input makes

  /** Index events come first, then debug events, then the event for the input itself. */
  function Rank<K, X>(o: Output<K, X>): nat { if o.IndexEvent? then 0 else if o.DebugEvent? then 1 else 2 }

  /** When an input makes an event. Only full feature events, and track events of the server SDK, are redacted
      for anonymous contexts; debug events end when either clock has passed their date. */
  ghost predicate Makes<K, X>(x: Input<K, X>, setting: Setting, known: bool, o: Output<K, X>) {
    match o
    case IndexEvent(date, filtered) =>
      !x.IdentifyInput? && setting.server && !known && date == x.date && filtered == Filtered(x.context, false)
    case DebugEvent(feature, date, filtered) =>
      && x.FeatureInput? && x.debugUntil.Some? && setting.now < x.debugUntil.value
      && (if setting.lastKnownPastTime.Some? then setting.lastKnownPastTime.value else 0) < x.debugUntil.value
      && feature == x.feature && date == x.date && filtered == Filtered(x.context, false)
    case FeatureEvent(feature, date, filtered) =>
      x.FeatureInput? && x.requireFullEvent && feature == x.feature && date == x.date && filtered == Filtered(x.context, true)
    case IdentifyEvent(date, filtered) => x.IdentifyInput? && date == x.date && filtered == Filtered(x.context, false)
    case TrackEvent(key, date, filtered, data) =>
      x.TrackInput? && key == x.key && data == x.data && date == x.date && filtered == Filtered(x.context, setting.server)
  }

  /** The events of an input are exactly those, each once and in order of rank. */
  lemma MakesExactly<K, X>(x: Input<K, X>, setting: Setting, known: bool, o: Output<K, X>)
    ensures o in Outputs(x, setting, known) <==> Makes(x, setting, known, o)
    ensures forall i, j :: 0 <= i < j < |Outputs(x, setting, known)| ==>
              Rank(Outputs(x, setting, known)[i]) < Rank(Outputs(x, setting, known)[j])
  {
  }
}
