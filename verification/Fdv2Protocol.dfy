/** The FDv2 protocol handler: which changesets a trace of events emits.
    Models libs/internal/src/fdv2_protocol_handler.cpp. Decoding an event's JSON data is taken as given:
    it fails, gives null, or gives a value. O is the type of the objects put. */
module Fdv2Protocol {
  import opened Wrappers

  datatype Parsed<+T> = Malformed | NullData | Ok(value: T)

  datatype IntentCode = TransferFull | TransferChanges | NoTransfer | UnknownCode

  datatype Selector = Selector(version: int, state: string)

  datatype Object<O> = Object(kind: string, key: string, version: nat, item: O)

  datatype Tombstone = Tombstone(kind: string, key: string, version: nat)

  datatype Change<O> = Put(put: Object<O>) | Delete(tombstone: Tombstone)

  /** One call: an event by type, or a reset on reconnect. */
  datatype Call<O> =
    | ServerIntent(payloads: Parsed<seq<IntentCode>>)
    | PutObject(item: Parsed<Object<O>>)
    | DeleteObject(tombstone: Parsed<Tombstone>)
    | PayloadTransferred(selector: Parsed<Selector>)
    | ServerError(reason: Parsed<string>)
    | Goodbye(goodbye: Parsed<string>)
    | Unrecognized
    | Reset

  datatype ChangeSetType = FullSet | PartialSet | NoneSet

  datatype ErrorKind = JsonError | ProtocolError | ServerSentError(reason: string)

  datatype Output<O> =
    | Nothing
    | ChangeSet(kind: ChangeSetType, changes: seq<Change<O>>, at: Option<Selector>)
    | Error(error: ErrorKind)
    | Closing(reason: Option<string>)

  datatype Phase = Inactive | Full | Partial

  datatype State<O> = State(phase: Phase, changes: seq<Change<O>>)

  class ProtocolHandler<O> {
    var phase: Phase
    var changes: seq<Change<O>>

    constructor ()
      ensures View() == State(Inactive, [])
    {
      phase, changes := Inactive, [];
    }

    ghost function View(): State<O>
      reads this
    {
      State(phase, changes)
    }

    method ResetState()
      modifies this
      ensures View() == State(Inactive, [])
    {
      phase := Inactive;
      changes := [];
    }

    method HandleServerIntent(payloads: Parsed<seq<IntentCode>>) returns (out: Output<O>)
      modifies this
      ensures (View(), out) == Next(old(View()), ServerIntent(payloads))
    {
      if !payloads.Ok? {
        ResetState();
        return Error(JsonError);
      }
      if payloads.value == [] {
        ResetState();
        return Nothing;
      }
      var code := payloads.value[0];
      changes := [];
      if code == TransferFull {
        phase := Full;
      } else if code == TransferChanges {
        phase := Partial;
      } else if code == NoTransfer {
        phase := Partial;
        return ChangeSet(NoneSet, [], None);
      } else {
        ResetState();
        return Error(ProtocolError);
      }
      return Nothing;
    }

    method HandlePutObject(item: Parsed<Object<O>>) returns (out: Output<O>)
      modifies this
      ensures (View(), out) == Next(old(View()), PutObject(item))
    {
      if !item.Ok? {
        ResetState();
        return Error(JsonError);
      }
      changes := changes + [Put(item.value)];
      return Nothing;
    }

    method HandleDeleteObject(tombstone: Parsed<Tombstone>) returns (out: Output<O>)
      modifies this
      ensures (View(), out) == Next(old(View()), DeleteObject(tombstone))
    {
      if !tombstone.Ok? {
        ResetState();
        return Error(JsonError);
      }
      changes := changes + [Delete(tombstone.value)];
      return Nothing;
    }

    method HandlePayloadTransferred(selector: Parsed<Selector>) returns (out: Output<O>)
      modifies this
      ensures (View(), out) == Next(old(View()), PayloadTransferred(selector))
    {
      if phase == Inactive {
        ResetState();
        return Error(ProtocolError);
      }
      if !selector.Ok? {
        ResetState();
        return Error(JsonError);
      }
      var kind := if phase == Partial then PartialSet else FullSet;
      out := ChangeSet(kind, changes, Some(selector.value));
      changes := [];
      phase := Partial;
    }

    method HandleError(reason: Parsed<string>) returns (out: Output<O>)
      modifies this
      ensures (View(), out) == Next(old(View()), ServerError(reason))
    {
      changes := [];
      return Error(if reason.Ok? then ServerSentError(reason.value) else JsonError);
    }

    method HandleGoodbye(goodbye: Parsed<string>) returns (out: Output<O>)
      modifies this
      ensures (View(), out) == Next(old(View()), Goodbye(goodbye))
    {
      ResetState();
      return Closing(if goodbye.Ok? then Some(goodbye.value) else None);
    }

    method Handle(call: Call<O>) returns (out: Output<O>)
      modifies this
      ensures (View(), out) == Next(old(View()), call)
    {
      match call {
        case ServerIntent(payloads) => out := HandleServerIntent(payloads);
        case PutObject(item) => out := HandlePutObject(item);
        case DeleteObject(tombstone) => out := HandleDeleteObject(tombstone);
        case PayloadTransferred(selector) => out := HandlePayloadTransferred(selector);
        case ServerError(reason) => out := HandleError(reason);
        case Goodbye(goodbye) => out := HandleGoodbye(goodbye);
        case Unrecognized => out := Nothing;
        case Reset =>
          ResetState();
          out := Nothing;
      }
    }
  }

  /** The state after a call, and what the call returns. */
  function Next<O>(s: State<O>, call: Call<O>): (State<O>, Output<O>) {
    var reset := State(Inactive, []);
    match call
    case ServerIntent(payloads) =>
      if !payloads.Ok? then (reset, Error(JsonError))
      else if payloads.value == [] then (reset, Nothing)
      else (match payloads.value[0]
        case TransferFull => (State(Full, []), Nothing)
        case TransferChanges => (State(Partial, []), Nothing)
        case NoTransfer => (State(Partial, []), ChangeSet(NoneSet, [], None))
        case UnknownCode => (reset, Error(ProtocolError)))
    case PutObject(item) =>
      if item.Ok? then (s.(changes := s.changes + [Put(item.value)]), Nothing) else (reset, Error(JsonError))
    case DeleteObject(tombstone) =>
      if tombstone.Ok? then (s.(changes := s.changes + [Delete(tombstone.value)]), Nothing) else (reset, Error(JsonError))
    case PayloadTransferred(selector) =>
      if s.phase == Inactive then (reset, Error(ProtocolError))
      else if !selector.Ok? then (reset, Error(JsonError))
      else (State(Partial, []), ChangeSet(if s.phase == Full then FullSet else PartialSet, s.changes, Some(selector.value)))
    case ServerError(reason) => (s.(changes := []), Error(if reason.Ok? then ServerSentError(reason.value) else JsonError))
    case Goodbye(goodbye) => (reset, Closing(if goodbye.Ok? then Some(goodbye.value) else None))
    case Unrecognized => (s, Nothing)
    case Reset => (reset, Nothing)
  }

  /** The state before the i-th call of a trace, and what that call returns. */
  function Before<O>(trace: seq<Call<O>>, i: nat): State<O>
    requires i <= |trace|
  {
    if i == 0 then State(Inactive, []) else Next(Before(trace, i - 1), trace[i - 1]).0
  }

  function OutputAt<O>(trace: seq<Call<O>>, i: nat): Output<O>
    requires i < |trace|
  {
    Next(Before(trace, i), trace[i]).1
  }

  // ----- What a trace says, without the handler

  /** The change a well-formed put or delete carries. */
  function ChangeOf<O>(call: Call<O>): Option<Change<O>> {
    match call
    case PutObject(Ok(item)) => Some(Put(item))
    case DeleteObject(Ok(tombstone)) => Some(Delete(tombstone))
    case _ => None
  }

  /** Every call other than a well-formed put or delete and an unrecognized event ends the accumulation. */
  predicate IsBoundary<O>(call: Call<O>) { ChangeOf(call).None? && !call.Unrecognized? }

  /** The position after the latest boundary before i. */
  function Since<O>(trace: seq<Call<O>>, i: nat): (lo: nat)
    requires i <= |trace|
    ensures lo <= i
    ensures lo > 0 ==> IsBoundary(trace[lo - 1])
    ensures forall k :: lo <= k < i ==> !IsBoundary(trace[k])
  {
    if i == 0 || IsBoundary(trace[i - 1]) then i else Since(trace, i - 1)
  }

  function ChangesIn<O>(trace: seq<Call<O>>, lo: nat, hi: nat): seq<Change<O>>
    requires lo <= hi <= |trace|
  {
    if lo == hi then []
    else ChangesIn(trace, lo, hi - 1)
         + match ChangeOf(trace[hi - 1]) case Some(c) => [c] case None => []
  }

  predicate HasIntent<O>(call: Call<O>, codes: set<IntentCode>) {
    call.ServerIntent? && call.payloads.Ok? && call.payloads.value != [] && call.payloads.value[0] in codes
  }

  predicate OpensIntent<O>(call: Call<O>) { HasIntent(call, {TransferFull, TransferChanges, NoTransfer}) }

  /** Calls that end an intent: goodbye, reset, any malformed event other than an error, and an intent
      without a known code. */
  predicate EndsIntent<O>(call: Call<O>) {
    match call
    case ServerIntent(_) => !OpensIntent(call)
    case PutObject(p) => !p.Ok?
    case DeleteObject(p) => !p.Ok?
    case PayloadTransferred(p) => !p.Ok?
    case Goodbye(_) => true
    case Reset => true
    case _ => false
  }

  /** Some intent is open: one was opened and nothing has ended it since. */
  ghost predicate IntentOpen<O(!new)>(trace: seq<Call<O>>, i: nat)
    requires i <= |trace|
  {
    exists j :: 0 <= j < i && OpensIntent(trace[j]) && forall k :: j < k < i ==> !EndsIntent(trace[k])
  }

  /** Calls that leave the kind of the next changeset alone. */
  predicate KeepsKind<O>(call: Call<O>) { ChangeOf(call).Some? || call.ServerError? || call.Unrecognized? }

  /** The latest call that sets the kind is an intent to transfer everything. */
  ghost predicate FullIntentLatest<O(!new)>(trace: seq<Call<O>>, i: nat)
    requires i <= |trace|
  {
    exists j :: 0 <= j < i && HasIntent(trace[j], {TransferFull}) && forall k :: j < k < i ==> KeepsKind(trace[k])
  }

  lemma {:induction false} PendingChanges<O>(trace: seq<Call<O>>, i: nat)
    requires i <= |trace|
    ensures Before(trace, i).changes == ChangesIn(trace, Since(trace, i), i)
  {
    if i > 0 {
      PendingChanges(trace, i - 1);
    }
  }

  lemma {:induction false} PhaseIs<O(!new)>(trace: seq<Call<O>>, i: nat)
    requires i <= |trace|
    ensures Before(trace, i).phase != Inactive <==> IntentOpen(trace, i)
    ensures Before(trace, i).phase == Full <==> FullIntentLatest(trace, i)
  {
    if i > 0 {
      PhaseIs(trace, i - 1);
      OpenStep(trace, i);
      FullStep(trace, i);
    }
  }

  lemma OpenStep<O(!new)>(trace: seq<Call<O>>, i: nat)
    requires 0 < i <= |trace|
    ensures IntentOpen(trace, i) <==>
              OpensIntent(trace[i - 1]) || (!EndsIntent(trace[i - 1]) && IntentOpen(trace, i - 1))
  {
    if IntentOpen(trace, i - 1) && !EndsIntent(trace[i - 1]) {
      var j :| 0 <= j < i - 1 && OpensIntent(trace[j]) && forall k :: j < k < i - 1 ==> !EndsIntent(trace[k]);
      assert forall k :: j < k < i ==> !EndsIntent(trace[k]);
    }
  }

  lemma FullStep<O(!new)>(trace: seq<Call<O>>, i: nat)
    requires 0 < i <= |trace|
    ensures FullIntentLatest(trace, i) <==>
              HasIntent(trace[i - 1], {TransferFull}) || (KeepsKind(trace[i - 1]) && FullIntentLatest(trace, i - 1))
  {
    if FullIntentLatest(trace, i - 1) && KeepsKind(trace[i - 1]) {
      var j :| 0 <= j < i - 1 && HasIntent(trace[j], {TransferFull}) && forall k :: j < k < i - 1 ==> KeepsKind(trace[k]);
      assert forall k :: j < k < i ==> KeepsKind(trace[k]);
    }
  }

  ghost predicate Transfers<O>(out: Output<O>) { out.ChangeSet? && out.kind != NoneSet }

  /** For every trace: a changeset is emitted exactly at a well-formed payload-transferred with an open
      intent; it holds, in order, the well-formed puts and deletes since the latest boundary; and it is
      full exactly when the latest call that sets the kind is a full-transfer intent. */
  lemma ChangesetsFollowTheTrace<O(!new)>(trace: seq<Call<O>>, i: nat)
    requires i < |trace|
    ensures Transfers(OutputAt(trace, i)) <==>
              trace[i].PayloadTransferred? && trace[i].selector.Ok? && IntentOpen(trace, i)
    ensures Transfers(OutputAt(trace, i)) ==>
              OutputAt(trace, i) == ChangeSet(
                if FullIntentLatest(trace, i) then FullSet else PartialSet,
                ChangesIn(trace, Since(trace, i), i),
                Some(trace[i].selector.value))
  {
    hide Before, Since, ChangesIn, IntentOpen, FullIntentLatest;
    PendingChanges(trace, i);
    PhaseIs(trace, i);
  }

  /** No position contributes a change to two changesets. */
  lemma NoChangeInTwoChangesets<O>(trace: seq<Call<O>>, i: nat, j: nat)
    requires i < j < |trace| && Transfers(OutputAt(trace, i)) && Transfers(OutputAt(trace, j))
    ensures Since(trace, i) <= i < Since(trace, j) <= j
  {
    assert IsBoundary(trace[i]);
  }

  /** The data of an event cannot be decoded, or is null. */
  predicate Undecodable<O>(call: Call<O>) {
    match call
    case ServerIntent(p) => !p.Ok?
    case PutObject(p) => !p.Ok?
    case DeleteObject(p) => !p.Ok?
    case PayloadTransferred(p) => !p.Ok?
    case ServerError(p) => !p.Ok?
    case _ => false
  }

  /** What each call returns besides changesets, told from the trace: an empty changeset exactly for an intent to transfer
      nothing; a goodbye with its reason, if it can be read; the server's own error; a protocol error exactly for an
      unknown intent code or a transfer without an open intent; a decoding error for all other data that cannot be
      decoded; and nothing for everything else. */
  lemma OtherOutputs<O(!new)>(trace: seq<Call<O>>, i: nat)
    requires i < |trace|
    ensures OutputAt(trace, i) == ChangeSet(NoneSet, [], None) <==> HasIntent(trace[i], {NoTransfer})
    ensures OutputAt(trace, i).Closing? <==> trace[i].Goodbye?
    ensures trace[i].Goodbye? ==> OutputAt(trace, i).reason == match trace[i].goodbye case Ok(reason) => Some(reason) case _ => None
    ensures forall m :: OutputAt(trace, i) == Error(ServerSentError(m)) <==> trace[i] == ServerError(Ok(m))
    ensures OutputAt(trace, i) == Error(ProtocolError) <==>
              HasIntent(trace[i], {UnknownCode}) || (trace[i].PayloadTransferred? && !IntentOpen(trace, i))
    ensures OutputAt(trace, i) == Error(JsonError) <==>
              Undecodable(trace[i]) && (trace[i].PayloadTransferred? ==> IntentOpen(trace, i))
    ensures OutputAt(trace, i) == Nothing <==>
              || ChangeOf(trace[i]).Some? || trace[i].Unrecognized? || trace[i].Reset?
              || HasIntent(trace[i], {TransferFull, TransferChanges}) || trace[i] == ServerIntent(Ok([]))
  {
    hide Before, IntentOpen;
    PhaseIs(trace, i);
  }
}
