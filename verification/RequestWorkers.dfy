/** The worker that delivers one batch of events, retrying at most once.
    Models libs/internal/src/events/request_worker.cpp and AsyncDeliver of
    libs/internal/include/launchdarkly/events/detail/request_worker.hpp. B is the type of batches. */
module RequestWorkers {
  import opened Wrappers

  /** The result of a request. `serverTime` is the parsed Date header, when there is one. */
  datatype HttpResult = HttpResult(isError: bool, status: nat, serverTime: Option<int>)

  datatype WorkerState = Idle | FirstChance | SecondChance | PermanentlyFailed

  datatype Action = NoAction | ResetBatch | ParseDateAndReset | Retry | NotifyPermanentFailure

  /** What the owner of the worker is told. */
  datatype Notice = PermanentFailure(status: nat) | ServerTime(time: int)

  /** Whether a request is out, or a timer is running that will send one. */
  datatype Pending = NoRequest | InFlight | RetryTimer

  predicate IsClientError(status: nat) { 400 <= status < 500 }

  predicate IsTransientFailure(r: HttpResult) {
    r.isError || !IsClientError(r.status) || r.status == 400 || r.status == 408 || r.status == 429 || r.status == 413
  }

  predicate IsRetryable(status: nat) { status != 413 }

  predicate IsSuccess(r: HttpResult) { !r.isError && 200 <= r.status < 300 }

  function NextState(state: WorkerState, r: HttpResult): (WorkerState, Action) {
    match state
    case Idle => (state, NoAction)
    case PermanentlyFailed => (state, NoAction)
    case FirstChance =>
      if IsSuccess(r) then (Idle, ParseDateAndReset)
      else if IsTransientFailure(r) then if IsRetryable(r.status) then (SecondChance, Retry) else (Idle, ResetBatch)
      else (PermanentlyFailed, NotifyPermanentFailure)
    case SecondChance =>
      if IsSuccess(r) then (Idle, ParseDateAndReset)
      else if IsTransientFailure(r) then (Idle, ResetBatch)
      else (PermanentlyFailed, NotifyPermanentFailure)
  }

  datatype Worker<B> = Worker(state: WorkerState, batch: Option<B>, pending: Pending)

  function Delivering<B>(batch: B): Worker<B> { Worker(FirstChance, Some(batch), InFlight) }

  /** The worker after the result of a request. */
  function Attempted<B>(w: Worker<B>, r: HttpResult): Worker<B> {
    var (next, action) := NextState(w.state, r);
    match action
    case NoAction => w
    case Retry => Worker(next, w.batch, RetryTimer)
    case _ => Worker(next, None, NoRequest)
  }

  function NoticeOf(state: WorkerState, r: HttpResult): Option<Notice> {
    match NextState(state, r).1
    case NotifyPermanentFailure => Some(PermanentFailure(r.status))
    case ParseDateAndReset => if r.serverTime.Some? then Some(ServerTime(r.serverTime.value)) else None
    case _ => None
  }

  /** The worker after its retry timer: a cancelled timer sends nothing. */
  function TimerFired<B>(w: Worker<B>, cancelled: bool): Worker<B> {
    w.(pending := if cancelled then NoRequest else InFlight)
  }

  class RequestWorker<B> {
    var state: WorkerState
    var batch: Option<B>
    var pending: Pending

    constructor ()
      ensures View() == Worker(Idle, None, NoRequest)
    {
      state, batch, pending := Idle, None, NoRequest;
    }

    ghost function View(): Worker<B>
      reads this
    {
      Worker(state, batch, pending)
    }

    predicate Available()
      reads this
    {
      state == Idle
    }

    method AsyncDeliver(newBatch: B)
      modifies this
      ensures View() == Delivering(newBatch)
    {
      state := FirstChance;
      batch := Some(newBatch);
      pending := InFlight;
    }

    method OnDeliveryAttempt(r: HttpResult) returns (notice: Option<Notice>)
      modifies this
      ensures View() == Attempted(old(View()), r)
      ensures notice == NoticeOf(old(state), r)
    {
      notice := None;
      var (nextState, action) := NextState(state, r);
      match action {
        case NoAction =>
        case ResetBatch =>
          batch, pending := None, NoRequest;
        case NotifyPermanentFailure =>
          notice := Some(PermanentFailure(r.status));
          batch, pending := None, NoRequest;
        case ParseDateAndReset =>
          if r.serverTime.Some? { notice := Some(ServerTime(r.serverTime.value)); }
          batch, pending := None, NoRequest;
        case Retry =>
          pending := RetryTimer;
      }
      state := nextState;
    }

    method OnRetryTimer(cancelled: bool)
      modifies this
      ensures View() == TimerFired(old(View()), cancelled)
    {
      pending := if cancelled then NoRequest else InFlight;
    }
  }
}
