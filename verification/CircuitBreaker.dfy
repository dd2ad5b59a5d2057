// The circuit breaker (src/risk/circuit_breaker.rs) with the clock made explicit: every call
// carries the instant it is made at.
module CircuitBreaking {
  import opened Base

  datatype CircuitState = Closed | Open | HalfOpen

  datatype OpenReason =
    | FatalErrorThreshold(count: nat)
    | RejectRateExceeded(rate: real)
    | WebSocketDisconnect
    | ReconciliationFailure(details: string)
    | ManualTrigger
    | DailyLossExceeded

  datatype ErrorType = Retryable | Fatal | Expected

  datatype Config = Config(fatalThreshold: nat, rejectRateThreshold: real, resetTimeout: nat)

  const SECOND := 1_000_000_000
  const DEFAULT_CONFIG := Config(5, 0.2, 60 * SECOND)
  const SUCCESSES_REQUIRED := 3
  const WINDOW := 60 * SECOND

  datatype Breaker = Breaker(
    state: CircuitState,
    openReason: Option<OpenReason>,
    openedAt: Option<int>,
    fatalErrors: nat,
    submitted: nat,
    rejected: nat,
    halfOpenSuccesses: nat,
    windowStart: int)
  {
    // An open circuit keeps its first reason and instant.
    function Opened(reason: OpenReason, now: int): Breaker {
      if state == Open then this
      else this.(state := Open, openReason := Some(reason), openedAt := Some(now), halfOpenSuccesses := 0)
    }

    function ClosedAgain(now: int): Breaker {
      Breaker(Closed, None, None, 0, 0, 0, 0, now)
    }

    function HalfOpened(): Breaker {
      this.(state := HalfOpen, halfOpenSuccesses := 0)
    }

    predicate TimedOut(config: Config, now: int) {
      state == Open && openedAt.Some? && now - openedAt.value >= config.resetTimeout
    }

    function Checked(config: Config, now: int): Breaker {
      if TimedOut(config, now) then HalfOpened() else this
    }

    // Error counts are per window.
    function Windowed(now: int): Breaker {
      if now - windowStart >= WINDOW
      then this.(windowStart := now, fatalErrors := 0, submitted := 0, rejected := 0)
      else this
    }

    function RejectRate(): real {
      if submitted == 0 then 0.0 else rejected as real / submitted as real
    }

    function Succeeded(now: int): Breaker {
      if state != HalfOpen then this
      else if halfOpenSuccesses + 1 >= SUCCESSES_REQUIRED then ClosedAgain(now)
      else this.(halfOpenSuccesses := halfOpenSuccesses + 1)
    }

    function Failed(config: Config, now: int): Breaker {
      var counted := this.(rejected := rejected + 1, fatalErrors := fatalErrors + 1);
      if counted.fatalErrors >= config.fatalThreshold
      then counted.Opened(FatalErrorThreshold(counted.fatalErrors), now)
      else if counted.RejectRate() > config.rejectRateThreshold
      then counted.Opened(RejectRateExceeded(counted.RejectRate()), now)
      else counted
    }
  }

  datatype Event =
    | CheckTrading
    | OrderSubmitted
    | OrderResult(error: Option<ErrorType>)
    | WsDisconnect
    | WsReconnect
    | ReconciliationFailed(details: string)
    | DailyLoss
    | ManualOpen
    | ForceClose
    | ResetCounters

  function Stepped(config: Config, b: Breaker, event: Event, now: int): Breaker {
    match event
    case CheckTrading => b.Checked(config, now)
    case OrderSubmitted => var w := b.Windowed(now); w.(submitted := w.submitted + 1)
    case OrderResult(error) =>
      var w := b.Windowed(now);
      if error.None? then w.Succeeded(now)
      else if error.value == Fatal then w.Failed(config, now)
      else w
    case WsDisconnect => b.Opened(WebSocketDisconnect, now)
    case WsReconnect =>
      if b.state == Open && b.openReason == Some(WebSocketDisconnect) then b.HalfOpened() else b
    case ReconciliationFailed(details) => b.Opened(ReconciliationFailure(details), now)
    case DailyLoss => b.Opened(DailyLossExceeded, now)
    case ManualOpen => b.Opened(ManualTrigger, now)
    case ForceClose => b.ClosedAgain(now)
    case ResetCounters =>
      b.(fatalErrors := 0, submitted := 0, rejected := 0, halfOpenSuccesses := 0, windowStart := now)
  }

  function NewBreaker(now: int): Breaker {
    Breaker(Closed, None, None, 0, 0, 0, 0, now)
  }

  class CircuitBreaker {
    const config: Config
    var state: CircuitState
    var openReason: Option<OpenReason>
    var openedAt: Option<int>
    var fatalErrorCount: nat
    var ordersSubmitted: nat
    var ordersRejected: nat
    var halfOpenSuccesses: nat
    var windowStart: int

    function View(): Breaker
      reads this
    {
      Breaker(state, openReason, openedAt, fatalErrorCount, ordersSubmitted, ordersRejected, halfOpenSuccesses, windowStart)
    }

    constructor (config: Config, now: int)
      ensures this.config == config && View() == NewBreaker(now)
    {
      this.config := config;
      state, openReason, openedAt := Closed, None, None;
      fatalErrorCount, ordersSubmitted, ordersRejected, halfOpenSuccesses := 0, 0, 0, 0;
      windowStart := now;
    }

    method IsTradingAllowed(now: int) returns (allowed: bool)
      modifies this
      ensures View() == Stepped(config, old(View()), CheckTrading, now)
      ensures allowed <==> old(state) != Open
                           || (old(openedAt).Some? && now - old(openedAt).value >= config.resetTimeout)
    {
      MaybeTransitionToHalfOpen(now);
      allowed := state == Closed || state == HalfOpen;
    }

    method RecordOrderSubmitted(now: int)
      modifies this
      ensures View() == Stepped(config, old(View()), OrderSubmitted, now)
    {
      MaybeResetWindow(now);
      ordersSubmitted := ordersSubmitted + 1;
    }

    method RecordOrderResult(error: Option<ErrorType>, now: int)
      modifies this
      ensures View() == Stepped(config, old(View()), OrderResult(error), now)
    {
      MaybeResetWindow(now);
      match error {
        case None =>
          if state == HalfOpen {
            halfOpenSuccesses := halfOpenSuccesses + 1;
            if halfOpenSuccesses >= SUCCESSES_REQUIRED {
              Close(now);
            }
          }
        case Some(kind) =>
          if kind == Fatal {
            ordersRejected := ordersRejected + 1;
            fatalErrorCount := fatalErrorCount + 1;
            if fatalErrorCount >= config.fatalThreshold {
              OpenFor(FatalErrorThreshold(fatalErrorCount), now);
            } else {
              CheckRejectRate(now);
            }
          }
      }
    }

    method RecordWsDisconnect(now: int)
      modifies this
      ensures View() == Stepped(config, old(View()), Event.WsDisconnect, now)
    {
      OpenFor(WebSocketDisconnect, now);
    }

    method RecordWsReconnect(now: int)
      modifies this
      ensures View() == Stepped(config, old(View()), Event.WsReconnect, now)
    {
      if state == Open {
        if openReason.Some? {
          if openReason.value == WebSocketDisconnect {
            TransitionToHalfOpen();
          }
        }
      }
    }

    method RecordReconciliationFailure(details: string, now: int)
      modifies this
      ensures View() == Stepped(config, old(View()), ReconciliationFailed(details), now)
    {
      OpenFor(ReconciliationFailure(details), now);
    }

    method RecordDailyLossExceeded(now: int)
      modifies this
      ensures View() == Stepped(config, old(View()), DailyLoss, now)
    {
      OpenFor(DailyLossExceeded, now);
    }

    method ManualOpen(now: int)
      modifies this
      ensures View() == Stepped(config, old(View()), Event.ManualOpen, now)
    {
      OpenFor(ManualTrigger, now);
    }

    method ForceClose(now: int)
      modifies this
      ensures View() == Stepped(config, old(View()), Event.ForceClose, now)
    {
      Close(now);
    }

    method ResetCounters(now: int)
      modifies this
      ensures View() == Stepped(config, old(View()), Event.ResetCounters, now)
    {
      fatalErrorCount := 0;
      ordersSubmitted := 0;
      ordersRejected := 0;
      halfOpenSuccesses := 0;
      windowStart := now;
    }

    method OpenFor(reason: OpenReason, now: int)
      modifies this
      ensures View() == old(View()).Opened(reason, now)
    {
      if state != Open {
        state := Open;
        openReason := Some(reason);
        openedAt := Some(now);
        halfOpenSuccesses := 0;
      }
    }

    method Close(now: int)
      modifies this
      ensures View() == old(View()).ClosedAgain(now)
    {
      state := Closed;
      openReason := None;
      openedAt := None;
      ResetCounters(now);
    }

    method TransitionToHalfOpen()
      modifies this
      ensures View() == old(View()).HalfOpened()
    {
      state := HalfOpen;
      halfOpenSuccesses := 0;
    }

    method MaybeTransitionToHalfOpen(now: int)
      modifies this
      ensures View() == old(View()).Checked(config, now)
    {
      if state != Open {
        return;
      }
      if openedAt.Some? {
        if now - openedAt.value >= config.resetTimeout {
          TransitionToHalfOpen();
        }
      }
    }

    method CheckRejectRate(now: int)
      modifies this
      ensures View() == if old(View()).RejectRate() > config.rejectRateThreshold
                        then old(View()).Opened(RejectRateExceeded(old(View()).RejectRate()), now)
                        else old(View())
    {
      var rate := View().RejectRate();
      if rate > config.rejectRateThreshold {
        OpenFor(RejectRateExceeded(rate), now);
      }
    }

    method MaybeResetWindow(now: int)
      modifies this
      ensures View() == old(View()).Windowed(now)
    {
      if now - windowStart >= WINDOW {
        windowStart := now;
        fatalErrorCount := 0;
        ordersSubmitted := 0;
        ordersRejected := 0;
      }
    }
  }

  // ---- runs ------------------------------------------------------------------------------------

  datatype Call = Call(event: Event, now: int)

  function RunFrom(config: Config, b: Breaker, calls: seq<Call>): Breaker
    decreases calls
  {
    if calls == [] then b
    else RunFrom(config, Stepped(config, b, calls[0].event, calls[0].now), calls[1..])
  }

  // A closed circuit has no reason and no opening time, and fewer fatal errors in its window
  // than open it; a half-open one is still short of the successes that close it.
  ghost predicate Sound(config: Config, b: Breaker) {
    && (b.state == Closed <==> b.openReason == None)
    && (b.state == Closed <==> b.openedAt == None)
    && (b.state == Closed ==> b.fatalErrors < if config.fatalThreshold == 0 then 1 else config.fatalThreshold)
    && (b.state == HalfOpen ==> b.halfOpenSuccesses < SUCCESSES_REQUIRED)
  }

  lemma {:induction false} AlwaysSound(config: Config, b: Breaker, calls: seq<Call>)
    requires Sound(config, b)
    ensures Sound(config, RunFrom(config, b, calls))
    decreases calls
  {
    if calls != [] {
      StepKeepsSound(config, b, calls[0].event, calls[0].now);
      AlwaysSound(config, Stepped(config, b, calls[0].event, calls[0].now), calls[1..]);
    }
  }

  lemma StepKeepsSound(config: Config, b: Breaker, event: Event, now: int)
    requires Sound(config, b)
    ensures Sound(config, Stepped(config, b, event, now))
  {
    hide Breaker.RejectRate;
  }

  // What may end a halt before its time: a forced close, or the reconnection of the socket
  // whose loss caused it.
  predicate EndsHalt(reason: OpenReason, event: Event) {
    event.ForceClose? || (event.WsReconnect? && reason == WebSocketDisconnect)
  }

  // From the instant it opened, an open circuit refuses trading for the whole timeout.
  lemma {:induction false} StaysOpen(config: Config, b: Breaker, opened': int, reason: OpenReason, calls: seq<Call>)
    requires b.state == Open && b.openedAt == Some(opened') && b.openReason == Some(reason)
    requires forall c :: c in calls ==> c.now < opened' + config.resetTimeout && !EndsHalt(reason, c.event)
    ensures var end := RunFrom(config, b, calls);
            && end.state == Open && end.openedAt == Some(opened') && end.openReason == Some(reason)
            && forall now :: end.TimedOut(config, now) <==> now >= opened' + config.resetTimeout
    decreases calls
  {
    if calls != [] {
      hide Breaker.RejectRate;
      var c := calls[0];
      assert c in calls;
      var next := Stepped(config, b, c.event, c.now);
      assert next.state == Open && next.openedAt == Some(opened') && next.openReason == Some(reason);
      StaysOpen(config, next, opened', reason, calls[1..]);
    }
  }

  // Successes recorded while half-open, along a run.
  function TestSuccesses(config: Config, b: Breaker, calls: seq<Call>): nat
    decreases calls
  {
    if calls == [] then 0
    else
      (if b.state == HalfOpen && calls[0].event == OrderResult(None) then 1 else 0)
      + TestSuccesses(config, Stepped(config, b, calls[0].event, calls[0].now), calls[1..])
  }

  function Needed(b: Breaker): int {
    match b.state
    case Closed => 0
    case HalfOpen => SUCCESSES_REQUIRED - b.halfOpenSuccesses
    case Open => SUCCESSES_REQUIRED
  }

  // Unless forced, a circuit that is not closed only closes on its missing test successes: all
  // three of them when it starts from an opening, or from the entry into half-open.
  lemma {:induction false} ClosingIsEarned(config: Config, b: Breaker, calls: seq<Call>)
    requires b.state != Closed && Sound(config, b)
    requires forall c :: c in calls ==> !c.event.ForceClose?
    requires RunFrom(config, b, calls).state == Closed
    ensures TestSuccesses(config, b, calls) >= Needed(b)
    ensures b.state == Open || b.halfOpenSuccesses == 0 ==> TestSuccesses(config, b, calls) >= 3
    decreases calls
  {
    var c := calls[0];
    assert c in calls;
    var next := Stepped(config, b, c.event, c.now);
    StepKeepsSound(config, b, c.event, c.now);
    hide Breaker.RejectRate;
    assert Needed(next) >= Needed(b) - if b.state == HalfOpen && c.event == OrderResult(None) then 1 else 0;
    if next.state != Closed {
      ClosingIsEarned(config, next, calls[1..]);
    }
  }

  // ---- exactly when it opens, half-opens and closes -----------------------------------------------

  // Why an event opens a circuit that is not open. Errors count in windows of a minute.
  function OpeningReason(config: Config, b: Breaker, event: Event, now: int): Option<OpenReason> {
    match event
    case ManualOpen => Some(ManualTrigger)
    case ReconciliationFailed(details) => Some(ReconciliationFailure(details))
    case DailyLoss => Some(DailyLossExceeded)
    case WsDisconnect => Some(WebSocketDisconnect)
    case OrderResult(Some(Fatal)) =>
      var stale := now - b.windowStart >= 60_000_000_000;
      var fatal := if stale then 1 else b.fatalErrors + 1;
      var rejected := if stale then 1 else b.rejected + 1;
      var submitted := if stale then 0 else b.submitted;
      if fatal >= config.fatalThreshold then Some(FatalErrorThreshold(fatal))
      else if submitted > 0 && rejected as real / submitted as real > config.rejectRateThreshold
      then Some(RejectRateExceeded(rejected as real / submitted as real))
      else if submitted == 0 && 0.0 > config.rejectRateThreshold then Some(RejectRateExceeded(0.0))
      else None
    case _ => None
  }

  // Each of these opens it at once, with its own reason and time, and nothing else does.
  lemma OpensExactly(config: Config, b: Breaker, event: Event, now: int)
    requires b.state != Open
    ensures var next := Stepped(config, b, event, now);
            match OpeningReason(config, b, event, now)
            case Some(reason) =>
              next.state == Open && next.openReason == Some(reason) && next.openedAt == Some(now)
            case None => next.state != Open
  {
  }

  // How a circuit leaves each state otherwise: an open one for half-open by the reconnection of a
  // lost socket or once the timeout has passed, a half-open one for closed by its third success,
  // either by force; a closed one not at all.
  lemma LeavesExactly(config: Config, b: Breaker, event: Event, now: int)
    requires b.state == Open || OpeningReason(config, b, event, now).None?
    ensures var next := Stepped(config, b, event, now);
            next.state ==
            if event == Event.ForceClose then Closed
            else
              match b.state
              case Closed => Closed
              case HalfOpen =>
                if event == OrderResult(None) && b.halfOpenSuccesses + 1 >= 3 then Closed else HalfOpen
              case Open =>
                if event == Event.WsReconnect && b.openReason == Some(WebSocketDisconnect) then HalfOpen
                else if event == CheckTrading && b.openedAt.Some? && now - b.openedAt.value >= config.resetTimeout
                then HalfOpen
                else Open
    ensures b.state == HalfOpen && Stepped(config, b, event, now).state == HalfOpen ==>
              Stepped(config, b, event, now).halfOpenSuccesses ==
              if event == OrderResult(None) then b.halfOpenSuccesses + 1
              else if event == Event.ResetCounters then 0
              else b.halfOpenSuccesses
  {
    if b.state != Open {
      OpensExactly(config, b, event, now);
    }
    hide Breaker.RejectRate, OpeningReason;
  }

  // A circuit that closes starts afresh; a manual reset clears the counters and nothing else.
  lemma ClosesAfresh(config: Config, b: Breaker, event: Event, now: int)
    ensures var next := Stepped(config, b, event, now);
            && (event == Event.ForceClose || (b.state != Closed && next.state == Closed) ==>
                  next == Breaker(Closed, None, None, 0, 0, 0, 0, now))
            && (event == Event.ResetCounters ==>
                  next == Breaker(b.state, b.openReason, b.openedAt, 0, 0, 0, 0, now))
  {
  }

  // What orders and fatal results leave in the counters while the circuit does not move.
  lemma CountsExactly(config: Config, b: Breaker, event: Event, now: int)
    requires event == OrderSubmitted || event == OrderResult(Some(Fatal))
    ensures var next := Stepped(config, b, event, now);
            var stale := now - b.windowStart >= 60_000_000_000;
            var one := if event == OrderSubmitted then 0 else 1;
            && next.windowStart == (if stale then now else b.windowStart)
            && next.submitted == (if stale then 0 else b.submitted) + 1 - one
            && next.rejected == (if stale then 0 else b.rejected) + one
            && next.fatalErrors == (if stale then 0 else b.fatalErrors) + one
  {
    hide Breaker.RejectRate;
  }

  // Whatever opened the circuit, trading is then refused throughout the timeout, unless it is
  // forced closed or the socket whose loss it was comes back.
  lemma OpeningHalts(config: Config, b: Breaker, event: Event, opened': int, calls: seq<Call>, now: int)
    requires b.state != Open && OpeningReason(config, b, event, opened').Some?
    requires var reason := OpeningReason(config, b, event, opened').value;
             forall c :: c in calls ==> c.now < opened' + config.resetTimeout && !EndsHalt(reason, c.event)
    requires now < opened' + config.resetTimeout
    ensures var end := RunFrom(config, Stepped(config, b, event, opened'), calls);
            end.state == Open && end.openedAt.Some? && now - end.openedAt.value < config.resetTimeout
  {
    OpensExactly(config, b, event, opened');
    StaysOpen(config, Stepped(config, b, event, opened'), opened', OpeningReason(config, b, event, opened').value, calls);
  }

  // As many fatal results within one window as the threshold asks for open the circuit, whatever
  // else is recorded in between.
  function FatalResults(calls: seq<Call>): nat
    decreases calls
  {
    if calls == [] then 0
    else (if calls[0].event == OrderResult(Some(Fatal)) then 1 else 0) + FatalResults(calls[1..])
  }

  lemma {:induction false} FatalErrorsOpen(config: Config, b: Breaker, calls: seq<Call>)
    requires b.state == Closed && b.fatalErrors < config.fatalThreshold
    requires forall c :: c in calls ==>
               c.now - b.windowStart < 60_000_000_000 && !c.event.ForceClose? && !c.event.ResetCounters?
    requires b.fatalErrors + FatalResults(calls) >= config.fatalThreshold
    ensures exists k :: 0 < k <= |calls| && RunFrom(config, b, calls[..k]).state == Open
    decreases calls
  {
    var c := calls[0];
    assert c in calls;
    var next := Stepped(config, b, c.event, c.now);
    OneCall(config, b, calls);
    if next.state != Open {
      OpensExactly(config, b, c.event, c.now);
      ClosedCounts(config, b, c);
      FatalErrorsOpen(config, next, calls[1..]);
      var k :| 0 < k <= |calls[1..]| && RunFrom(config, next, calls[1..][..k]).state == Open;
      assert calls[..k + 1][0] == c && calls[..k + 1][1..] == calls[1..][..k];
      assert RunFrom(config, b, calls[..k + 1]).state == Open;
    } else {
      assert RunFrom(config, b, calls[..1]).state == Open;
    }
  }

  lemma OneCall(config: Config, b: Breaker, calls: seq<Call>)
    requires calls != []
    ensures RunFrom(config, b, calls[..1]) == Stepped(config, b, calls[0].event, calls[0].now)
  {
    assert calls[..1][0] == calls[0] && calls[..1][1..] == [];
  }

  lemma ClosedCounts(config: Config, b: Breaker, c: Call)
    requires b.state == Closed && b.fatalErrors < config.fatalThreshold
    requires c.now - b.windowStart < 60_000_000_000 && !c.event.ForceClose? && !c.event.ResetCounters?
    requires OpeningReason(config, b, c.event, c.now).None?
    ensures var next := Stepped(config, b, c.event, c.now);
            && next.state == Closed && next.windowStart == b.windowStart
            && next.fatalErrors == b.fatalErrors + (if c.event == OrderResult(Some(Fatal)) then 1 else 0)
            && next.fatalErrors < config.fatalThreshold
  {
    OpensExactly(config, b, c.event, c.now);
    hide Breaker.RejectRate;
  }
}
