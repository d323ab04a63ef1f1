/** The engine-side action dispatcher: a registry from action ids to
    handlers, with optional can-execute predicates and a telemetry stream
    recording every dispatch attempt that returns. Handlers, predicates and
    payloads are opaque references; running a handler is recorded in a log,
    and what a predicate answers when it is consulted, and whether a
    handler returns or throws, are inputs to the call. */
module Actions {
  import opened Common

  datatype HandlerRef = HandlerRef(n: nat)
  datatype CheckRef = CheckRef(n: nat)
  datatype Payload = Payload(n: nat)

  /** One `ActionDispatched(actionId, executed)` notification. */
  datatype Dispatched = Dispatched(actionId: string, executed: bool)

  /** One handler invocation. */
  datatype Run = Run(handler: HandlerRef, payload: Option<Payload>)

  /** `CanExecute` in terms of the registry: what the predicate does when
      one is registered (`verdict`: an answer, or the exception it throws),
      otherwise whether a handler is registered. */
  function CanExecuteWith(handlers: map<string, HandlerRef>, checks: map<string, CheckRef>,
                          actionId: string, verdict: Result<bool>): (r: Result<bool>)
    ensures actionId !in checks ==> (r == Ok(true) <==> actionId in handlers) && r.Ok?
    ensures actionId in checks ==> r == verdict
  {
    if actionId in checks then verdict else Ok(actionId in handlers)
  }

  class ActionRouter {
    /** `_handlers`. */
    var handlers: map<string, HandlerRef>
    /** `_canExecuteChecks`. */
    var checks: map<string, CheckRef>
    /** Every `ActionDispatched` notification, in order. */
    var telemetry: seq<Dispatched>
    /** Every handler invocation, in order. */
    var runs: seq<Run>

    /** A predicate is only ever registered alongside a handler. */
    ghost predicate Valid()
      reads this
    {
      checks.Keys <= handlers.Keys
    }

    constructor ()
      ensures Valid()
      ensures handlers == map[] && checks == map[] && telemetry == [] && runs == []
    {
      handlers, checks := map[], map[];
      telemetry, runs := [], [];
    }

    /** Installs or replaces the handler; a given predicate replaces the old
        one, an absent predicate leaves any earlier one in place. */
    method Register(actionId: string, handler: HandlerRef, canExecute: Option<CheckRef>)
      requires Valid()
      modifies this
      ensures Valid()
      ensures handlers == old(handlers)[actionId := handler]
      ensures canExecute.Some? ==> checks == old(checks)[actionId := canExecute.value]
      ensures canExecute.None? ==> checks == old(checks)
      ensures telemetry == old(telemetry) && runs == old(runs)
    {
      handlers := handlers[actionId := handler];
      if canExecute.Some? {
        checks := checks[actionId := canExecute.value];
      }
    }

    /** Drops both the handler and the predicate. */
    method Unregister(actionId: string)
      requires Valid()
      modifies this
      ensures Valid()
      ensures handlers == old(handlers) - {actionId}
      ensures checks == old(checks) - {actionId}
      ensures telemetry == old(telemetry) && runs == old(runs)
    {
      handlers := handlers - {actionId};
      checks := checks - {actionId};
    }

    /** Runs the handler at most once. An attempt that returns is reported
        once with its verdict; when the predicate or the handler throws, the
        exception escapes before anything is reported. `verdict` is what the
        registered predicate, if any, does when consulted, and
        `handlerOutcome` how the handler, if run, ends. */
    method Dispatch(actionId: string, payload: Option<Payload>, verdict: Result<bool>, handlerOutcome: Outcome)
      returns (r: Result<bool>)
      requires Valid()
      modifies this
      ensures Valid()
      ensures handlers == old(handlers) && checks == old(checks)
      ensures r == Ok(true) <==>
                actionId in handlers && CanExecuteWith(handlers, checks, actionId, verdict) == Ok(true) && handlerOutcome.Done?
      ensures actionId !in handlers ==> r == Ok(false) && runs == old(runs)
      ensures actionId in handlers && CanExecuteWith(handlers, checks, actionId, verdict) != Ok(true) ==>
                r == CanExecuteWith(handlers, checks, actionId, verdict) && runs == old(runs)
      ensures actionId in handlers && CanExecuteWith(handlers, checks, actionId, verdict) == Ok(true) ==>
                runs == old(runs) + [Run(handlers[actionId], payload)] &&
                r == (if handlerOutcome.Done? then Ok(true) else Fault(handlerOutcome.exn))
      ensures r.Ok? ==> telemetry == old(telemetry) + [Dispatched(actionId, r.value)]
      ensures r.Fault? ==> telemetry == old(telemetry)
    {
      if actionId in handlers {
        var handler := handlers[actionId];
        var can := CanExecute(actionId, verdict);
        if can.Fault? {
          return can;
        }
        if !can.value {
          telemetry := telemetry + [Dispatched(actionId, false)];
          return Ok(false);
        }
        runs := runs + [Run(handler, payload)];
        if handlerOutcome.Threw? {
          return Fault(handlerOutcome.exn);
        }
        telemetry := telemetry + [Dispatched(actionId, true)];
        return Ok(true);
      }
      telemetry := telemetry + [Dispatched(actionId, false)];
      r := Ok(false);
    }

    method CanExecute(actionId: string, verdict: Result<bool>) returns (r: Result<bool>)
      ensures r == CanExecuteWith(handlers, checks, actionId, verdict)
    {
      if actionId in checks {
        return verdict;
      }
      return Ok(actionId in handlers);
    }

    method IsRegistered(actionId: string) returns (r: bool)
      ensures r <==> actionId in handlers
    {
      r := actionId in handlers;
    }

    method GetRegisteredActions() returns (r: set<string>)
      ensures r == handlers.Keys
    {
      r := handlers.Keys;
    }
  }

  /** An unregistered action cannot execute whatever a stale predicate
      would have said: with no handler and no predicate the answer is no. */
  lemma UnregisteredCannotExecute(handlers: map<string, HandlerRef>, checks: map<string, CheckRef>,
                                  actionId: string, verdict: Result<bool>)
    requires checks.Keys <= handlers.Keys && actionId !in handlers
    ensures CanExecuteWith(handlers, checks, actionId, verdict) == Ok(false)
  {
  }
}
