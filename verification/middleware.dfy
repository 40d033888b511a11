/**
 * The `Middleware` class: a registry of handlers ordered by priority, and
 * the entry point that runs a request through them.
 */
module Middlewares {
  import opened Handlers
  import opened QueueOrder
  import opened Dispatch

  /**
   * The guards of `registerMiddleware`, in the order it applies them: the
   * handler must be a function, must declare exactly three parameters, and
   * the priority must be an integer. The first guard that fails decides the
   * error.
   */
  function Validate<V>(middleware: HandlerArg<V>, priority: PriorityArg): (r: Option<RegisterError>)
    ensures r == Some(NotAFunction) <==> !middleware.FunctionArg?
    ensures r == Some(WrongArity) <==> middleware.FunctionArg? && middleware.fn.arity != 3
    ensures r == Some(NotAnInteger) <==> middleware.FunctionArg? && middleware.fn.arity == 3 && !priority.IntegerArg?
    ensures r == None <==> middleware.FunctionArg? && middleware.fn.arity == 3 && priority.IntegerArg?
  {
    if !middleware.FunctionArg? then Some(NotAFunction)
    else if middleware.fn.arity != 3 then Some(WrongArity)
    else if !priority.IntegerArg? then Some(NotAnInteger)
    else None
  }

  class Middleware<V> {
    /** `_queue`: the registered entries, lowest priority first. */
    var queue: seq<Entry<V>>
    /** Every entry registered so far, in registration order. */
    ghost var history: seq<Entry<V>>

    /** The queue is the stable ascending sort of everything registered. */
    ghost predicate Valid()
      reads this
    {
      queue == SortByPriority(history)
    }

    constructor ()
      ensures Valid() && queue == [] && history == []
    {
      queue, history := [], [];
    }

    /**
     * `registerMiddleware(middleware, priority)`. A failed guard reports its
     * error (the reporter throws) and leaves the queue as it was; otherwise
     * the entry is added and the sorted queue returned.
     */
    method RegisterMiddleware(middleware: HandlerArg<V>, priority: PriorityArg)
      returns (r: Result<seq<Entry<V>>, RegisterError>)
      requires Valid()
      modifies this
      ensures Valid()
      ensures Validate(middleware, priority).Some? ==>
                && r == Failure(Validate(middleware, priority).value)
                && queue == old(queue) && history == old(history)
      ensures Validate(middleware, priority).None? ==>
                var e := Entry(middleware.fn, priority.value);
                && r == Success(queue)
                && history == old(history) + [e]
                && queue == InsertByPriority(old(queue), e)
                && |queue| == |old(queue)| + 1
                && multiset(queue) == multiset(old(queue)) + multiset{e}
    {
      match Validate(middleware, priority) {
        case Some(err) =>
          r := Failure(err);
        case None =>
          var q := PushMiddlewareToQueue(middleware.fn, priority.value);
          InsertPermutes(old(queue), Entry(middleware.fn, priority.value));
          r := Success(q);
      }
    }

    /** `_pushMiddlewareToQueue`: append `{fn, priority}`, then re-sort. */
    method PushMiddlewareToQueue(fn: Handler<V>, priority: int) returns (q: seq<Entry<V>>)
      requires Valid()
      modifies this
      ensures Valid()
      ensures history == old(history) + [Entry(fn, priority)]
      ensures queue == InsertByPriority(old(queue), Entry(fn, priority))
      ensures q == queue
    {
      var e := Entry(fn, priority);
      ghost var before := queue;
      queue := queue + [e];
      history := history + [e];
      q := SortQueueByPriority();
      SortAppend(before, e);
      SortSorted(old(history));
      SortedFixpoint(before);
      SortAppend(old(history), e);
    }

    /**
     * `_sortQueueByPriority`: sort the queue in place and return it. The
     * source's comparator is boolean; this is the stable ascending sort it
     * is meant to be.
     */
    method SortQueueByPriority() returns (q: seq<Entry<V>>)
      modifies this`queue
      ensures queue == SortByPriority(old(queue))
      ensures q == queue
    {
      queue := SortByPriority(queue);
      q := queue;
    }

    /** `onRequest`: run the current queue for one request. */
    method OnRequest<Req, Res, Scope>(req: Req, res: Res, route: (Scope, Req, Res) -> V, scope: Scope)
      returns (v: V, ghost trace: seq<Event>)
      ensures v == Advance(queue, 0, route(scope, req, res)).value
      ensures Outcome(v, trace) == Advance(queue, 0, route(scope, req, res))
    {
      v, trace := RunQueue(req, res, route, scope, queue);
    }
  }

  /**
   * After any registrations the queue is sorted by ascending priority, holds
   * exactly the registered entries, and keeps registration order among
   * entries of equal priority.
   */
  lemma QueueOrdered<V>(queue: seq<Entry<V>>, history: seq<Entry<V>>)
    requires queue == SortByPriority(history)
    ensures Sorted(queue)
    ensures multiset(queue) == multiset(history)
    ensures forall p :: WithPriority(queue, p) == WithPriority(history, p)
  {
    SortSorted(history);
    SortPermutes(history);
    forall p
      ensures WithPriority(queue, p) == WithPriority(history, p)
    {
      SortStable(history, p);
    }
  }
}

/** Clients of the registry, following the library's own test suite. */
module Scenarios {
  import opened Handlers
  import opened QueueOrder
  import opened Dispatch
  import opened Middlewares

  /** Registrations come back sorted, whatever their order. */
  method RegisterOutOfOrder() {
    var m := new Middleware<int>();
    var first := Handler(1, 3, Continue);
    var second := Handler(2, 3, Continue);
    var r := m.RegisterMiddleware(FunctionArg(first), IntegerArg(2));
    assert r == Success([Entry(first, 2)]);
    r := m.RegisterMiddleware(FunctionArg(second), IntegerArg(1));
    InsertPlacesAfterNotGreater([Entry(first, 2)], Entry(second, 1), 0);
    assert r.value == [Entry(second, 1), Entry(first, 2)];
  }

  /** Rejected registrations report their error and leave the queue alone. */
  method RejectedRegistrations(m: Middleware<int>)
    requires m.Valid()
    modifies m
  {
    var before := m.queue;
    var r := m.RegisterMiddleware(NonFunctionArg, IntegerArg(2));
    assert r == Failure(NotAFunction) && r.error.Number() == 1;
    r := m.RegisterMiddleware(FunctionArg(Handler(3, 2, Continue)), IntegerArg(2));
    assert r == Failure(WrongArity) && r.error.Number() == 2;
    r := m.RegisterMiddleware(FunctionArg(Handler(4, 3, Continue)), NonIntegerArg);
    assert r == Failure(NotAnInteger) && r.error.Number() == 3;
    assert m.queue == before;
  }

  /** Two handlers that call `next`: both run, in order, and the route's value comes back. */
  method DispatchThroughTwoHandlers() {
    var queue := [Entry(Handler(1, 3, Continue), 1), Entry(Handler(2, 3, Continue), 2)];
    var route := (scope: int, req: int, res: int) => 200;
    var v, trace := RunQueue(0, 0, route, 0, queue);
    AllContinue(queue, 200);
    assert v == 200 && trace == [Called(0), Called(1), Routed];
  }

  /** A handler that never calls `next` stops the chain before the route. */
  method DispatchStoppedByHandler() {
    var queue := [Entry(Handler(1, 3, Continue), 1), Entry(Handler(5, 3, Halt(0)), 4), Entry(Handler(2, 3, Continue), 5)];
    var route := (scope: int, req: int, res: int) => 200;
    var v, trace := RunQueue(0, 0, route, 0, queue);
    AdvanceStopsAtHalt(queue, 0, 200, 1);
    AdvanceValue(queue, 0, 200, 1);
    assert v == 0 && trace == [Called(0), Called(1)];
  }
}
