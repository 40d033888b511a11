/**
 * The executor: one dispatch of a request through the queue.
 *
 * `_runQueue` keeps a cursor `nextFnNumber` in a closure and hands every
 * handler the continuation `next`. A call of `next` either reads the entry
 * at the cursor, moves the cursor on and calls that entry's handler with
 * `(req, res, next)`, or -- once the cursor is past the end -- calls the
 * route with the scope as receiver. Here the closure is a `Cursor` object
 * and `next` its recursive method `Next`; `Advance` says what one call of
 * `next` amounts to, as a function of the queue and the cursor.
 */
module Dispatch {
  import opened Handlers

  /** One call made by a dispatch: the handler at a queue index, or the route. */
  datatype Event = Called(index: nat) | Routed

  /**
   * What a call of `next` produced: the value it returned and the calls it
   * made, handlers and route alike, in the order they were made.
   */
  datatype Outcome<V> = Outcome(value: V, trace: seq<Event>)

  /**
   * A call of `next` with the cursor at `cursor`, over `queue`, where the
   * route returns `routeValue`.
   */
  function Advance<V>(queue: seq<Entry<V>>, cursor: nat, routeValue: V): Outcome<V>
    decreases |queue| - cursor
  {
    if cursor >= |queue| then Outcome(routeValue, [Routed])
    else
      match queue[cursor].fn.behaviour
      case Halt(x) => Outcome(x, [Called(cursor)])
      case Continue =>
        var rest := Advance(queue, cursor + 1, routeValue);
        Outcome(rest.value, [Called(cursor)] + rest.trace)
      case Forward(x) =>
        var rest := Advance(queue, cursor + 1, routeValue);
        Outcome(x, [Called(cursor)] + rest.trace)
  }

  /** The closure state of one dispatch, and an observation log of its calls. */
  class Cursor<Req, Res, Scope, V> {
    const queue: seq<Entry<V>>
    const req: Req
    const res: Res
    const route: (Scope, Req, Res) -> V
    const routeScope: Scope
    var nextFnNumber: nat
    // Observation log: the handler and route calls made so far, in order.
    ghost var trace: seq<Event>

    constructor (queue: seq<Entry<V>>, req: Req, res: Res, route: (Scope, Req, Res) -> V, routeScope: Scope)
      ensures this.queue == queue && this.req == req && this.res == res
      ensures this.route == route && this.routeScope == routeScope
      ensures nextFnNumber == 0 && trace == []
    {
      this.queue, this.req, this.res := queue, req, res;
      this.route, this.routeScope := route, routeScope;
      nextFnNumber, trace := 0, [];
    }

    /** The `next` continuation. */
    method Next() returns (v: V)
      modifies this
      decreases |queue| - nextFnNumber
      ensures var o := Advance(queue, old(nextFnNumber), route(routeScope, req, res));
              && v == o.value
              && trace == old(trace) + o.trace
              && nextFnNumber == old(nextFnNumber) + |o.trace| - (if Routed in o.trace then 1 else 0)
    {
      if nextFnNumber < |queue| {
        var i := nextFnNumber;
        var fn := queue[i].fn;
        nextFnNumber := i + 1;
        // fn(req, res, next)
        trace := trace + [Called(i)];
        match fn.behaviour {
          case Continue =>
            v := Next();
          case Halt(x) =>
            v := x;
          case Forward(x) =>
            var _ := Next();
            v := x;
        }
      } else {
        trace := trace + [Routed];
        v := route(routeScope, req, res);
      }
    }
  }

  // ---------------------------------------------------------------------
  // What a dispatch does, proved about Advance

  /**
   * `next` calls the handlers at consecutive indices from the cursor on,
   * each once, in order; the route, if called, is the last call and comes
   * only after the handler at the last index.
   */
  lemma {:induction false} AdvanceVisitsInOrder<V>(queue: seq<Entry<V>>, cursor: nat, routeValue: V)
    requires cursor <= |queue|
    ensures var t := Advance(queue, cursor, routeValue).trace;
            && t != []
            && cursor + |t| <= |queue| + 1
            && (forall k :: 0 <= k < |t| - 1 ==> t[k] == Called(cursor + k))
            && (t[|t| - 1] == Called(cursor + |t| - 1) || t[|t| - 1] == Routed)
            && (t[|t| - 1] == Routed ==> cursor + |t| - 1 == |queue|)
            && (t[|t| - 1].Called? ==> cursor + |t| - 1 < |queue|)
    decreases |queue| - cursor
  {
    if cursor < |queue| && !queue[cursor].fn.behaviour.Halt? {
      AdvanceVisitsInOrder(queue, cursor + 1, routeValue);
    }
  }

  /**
   * The route is called exactly when no handler from the cursor on halts.
   * Then it is called once, last, after the handlers at every remaining
   * index in order. Otherwise the handlers from the cursor up to the first
   * halting one are called in order, and that one is the last call.
   */
  lemma {:induction false} AdvanceRoutesUnlessHalted<V>(queue: seq<Entry<V>>, cursor: nat, routeValue: V)
    requires cursor <= |queue|
    ensures var t := Advance(queue, cursor, routeValue).trace;
            && (Routed in t <==> forall k :: cursor <= k < |queue| ==> !queue[k].fn.behaviour.Halt?)
            && (Routed in t ==>
                  && |t| == |queue| - cursor + 1
                  && t[|t| - 1] == Routed
                  && forall k :: 0 <= k < |t| - 1 ==> t[k] == Called(cursor + k))
            && (Routed !in t ==>
                  && t != [] && cursor + |t| <= |queue|
                  && (forall k :: 0 <= k < |t| ==> t[k] == Called(cursor + k))
                  && queue[cursor + |t| - 1].fn.behaviour.Halt?
                  && forall k :: cursor <= k < cursor + |t| - 1 ==> !queue[k].fn.behaviour.Halt?)
    decreases |queue| - cursor
  {
    AdvanceVisitsInOrder(queue, cursor, routeValue);
    if cursor < |queue| && !queue[cursor].fn.behaviour.Halt? {
      AdvanceRoutesUnlessHalted(queue, cursor + 1, routeValue);
      var t := Advance(queue, cursor, routeValue).trace;
      var rest := Advance(queue, cursor + 1, routeValue).trace;
      assert t == [Called(cursor)] + rest;
    }
  }

  /**
   * The first handler that does not call `next` ends the chain: the
   * handlers from the cursor up to and including it ran, in order, it was
   * the last call, and neither a later handler nor the route ran.
   */
  lemma {:induction false} AdvanceStopsAtHalt<V>(queue: seq<Entry<V>>, cursor: nat, routeValue: V, h: nat)
    requires cursor <= h < |queue|
    requires queue[h].fn.behaviour.Halt?
    requires forall k :: cursor <= k < h ==> !queue[k].fn.behaviour.Halt?
    ensures var t := Advance(queue, cursor, routeValue).trace;
            && |t| == h - cursor + 1
            && (forall k :: 0 <= k < |t| ==> t[k] == Called(cursor + k))
            && t[|t| - 1] == Called(h)
            && Routed !in t
    decreases h - cursor
  {
    AdvanceVisitsInOrder(queue, cursor, routeValue);
    if cursor < h {
      AdvanceStopsAtHalt(queue, cursor + 1, routeValue, h);
    }
  }

  /**
   * What `next` returns: the value of the first handler that does not
   * return `next`'s own value, or the route's value when every handler does.
   */
  lemma {:induction false} AdvanceValue<V>(queue: seq<Entry<V>>, cursor: nat, routeValue: V, h: nat)
    requires cursor <= h <= |queue|
    requires forall k :: cursor <= k < h ==> queue[k].fn.behaviour.Continue?
    requires h < |queue| ==> !queue[h].fn.behaviour.Continue?
    ensures Advance(queue, cursor, routeValue).value
         == if h == |queue| then routeValue else queue[h].fn.behaviour.result
    decreases h - cursor
  {
    if cursor < h {
      AdvanceValue(queue, cursor + 1, routeValue, h);
    }
  }

  /**
   * When every handler calls `next` and returns its value, a dispatch calls
   * handlers 0, 1, ..., n-1, each once and in that order, then the route
   * once, and returns the route's value.
   */
  lemma AllContinue<V>(queue: seq<Entry<V>>, routeValue: V)
    requires forall k :: 0 <= k < |queue| ==> queue[k].fn.behaviour.Continue?
    ensures var o := Advance(queue, 0, routeValue);
            && o.value == routeValue
            && |o.trace| == |queue| + 1
            && (forall k :: 0 <= k < |queue| ==> o.trace[k] == Called(k))
            && o.trace[|queue|] == Routed
  {
    AdvanceRoutesUnlessHalted(queue, 0, routeValue);
    AdvanceValue(queue, 0, routeValue, |queue|);
  }

  /**
   * A dispatch from cursor 0, summed up: the handlers are called at 0, 1,
   * ... in order. If none halts, the route follows the last of them. If one
   * halts, the first that does is the last call.
   */
  lemma DispatchFromStart<V>(queue: seq<Entry<V>>, routeValue: V)
    ensures var t := Advance(queue, 0, routeValue).trace;
            && (queue == [] ==> Advance(queue, 0, routeValue) == Outcome(routeValue, [Routed]))
            && t != [] && |t| <= |queue| + 1
            && (forall k :: 0 <= k < |t| - 1 ==> t[k] == Called(k))
            && (Routed in t <==> forall k :: 0 <= k < |queue| ==> !queue[k].fn.behaviour.Halt?)
            && (Routed in t ==> |t| == |queue| + 1 && t[|queue|] == Routed)
            && (Routed !in t ==>
                  && |t| <= |queue|
                  && t[|t| - 1] == Called(|t| - 1)
                  && queue[|t| - 1].fn.behaviour.Halt?
                  && forall k :: 0 <= k < |t| - 1 ==> !queue[k].fn.behaviour.Halt?)
  {
    AdvanceRoutesUnlessHalted(queue, 0, routeValue);
    var t := Advance(queue, 0, routeValue).trace;
    if Routed in t {
      assert |t| == |queue| + 1 && t[|queue|] == Routed;
    } else {
      assert t[|t| - 1] == Called(0 + (|t| - 1));
    }
  }

  /** `_runQueue`: a fresh cursor at 0, then one call of `next`. */
  method RunQueue<Req, Res, Scope, V>(req: Req, res: Res, route: (Scope, Req, Res) -> V, routeScope: Scope, queue: seq<Entry<V>>)
    returns (v: V, ghost trace: seq<Event>)
    ensures v == Advance(queue, 0, route(routeScope, req, res)).value
    ensures Outcome(v, trace) == Advance(queue, 0, route(routeScope, req, res))
    ensures queue == [] ==> v == route(routeScope, req, res) && trace == [Routed]
  {
    var cursor := new Cursor(queue, req, res, route, routeScope);
    v := cursor.Next();
    trace := cursor.trace;
  }
}
