# esrol-middlewares: a verified model of the middleware registry and executor

The library keeps an ordered queue of request handlers ("middlewares"). It
runs each request through them one after another, and then through a route.

- **Registry.** `registerMiddleware(middleware, priority)` applies three guards in order:
  1. the handler must be a function;
  2. it must declare exactly three parameters (`req, res, next`);
  3. the priority must be an integer.

  Each failed guard reports a numbered error: 1, 2 or 3. When all guards pass, `{fn, priority}` is appended to the queue. The whole queue is then re-sorted by ascending priority and returned.
- **Executor.** `onRequest(req, res, route, scope)` walks the queue with a cursor held in a closure. Each call of the continuation `next` either:
  - reads the entry at the cursor, moves the cursor on, and calls that handler with `(req, res, next)`; or
  - once the cursor is past the end, calls `route` with `scope` as receiver.

  A handler that never calls `next` ends the chain.

The model has five modules:

- `Handlers` (`handlers.dfy`): the values involved. A handler is its identity, its declared parameter count and its behaviour towards `next`. A handler can:
  - `Continue`: call `next` and return its value;
  - `Halt(v)`: never call `next`;
  - `Forward(v)`: call `next` but return its own value, as asynchronous handlers effectively do.

  This module also holds the arguments as `typeof`/`Number.isInteger` classify them, the queue entry and the three errors.
- `QueueOrder` (`queue_order.dfy`): the intended order of the queue, a stable ascending sort by priority (`SortByPriority`). It proves that this sort is sorted, a permutation and stable, and that it is the only sort with those properties.
- `Dispatch` (`dispatch.dfy`): the executor. The closure is a `Cursor` object; `next` is its recursive method `Next`, which keeps `nextFnNumber` and increments it before calling the handler. The function `Advance` says what one call of `next` produces: the returned value and the trace of the calls it made, in order (`Called(i)` for the handler at index `i`, `Routed` for the route). The trace is a ghost observation log: the source keeps no such record, and the compiled methods return only the value. Lemmas state the order of visits, when the route runs, where a halting handler stops the chain and what value comes back.
- `Middlewares` (`middleware.dfy`): the `Middleware` class. Its `queue` field is updated in place. A ghost `history` records the registrations in order, and the object invariant is `queue == SortByPriority(history)`.
- `Scenarios` (`middleware.dfy`): small clients modelled on `tests/test.js`.

The guards of `registerMiddleware` (lib/middleware.js:13-21) report through an external error reporter, and the tests (tests/test.js:62-98) expect each report to throw. The model therefore treats a failed guard as ending the call with that error, before anything is pushed.

## Model

| member | source | states |
|---|---|---|
| `Middlewares.Validate` | lib/middleware.js:12-21 | The first failing guard decides the error. A non-function is error 1 whatever its arity or the priority. A function whose arity is not 3 is error 2 whatever the priority. A non-integer priority is error 3 only when both handler guards pass. No error exactly when all three guards pass. |
| `Middlewares.Middleware.constructor` | lib/middleware.js:6-10 | A new registry has an empty queue and no registrations, which satisfies the ordering invariant. |
| `Middlewares.Middleware.RegisterMiddleware` | lib/middleware.js:12-23 | A failed guard returns its error and leaves the queue unchanged. On success the new entry is recorded as the latest registration, and the returned value is the object's own queue. That queue has one more entry and is a permutation of the old entries plus `{fn, priority}`: the new entry is inserted into the sorted queue. The queue stays the stable sort of all registrations. |
| `Middlewares.Middleware.PushMiddlewareToQueue` | lib/middleware.js:29-35 | Appending and then re-sorting equals inserting the entry into the already sorted queue. The invariant is preserved, and the sorted queue is returned. |
| `Middlewares.Middleware.SortQueueByPriority` | lib/middleware.js:37-42 | The queue is replaced by its stable ascending sort, and that queue is returned. |
| `Middlewares.Middleware.OnRequest` | lib/middleware.js:25-27 | Dispatches the object's queue from cursor 0 with the route applied to `(scope, req, res)`. It returns the dispatch's value, and its ghost trace of calls is the one `Advance` gives. |
| `Middlewares.QueueOrdered` | lib/middleware.js:29-42 | A queue built by registrations is sorted by ascending priority and holds exactly the registered entries. Within each priority it keeps registration order. |
| `QueueOrder.InsertPermutes` | lib/middleware.js:29-33 | Inserting adds exactly the new entry: the length grows by one, and the multiset gains the entry. |
| `QueueOrder.InsertSorted` | lib/middleware.js:37-40 | Inserting into a sorted queue leaves it sorted. |
| `QueueOrder.InsertPlacesAfterNotGreater` | lib/middleware.js:37-40 | In a sorted queue the new entry lands after every entry of priority not greater than its own, and before every entry of greater priority. |
| `QueueOrder.InsertStable` | lib/middleware.js:37-40 | Within each priority, inserting keeps the old order and puts the new entry last. |
| `QueueOrder.SortPermutes` | lib/middleware.js:37-41 | Sorting keeps the length and the multiset of entries. |
| `QueueOrder.SortSorted` | lib/middleware.js:37-41 | The sorted queue is in ascending priority, so lower priorities run first. |
| `QueueOrder.SortStable` | lib/middleware.js:37-41 | Entries of equal priority keep the order they had before sorting. |
| `QueueOrder.SortedFixpoint` | lib/middleware.js:37-41 | Re-sorting an already sorted queue changes nothing. |
| `QueueOrder.SortedUnique` | lib/middleware.js:37-41 | If two sorted queues agree, priority by priority, on their entries and their order, they are equal. |
| `QueueOrder.StableSortCharacterised` | lib/middleware.js:37-41 | A queue is a stable ascending sort of `s` exactly when it equals `SortByPriority(s)`. |
| `Dispatch.Cursor.constructor` | lib/middleware.js:44-47 | A dispatch starts with the cursor at 0, nothing called yet, and the request, response, route and scope captured. |
| `Dispatch.Cursor.Next` | lib/middleware.js:47-57 | One call of `next` returns `Advance`'s value for the cursor it starts at and appends `Advance`'s trace to the log. The cursor advances by the number of handlers called. |
| `Dispatch.AdvanceVisitsInOrder` | lib/middleware.js:47-57 | Every call but the last is a handler call, at consecutive indices from the cursor, in queue order. The last call is the next handler, which is always inside the queue, or the route. The route only comes after the handler at the last index. |
| `Dispatch.AdvanceRoutesUnlessHalted` | lib/middleware.js:49-56 | The route is called exactly when no handler from the cursor on fails to call `next`. It is then called once, as the last call, after the handlers at every remaining index in order. Otherwise the handlers from the cursor up to the first one that does not call `next` are called in order, and that one is the last call. |
| `Dispatch.AdvanceStopsAtHalt` | lib/middleware.js:49-52 | The cursor moves before the handler runs. So the first handler that never calls `next` ends the chain: exactly the handlers from the cursor up to and including it ran, in order, it was the last call, and neither a later handler nor the route ran. |
| `Dispatch.AdvanceValue` | lib/middleware.js:47-57 | `next` returns the value of the first handler that does not pass on `next`'s result. If every handler passes it on, `next` returns the route's value. |
| `Dispatch.AllContinue` | lib/middleware.js:44-59 | When every handler calls `next` and returns its value, the calls are exactly handlers 0..n-1 in order and then the route, once; the route's value is returned. |
| `Dispatch.DispatchFromStart` | lib/middleware.js:44-59 | From cursor 0: over an empty queue the only call is the route, whose value is returned. Otherwise handlers are called at 0, 1, … in order. The route is called exactly when no handler halts, and then once, last, after all n handlers. When a handler halts, the first one that does is the last call. |
| `Dispatch.RunQueue` | lib/middleware.js:44-60 | A dispatch is one call of `next` from cursor 0. Its value and ghost trace are those of `Advance` from cursor 0, so `DispatchFromStart` describes it. Over an empty queue it calls only the route and returns its value. |

## Left out

- The error reporter (`xena-errors`) is not part of this model. Its messages and formatting are left out; a report is the error kind returned as `Failure`.
- Reflection: `typeof`, `Function.length` and `Number.isInteger` are fields and constructors of the argument values. Priorities are unbounded integers. A JavaScript number that is not an integer, and any non-number, is `NonIntegerArg`.
- SortQueueByPriority: sorts by the intended stable ascending order, not by the source's comparator. The comparator returns the boolean `b.priority < a.priority` where `Array.prototype.sort` expects a signed number, so its ordering depends on the engine's sort algorithm, which is not modelled.
- Asynchronous handlers that call `next` later, from a timer or I/O callback, are modelled as calling it synchronously. Only the order of calls and the values returned are modelled, not timing. A handler that returns before its deferred `next` runs is `Forward`.
- A handler's choice whether to call `next` is fixed per handler value. It does not depend on the request, the response or the value `next` returns. Within one dispatch each queue entry runs at most once. A function registered twice makes the same choice at both of its positions in the model, whereas a JavaScript function could choose differently on its second call.
- Handlers' writes to `req` and `res` are not modelled. The source passes the same objects through every handler to `route.call(routeScope, req, res)` (lib/middleware.js:55), so the route sees what the handlers changed; `example/dummy.js` counts handlers in `req.iterator` and reads the count in the route. The model evaluates the route once, as `route(scope, req, res)` on the arguments of `onRequest`, so the route's value cannot depend on what the handlers did.
- `onRequest` passes the live `_queue` array, so registrations made while an asynchronous dispatch is pending would be seen by that dispatch. The model dispatches over the queue's value at the call.
- `registerMiddleware` returns the live `_queue` array itself (lib/middleware.js:22, 34, 41), so a caller that mutates the returned array changes the registry without passing the guards. The model returns the queue's value; this aliasing is not captured.
- A handler that calls `next` twice (which runs the rest of the chain twice) is not modelled. Neither are exceptions thrown by handlers or the route, which propagate out of `next` uncaught.
- The descriptor form `registerMiddleware({priority, middleware})` goes through `index.js`, which is not part of this model. Only the positional `(middleware, priority)` form of `lib/middleware.js` is modelled.
- `example/dummy.js` (HTTP server wiring) and `tests/mocks/*` (fixtures) hold no logic of the core.
