/**
 * The values the middleware registry stores and the executor walks:
 * handlers, the arguments `registerMiddleware` receives, queue entries
 * and the three registration errors.
 */
module Handlers {

  /** What a handler does with the `next` continuation it is given. */
  datatype Behaviour<V> =
    | Continue            // calls `next()` and returns what it returns
    | Halt(result: V)     // returns `result` without ever calling `next()`
    | Forward(result: V)  // calls `next()`, ignores its value, returns `result`

  /**
   * A JavaScript function as the registry sees it: its identity, its
   * declared parameter count (`Function.length`) and its behaviour.
   */
  datatype Handler<V> = Handler(id: nat, arity: nat, behaviour: Behaviour<V>)

  /** The first argument of `registerMiddleware`, classified by `typeof`. */
  datatype HandlerArg<V> =
    | FunctionArg(fn: Handler<V>)
    | NonFunctionArg

  /** The second argument of `registerMiddleware`, classified by `Number.isInteger`. */
  datatype PriorityArg =
    | IntegerArg(value: int)
    | NonIntegerArg

  /** One element of the registry's queue: `{fn, priority}`. */
  datatype Entry<V> = Entry(fn: Handler<V>, priority: int)

  /** The three errors the registry registers with its reporter. */
  datatype RegisterError =
    | NotAFunction   // error number 1
    | WrongArity     // error number 2
    | NotAnInteger   // error number 3
  {
    /** The number the error is registered under with the reporter. */
    function Number(): nat {
      match this
      case NotAFunction => 1
      case WrongArity => 2
      case NotAnInteger => 3
    }
  }

  datatype Option<T> = None | Some(value: T)

  datatype Result<T, E> = Success(value: T) | Failure(error: E)
}
