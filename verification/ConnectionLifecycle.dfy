/** The lifecycle of a connection: connected or not, and a terminal failure that is recorded once. */
module ConnectionLifecycles {
  import opened Wrappers

  /** The two observable fields. */
  datatype Lifecycle<E> = Lifecycle(isConnected: bool, failure: Option<E>)

  function Failed<E>(l: Lifecycle<E>, error: E): Lifecycle<E> {
    if l.failure.Some? then l else Lifecycle(false, Some(error))
  }

  function Connected<E>(l: Lifecycle<E>): Lifecycle<E> {
    if l.failure.Some? then l else l.(isConnected := true)
  }

  function Disconnected<E>(l: Lifecycle<E>): Lifecycle<E> {
    l.(isConnected := false)
  }

  type Handler = nat

  /** The handlers a failure invokes: the registered ones, unless a failure was recorded before. */
  function InvokedByFailure<E>(l: Lifecycle<E>, onFailed: set<Handler>): set<Handler> {
    if l.failure.Some? then {} else onFailed
  }

  class ConnectionLifecycle<E> {
    var isConnected: bool
    var failure: Option<E>
    var onConnected: set<Handler>
    var onDisconnected: set<Handler>
    var onFailed: set<Handler>

    constructor ()
      ensures State() == Lifecycle(false, None) && onConnected == onDisconnected == onFailed == {}
    {
      isConnected, failure := false, None;
      onConnected, onDisconnected, onFailed := {}, {}, {};
    }

    function State(): Lifecycle<E>
      reads this
    {
      Lifecycle(isConnected, failure)
    }

    /** Registers a handler for a terminal failure. */
    method OnFailed(handler: Handler)
      modifies this`onFailed
      ensures onFailed == old(onFailed) + {handler}
    {
      onFailed := onFailed + {handler};
    }

    /** What the function that `onFailed` returns does. */
    method RemoveOnFailed(handler: Handler)
      modifies this`onFailed
      ensures onFailed == old(onFailed) - {handler}
    {
      onFailed := onFailed - {handler};
    }

    /** Records a terminal failure, unless one is recorded, and says which handlers it invokes. */
    method Fail(error: E) returns (invoked: set<Handler>)
      modifies this`isConnected, this`failure
      ensures State() == Failed(old(State()), error)
      ensures invoked == InvokedByFailure(old(State()), onFailed)
    {
      if failure.Some? {
        return {};
      }
      failure := Some(error);
      isConnected := false;
      invoked := onFailed;
    }

    method Connect() returns (invoked: set<Handler>)
      modifies this`isConnected
      ensures State() == Connected(old(State()))
      ensures invoked == if failure.Some? then {} else onConnected
    {
      if failure.Some? {
        return {};
      }
      isConnected := true;
      invoked := onConnected;
    }

    method Disconnect() returns (invoked: set<Handler>)
      modifies this`isConnected
      ensures State() == Disconnected(old(State())) && invoked == onDisconnected
    {
      isConnected := false;
      invoked := onDisconnected;
    }
  }
}
