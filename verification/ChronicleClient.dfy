/** The client's connection: its connect and recovery operations, how it classifies failures, and when it gives up. */
module ChronicleClients {
  import opened Wrappers
  import opened ConnectionLifecycles
  import TokenProvider

  const UNAUTHENTICATED := 16
  const RECONNECTABLE_CODES: set<int> := {4, 13, 14}
  const REJECTIONS_TO_GIVE_UP := 3

  /** What connection attempts and calls fail with. A remote error may carry the token failure behind it. */
  datatype ConnectionError =
    | IncompatibleServer
    | RejectedCredentials(cause: ConnectionError)
    | ObserversRequireKeepAlive
    | Remote(code: int, tokenFailure: Option<TokenProvider.Failure>, mentionsConnection: bool)

  predicate IsTerminal(error: ConnectionError) {
    error.IncompatibleServer? || error.RejectedCredentials?
  }

  predicate IsCredentialRejection(hasApiKey: bool, error: ConnectionError) {
    && error.Remote? && error.code == UNAUTHENTICATED
    && (hasApiKey || (error.tokenFailure.Some? && TokenProvider.IsAuthenticationRejection(error.tokenFailure.value)))
  }

  predicate ShouldReconnect(hasApiKey: bool, error: ConnectionError) {
    && error.Remote?
    && (|| (error.code == UNAUTHENTICATED && (hasApiKey || error.tokenFailure.Some?))
        || error.code in RECONNECTABLE_CODES
        || error.mentionsConnection)
  }

  /**
   * A failure counts against the credentials when its code is 16 and the client has an API key, or when the token
   * behind it was refused by HTTP status 400 or 401 with one of three codes.
   */
  lemma {:induction false} RejectionsByCodeAndCause(hasApiKey: bool, error: ConnectionError)
    ensures IsCredentialRejection(hasApiKey, error) <==>
            && error.Remote? && error.code == 16
            && (|| hasApiKey
                || exists status, code ::
                     && error.tokenFailure == Some(TokenProvider.Http(status, Some(code)))
                     && (status == 400 || status == 401)
                     && (code == "invalid_client" || code == "unauthorized_client" || code == "invalid_grant"))
  {
    if error.Remote? && error.tokenFailure.Some? {
      var failure := error.tokenFailure.value;
      TokenProvider.RejectionsByStatusAndCode(failure);
      if failure.Http? && failure.code.Some? {
        assert error.tokenFailure == Some(TokenProvider.Http(failure.status, Some(failure.code.value)));
      }
    }
  }

  /**
   * A failure starts a recovery when the kernel refused the authentication of a client with an API key or of a token
   * that failed, when its code is 4, 13 or 14, or when its text mentions the connection; the errors that end the
   * connection and the one about keep-alive start none.
   */
  lemma {:induction false} RecoveriesByCodeAndCause(hasApiKey: bool, error: ConnectionError)
    ensures ShouldReconnect(hasApiKey, error) <==>
            match error
            case Remote(code, tokenFailure, mentionsConnection) =>
              || mentionsConnection || code == 4 || code == 13 || code == 14
              || (code == 16 && (hasApiKey || tokenFailure != None))
            case _ => false
    ensures IsTerminal(error) <==> error == IncompatibleServer || exists cause :: error == RejectedCredentials(cause)
  {
    if error.RejectedCredentials? {
      assert error == RejectedCredentials(error.cause);
    }
  }

  /**
   * What a failure does to the count of rejections: an ending error leaves it alone, a rejection adds one and anything
   * else resets it; the connection is given up on an ending error and on the third rejection in a row.
   */
  lemma {:induction false} FailuresAreCounted(c: Client, hasApiKey: bool, error: ConnectionError)
    ensures var after := Classified(c, hasApiKey, error);
            && (error.IncompatibleServer? || error.RejectedCredentials? ==>
                  after == c.(connectionFailure := Some(error), lifecycle := after.lifecycle)
                  && GivesUp(c, hasApiKey, error))
            && (error.ObserversRequireKeepAlive? && c.rejections > 0 ==>
                  after == c.(rejections := 0) && !GivesUp(c, hasApiKey, error))
            && (error.Remote? && (error.code != 16 || (!hasApiKey && error.tokenFailure.None?)) ==>
                  after == c.(rejections := 0) && !GivesUp(c, hasApiKey, error))
            && (error.Remote? && error.code == 16 && hasApiKey ==>
                  && after.rejections == c.rejections + 1
                  && (GivesUp(c, hasApiKey, error) <==> c.rejections == 2)
                  && (c.rejections == 2 ==> after.connectionFailure == Some(RejectedCredentials(error))))
  {
  }

  /** The client's fields. An operation is named by the run it stands for. */
  datatype Client = Client(
    lifecycle: Lifecycle<ConnectionError>, connectionFailure: Option<ConnectionError>, rejections: nat,
    connectOperation: Option<nat>, reconnectOperation: Option<nat>, isDisposed: bool)

  function CountRejection(c: Client, hasApiKey: bool, error: ConnectionError): Client {
    if IsTerminal(error) then c
    else c.(rejections := if IsCredentialRejection(hasApiKey, error) then c.rejections + 1 else 0)
  }

  /** The terminal error a failure amounts to, if any, given the rejections counted with it. */
  function TerminalError(rejections: nat, error: ConnectionError): Option<ConnectionError> {
    if IsTerminal(error) then Some(error)
    else if rejections == REJECTIONS_TO_GIVE_UP then Some(RejectedCredentials(error))
    else None
  }

  function GiveUp(c: Client, error: ConnectionError): Client {
    c.(connectionFailure := Some(error), lifecycle := Failed(c.lifecycle, error))
  }

  /** A failure classified, and the connection given up when it is terminal. */
  function Classified(c: Client, hasApiKey: bool, error: ConnectionError): Client {
    var counted := CountRejection(c, hasApiKey, error);
    match TerminalError(counted.rejections, error)
    case Some(terminal) => GiveUp(counted, terminal)
    case None => counted
  }

  predicate GivesUp(c: Client, hasApiKey: bool, error: ConnectionError) {
    TerminalError(CountRejection(c, hasApiKey, error).rejections, error).Some?
  }

  /** The failure handlers that classifying a failure invokes. */
  function InvokedByCatch(c: Client, hasApiKey: bool, error: ConnectionError, onFailed: set<Handler>): set<Handler> {
    if GivesUp(c, hasApiKey, error) then InvokedByFailure(c.lifecycle, onFailed) else {}
  }

  datatype Wait = Throws(error: ConnectionError) | Joins(run: nat) | Starts(run: nat) | Goes

  /** The client's methods, each cut at its awaits. */
  class ChronicleClient {
    const hasApiKey: bool
    const lifecycle: ConnectionLifecycle<ConnectionError>
    var connectionFailure: Option<ConnectionError>
    var rejections: nat
    var connectOperation: Option<nat>
    var reconnectOperation: Option<nat>
    var isDisposed: bool

    constructor (hasApiKey: bool)
      ensures fresh(lifecycle) && this.hasApiKey == hasApiKey
      ensures State() == Client(Lifecycle(false, None), None, 0, None, None, false)
    {
      this.hasApiKey := hasApiKey;
      lifecycle := new ConnectionLifecycle();
      connectionFailure, rejections, connectOperation, reconnectOperation, isDisposed := None, 0, None, None, false;
    }

    function State(): Client
      reads this, lifecycle
    {
      Client(lifecycle.State(), connectionFailure, rejections, connectOperation, reconnectOperation, isDisposed)
    }

    method TerminalConnectionError(error: ConnectionError) returns (terminal: Option<ConnectionError>)
      modifies this`rejections
      ensures State() == CountRejection(old(State()), hasApiKey, error) && terminal == TerminalError(rejections, error)
    {
      if IsTerminal(error) {
        return Some(error);
      }
      rejections := if IsCredentialRejection(hasApiKey, error) then rejections + 1 else 0;
      if rejections == REJECTIONS_TO_GIVE_UP {
        return Some(RejectedCredentials(error));
      }
      terminal := None;
    }

    method FailConnection(error: ConnectionError) returns (invoked: set<Handler>)
      modifies this`connectionFailure, lifecycle
      ensures State() == GiveUp(old(State()), error)
      ensures invoked == InvokedByFailure(old(lifecycle.State()), old(lifecycle.onFailed))
    {
      connectionFailure := Some(error);
      invoked := lifecycle.Fail(error);
    }

    /**
     * The `catch` of an attempt and of a call: whether the caller throws the terminal error on, and the handlers
     * invoked.
     */
    method Catch(error: ConnectionError) returns (gaveUp: bool, invoked: set<Handler>)
      modifies this, lifecycle
      ensures State() == Classified(old(State()), hasApiKey, error) && gaveUp == GivesUp(old(State()), hasApiKey, error)
      ensures invoked == InvokedByCatch(old(State()), hasApiKey, error, old(lifecycle.onFailed))
    {
      invoked := {};
      var terminal := TerminalConnectionError(error);
      if terminal.Some? {
        invoked := FailConnection(terminal.value);
      }
      gaveUp := terminal.Some?;
    }

    /**
     * `ensureConnected` from where no recovery is under way: goes on, joins the connect operation, or starts the run
     * named `run`.
     */
    method EnsureConnecting(run: nat) returns (wait: Wait)
      modifies this`connectOperation
      ensures wait == EnsureWait(old(State()), run)
      ensures State() == if wait.Starts? then old(State()).(connectOperation := Some(run)) else old(State())
    {
      if lifecycle.isConnected {
        return Goes;
      }
      if connectOperation.Some? {
        return Joins(connectOperation.value);
      }
      connectOperation := Some(run);
      wait := Starts(run);
    }

    method Reconnect(run: nat) returns (wait: Wait)
      modifies this`reconnectOperation
      ensures wait == ReconnectWait(old(State()), run)
      ensures State() == if wait.Starts? then old(State()).(reconnectOperation := Some(run)) else old(State())
    {
      if connectionFailure.Some? {
        return Throws(connectionFailure.value);
      }
      if reconnectOperation.Some? {
        return Joins(reconnectOperation.value);
      }
      reconnectOperation := Some(run);
      wait := Starts(run);
    }

    /** `recoverConnection` up to its first await. */
    method LeaveConnected()
      modifies lifecycle
      ensures State() == Left(old(State()))
    {
      if lifecycle.isConnected {
        var _ := lifecycle.Disconnect();
      }
    }

    method ProbeSucceeded()
      modifies this`rejections
      ensures State() == old(State()).(rejections := 0)
    {
      rejections := 0;
    }

    method MarkConnected()
      modifies lifecycle
      ensures State() == old(State()).(lifecycle := Connected(old(State()).lifecycle))
    {
      var _ := lifecycle.Connect();
    }

    method Dispose()
      modifies this`isDisposed, lifecycle
      ensures State() == Left(old(State())).(isDisposed := true)
    {
      isDisposed := true;
      if lifecycle.isConnected {
        var _ := lifecycle.Disconnect();
      }
    }
  }

  function EnsureWait(c: Client, run: nat): Wait {
    if c.lifecycle.isConnected then Goes
    else if c.connectOperation.Some? then Joins(c.connectOperation.value)
    else Starts(run)
  }

  function ReconnectWait(c: Client, run: nat): Wait {
    if c.connectionFailure.Some? then Throws(c.connectionFailure.value)
    else if c.reconnectOperation.Some? then Joins(c.reconnectOperation.value)
    else Starts(run)
  }

  function Left(c: Client): Client {
    if c.lifecycle.isConnected then c.(lifecycle := Disconnected(c.lifecycle)) else c
  }
}
