/** The retrying runtime connection over its explicit transition table, with any
    answers from the connector. */
module Connection {
  import opened Common

  datatype ConnectionState =
    | Idle | Resolving | Connecting | Ready | Degraded | Reconnecting | Failed | Closed

  datatype Error = ConnectionClosed | TransitionRefused | NoTransport | ConnectorError(code: int)

  type TransportId = nat
  type Endpoint = string

  /** What the connector answers in one attempt; the endpoint is known once
      resolving has succeeded. */
  datatype Attempt =
    | ResolveFails(error: Error)
    | HandshakeFails(endpoint: Endpoint, error: Error)
    | HandshakeWithoutTransport(endpoint: Endpoint)
    | Connects(endpoint: Endpoint, transport: TransportId)

  datatype Conn = Conn(
    state: ConnectionState, endpoint: Option<Endpoint>, transport: Option<TransportId>, lastError: Option<Error>)

  const NEW: Conn := Conn(Idle, None, None, None)

  predicate Allowed(from: ConnectionState, next: ConnectionState) {
    match from
    case Idle => next.Resolving? || next.Closed?
    case Resolving => next.Connecting? || next.Degraded? || next.Failed? || next.Closed?
    case Connecting => next.Ready? || next.Degraded? || next.Failed? || next.Closed?
    case Ready => next.Resolving? || next.Closed?
    case Degraded => next.Reconnecting? || next.Failed? || next.Closed?
    case Reconnecting => next.Resolving? || next.Failed? || next.Closed?
    case Failed => next.Resolving? || next.Closed?
    case Closed => next.Closed?
  }

  /** The table read by where it leads: Ready only from Connecting, Connecting only from
      Resolving, a retry through Degraded and Reconnecting, and Closed from everywhere. */
  lemma TableByTarget(from: ConnectionState, next: ConnectionState)
    ensures Allowed(from, next) <==>
              match next
              case Idle => false
              case Resolving => from in {Idle, Ready, Reconnecting, Failed}
              case Connecting => from == Resolving
              case Ready => from == Connecting
              case Degraded => from in {Resolving, Connecting}
              case Reconnecting => from == Degraded
              case Failed => from in {Resolving, Connecting, Degraded, Reconnecting}
              case Closed => true
  {
  }

  /** The connector's own errors; the connection's refusals are not among them. */
  predicate ConnectorAnswers(a: Attempt) {
    match a
    case ResolveFails(e) => e.ConnectorError?
    case HandshakeFails(_, e) => e.ConnectorError?
    case _ => true
  }

  /** The error an attempt ends with, told from the connector's answer alone. */
  function AttemptError(a: Attempt): Option<Error> {
    match a
    case ResolveFails(e) => Some(e)
    case HandshakeFails(_, e) => Some(e)
    case HandshakeWithoutTransport(_) => Some(NoTransport)
    case Connects(_, _) => None
  }

  function EndpointAfter(endpoint: Option<Endpoint>, a: Attempt): Option<Endpoint> {
    if a.ResolveFails? then endpoint else Some(a.endpoint)
  }

  /** Where a connect ends, told from the connector's answers alone: the last
      attempt made decides. */
  function Connected(c: Conn, a: Attempt): Conn {
    if a.Connects? then Conn(Ready, Some(a.endpoint), Some(a.transport), None)
    else Conn(Failed, EndpointAfter(c.endpoint, a), None, AttemptError(a))
  }

  function ConnectOutcome(c: Conn, reconnect: bool, first: Attempt, second: Attempt): Conn {
    if c.state.Closed? then c
    else if first.Connects? || !reconnect then Connected(c, first)
    else Connected(c.(endpoint := EndpointAfter(c.endpoint, first)), second)
  }

  function CloseOutcome(c: Conn, closeError: Option<Error>): Conn {
    if c.state.Closed? then c else Conn(Closed, c.endpoint, None, closeError)
  }

  /** What holds between calls. */
  predicate Settled(c: Conn) {
    && (c.state.Idle? || c.state.Ready? || c.state.Failed? || c.state.Closed?)
    && (c.state.Ready? <==> c.transport.Some?)
    && (c.state.Ready? ==> c.endpoint.Some? && c.lastError.None?)
    && (c.state.Failed? ==> c.lastError.Some? && c.lastError != Some(TransitionRefused))
  }

  // ------------------------------------------------------------- whole runs

  datatype Call =
    | ConnectCall(reconnect: bool, first: Attempt, second: Attempt)
    | CloseCall(closeError: Option<Error>)

  predicate CallAnswers(call: Call) {
    call.ConnectCall? ==> ConnectorAnswers(call.first) && ConnectorAnswers(call.second)
  }

  function Do(c: Conn, call: Call): Conn {
    match call
    case ConnectCall(reconnect, first, second) => ConnectOutcome(c, reconnect, first, second)
    case CloseCall(closeError) => CloseOutcome(c, closeError)
  }

  function DoAll(c: Conn, calls: seq<Call>): Conn
    decreases |calls|
  {
    if calls == [] then c else DoAll(Do(c, calls[0]), calls[1..])
  }

  /** Between calls the state is Idle, Ready, Failed or Closed, and Ready exactly
      when a transport is held; Closed is never left and holds no transport. */
  lemma {:induction false} RunsStaySettled(c: Conn, calls: seq<Call>)
    requires Settled(c) && forall i :: 0 <= i < |calls| ==> CallAnswers(calls[i])
    ensures Settled(DoAll(c, calls))
    ensures c.state.Closed? ==> DoAll(c, calls) == c
    decreases |calls|
  {
    if calls != [] {
      RunsStaySettled(Do(c, calls[0]), calls[1..]);
    }
  }

  predicate HasClose(calls: seq<Call>) {
    exists i :: 0 <= i < |calls| && calls[i].CloseCall?
  }

  /** The last attempt that a connect makes: the second one only as a retry. */
  function Deciding(call: Call): Attempt
    requires call.ConnectCall?
  {
    if call.first.Connects? || !call.reconnect then call.first else call.second
  }

  lemma {:induction false} DoAllExtends(c: Conn, calls: seq<Call>, call: Call)
    ensures DoAll(c, calls + [call]) == Do(DoAll(c, calls), call)
    decreases |calls|
  {
    if calls == [] {
      assert calls + [call] == [call] && [call][1..] == [];
    } else {
      assert (calls + [call])[1..] == calls[1..] + [call];
      DoAllExtends(Do(c, calls[0]), calls[1..], call);
    }
  }

  /** Where a run ends, told from its calls alone: Closed if and only if one of them closed;
      otherwise the last attempt of the last connect decides between Ready, with that
      attempt's transport and endpoint, and Failed, with its error. */
  lemma {:induction false} EndIsToldByTheCalls(calls: seq<Call>)
    ensures var c := DoAll(NEW, calls);
            && (c.state.Closed? <==> HasClose(calls))
            && (c.state.Idle? <==> calls == [])
            && (calls != [] && !HasClose(calls) ==>
                  var last := calls[|calls| - 1];
                  && last.ConnectCall?
                  && (c.state.Ready? <==> Deciding(last).Connects?)
                  && (c.state.Failed? <==> !Deciding(last).Connects?)
                  && c.lastError == AttemptError(Deciding(last))
                  && c.transport == (if Deciding(last).Connects? then Some(Deciding(last).transport) else None)
                  && (!Deciding(last).ResolveFails? ==> c.endpoint == Some(Deciding(last).endpoint)))
    decreases |calls|
  {
    if calls != [] {
      var front, last := calls[..|calls| - 1], calls[|calls| - 1];
      assert calls == front + [last];
      DoAllExtends(NEW, front, last);
      EndIsToldByTheCalls(front);
      if HasClose(front) {
        var i :| 0 <= i < |front| && front[i].CloseCall?;
        assert calls[i].CloseCall?;
      }
      if HasClose(calls) && !HasClose(front) {
        var i :| 0 <= i < |calls| && calls[i].CloseCall?;
        assert i < |front| ==> front[i].CloseCall?;
      }
    }
  }

  // --------------------------------------------------------------- the object

  class RuntimeConnection {
    var state: ConnectionState
    var endpoint: Option<Endpoint>
    var transport: Option<TransportId>
    var lastError: Option<Error>

    ghost function View(): Conn
      reads this
    {
      Conn(state, endpoint, transport, lastError)
    }

    constructor ()
      ensures View() == NEW
    {
      state, endpoint, transport, lastError := Idle, None, None, None;
    }

    method Transition(next: ConnectionState) returns (error: Option<Error>)
      modifies this`state
      ensures error == if Allowed(old(state), next) then None else Some(TransitionRefused)
      ensures state == if Allowed(old(state), next) then next else old(state)
    {
      if !Allowed(state, next) {
        return Some(TransitionRefused);
      }
      state := next;
      return None;
    }

    method Fail(error: Option<Error>)
      modifies this
      ensures transport == None && endpoint == old(endpoint)
      ensures Allowed(old(state), Failed) ==> state == Failed && lastError == error
      ensures !Allowed(old(state), Failed) ==> state == old(state)
    {
      transport := None;
      lastError := error;
      if state != Closed {
        var refused := Transition(Failed);
        if refused.Some? {
          lastError := refused;
        }
      }
    }

    /** One attempt, made from Resolving: the table refuses none of its steps. */
    method ConnectAttempt(a: Attempt) returns (error: Option<Error>)
      requires state == Resolving
      modifies this
      ensures error == AttemptError(a) && endpoint == EndpointAfter(old(endpoint), a)
      ensures a.Connects? ==> state == Ready && transport == Some(a.transport) && lastError == None
      ensures a.ResolveFails? ==> error == Some(a.error) && endpoint == old(endpoint) && state == Resolving
      ensures a.HandshakeFails? ==> error == Some(a.error) && endpoint == Some(a.endpoint)
      ensures a.HandshakeWithoutTransport? ==> error == Some(NoTransport) && endpoint == Some(a.endpoint)
      ensures a.Connects? ==> error == None && endpoint == Some(a.endpoint)
      ensures !a.Connects? ==>
                (state == Resolving || state == Connecting) &&
                transport == old(transport) && lastError == old(lastError)
    {
      if a.ResolveFails? {
        return Some(a.error);
      }
      endpoint := Some(a.endpoint);
      error := Transition(Connecting);
      if error.Some? {
        return;
      }
      if a.HandshakeFails? {
        return Some(a.error);
      }
      if a.HandshakeWithoutTransport? {
        return Some(NoTransport);
      }
      transport := Some(a.transport);
      lastError := None;
      error := Transition(Ready);
    }

    /** Connects, once or with one retry.  On a connection that is not closed it
        ends in Ready or Failed as the connector's answers decide. */
    method Connect(reconnect: bool, first: Attempt, second: Attempt) returns (error: Option<Error>)
      requires Settled(View())
      modifies this
      ensures View() == ConnectOutcome(old(View()), reconnect, first, second)
      ensures old(state) == Closed ==> error == Some(ConnectionClosed)
      ensures old(state) != Closed ==> error == lastError
    {
      if state == Closed {
        return Some(ConnectionClosed);
      }
      var attempts := if reconnect then 2 else 1;
      for attempt := 0 to attempts
        invariant attempt == 0 ==> View() == old(View()) && Settled(View()) && state != Closed
        invariant attempt == 1 ==> state == Reconnecting && attempts == 2 && !first.Connects?
        invariant attempt == 1 ==> endpoint == EndpointAfter(old(endpoint), first)
        invariant attempt != 2
      {
        var refused := Transition(Resolving);
        if refused.Some? {
          return refused;
        }
        var failed := ConnectAttempt(if attempt == 0 then first else second);
        if failed.None? {
          return None;
        }
        lastError := failed;
        if attempt + 1 == attempts {
          Fail(lastError);
          return lastError;
        }
        refused := Transition(Degraded);
        if refused.Some? {
          return refused;
        }
        refused := Transition(Reconnecting);
        if refused.Some? {
          return refused;
        }
      }
      return lastError;
    }

    /** Closes for good; the connector's own close error is only recorded. */
    method Close(closeError: Option<Error>) returns (error: Option<Error>)
      requires Settled(View())
      modifies this
      ensures View() == CloseOutcome(old(View()), closeError)
      ensures error == if old(state) == Closed then None else closeError
      ensures old(state) != Closed ==>
                state == Closed && transport == None && endpoint == old(endpoint) && lastError == closeError
    {
      if state == Closed {
        return None;
      }
      transport := None;
      var refused := Transition(Closed);
      if refused.Some? {
        return refused;
      }
      lastError := closeError;
      return closeError;
    }
  }
}
