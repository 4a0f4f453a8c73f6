/**
 * WebSocketSessionManager: the live connections by WebSocket session id and,
 * per connection, a FIFO queue of callbacks to run when the connection goes
 * away. Callbacks are opaque tokens; running one appends it to `ran`.
 */
module SessionManager {
  import opened Wrappers
  import opened SessionContext

  type Callback = nat

  datatype Manager = Manager(
    sessions: map<string, Context>,
    callbacks: map<string, seq<Callback>>,
    ran: seq<Callback>)

  /** A connection's context as it is first built: no request running. */
  function NewContext(sessionCode: Option<string>): (c: Context)
    ensures Idle(c) && c.execution.None? && c.sessionCode == sessionCode
  {
    Context(sessionCode, None, None)
  }

  /** addSession: registers the connection with an empty callback queue (replacing any earlier queue). */
  function AddSession(m: Manager, id: string, sessionCode: Option<string>): (r: Manager)
    ensures id in r.sessions && r.sessions[id] == NewContext(sessionCode)
    ensures id in r.callbacks && r.callbacks[id] == []
    ensures forall k :: k != id ==> (k in r.sessions <==> k in m.sessions) && (k in r.callbacks <==> k in m.callbacks)
    ensures forall k :: k != id && k in m.sessions ==> r.sessions[k] == m.sessions[k]
    ensures forall k :: k != id && k in m.callbacks ==> r.callbacks[k] == m.callbacks[k]
    ensures r.ran == m.ran
  {
    Manager(m.sessions[id := NewContext(sessionCode)], m.callbacks[id := []], m.ran)
  }

  /** getContext. */
  function GetContext(m: Manager, id: string): (r: Option<Context>)
    ensures r.Some? <==> id in m.sessions
    ensures r.Some? ==> r.value == m.sessions[id]
  {
    if id in m.sessions then Some(m.sessions[id]) else None
  }

  /** removeSession: forgets the connection and runs its queued callbacks, oldest first, dropping the queue. */
  function RemoveSession(m: Manager, id: string): (r: Manager)
    ensures id !in r.sessions && id !in r.callbacks
    ensures r.sessions == m.sessions - {id} && r.callbacks == m.callbacks - {id}
    ensures r.ran == m.ran + (if id in m.callbacks then m.callbacks[id] else [])
  {
    var pending := if id in m.callbacks then m.callbacks[id] else [];
    Manager(m.sessions - {id}, m.callbacks - {id}, m.ran + pending)
  }

  /**
   * addRemovedCallback: ignored for a null id or callback; run at once when the
   * connection is unknown or has no queue; otherwise queued until removal.
   */
  function AddRemovedCallback(m: Manager, id: Option<string>, callback: Option<Callback>): (r: Manager)
    ensures id.None? || callback.None? ==> r == m
    ensures id.Some? && callback.Some? && (id.value !in m.sessions || id.value !in m.callbacks) ==>
      r == m.(ran := m.ran + [callback.value])
    ensures id.Some? && callback.Some? && id.value in m.sessions && id.value in m.callbacks ==>
      r == m.(callbacks := m.callbacks[id.value := m.callbacks[id.value] + [callback.value]])
  {
    if id.None? || callback.None? then m
    else if id.value !in m.sessions || id.value !in m.callbacks then m.(ran := m.ran + [callback.value])
    else m.(callbacks := m.callbacks[id.value := m.callbacks[id.value] + [callback.value]])
  }

  /** Every connection added through addSession has a queue, and only those do. */
  predicate Consistent(m: Manager) {
    m.sessions.Keys == m.callbacks.Keys
  }

  /** The three operations keep the sessions and the queues in step. */
  lemma OperationsKeepConsistent(m: Manager, id: string, code: Option<string>, key: Option<string>, callback: Option<Callback>)
    requires Consistent(m)
    ensures Consistent(AddSession(m, id, code))
    ensures Consistent(RemoveSession(m, id))
    ensures Consistent(AddRemovedCallback(m, key, callback))
  {
  }

  /**
   * Callbacks registered on a live connection are not run before removal, and
   * removal runs each of them once, in registration order.
   */
  lemma DeferredUntilRemoval(m: Manager, id: string, code: Option<string>, a: Callback, b: Callback)
    ensures var live := AddRemovedCallback(AddRemovedCallback(AddSession(m, id, code), Some(id), Some(a)), Some(id), Some(b));
      && live.ran == m.ran
      && RemoveSession(live, id).ran == m.ran + [a, b]
      && RemoveSession(RemoveSession(live, id), id).ran == m.ran + [a, b]
  {
  }

  /** A callback for a connection that is already gone runs immediately, and only once. */
  lemma UnknownRunsAtOnce(m: Manager, id: string, a: Callback)
    requires Consistent(m) && id !in m.sessions
    ensures AddRemovedCallback(m, Some(id), Some(a)).ran == m.ran + [a]
    ensures RemoveSession(AddRemovedCallback(m, Some(id), Some(a)), id).ran == m.ran + [a]
  {
  }

  /** Adding a connection again under the same id discards its pending callbacks without running them. */
  lemma ReAddDropsPending(m: Manager, id: string, code: Option<string>, a: Callback)
    requires id in m.sessions && id in m.callbacks
    ensures var queued := AddRemovedCallback(m, Some(id), Some(a));
      RemoveSession(AddSession(queued, id, code), id).ran == m.ran
  {
  }
}
