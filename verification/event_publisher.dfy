/**
 * AgentEventPublisher: listeners registered per event type, called in
 * registration order, where a listener that returns normally with the event
 * cancelled stops propagation and a listener that throws is skipped over.
 * The event's cancelled flag is a plain sticky flag: a listener may raise it,
 * and nothing lowers it.
 */
module EventPublisher {

  type EventType = string

  /** A listener as its effect on one event: whether it cancels, and whether it then throws. */
  datatype Listener = Listener(id: nat, cancels: bool, throws: bool)

  type Registry = map<EventType, seq<Listener>>

  /** addEventListener: appends to the type's list, creating it when missing. */
  function AddListener(reg: Registry, t: EventType, l: Listener): (r: Registry)
    ensures t in r && r[t] == (if t in reg then reg[t] else []) + [l]
    ensures forall u :: u != t ==> (u in r <==> u in reg) && (u in reg ==> r[u] == reg[u])
  {
    reg[t := (if t in reg then reg[t] else []) + [l]]
  }

  /** List.remove(Object): drops the first equal element, if any. */
  function RemoveFirst(ls: seq<Listener>, l: Listener): (r: seq<Listener>)
    ensures l !in ls ==> r == ls
    ensures l in ls ==> |r| == |ls| - 1
  {
    if ls == [] then []
    else
      assert ls == [ls[0]] + ls[1..];
      if ls[0] == l then ls[1..] else [ls[0]] + RemoveFirst(ls[1..], l)
  }

  /** Removal takes out exactly the first equal element and keeps the order of the rest. */
  lemma {:induction false} RemoveFirstAt(ls: seq<Listener>, l: Listener, i: nat)
    requires i < |ls| && ls[i] == l && l !in ls[..i]
    ensures RemoveFirst(ls, l) == ls[..i] + ls[i + 1..]
  {
    if i > 0 {
      var t := ls[1..];
      assert ls[0] != l by { assert ls[0] == ls[..i][0]; }
      assert t[..i - 1] == ls[1..i];
      RemoveFirstAt(t, l, i - 1);
      assert ls[..i] + ls[i + 1..] == [ls[0]] + (t[..i - 1] + t[i..]);
    } else {
      assert ls[..i] + ls[i + 1..] == ls[1..];
    }
  }

  /** Removal takes out one copy of the listener and nothing else. */
  lemma {:induction false} RemoveFirstCount(ls: seq<Listener>, l: Listener)
    ensures multiset(RemoveFirst(ls, l)) == multiset(ls) - multiset{l}
  {
    if ls != [] {
      assert ls == [ls[0]] + ls[1..];
      if ls[0] != l {
        RemoveFirstCount(ls[1..], l);
      }
    }
  }

  /** removeEventListener: a no-op for a type with no list. */
  function RemoveListener(reg: Registry, t: EventType, l: Listener): (r: Registry)
    ensures t !in reg ==> r == reg
    ensures t in reg ==> r == reg[t := RemoveFirst(reg[t], l)]
  {
    if t in reg then reg[t := RemoveFirst(reg[t], l)] else reg
  }

  /** clear. */
  function Clear(reg: Registry): (r: Registry)
    ensures forall t :: t !in r
  {
    map[]
  }

  /** What one publish did: the listeners called, in order, and the flag afterwards. */
  datatype Delivery = Delivery(called: seq<Listener>, cancelled: bool)

  /** The publish loop over one list, starting from the event's current flag. */
  function Deliver(ls: seq<Listener>, cancelled: bool): (d: Delivery)
    ensures d.called <= ls
    ensures cancelled ==> d.cancelled
  {
    if ls == [] then Delivery([], cancelled)
    else
      var flag := cancelled || ls[0].cancels;
      if !ls[0].throws && flag then Delivery([ls[0]], flag)
      else
        var rest := Deliver(ls[1..], flag);
        assert [ls[0]] + ls[1..] == ls;
        Delivery([ls[0]] + rest.called, rest.cancelled)
  }

  /** publishEvent: nothing happens for a type without listeners. */
  function Publish(reg: Registry, t: EventType, cancelled: bool): (d: Delivery)
    ensures t !in reg || reg[t] == [] ==> d == Delivery([], cancelled)
  {
    if t in reg && reg[t] != [] then Deliver(reg[t], cancelled) else Delivery([], cancelled)
  }

  /** A listener stops propagation when it returns normally with the event cancelled. */
  predicate Stops(l: Listener, cancelledBefore: bool) {
    !l.throws && (cancelledBefore || l.cancels)
  }

  /** The flag after the first k listeners have run. */
  function FlagAfter(ls: seq<Listener>, cancelled: bool, k: nat): bool
    requires k <= |ls|
  {
    if k == 0 then cancelled else FlagAfter(ls, cancelled, k - 1) || ls[k - 1].cancels
  }

  /**
   * The called listeners are a prefix of the list; none but the last stopped
   * propagation; and the prefix is the whole list unless its last listener stopped it.
   */
  lemma DeliverStopsAtFirstCancel(ls: seq<Listener>, cancelled: bool)
    ensures var d := Deliver(ls, cancelled);
      && d.called == ls[..|d.called|]
      && (forall i :: 0 <= i < |d.called| - 1 ==> !Stops(ls[i], FlagAfter(ls, cancelled, i)))
      && (|d.called| < |ls| ==> |d.called| > 0 && Stops(ls[|d.called| - 1], FlagAfter(ls, cancelled, |d.called| - 1)))
      && d.cancelled == FlagAfter(ls, cancelled, |d.called|)
  {
    DeliverFlag(ls, cancelled);
    DeliverNoEarlyStop(ls, cancelled);
    DeliverStopsEarlyOnlyOnStop(ls, cancelled);
  }

  /** The flag a publish leaves is the flag after the listeners it called. */
  lemma {:induction false} DeliverFlag(ls: seq<Listener>, cancelled: bool)
    ensures Deliver(ls, cancelled).cancelled == FlagAfter(ls, cancelled, |Deliver(ls, cancelled).called|)
  {
    var d := Deliver(ls, cancelled);
    if ls == [] {
      assert d == Delivery([], cancelled);
    } else {
      var flag := cancelled || ls[0].cancels;
      assert FlagAfter(ls, cancelled, 1) == flag;
      if Stops(ls[0], cancelled) {
        assert d == Delivery([ls[0]], flag);
      } else {
        var rest := Deliver(ls[1..], flag);
        assert d == Delivery([ls[0]] + rest.called, rest.cancelled);
        DeliverFlag(ls[1..], flag);
        ShiftFlag(ls, cancelled, |rest.called|);
      }
    }
  }

  /** No listener before the last one called stopped propagation. */
  lemma {:induction false} DeliverNoEarlyStop(ls: seq<Listener>, cancelled: bool)
    ensures var d := Deliver(ls, cancelled);
      forall i :: 0 <= i < |d.called| - 1 ==> !Stops(ls[i], FlagAfter(ls, cancelled, i))
  {
    if ls != [] && !Stops(ls[0], cancelled) {
      var flag := cancelled || ls[0].cancels;
      var rest := Deliver(ls[1..], flag);
      DeliverNoEarlyStop(ls[1..], flag);
      forall i | 0 <= i < |rest.called|
        ensures FlagAfter(ls[1..], flag, i) == FlagAfter(ls, cancelled, i + 1)
      {
        ShiftFlag(ls, cancelled, i);
      }
      forall i | 1 <= i < |rest.called|
        ensures !Stops(ls[i], FlagAfter(ls, cancelled, i))
      {
        assert ls[1..][i - 1] == ls[i];
      }
    }
  }

  /** A publish that ends before the list does ends on a listener that stopped it. */
  lemma DeliverStopsEarlyOnlyOnStop(ls: seq<Listener>, cancelled: bool)
    ensures var d := Deliver(ls, cancelled);
      |d.called| < |ls| ==> |d.called| > 0 && Stops(ls[|d.called| - 1], FlagAfter(ls, cancelled, |d.called| - 1))
  {
    var d := Deliver(ls, cancelled);
    DeliverEndsEarlyCancelled(ls, cancelled);
    DeliverFlag(ls, cancelled);
    if |d.called| < |ls| {
      var k := |d.called|;
      assert FlagAfter(ls, cancelled, k) == FlagAfter(ls, cancelled, k - 1) || ls[k - 1].cancels;
    }
  }

  /** A publish that ends before the list does ends on a listener that returned normally,
    * with the event cancelled. */
  lemma {:induction false} DeliverEndsEarlyCancelled(ls: seq<Listener>, cancelled: bool)
    ensures var d := Deliver(ls, cancelled);
      |d.called| < |ls| ==> |d.called| > 0 && !ls[|d.called| - 1].throws && d.cancelled
  {
    if ls != [] && !Stops(ls[0], cancelled) {
      var flag := cancelled || ls[0].cancels;
      var rest := Deliver(ls[1..], flag);
      DeliverEndsEarlyCancelled(ls[1..], flag);
      if |rest.called| < |ls| - 1 {
        assert ls[1..][|rest.called| - 1] == ls[|rest.called|];
      }
    }
  }

  /** Running the first listener and then the tail gives the flag of running the whole list. */
  lemma {:induction false} ShiftFlag(ls: seq<Listener>, cancelled: bool, k: nat)
    requires |ls| > 0 && k <= |ls| - 1
    ensures FlagAfter(ls[1..], cancelled || ls[0].cancels, k) == FlagAfter(ls, cancelled, k + 1)
  {
    if k > 0 {
      ShiftFlag(ls, cancelled, k - 1);
    }
  }

  /** A throwing listener never stops propagation, even one that cancelled first. */
  lemma ThrowingListenerDoesNotStop(a: Listener, b: Listener)
    requires a.throws && a.cancels
    ensures Deliver([a, b], false).called == [a, b]
    ensures Deliver([a, b], false).cancelled
  {
    assert [a, b][1..] == [b];
  }

  /** A listener taken out, or the whole registry cleared, is not called by a later publish. */
  lemma RemovedListenerNotCalled(reg: Registry, t: EventType, l: Listener, cancelled: bool)
    requires t in reg && multiset(reg[t])[l] == 1
    ensures l !in Publish(RemoveListener(reg, t, l), t, cancelled).called
    ensures Publish(Clear(reg), t, cancelled) == Delivery([], cancelled)
  {
    var rest := RemoveFirst(reg[t], l);
    RemoveFirstCount(reg[t], l);
    assert multiset(rest)[l] == 0;
    assert l !in rest;
  }
}
