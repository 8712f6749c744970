/** The listener registry of `EventEmitter`: a dictionary from event name to the
    list of listeners registered for it. Listeners are known only by identity
    (the source compares them with `!==`), so each is a `nat`. */
module Events {

  type Listener = nat

  /** The `listeners` dictionary. A key present with an empty list is kept: an
      empty array is truthy in JavaScript, so `on`, `off` and `emit` all treat it
      as an existing list. */
  type Registry = map<string, seq<Listener>>

  /** The listeners stored for `event`; an event without an entry has none. */
  function ListenersOf(reg: Registry, event: string): seq<Listener>
  {
    if event in reg then reg[event] else []
  }

  /** How many times `fn` occurs in `fns`. */
  function Occurrences(fns: seq<Listener>, fn: Listener): nat
  {
    multiset(fns)[fn]
  }

  /** `fns.filter(l => l !== fn)`: every occurrence of `fn` dropped, every other
      listener kept as often as it was there. */
  function Without(fns: seq<Listener>, fn: Listener): (r: seq<Listener>)
    ensures fn !in r
    ensures multiset(r) == multiset(fns)[fn := 0]
    ensures fn !in fns ==> r == fns
  {
    if fns == [] then []
    else
      assert fns == [fns[0]] + fns[1..];
      if fns[0] == fn then Without(fns[1..], fn)
      else [fns[0]] + Without(fns[1..], fn)
  }

  /** Filtering commutes with concatenation, so the listeners that survive keep
      their original relative order. */
  lemma {:induction false} WithoutDistributes(a: seq<Listener>, b: seq<Listener>, fn: Listener)
    ensures Without(a + b, fn) == Without(a, fn) + Without(b, fn)
  {
    if a == [] {
      assert a + b == b;
    } else {
      assert (a + b)[0] == a[0];
      assert (a + b)[1..] == a[1..] + b;
      WithoutDistributes(a[1..], b, fn);
    }
  }

  /** The registry after `on(event, fn)`. */
  function Register(reg: Registry, event: string, fn: Listener): (r: Registry)
    ensures ListenersOf(r, event) == ListenersOf(reg, event) + [fn]
    ensures forall e :: e != event ==> ListenersOf(r, e) == ListenersOf(reg, e)
    ensures r.Keys == reg.Keys + {event}
  {
    reg[event := ListenersOf(reg, event) + [fn]]
  }

  /** The registry after `off(event, fn)`. */
  function Unregister(reg: Registry, event: string, fn: Listener): (r: Registry)
    ensures ListenersOf(r, event) == Without(ListenersOf(reg, event), fn)
    ensures forall e :: e != event ==> ListenersOf(r, e) == ListenersOf(reg, e)
    ensures r.Keys == reg.Keys
    ensures event !in reg ==> r == reg
  {
    if event !in reg then reg else reg[event := Without(reg[event], fn)]
  }

  /** The registry after `on(event, fns[0])`, `on(event, fns[1])`, ... in turn. */
  function RegisterAll(reg: Registry, event: string, fns: seq<Listener>): Registry
    decreases |fns|
  {
    if fns == [] then reg else RegisterAll(Register(reg, event, fns[0]), event, fns[1..])
  }

  /** Registration order is the stored order: a run of `on` calls appends its
      listeners to the event's list in the order of the calls and touches no
      other event. */
  lemma {:induction false} RegisterAllAppends(reg: Registry, event: string, fns: seq<Listener>)
    ensures ListenersOf(RegisterAll(reg, event, fns), event) == ListenersOf(reg, event) + fns
    ensures forall e :: e != event ==> ListenersOf(RegisterAll(reg, event, fns), e) == ListenersOf(reg, e)
    decreases |fns|
  {
    if fns != [] {
      RegisterAllAppends(Register(reg, event, fns[0]), event, fns[1..]);
      assert ListenersOf(reg, event) + [fns[0]] + fns[1..] == ListenersOf(reg, event) + fns;
    }
  }

  /** There is no de-duplication: registering the same listener twice stores it
      twice. */
  lemma OnTwiceStoresTwice(reg: Registry, event: string, fn: Listener)
    ensures ListenersOf(Register(Register(reg, event, fn), event, fn), event) == ListenersOf(reg, event) + [fn, fn]
    ensures Occurrences(ListenersOf(Register(Register(reg, event, fn), event, fn), event), fn)
         == Occurrences(ListenersOf(reg, event), fn) + 2
  {
  }

  /** `off` of a listener that is not registered for the event, or of an event
      without a list, changes nothing. */
  lemma OffUnregisteredIsNoOp(reg: Registry, event: string, fn: Listener)
    requires fn !in ListenersOf(reg, event)
    ensures Unregister(reg, event, fn) == reg
  {
  }

  /** `off` after `on` leaves no occurrence of the listener, and the other
      listeners of the event are those that were there before, in their order. */
  lemma OffAfterOn(reg: Registry, event: string, fn: Listener)
    ensures ListenersOf(Unregister(Register(reg, event, fn), event, fn), event)
         == Without(ListenersOf(reg, event), fn)
    ensures fn !in ListenersOf(Unregister(Register(reg, event, fn), event, fn), event)
  {
    WithoutDistributes(ListenersOf(reg, event), [fn], fn);
  }

  class EventEmitter {
    var listeners: Registry

    constructor ()
      ensures listeners == map[]
    {
      listeners := map[];
    }

    /** `on`: create the list if missing, then push `fn` onto it. */
    method On(event: string, fn: Listener)
      modifies this
      ensures listeners == Register(old(listeners), event, fn)
    {
      if event !in listeners {
        listeners := listeners[event := []];
      }
      listeners := listeners[event := listeners[event] + [fn]];
    }

    /** `off`: replace the event's list by its filtered copy, if it has one. */
    method Off(event: string, fn: Listener)
      modifies this
      ensures listeners == Unregister(old(listeners), event, fn)
    {
      if event !in listeners {
        return;
      }
      listeners := listeners[event := Without(listeners[event], fn)];
    }

    /** `emit`: call the event's listeners in order. The result is the sequence
        of listeners called; the registry is not changed. */
    method Emit(event: string) returns (invoked: seq<Listener>)
      ensures invoked == ListenersOf(listeners, event)
    {
      invoked := [];
      if event !in listeners {
        return;
      }
      var fns := listeners[event];
      var i := 0;
      while i < |fns|
        invariant 0 <= i <= |fns|
        invariant invoked == fns[..i]
      {
        invoked := invoked + [fns[i]];
        i := i + 1;
      }
    }
  }
}
