/**
 * The Subscriptions helper: a record of event name to callback, mirrored onto the listener
 * list of a context object (anything with `on` and `removeListener`), so that every
 * callback it registered can be taken off again with one `removeAll`.
 */
module Subscribing {

  import opened Listeners

  /** The identity of a JavaScript function value. */
  type Callback = nat

  /**
   * The names recorded in `_events`, in the order `Object.keys` lists them, and the callback
   * recorded under each.
   */
  datatype Table = Table(names: seq<string>, events: map<string, Callback>)

  /** Each name is listed once, and exactly the recorded names are listed. */
  predicate TableOk(t: Table)
  {
    && (forall i, j :: 0 <= i < j < |t.names| ==> t.names[i] != t.names[j])
    && (forall n :: n in t.events ==> n in t.names)
    && (forall n :: n in t.names ==> n in t.events)
  }

  /**
   * `_events[eventName] = cb`: the record for that name is overwritten; a new name goes to
   * the end of the key order, an existing one keeps its place.
   */
  function Record(t: Table, event: string, cb: Callback): (r: Table)
    ensures event in r.events && r.events[event] == cb && t.events.Keys <= r.events.Keys
    ensures t.names <= r.names && |r.names| <= |t.names| + 1
  {
    Table(if event in t.events then t.names else t.names + [event], t.events[event := cb])
  }

  /** Recording keeps the key list and the record in step. */
  lemma RecordKeepsTableOk(t: Table, event: string, cb: Callback)
    requires TableOk(t)
    ensures TableOk(Record(t, event, cb))
  {
    var r := Record(t, event, cb);
    if event !in t.events {
      forall i, j | 0 <= i < j < |r.names| ensures r.names[i] != r.names[j] {
        if j == |t.names| { assert r.names[i] == t.names[i] && t.names[i] in t.events; }
      }
    }
  }

  /**
   * Recording touches no other name's record and keeps the key order: earlier names stay
   * where they were, and at most the new name is added, at the end.
   */
  lemma RecordKeepsOthers(t: Table, event: string, cb: Callback)
    requires TableOk(t)
    ensures var r := Record(t, event, cb);
      && r.names[..|t.names|] == t.names
      && |r.names| == |t.names| + (if event in t.events then 0 else 1)
      && event in r.events && r.events[event] == cb
      && forall n :: n != event ==> (n in r.events <==> n in t.events) && (n in t.events ==> r.events[n] == t.events[n])
  {
  }

  /**
   * The registrations `removeAll` takes off, one per listed name with the callback
   * recorded under it, in key order.
   */
  function Removals(names: seq<string>, events: map<string, Callback>): (r: seq<Listener<Callback>>)
    requires forall n :: n in names ==> n in events
    ensures |r| == |names|
  {
    if names == [] then [] else [Listener(names[0], events[names[0]])] + Removals(names[1..], events)
  }

  /** The `i`-th removal is of the `i`-th listed name, with the callback recorded under it. */
  lemma {:induction false} RemovalsAt(names: seq<string>, events: map<string, Callback>, i: nat)
    requires forall n :: n in names ==> n in events
    requires i < |names|
    ensures Removals(names, events)[i] == Listener(names[i], events[names[i]])
  {
    if i > 0 {
      RemovalsAt(names[1..], events, i - 1);
    }
  }

  /** The registrations of a whole table. */
  function Recorded(t: Table): seq<Listener<Callback>>
    requires TableOk(t)
  {
    Removals(t.names, t.events)
  }

  /** For each recorded name, only its latest callback is among the registrations `removeAll` takes off. */
  lemma RecordedIsLatest(t: Table, event: string, cb: Callback)
    requires TableOk(t)
    ensures TableOk(Record(t, event, cb))
    ensures Listener(event, cb) in Recorded(Record(t, event, cb))
    ensures forall x :: x in Recorded(Record(t, event, cb)) && x.event == event ==> x.fn == cb
  {
    RecordKeepsTableOk(t, event, cb);
    var r := Record(t, event, cb);
    var i :| 0 <= i < |r.names| && r.names[i] == event;
    RemovalsAt(r.names, r.events, i);
    forall x | x in Recorded(r) && x.event == event ensures x.fn == cb {
      var j :| 0 <= j < |r.names| && Recorded(r)[j] == x;
      RemovalsAt(r.names, r.events, j);
    }
  }

  /**
   * `removeAll` takes off exactly the recorded registrations: every other registration on
   * the context, such as one shadowed by a later `on` for the same name, is left in place.
   */
  lemma {:induction false} RemovalsLeaveOthers(ls: seq<Listener<Callback>>, t: Table, x: Listener<Callback>)
    requires TableOk(t) && x in ls && x !in Recorded(t)
    ensures x in UnsubscribeAll(ls, Recorded(t))
  {
    UnsubscribeAllKeeps(ls, Recorded(t), x);
  }

  /**
   * Two `on` calls for the same name with different callbacks: both listeners are on the
   * context, the record keeps only the second, and `removeAll` leaves the first registered.
   */
  lemma ShadowedSurvives(ls: seq<Listener<Callback>>, t: Table, event: string, cb1: Callback, cb2: Callback)
    requires TableOk(t) && cb1 != cb2
    ensures var t2 := Record(Record(t, event, cb1), event, cb2);
      && TableOk(t2)
      && Listener(event, cb1) in UnsubscribeAll(Subscribe(Subscribe(ls, event, cb1), event, cb2), Recorded(t2))
  {
    RecordKeepsTableOk(t, event, cb1);
    var t1 := Record(t, event, cb1);
    RecordedIsLatest(t1, event, cb2);
    var ls2 := Subscribe(Subscribe(ls, event, cb1), event, cb2);
    assert ls2[|ls|] == Listener(event, cb1);
    RemovalsLeaveOthers(ls2, Record(t1, event, cb2), Listener(event, cb1));
  }

  /** One round of `removeAll`'s loop takes off the registration recorded for the next key. */
  lemma RemoveAllStep(ls: seq<Listener<Callback>>, keys: seq<string>, i: nat, events: map<string, Callback>)
    requires i < |keys| && forall n :: n in keys ==> n in events
    ensures UnsubscribeAll(ls, Removals(keys[i..], events))
         == UnsubscribeAll(Unsubscribe(ls, keys[i], events[keys[i]]), Removals(keys[i + 1..], events))
  {
    assert keys[i..][1..] == keys[i + 1..];
  }

  /** Deleting the first listed name keeps the key list and the record in step. */
  lemma DropFirstKeepsTableOk(t: Table)
    requires TableOk(t) && t.names != []
    ensures TableOk(Table(t.names[1..], t.events - {t.names[0]}))
  {
    var r := Table(t.names[1..], t.events - {t.names[0]});
    forall n | n in r.events ensures n in r.names {
      var j :| 0 <= j < |t.names| && t.names[j] == n;
      assert r.names[j - 1] == n;
    }
    forall n | n in r.names ensures n in r.events {
      var j :| 0 <= j < |r.names| && r.names[j] == n;
      assert t.names[0] != t.names[j + 1];
    }
  }

  /** With nothing recorded, `removeAll` takes nothing off: a second call is a no-op. */
  lemma SecondRemoveAllIsNoOp(ls: seq<Listener<Callback>>)
    ensures UnsubscribeAll(ls, Recorded(Table([], map[]))) == ls
  {
  }

  /** An event emitter's listener list, changed in place by `on` and `removeListener`. */
  class Context {
    var listeners: seq<Listener<Callback>>

    constructor()
      ensures listeners == []
    {
      listeners := [];
    }

    method On(event: string, cb: Callback)
      modifies this
      ensures listeners == Subscribe(old(listeners), event, cb)
    {
      listeners := listeners + [Listener(event, cb)];
    }

    method RemoveListener(event: string, cb: Callback)
      modifies this
      ensures listeners == Unsubscribe(old(listeners), event, cb)
    {
      listeners := Unsubscribe(listeners, event, cb);
    }
  }

  class Subscriptions {
    var names: seq<string>               // the key order of `_events`
    var events: map<string, Callback>    // `_events`
    const context: Context               // `_context`

    function State(): Table
      reads this
    {
      Table(names, events)
    }

    predicate Valid()
      reads this
    {
      TableOk(State())
    }

    /** A fresh helper has recorded nothing. */
    constructor(context: Context)
      ensures this.context == context && State() == Table([], map[]) && Valid()
    {
      names := [];
      events := map[];
      this.context := context;
    }

    /** `on(eventName, cb)`: registers on the context, then records the callback under the name. */
    method On(event: string, cb: Callback)
      requires Valid()
      modifies this, context
      ensures State() == Record(old(State()), event, cb)
      ensures context.listeners == Subscribe(old(context.listeners), event, cb)
      ensures Valid()
    {
      RecordKeepsTableOk(State(), event, cb);
      context.On(event, cb);
      if event !in events {
        names := names + [event];
      }
      events := events[event := cb];
    }

    /** One round of `removeAll`: the first listed name's callback leaves the context, then its record goes. */
    method ForgetFirst()
      requires Valid() && names != []
      modifies this, context
      ensures State() == Table(old(names[1..]), old(events) - {old(names[0])})
      ensures context.listeners == Unsubscribe(old(context.listeners), old(names[0]), old(events[names[0]]))
      ensures Valid()
    {
      var name := names[0];
      DropFirstKeepsTableOk(State());
      context.RemoveListener(name, events[name]);
      events := events - {name};
      names := names[1..];
    }

    /**
     * `removeAll()`: for each recorded name, in key order, removes the recorded callback
     * from the context and deletes the record. Afterwards nothing is recorded, so a second
     * call changes nothing.
     */
    method RemoveAll()
      requires Valid()
      modifies this, context
      ensures State() == Table([], map[])
      ensures context.listeners == UnsubscribeAll(old(context.listeners), Recorded(old(State())))
      ensures Valid()
    {
      var keys := names;
      ghost var events0 := events;
      ghost var listeners0 := context.listeners;
      var i := 0;
      while i < |keys|
        invariant 0 <= i <= |keys|
        invariant names == keys[i..] && Valid()
        invariant events0.Keys >= events.Keys && forall n :: n in events ==> events[n] == events0[n]
        invariant UnsubscribeAll(context.listeners, Removals(keys[i..], events0))
               == UnsubscribeAll(listeners0, Removals(keys, events0))
      {
        RemoveAllStep(context.listeners, keys, i, events0);
        ForgetFirst();
        i := i + 1;
      }
      assert events.Keys == {};
    }
  }
}
