/** Waking the consumers that wait for the next record of a partition. */
module Tails {
  /** A topic's name and a partition number. */
  type Key = (string, int)

  /** The events registered for waiters, those that have fired, all that were ever made, and the closed flag. */
  datatype TailState<!E> = TailState(events: map<Key, E>, fired: set<E>, made: set<E>, closed: bool)

  /** A subscriber shares the partition's registered event; `unused` becomes it if there is none. */
  function Subscribed<E>(t: TailState<E>, key: Key, unused: E): (TailState<E>, E) {
    if key in t.events then (t, t.events[key])
    else (t.(events := t.events[key := unused], made := t.made + {unused}), unused)
  }

  /** Firing takes the event off the register, so that later subscribers get another. */
  function Notified<E>(t: TailState<E>, key: Key): TailState<E> {
    if key in t.events then t.(events := t.events - {key}, fired := t.fired + {t.events[key]}) else t
  }

  function CloseTail<E>(t: TailState<E>): TailState<E> {
    t.(closed := true, events := map[], fired := t.fired + t.events.Values)
  }

  /** A registered event has not fired, and no two partitions share one. */
  ghost predicate TailInv<E>(t: TailState<E>) {
    && t.fired <= t.made
    && (forall k :: k in t.events ==> t.events[k] in t.made && t.events[k] !in t.fired)
    && (forall k, l :: k in t.events && l in t.events && k != l ==> t.events[k] != t.events[l])
  }

  /** What each operation keeps, and what it does to the events waiters hold. */
  lemma SubscribeKeeps<E>(t: TailState<E>, key: Key, unused: E)
    requires TailInv(t) && unused !in t.made
    ensures var (u, e) := Subscribed(t, key, unused);
            && TailInv(u) && u.fired == t.fired && u.closed == t.closed
            && key in u.events && u.events[key] == e && e !in u.fired
            && forall k :: k in t.events ==> k in u.events && u.events[k] == t.events[k]
  {
  }

  lemma NotifyKeeps<E>(t: TailState<E>, key: Key)
    requires TailInv(t)
    ensures var u := Notified(t, key);
            && TailInv(u) && t.fired <= u.fired && u.closed == t.closed
            && key !in u.events
            && (key in t.events ==> t.events[key] in u.fired)
            && forall k :: k in t.events && k != key ==> k in u.events && u.events[k] == t.events[k] && t.events[k] !in u.fired
  {
  }

  lemma CloseKeeps<E>(t: TailState<E>)
    requires TailInv(t)
    ensures var u := CloseTail(t);
            && TailInv(u) && u.closed && t.fired <= u.fired && u.events == map[]
            && forall k :: k in t.events ==> t.events[k] in u.fired
  {
  }

  class Event {
    var isSet: bool

    constructor ()
      ensures !isSet
    {
      isSet := false;
    }

    method Set()
      modifies this
      ensures isSet
    {
      isSet := true;
    }
  }

  class Tail {
    var events: map<Key, Event>
    var closed: bool
    ghost var made: set<Event>

    ghost function State(): TailState<Event>
      reads this, made
    {
      TailState(events, (set e | e in made && e.isSet), made, closed)
    }

    ghost predicate Valid()
      reads this, made
    {
      TailInv(State())
    }

    constructor ()
      ensures Valid() && State() == TailState(map[], {}, {}, false)
    {
      events, closed, made := map[], false, {};
    }

    method Subscribe(key: Key) returns (event: Event)
      requires Valid()
      modifies this
      ensures Valid()
      ensures key in old(events) || fresh(event)
      ensures (State(), event) == Subscribed(old(State()), key, event)
    {
      var unused := new Event();
      if key !in events {
        events := events[key := unused];
        made := made + {unused};
      }
      event := events[key];
      assert State().fired == old(State().fired);
    }

    method Notify(key: Key)
      requires Valid()
      modifies this, made
      ensures Valid() && made == old(made)
      ensures State() == Notified(old(State()), key)
    {
      if key in events {
        var event := events[key];
        events := events - {key};
        event.Set();
      }
    }

    /** Releases every waiter. */
    method Close()
      requires Valid()
      modifies this, made
      ensures Valid() && made == old(made)
      ensures State() == CloseTail(old(State()))
    {
      closed := true;
      var left := events.Keys;
      while left != {}
        invariant left <= events.Keys && events == old(events) && closed && made == old(made)
        invariant forall e :: e in made && old(e.isSet) ==> e.isSet
        invariant forall e :: e in made && e.isSet ==> old(e.isSet) || e in events.Values
        invariant forall k :: k in events && k !in left ==> events[k].isSet
      {
        var key :| key in left;
        events[key].Set();
        left := left - {key};
      }
      assert State().fired == old(State().fired + events.Values);
      events := map[];
    }
  }
}
