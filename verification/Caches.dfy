/** The provider's two bounded indexes as the objects they are: apps/provider/src/dedupe.rs and
    `CompletedResults` of apps/provider/src/nostr/handler.rs. */
module Caches {
  import opened Wrappers
  import opened Fifo

  class RequestDeduplicator {
    const capacity: nat
    var ids: set<string>
    var order: seq<string>
    /** Every successful claim so far, oldest first. */
    ghost var claims: seq<string>

    ghost predicate Valid()
      reads this
    {
      && capacity > 0
      && order == Window(claims, capacity)
      && ids == Elements(order)
      && Fresh(claims, capacity)
    }

    constructor (capacity: nat)
      requires capacity > 0
      ensures Valid() && this.capacity == capacity && claims == []
    {
      this.capacity := capacity;
      ids := {};
      order := [];
      claims := [];
    }

    /** A claim succeeds exactly when the id is not among the last `capacity` successful claims. */
    method Claim(id: string) returns (ok: bool)
      requires Valid()
      modifies this
      ensures Valid()
      ensures ok <==> id !in Window(old(claims), capacity)
      ensures claims == if ok then old(claims) + [id] else old(claims)
      ensures |ids| == |order| <= capacity
    {
      hide Fresh, Queued, Elements;
      ghost var all, dropped: nat := claims + [id], |claims| - |order|;
      WindowIsQueued(ids, claims, capacity);
      QueuedSize(ids, order, claims, dropped);
      if id in ids {
        Retained(claims, capacity, id);
        return false;
      }
      Retained(claims, capacity, id);
      Pushed(ids, claims, capacity, id);
      claims := all;
      ids := ids + {id};
      order := order + [id];
      QueuedSize(ids, order, all, dropped);
      while |ids| > capacity
        invariant claims == all && Queued(ids, order, all, dropped) && |ids| == |order|
        invariant |order| >= capacity || dropped == 0
        decreases |ids|
      {
        if order != [] {
          HeadEvicted(ids, order, all, dropped);
          var oldest := order[0];
          order := order[1..];
          ids := ids - {oldest};
          dropped := dropped + 1;
          QueuedSize(ids, order, all, dropped);
        }
      }
      QueuedIsWindow(ids, order, all, dropped, capacity);
      return true;
    }
  }

  /** An index from request ids to signed results; `V` is the result. */
  class CompletedResults<V(==)> {
    const capacity: nat
    var events: map<string, V>
    var order: seq<string>
    /** Every insertion that took effect so far, oldest first. */
    ghost var inserts: seq<(string, V)>

    ghost predicate Valid()
      reads this
    {
      && Fresh(Keys(inserts), capacity)
      && order == Window(Keys(inserts), capacity)
      && events.Keys == Elements(order)
      && Agrees(events, inserts, |inserts| - |order|)
    }

    constructor (capacity: nat)
      ensures Valid() && this.capacity == capacity && inserts == []
    {
      this.capacity := capacity;
      events := map[];
      order := [];
      inserts := [];
    }

    /** The retained result of an id is the one of the retained insertion. */
    method Lookup(id: string) returns (r: Option<V>)
      requires Valid()
      ensures r == Find(Window(inserts, capacity), id)
    {
      hide Fresh, Agrees, Elements, Window, Keys, Find;
      AgreeingFinds(events, inserts, capacity, id);
      if id in events {
        return Some(events[id]);
      } else {
        return None;
      }
    }

    /** Insertion is a no-op on a retained id, and otherwise appends and evicts the oldest insertions. */
    method Insert(id: string, event: V)
      requires Valid()
      modifies this
      ensures Valid()
      ensures inserts ==
        if id in Window(Keys(old(inserts)), capacity) then old(inserts) else old(inserts) + [(id, event)]
      ensures |events| == |order| <= capacity
    {
      hide Fresh, Queued, Elements, Agrees, Window, Keys, NoRepeats;
      ghost var all, dropped: nat := inserts + [(id, event)], |inserts| - |order|;
      WindowIsQueued(events.Keys, Keys(inserts), capacity);
      QueuedSize(events.Keys, order, Keys(inserts), dropped);
      Retained(Keys(inserts), capacity, id);
      if id in events {
        return;
      }
      Appended(events, inserts, capacity, id, event);
      inserts := all;
      events := events[id := event];
      order := order + [id];
      while |events| > capacity
        invariant inserts == all && Queued(events.Keys, order, Keys(all), dropped) && |events| == |order|
        invariant |order| >= capacity || dropped == 0
        invariant Agrees(events, all, dropped)
        decreases |events|
      {
        if order != [] {
          OldestEvicted(events, order, all, dropped);
          var oldest := order[0];
          order := order[1..];
          events := events - {oldest};
          dropped := dropped + 1;
          QueuedSize(events.Keys, order, Keys(all), dropped);
        }
      }
      QueuedSize(events.Keys, order, Keys(all), dropped);
      QueuedIsWindow(events.Keys, order, Keys(all), dropped, capacity);
    }
  }

  /** The index maps every retained insertion, from position `from` on, to its result. */
  ghost predicate Agrees<V>(events: map<string, V>, inserts: seq<(string, V)>, from: int) {
    forall k :: 0 <= k < |inserts| && from <= k ==> inserts[k].0 in events && events[inserts[k].0] == inserts[k].1
  }

  lemma AgreesWith<V>(events: map<string, V>, inserts: seq<(string, V)>, from: nat, id: string, event: V)
    requires Agrees(events, inserts, from) && id !in events
    ensures Agrees(events[id := event], inserts + [(id, event)], from)
  {
  }

  lemma AgreesWithout<V>(events: map<string, V>, inserts: seq<(string, V)>, from: nat)
    requires Agrees(events, inserts, from) && from < |inserts|
    requires forall k :: from < k < |inserts| ==> inserts[k].0 != inserts[from].0
    ensures Agrees(events - {inserts[from].0}, inserts, from + 1)
  {
  }

  /** Dropping the oldest key keeps the queue, the index and the history in step. */
  lemma OldestEvicted<V>(events: map<string, V>, order: seq<string>, inserts: seq<(string, V)>, dropped: nat)
    requires Queued(events.Keys, order, Keys(inserts), dropped) && order != [] && Agrees(events, inserts, dropped)
    ensures
      var fewer := events - {order[0]};
      Queued(fewer.Keys, order[1..], Keys(inserts), dropped + 1) && Agrees(fewer, inserts, dropped + 1)
  {
    hide Queued, Elements, NoRepeats;
    HeadEvicted(events.Keys, order, Keys(inserts), dropped);
    assert dropped < |inserts| by { QueuedSize(events.Keys, order, Keys(inserts), dropped); }
    assert forall k :: dropped < k < |inserts| ==> Keys(inserts)[k] == inserts[k].0 != order[0];
    AgreesWithout(events, inserts, dropped);
    assert (events - {order[0]}).Keys == events.Keys - {order[0]};
  }

  /** What an insertion of a new id leaves, before any eviction. */
  lemma Appended<V>(events: map<string, V>, inserts: seq<(string, V)>, capacity: nat, id: string, event: V)
    requires Fresh(Keys(inserts), capacity) && events.Keys == Elements(Window(Keys(inserts), capacity))
    requires Agrees(events, inserts, |inserts| - |Window(Keys(inserts), capacity)|) && id !in events
    ensures
      var order, more, all := Window(Keys(inserts), capacity), events[id := event], inserts + [(id, event)];
      var dropped := |inserts| - |order|;
      && Fresh(Keys(all), capacity) && Queued(more.Keys, order + [id], Keys(all), dropped)
      && Agrees(more, all, dropped) && |more| == |order| + 1
  {
    hide Fresh, Queued, Elements, NoRepeats, Window, Keys;
    var order, more := Window(Keys(inserts), capacity), events[id := event];
    var dropped: nat := |inserts| - |order|;
    Pushed(events.Keys, Keys(inserts), capacity, id);
    AgreesWith(events, inserts, dropped, id, event);
    PushedKeys(inserts, id, event);
    assert more.Keys == events.Keys + {id};
    QueuedSize(more.Keys, order + [id], Keys(inserts + [(id, event)]), dropped);
  }

  lemma PushedKeys<V>(inserts: seq<(string, V)>, id: string, event: V)
    ensures Keys(inserts + [(id, event)]) == Keys(inserts) + [id]
  {
  }

  function Keys<V>(inserts: seq<(string, V)>): (keys: seq<string>)
    ensures |keys| == |inserts|
    ensures forall i :: 0 <= i < |inserts| ==> keys[i] == inserts[i].0
  {
    seq(|inserts|, i requires 0 <= i < |inserts| => inserts[i].0)
  }

  function Find<V>(entries: seq<(string, V)>, id: string): (r: Option<V>)
    ensures r.Some? <==> exists k :: 0 <= k < |entries| && entries[k].0 == id
    ensures r.Some? ==> (id, r.value) in entries
  {
    if entries == [] then None
    else if entries[0].0 == id then Some(entries[0].1)
    else Find(entries[1..], id)
  }

  lemma {:induction false} FindAt<V>(entries: seq<(string, V)>, k: nat)
    requires k < |entries| && NoRepeats(Keys(entries))
    ensures Find(entries, entries[k].0) == Some(entries[k].1)
  {
    if k > 0 {
      assert Keys(entries)[0] != Keys(entries)[k];
      assert Keys(entries[1..]) == Keys(entries)[1..];
      FindAt(entries[1..], k - 1);
    }
  }

  lemma FindAbsent<V>(entries: seq<(string, V)>, id: string)
    requires id !in Keys(entries)
    ensures Find(entries, id) == None
  {
    assert forall k :: 0 <= k < |entries| ==> entries[k].0 == Keys(entries)[k];
  }

  lemma WindowOfKeys<V>(inserts: seq<(string, V)>, capacity: nat)
    ensures Keys(Window(inserts, capacity)) == Window(Keys(inserts), capacity)
  {
  }

  lemma Retained<T>(history: seq<T>, capacity: nat, x: T)
    ensures x in Elements(Window(history, capacity)) <==> x in Window(history, capacity)
  {
  }

  /** An index that agrees with the retained insertions answers as a search of them. */
  lemma AgreeingFinds<V>(events: map<string, V>, inserts: seq<(string, V)>, capacity: nat, id: string)
    requires Fresh(Keys(inserts), capacity)
    requires events.Keys == Elements(Window(Keys(inserts), capacity))
    requires Agrees(events, inserts, |inserts| - |Window(Keys(inserts), capacity)|)
    ensures Find(Window(inserts, capacity), id) == if id in events then Some(events[id]) else None
  {
    var keys, w := Keys(inserts), Window(inserts, capacity);
    WindowOfKeys(inserts, capacity);
    WindowDistinct(keys, capacity);
    Retained(keys, capacity, id);
    hide Fresh, NoRepeats, Find, Elements, Window;
    if id in events {
      var k :| 0 <= k < |w| && Keys(w)[k] == id;
      WindowAt(inserts, capacity, k);
      FindAt(w, k);
    } else {
      FindAbsent(w, id);
    }
  }

  lemma FindEntry<V>(entries: seq<(string, V)>, entry: (string, V))
    requires NoRepeats(Keys(entries)) && entry in entries
    ensures Find(entries, entry.0) == Some(entry.1)
  {
    var k :| 0 <= k < |entries| && entries[k] == entry;
    FindAt(entries, k);
  }

  lemma OlderEntry<T>(history: seq<T>, capacity: nat, x: T, entry: T)
    requires entry in Window(history + [x], capacity) && entry != x
    ensures entry in Window(history, capacity)
  {
    var w, w' := Window(history, capacity), Window(history + [x], capacity);
    var m :| 0 <= m < |w'| && w'[m] == entry;
    var i := |history| + 1 - |w'| + m;
    assert (history + [x])[i] == entry && i < |history|;
    assert w[i - (|history| - |w|)] == history[i];
  }

  /** A result retained before and after an insertion is the same result. */
  lemma RetainedResultIsStable<V>(inserts: seq<(string, V)>, capacity: nat, id: string, event: V, other: string)
    requires Fresh(Keys(inserts), capacity) && id !in Window(Keys(inserts), capacity)
    ensures
      var before := Find(Window(inserts, capacity), other);
      var after := Find(Window(inserts + [(id, event)], capacity), other);
      before.Some? && after.Some? ==> before == after
  {
    hide Fresh, Window, Find, NoRepeats;
    var w, w' := Window(inserts, capacity), Window(inserts + [(id, event)], capacity);
    var before, after := Find(w, other), Find(w', other);
    if before.Some? && after.Some? {
      WindowOfKeys(inserts, capacity);
      WindowDistinct(Keys(inserts), capacity);
      var k :| 0 <= k < |w| && w[k].0 == other;
      assert Keys(w)[k] == other != id;
      OlderEntry(inserts, capacity, (id, event), (other, after.value));
      FindEntry(w, (other, after.value));
    }
  }
}
