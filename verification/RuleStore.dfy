/** The rule store: a published snapshot behind a pointer, and bounded channels that carry updates. */
module RuleStore {
  import opened Common
  import opened Rules
  import opened RuleBuilder

  /** At most one element is lost, and none of the first `safe`. */
  ghost predicate Lost(before: seq<nat>, after: seq<nat>, safe: nat) {
    after == before || exists k :: safe <= k < |before| && after == before[..k] + before[k + 1..]
  }

  lemma LostFrom(before: seq<nat>, after: seq<nat>, safe: nat, safe': nat)
    requires Lost(before, after, safe) && safe' <= safe
    ensures Lost(before, after, safe')
  {
  }

  lemma LostExtends(before: seq<nat>, after: seq<nat>, safe: nat, last: nat)
    requires Lost(before, after, safe)
    ensures Lost(before + [last], after + [last], safe)
  {
    if after != before {
      var k :| safe <= k < |before| && after == before[..k] + before[k + 1..];
      assert after + [last] == (before + [last])[..k] + (before + [last])[k + 1..];
    }
  }

  /**
   A subscriber's buffered channel.  The ghost fields record the whole history of one live
   subscriber: everything published, everything received, and which publication each was.
   */
  class Channel<T> {
    const capacity: nat
    var queue: seq<T>
    ghost var published: seq<T>
    ghost var received: seq<T>
    ghost var positions: seq<nat>

    constructor (buffer: int)
      ensures Valid() && queue == [] && published == [] && received == []
      ensures capacity == if buffer <= 0 then 1 else buffer
    {
      capacity := if buffer <= 0 then 1 else buffer;
      queue, published, received, positions := [], [], [], [];
    }

    /** What was received and what is still queued are publications, in publication order. */
    ghost predicate Valid()
      reads this
    {
      && 1 <= capacity && |queue| <= capacity
      && |positions| == |received| + |queue|
      && (forall i :: 0 <= i < |positions| ==> positions[i] < |published|)
      && (forall i, j :: 0 <= i < j < |positions| ==> positions[i] < positions[j])
      && (forall i :: 0 <= i < |received| ==> received[i] == published[positions[i]])
      && (forall i :: 0 <= i < |queue| ==> queue[i] == published[positions[|received| + i]])
    }

    /** The newest publication was received or is the last element of the channel. */
    ghost predicate Fresh()
      reads this
      requires Valid()
    {
      published != [] ==> positions != [] && positions[|positions| - 1] == |published| - 1
    }

    /** The newest publication has not been sent yet. */
    ghost predicate Behind()
      reads this
    {
      published != [] && (positions != [] ==> positions[|positions| - 1] < |published| - 1)
    }

    /** The subscriber takes up to `n` elements, at its own pace. */
    method Drain(n: nat)
      requires Valid()
      modifies this
      ensures Valid() && published == old(published) && positions == old(positions)
      ensures received + queue == old(received + queue) && old(received) <= received
      ensures old(Behind()) ==> Behind()
      ensures |queue| == if n <= |old(queue)| then |old(queue)| - n else 0
    {
      var k := if n <= |queue| then n else |queue|;
      assert old(received) <= received + queue[..k];
      received := received + queue[..k];
      queue := queue[k..];
    }

    /** A send that does not block. */
    method TrySend(x: T) returns (sent: bool)
      requires Valid() && Behind() && published[|published| - 1] == x
      modifies this
      ensures Valid() && published == old(published) && received == old(received)
      ensures sent == (|old(queue)| < capacity)
      ensures if sent then queue == old(queue) + [x] && positions == old(positions) + [|published| - 1] && Fresh()
              else queue == old(queue) && positions == old(positions) && Behind()
    {
      sent := |queue| < capacity;
      if sent {
        queue := queue + [x];
        positions := positions + [|published| - 1];
      }
    }

    /** A receive that does not block, by the publisher, to make room: the oldest element is lost. */
    method TryDrop()
      requires Valid()
      modifies this
      ensures Valid() && published == old(published) && received == old(received)
      ensures queue == if old(queue) == [] then [] else old(queue)[1..]
      ensures positions == if old(queue) == [] then old(positions)
                           else old(positions)[..|received|] + old(positions)[|received| + 1..]
      ensures Lost(old(positions), positions, |received|)
      ensures old(Behind()) ==> Behind()
    {
      if queue != [] {
        queue := queue[1..];
        positions := positions[..|received|] + positions[|received| + 1..];
      }
    }

    /** Between two sends the subscriber drains at will, and the publisher drops one element if any is left. */
    method MakeRoom(first: nat, second: nat)
      requires Valid() && Behind() && |queue| == capacity
      modifies this
      ensures Valid() && Behind() && published == old(published) && old(received) <= received
      ensures |queue| < capacity
      ensures Lost(old(positions), positions, old(|received|))
    {
      hide Valid, Behind, Lost;
      assert capacity >= 1 by { Room(); }
      Drain(first);
      TryDrop();
      LostFrom(old(positions), positions, |received|, old(|received|));
      Drain(second);
    }

    lemma Room()
      requires Valid()
      ensures capacity >= 1 && |queue| <= capacity
    {
    }

    ghost method Announce(x: T)
      requires Valid()
      modifies this`published
      ensures Valid() && Behind() && published == old(published) + [x]
    {
      published := published + [x];
    }

    /**
     One subscriber's part of `notify`.  The subscriber drains concurrently: `first` and `second`
     are what it takes in the two gaps between the non-blocking operations.  The send at the end
     always succeeds, so the newest snapshot is never lost.
     */
    method Publish(x: T, first: nat, second: nat)
      requires Valid()
      modifies this
      ensures Valid() && published == old(published) + [x] && Fresh()
      ensures old(received) <= received
      ensures |old(queue)| < capacity ==> positions == old(positions) + [|old(published)|]
      ensures |old(queue)| == capacity ==> Lost(old(positions) + [|old(published)|], positions, old(|received|))
    {
      hide Valid, Behind, Fresh, Lost;
      assert |queue| <= capacity by { Room(); }
      Announce(x);
      var sent := TrySend(x);
      if !sent {
        MakeRoom(first, second);
        LostExtends(old(positions), positions, old(|received|), |published| - 1);
        sent := TrySend(x);
        assert sent;
      }
    }
  }

  /** Two handles reach no map in common. */
  ghost predicate Apart(a: Handle, b: Handle)
    reads a.apps, b.apps
  {
    a.apps != b.apps && a.apps.AllMaps() !! b.apps.AllMaps()
  }

  /** A deep copy of the snapshot goes to one channel. */
  method Send(ch: Channel<Handle>, snapshot: Handle, gap: (nat, nat)) returns (copy: Handle)
    requires ch.Valid() && snapshot.apps.Separate()
    modifies ch
    ensures ch.Valid() && ch.Fresh() && ch.published == old(ch.published) + [copy]
    ensures fresh(copy.apps) && fresh(copy.apps.AllMaps()) && View(copy) == old(View(snapshot))
  {
    copy := Clone(snapshot);
    ghost var sent := View(copy);
    ch.Publish(copy, gap.0, gap.1);
    assert View(copy) == sent;
  }

  class Store {
    var current: Handle
    var subscribers: map<nat, Channel<Handle>>
    var nextSubscriber: nat

    /** Stored snapshots are self-contained, and subscribers have channels of their own. */
    ghost predicate Valid()
      reads this, current.apps, Channels()
    {
      && current.apps.Separate()
      && (forall id :: id in subscribers ==> id <= nextSubscriber && subscribers[id].Valid() && subscribers[id].Fresh())
      && (forall a, b :: a in subscribers && b in subscribers && a != b ==> subscribers[a] != subscribers[b])
    }

    ghost function Channels(): set<Channel<Handle>>
      reads this
    {
      set id | id in subscribers :: subscribers[id]
    }

    /** The snapshot that readers see. */
    ghost function Current(): Snapshot
      reads this, current.apps, current.apps.AllMaps()
    {
      View(current)
    }

    constructor (initial: Handle)
      ensures Valid() && subscribers == map[]
      ensures Current() == old(View(initial)) && fresh(current.apps) && fresh(current.apps.AllMaps())
    {
      hide AppTable.Contents;
      var cloned := Clone(initial);
      current := cloned;
      subscribers, nextSubscriber := map[], 0;
    }

    /** `Snapshot`: readers get a deep copy. */
    method Snapshot() returns (copy: Handle)
      requires Valid()
      ensures fresh(copy.apps) && fresh(copy.apps.AllMaps()) && copy.apps.Separate()
      ensures View(copy) == old(Current())
    {
      copy := Clone(current);
    }

    method Find(applicationCode: string, ruleID: string) returns (rule: Option<Rule>)
      ensures rule == FindRule(Current(), applicationCode, ruleID)
    {
      if applicationCode !in current.apps.entries {
        return None;
      }
      var app := current.apps.entries[applicationCode];
      rule := if ruleID in app.maps.rules then Some(app.maps.rules[ruleID]) else None;
    }

    /** `Subscribe`: a new channel under a new id. */
    method Subscribe(buffer: int) returns (id: nat, ch: Channel<Handle>)
      requires Valid()
      modifies this`subscribers, this`nextSubscriber
      ensures Valid() && fresh(ch) && id !in old(subscribers) && subscribers == old(subscribers)[id := ch]
      ensures ch.capacity == if buffer <= 0 then 1 else buffer
    {
      ch := new Channel<Handle>(buffer);
      nextSubscriber := nextSubscriber + 1;
      id := nextSubscriber;
      subscribers := subscribers[id := ch];
    }

    method Unsubscribe(id: nat)
      requires Valid()
      modifies this`subscribers
      ensures Valid() && subscribers == old(subscribers) - {id}
    {
      subscribers := subscribers - {id};
    }

    /** One subscriber's part of `notify`: a deep copy of its own goes to its channel; the handles in `kept` stay. */
    method NotifyOne(id: nat, snapshot: Handle, gap: (nat, nat), ghost kept: set<Handle>) returns (copy: Handle)
      requires Valid() && snapshot.apps.Separate() && id in subscribers
      modifies subscribers[id]
      ensures Valid() && subscribers[id].published == old(subscribers[id].published) + [copy]
      ensures fresh(copy.apps) && fresh(copy.apps.AllMaps()) && View(copy) == old(View(snapshot))
      ensures forall other :: other in subscribers && other != id ==>
        subscribers[other].published == old(subscribers[other].published)
      ensures forall h :: h in kept ==>
        View(h) == old(View(h)) && h.apps.AllMaps() == old(h.apps.AllMaps()) && Apart(copy, h) && Apart(h, copy)
      ensures forall h, h' :: h in kept && h' in kept && old(Apart(h, h')) ==> Apart(h, h')
    {
      hide AppTable.Separate, Channel.Valid, Channel.Fresh;
      assert forall other :: other in subscribers && other != id ==> subscribers[other] != subscribers[id];
      copy := Send(subscribers[id], snapshot, gap);
      forall h | h in kept
        ensures View(h) == old(View(h)) && h.apps.AllMaps() == old(h.apps.AllMaps()) && Apart(copy, h) && Apart(h, copy)
      {
        assert h.apps.AllMaps() == old(h.apps.AllMaps());
      }
    }

    /** `notify`: every live subscriber is sent a deep copy, and no two of them the same. */
    method Notify(snapshot: Handle, gaps: nat -> (nat, nat)) returns (ghost copies: map<nat, Handle>)
      requires Valid() && snapshot.apps.Separate()
      modifies Channels()
      ensures Valid() && copies.Keys == subscribers.Keys
      ensures View(snapshot) == old(View(snapshot)) && snapshot.apps.AllMaps() == old(snapshot.apps.AllMaps())
      ensures forall id :: id in subscribers ==>
        subscribers[id].published == old(subscribers[id].published) + [copies[id]]
      ensures forall id :: id in copies ==> View(copies[id]) == old(View(snapshot)) && Apart(copies[id], snapshot)
      ensures forall a, b :: a in copies && b in copies && a != b ==> Apart(copies[a], copies[b])
    {
      hide View, AppTable.Separate, Channel.Valid, Channel.Fresh, MapsOf, Apart;
      var todo := subscribers.Keys;
      copies := map[];
      while todo != {}
        invariant todo <= subscribers.Keys && Valid() && copies.Keys == subscribers.Keys - todo
        invariant View(snapshot) == old(View(snapshot)) && snapshot.apps.AllMaps() == old(snapshot.apps.AllMaps())
        invariant forall id :: id in todo ==> subscribers[id].published == old(subscribers[id].published)
        invariant forall id :: id in copies ==>
          subscribers[id].published == old(subscribers[id].published) + [copies[id]]
        invariant forall id :: id in copies ==> View(copies[id]) == old(View(snapshot)) && Apart(copies[id], snapshot)
        invariant forall a, b :: a in copies && b in copies && a != b ==> Apart(copies[a], copies[b])
        decreases todo
      {
        var id :| id in todo;
        todo := todo - {id};
        assert subscribers[id] in Channels();
        var copy := NotifyOne(id, snapshot, gaps(id), copies.Values + {snapshot});
        copies := copies[id := copy];
      }
    }

    /**
     `ReplaceWithContext`: the pointer swaps to a complete deep copy before the cache is written,
     so readers see the new snapshot even when the cache write fails and an error is returned.
     */
    method Replace(snapshot: Handle, cached: bool, gaps: nat -> (nat, nat))
        returns (ok: bool, ghost copies: map<nat, Handle>)
      requires Valid() && snapshot.apps.Separate()
      modifies this`current, Channels()
      ensures Valid() && ok == cached
      ensures Current() == old(View(snapshot)) && fresh(current.apps) && fresh(current.apps.AllMaps())
      ensures copies.Keys == subscribers.Keys
      ensures forall id :: id in subscribers ==>
        subscribers[id].published == old(subscribers[id].published) + [copies[id]]
      ensures forall id :: id in copies ==> View(copies[id]) == old(View(snapshot)) && Apart(copies[id], current)
      ensures forall a, b :: a in copies && b in copies && a != b ==> Apart(copies[a], copies[b])
    {
      hide View, AppTable.Separate, Channel.Valid, Channel.Fresh, MapsOf;
      var cloned := Clone(snapshot);
      current := cloned;
      ok := cached;
      copies := Notify(cloned, gaps);
    }
  }
}
