/** The CRM lookup cache: a map and a recency list that stay in step, with per-entry expiry.  */
module LruCache {
  import opened Prelude

  type Key = string

  datatype Status = Matched | NotMatched
  datatype Result = Result(status: Status, data: nat)

  // A list element; `id` is its identity, to which the map points.
  datatype Element = Element(id: nat, key: Key, result: Result, expires: int)

  // What the last Put for a key stored.
  datatype Stored = Stored(result: Result, expires: int)

  // Where the element with this identity is.
  function Find(list: seq<Element>, id: nat): nat {
    if list == [] || list[0].id == id then 0 else 1 + Find(list[1..], id)
  }

  lemma {:induction false} Found(list: seq<Element>, i: nat)
    requires i < |list| && Distinct(list)
    ensures Find(list, list[i].id) == i
    decreases |list|
  {
    if i > 0 { Found(list[1..], i - 1); }
  }

  // ---- what holds of the list and the map ----

  predicate Distinct(list: seq<Element>) {
    forall i, j | 0 <= i < j < |list| :: list[i].id != list[j].id && list[i].key != list[j].key
  }

  predicate Mapped(list: seq<Element>, items: map<Key, nat>, nextId: nat) {
    forall i | 0 <= i < |list| :: list[i].key in items && items[list[i].key] == list[i].id && list[i].id < nextId
  }

  predicate HasKey(list: seq<Element>, k: Key) {
    exists i :: 0 <= i < |list| && list[i].key == k
  }

  predicate Covers(list: seq<Element>, items: map<Key, nat>) {
    forall k | k in items :: HasKey(list, k)
  }

  // The map and the list name the same elements.
  predicate InStep(list: seq<Element>, items: map<Key, nat>, nextId: nat) {
    Distinct(list) && Mapped(list, items, nextId) && Covers(list, items)
  }

  // The list holds what was put last.
  predicate Holds(list: seq<Element>, last: map<Key, Stored>) {
    forall i | 0 <= i < |list| :: list[i].key in last && last[list[i].key] == Stored(list[i].result, list[i].expires)
  }

  // Most recently used first.
  predicate InOrder(list: seq<Element>, used: map<Key, nat>, tick: nat) {
    && (forall i | 0 <= i < |list| :: list[i].key in used && used[list[i].key] < tick)
    && (forall i, j | 0 <= i < j < |list| && list[i].key in used && list[j].key in used ::
       used[list[i].key] > used[list[j].key])
  }

  // A key that was put is still there, or was lost since.
  predicate Accounted(items: map<Key, nat>, last: map<Key, Stored>, lost: set<Key>) {
    (forall k | k in last :: k in items || k in lost) && (forall k | k in lost :: k !in items)
  }

  // `list` without its i-th element.
  function Without(list: seq<Element>, i: nat): seq<Element>
    requires i < |list|
  {
    list[..i] + list[i + 1..]
  }

  lemma WithoutAt(list: seq<Element>, i: nat, w: seq<Element>)
    requires i < |list| && w == Without(list, i)
    ensures |w| == |list| - 1 && forall k | 0 <= k < |w| :: w[k] == list[if k < i then k else k + 1]
  {
  }

  lemma InStepWithout(list: seq<Element>, items: map<Key, nat>, nextId: nat, i: nat, w: seq<Element>)
    requires InStep(list, items, nextId) && i < |list| && w == Without(list, i)
    ensures InStep(w, items - {list[i].key}, nextId)
  {
    WithoutAt(list, i, w);
    forall k | k in items && k != list[i].key ensures HasKey(w, k) {
      assert HasKey(list, k);
      var j :| 0 <= j < |list| && list[j].key == k;
      assert w[if j < i then j else j - 1].key == k;
    }
  }

  lemma OtherWithout(list: seq<Element>, last: map<Key, Stored>, used: map<Key, nat>, tick: nat, i: nat,
                     w: seq<Element>)
    requires i < |list| && w == Without(list, i) && Holds(list, last) && InOrder(list, used, tick)
    ensures Holds(w, last) && InOrder(w, used, tick)
  {
    WithoutAt(list, i, w);
  }

  lemma InStepFront(list: seq<Element>, items: map<Key, nat>, nextId: nat, e: Element, nextId': nat)
    requires InStep(list, items, nextId) && e.key !in items && e.id !in (set j | 0 <= j < |list| :: list[j].id)
      && e.id < nextId' && nextId <= nextId'
    ensures InStep([e] + list, items[e.key := e.id], nextId')
  {
    var w, items' := [e] + list, items[e.key := e.id];
    assert forall k | 1 <= k < |w| :: w[k] == list[k - 1];
    forall k | k in items' ensures HasKey(w, k) {
      if k == e.key {
        assert w[0].key == k;
      } else {
        assert HasKey(list, k);
        var j :| 0 <= j < |list| && list[j].key == k;
        assert w[j + 1].key == k;
      }
    }
  }

  lemma OtherFront(list: seq<Element>, last: map<Key, Stored>, used: map<Key, nat>, tick: nat, e: Element)
    requires Holds(list, last) && InOrder(list, used, tick) && forall j | 0 <= j < |list| :: list[j].key != e.key
    ensures Holds([e] + list, last[e.key := Stored(e.result, e.expires)])
      && InOrder([e] + list, used[e.key := tick], tick + 1)
  {
    var w := [e] + list;
    assert forall k | 1 <= k < |w| :: w[k] == list[k - 1];
  }

  // Every key but the last one's was used after it.
  lemma LeastRecent(list: seq<Element>, items: map<Key, nat>, nextId: nat, used: map<Key, nat>, tick: nat)
    requires list != [] && InStep(list, items, nextId) && InOrder(list, used, tick)
    ensures var gone := list[|list| - 1].key; forall k | k in items && k != gone ::
      k in used && gone in used && used[gone] < used[k]
  {
    var gone := list[|list| - 1].key;
    forall k | k in items && k != gone ensures k in used && gone in used && used[gone] < used[k] {
      assert HasKey(list, k);
      var j :| 0 <= j < |list| && list[j].key == k;
    }
  }

  // ---- the whole state ----

  datatype State = State(list: seq<Element>, items: map<Key, nat>, nextId: nat, last: map<Key, Stored>,
                         used: map<Key, nat>, tick: nat, lost: set<Key>)

  predicate Sound(s: State) {
    InStep(s.list, s.items, s.nextId) && Holds(s.list, s.last) && InOrder(s.list, s.used, s.tick)
      && Accounted(s.items, s.last, s.lost)
  }

  predicate Unfold(x: int) { true }

  // `Sound`, folded: a proof that needs what it says mentions `Unfold(0)`.
  ghost predicate Good(s: State) { forall x: int {:trigger Unfold(x)} :: Unfold(x) ==> Sound(s) }

  function Removed(s: State, i: nat): State
    requires i < |s.list|
  {
    var key := s.list[i].key;
    s.(list := Without(s.list, i), items := s.items - {key}, lost := s.lost + {key})
  }

  function Pushed(s: State, key: Key, result: Result, expires: int): State {
    State([Element(s.nextId, key, result, expires)] + s.list, s.items[key := s.nextId], s.nextId + 1,
          s.last[key := Stored(result, expires)], s.used[key := s.tick], s.tick + 1, s.lost - {key})
  }

  function Refreshed(s: State, i: nat, result: Result, expires: int): State
    requires i < |s.list|
  {
    var e := s.list[i].(result := result, expires := expires);
    s.(list := [e] + Without(s.list, i), last := s.last[e.key := Stored(result, expires)],
       used := s.used[e.key := s.tick], tick := s.tick + 1)
  }

  lemma GoodRemoved(s: State, i: nat)
    requires Good(s) && i < |s.list|
    ensures Good(Removed(s, i))
  {
    assert Unfold(0);
    InStepWithout(s.list, s.items, s.nextId, i, Without(s.list, i));
    OtherWithout(s.list, s.last, s.used, s.tick, i, Without(s.list, i));
  }

  lemma GoodPushed(s: State, key: Key, result: Result, expires: int)
    requires Good(s) && key !in s.items
    ensures Good(Pushed(s, key, result, expires))
  {
    assert Unfold(0);
    var e := Element(s.nextId, key, result, expires);
    InStepFront(s.list, s.items, s.nextId, e, s.nextId + 1);
    OtherFront(s.list, s.last, s.used, s.tick, e);
  }

  // Taking an element out and putting it back in front, its value changed.
  lemma InStepMoved(list: seq<Element>, items: map<Key, nat>, nextId: nat, i: nat, e: Element, w: seq<Element>)
    requires InStep(list, items, nextId) && i < |list| && e.id == list[i].id && e.key == list[i].key
      && w == Without(list, i)
    ensures InStep([e] + w, items, nextId)
  {
    InStepWithout(list, items, nextId, i, w);
    WithoutAt(list, i, w);
    InStepFront(w, items - {e.key}, nextId, e, nextId);
    assert (items - {e.key})[e.key := e.id] == items;
  }

  lemma OtherMoved(list: seq<Element>, last: map<Key, Stored>, used: map<Key, nat>, tick: nat, i: nat,
                   e: Element, w: seq<Element>)
    requires Distinct(list) && i < |list| && e.key == list[i].key && w == Without(list, i) && Holds(list, last)
      && InOrder(list, used, tick)
    ensures Holds([e] + w, last[e.key := Stored(e.result, e.expires)])
      && InOrder([e] + w, used[e.key := tick], tick + 1)
  {
    OtherWithout(list, last, used, tick, i, w);
    WithoutAt(list, i, w);
    OtherFront(w, last, used, tick, e);
  }

  lemma AccountedMoved(items: map<Key, nat>, last: map<Key, Stored>, lost: set<Key>, key: Key, v: Stored)
    requires Accounted(items, last, lost) && key in items
    ensures Accounted(items, last[key := v], lost)
  {
  }

  lemma GoodRefreshed(s: State, i: nat, result: Result, expires: int)
    requires Good(s) && i < |s.list|
    ensures Good(Refreshed(s, i, result, expires))
  {
    assert Unfold(0);
    var e, w := s.list[i].(result := result, expires := expires), Without(s.list, i);
    InStepMoved(s.list, s.items, s.nextId, i, e, w);
    OtherMoved(s.list, s.last, s.used, s.tick, i, e, w);
    AccountedMoved(s.items, s.last, s.lost, e.key, Stored(result, expires));
  }

  // What the list says of a key.
  lemma Listed(s: State, key: Key)
    requires Good(s)
    ensures key in s.items ==> key !in s.lost && key in s.last
    ensures key !in s.items && key in s.last ==> key in s.lost
    ensures key in s.items ==> var i := Find(s.list, s.items[key]);
      i < |s.list| && s.list[i].key == key && s.last[key] == Stored(s.list[i].result, s.list[i].expires)
  {
    assert Unfold(0);
    if key in s.items {
      assert HasKey(s.list, key);
      var k :| 0 <= k < |s.list| && s.list[k].key == key;
      Found(s.list, k);
    }
  }

  class Cache {
    const capacity: nat
    const hitTTL: nat
    const missTTL: nat
    var items: map<Key, nat>
    // Most recently used first.
    var evictList: seq<Element>
    var nextId: nat

    // The last Put of each key, the moment of its last use, and the keys lost since their last Put to
    // eviction or expiry.
    ghost var last: map<Key, Stored>
    ghost var used: map<Key, nat>
    ghost var tick: nat
    ghost var lost: set<Key>

    constructor (capacity: int, hitTTL: int, missTTL: int)
      ensures Inv() && items == map[] && last == map[]
      ensures this.capacity == (if capacity <= 0 then 50000 else capacity)
      ensures this.hitTTL == (if hitTTL <= 0 then 900 else hitTTL)
      ensures this.missTTL == (if missTTL <= 0 then 120 else missTTL)
    {
      this.capacity := if capacity <= 0 then 50000 else capacity;
      this.hitTTL := if hitTTL <= 0 then 15 * 60 else hitTTL;
      this.missTTL := if missTTL <= 0 then 2 * 60 else missTTL;
      items, evictList, nextId := map[], [], 0;
      last, used, tick, lost := map[], map[], 0, {};
    }

    ghost function Now(): State
      reads this
    {
      State(evictList, items, nextId, last, used, tick, lost)
    }

    ghost predicate Inv()
      reads this
    {
      0 < capacity && |evictList| <= capacity && Good(Now())
    }

    method RemoveElement(i: nat)
      requires Inv() && i < |evictList|
      modifies this`evictList, this`items, this`lost
      ensures Inv() && Now() == Removed(old(Now()), i)
    {
      GoodRemoved(Now(), i);
      var key := evictList[i].key;
      evictList, items, lost := Without(evictList, i), items - {key}, lost + {key};
    }

    // Evicts the entry whose last use is longest ago.
    method RemoveOldest()
      requires Inv() && evictList != []
      modifies this`evictList, this`items, this`lost
      ensures Inv() && Now() == Removed(old(Now()), |old(evictList)| - 1)
      ensures var gone := old(evictList)[|old(evictList)| - 1].key; forall k | k in items ::
        k in used && gone in used && used[gone] < used[k]
    {
      Oldest(Now());
      RemoveElement(|evictList| - 1);
    }

    // Moves an element to the front, with this value.
    method Refresh(i: nat, result: Result, expires: int)
      requires Inv() && i < |evictList|
      modifies this`evictList, this`last, this`used, this`tick
      ensures Inv() && Now() == Refreshed(old(Now()), i, result, expires)
    {
      ghost var s := Refreshed(Now(), i, result, expires);
      GoodRefreshed(Now(), i, result, expires);
      var e := evictList[i].(result := result, expires := expires);
      evictList := [e] + Without(evictList, i);
      last, used, tick := last[e.key := Stored(result, expires)], used[e.key := tick], tick + 1;
      assert Now() == s;
    }

    method PushFront(key: Key, result: Result, expires: int)
      requires Inv() && key !in items && |evictList| < capacity
      modifies this
      ensures Inv() && Now() == Pushed(old(Now()), key, result, expires)
    {
      ghost var s := Pushed(Now(), key, result, expires);
      GoodPushed(Now(), key, result, expires);
      evictList := [Element(nextId, key, result, expires)] + evictList;
      items, nextId := items[key := nextId], nextId + 1;
      last, lost, used, tick := last[key := Stored(result, expires)], lost - {key}, used[key := tick], tick + 1;
      assert Now() == s;
    }

    // Main result: Get returns what the last Put of the key stored, unless that has expired or was lost
    // to eviction or expiry since.
    method Get(key: Key, now: int) returns (r: Option<Result>)
      requires Inv()
      modifies this`evictList, this`items, this`last, this`used, this`tick, this`lost
      ensures Inv() && last == old(last)
      ensures r.Some? <==> key in last && key !in old(lost) && now <= last[key].expires
      ensures r.Some? ==> r.value == last[key].result && items == old(items) && lost == old(lost)
      ensures r == None ==> items == old(items) - {key} && lost == if key in old(items) then old(lost) + {key}
        else old(lost)
      ensures used == if r.Some? then old(used)[key := old(tick)] else old(used)
    {
      Listed(Now(), key);
      if key !in items { return None; }
      var i := Find(evictList, items[key]);
      var e := evictList[i];
      if now > e.expires {
        RemoveElement(i);
        return None;
      }
      Refresh(i, e.result, e.expires);
      r := Some(e.result);
    }

    // Stores the result; at capacity one other key goes, the least recently used.
    method Put(key: Key, result: Result, now: int)
      requires Inv()
      modifies this
      ensures Inv() && key in items && key !in lost
      ensures last == old(last)[key := Stored(result, now + if result.status.Matched? then hitTTL else missTTL)]
      ensures lost == (if key in old(items) || |old(evictList)| < capacity then old(lost)
        else old(lost) + {old(evictList)[capacity - 1].key}) - {key}
      ensures used == old(used)[key := old(tick)]
    {
      var expires := now + if result.status.Matched? then hitTTL else missTTL;
      Listed(Now(), key);
      if key in items {
        Refresh(Find(evictList, items[key]), result, expires);
      } else {
        if |evictList| >= capacity { RemoveOldest(); }
        PushFront(key, result, expires);
      }
    }
  }

  lemma Oldest(s: State)
    requires Good(s) && s.list != []
    ensures var gone := s.list[|s.list| - 1].key; forall k | k in s.items && k != gone ::
      k in s.used && gone in s.used && s.used[gone] < s.used[k]
  {
    assert Unfold(0);
    LeastRecent(s.list, s.items, s.nextId, s.used, s.tick);
  }
}
