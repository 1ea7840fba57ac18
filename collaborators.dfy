/**
 * The two generic collaborators the recommender is written against: a bounded
 * most-recently-used history and a read-only key/value store.
 */
module Collaborators {
  import opened Wrappers

  /**
   * The history kept by a most-recently-used container of the given capacity
   * after `element` is added to `history` (oldest entry first, newest last):
   * the newest `capacity` entries of `history + [element]`.
   */
  function AddBounded<T>(history: seq<T>, capacity: nat, element: T): (r: seq<T>)
    requires |history| <= capacity
    // the size grows by one until the capacity is reached, then stays there
    ensures |r| == if |history| < capacity then |history| + 1 else capacity
    // the added element is the newest entry (unless nothing can be kept at all)
    ensures capacity > 0 ==> r[|r| - 1] == element
    // the entries before it are the newest entries of the old history, in order
    ensures forall i :: 0 <= i < |r| - 1 ==> r[i] == history[|history| - (|r| - 1) + i]
  {
    if |history| < capacity then history + [element] else (history + [element])[1..]
  }

  /** Every entry of an AddBounded result comes from the old history or is the added element. */
  lemma AddBoundedFrom<T>(history: seq<T>, capacity: nat, element: T, pool: set<T>)
    requires |history| <= capacity
    requires forall i :: 0 <= i < |history| ==> history[i] in pool
    requires element in pool
    ensures var r := AddBounded(history, capacity, element);
            forall i :: 0 <= i < |r| ==> r[i] in pool
  {
  }

  /**
   * A container of the most recently added elements, holding at most
   * `capacity` of them; adding to a full container evicts the oldest one.
   */
  class MostRecentlyUsed<T> {
    const capacity: nat
    var items: seq<T>  // oldest first, newest last

    ghost predicate Valid()
      reads this
    {
      |items| <= capacity
    }

    constructor (capacity: nat)
      ensures Valid()
      ensures this.capacity == capacity && items == []
    {
      this.capacity := capacity;
      items := [];
    }

    function GetSize(): nat
      reads this
    {
      |items|
    }

    function Get(index: int): T
      requires 0 <= index < |items|
      reads this
    {
      items[index]
    }

    method Add(element: T)
      requires Valid()
      modifies this
      ensures Valid()
      ensures items == AddBounded(old(items), capacity, element)
    {
      items := items + [element];
      if |items| > capacity {
        items := items[1..];
      }
    }
  }

  /** A store that can only be read: `Get` answers `None` for a key it does not hold. */
  datatype ReadOnlyDao<K, V> = ReadOnlyDao(entries: map<K, V>) {
    function Get(key: K): Option<V> {
      if key in entries then Some(entries[key]) else None
    }
  }
}
