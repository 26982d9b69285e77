/** An insertion-ordered map as JavaScript's `Map` is one: a sequence of items, each
    carrying its own key, scanned from the front. */
module OrderedMaps {
  import opened Basics

  /** Index of the first item under `key`, or the length when there is none. */
  function IndexOf<T, K(==)>(items: seq<T>, keyOf: T -> K, key: K): (i: nat)
    ensures i <= |items| && (i < |items| ==> keyOf(items[i]) == key)
    ensures forall k :: 0 <= k < i ==> keyOf(items[k]) != key
  {
    if items == [] || keyOf(items[0]) == key then 0 else 1 + IndexOf(items[1..], keyOf, key)
  }

  /** `Map.set`: an existing key keeps its place. */
  function Assign<T, K(==)>(items: seq<T>, keyOf: T -> K, item: T): seq<T> {
    var i := IndexOf(items, keyOf, keyOf(item));
    if i < |items| then items[i := item] else items + [item]
  }

  function RemoveAt<T>(items: seq<T>, i: nat): seq<T>
    requires i < |items|
  {
    items[..i] + items[i + 1..]
  }

  /** Index of the first item with the least timestamp. */
  function FirstOldest<T>(items: seq<T>, seenAt: T -> int): (i: nat)
    requires items != []
    ensures i < |items|
    ensures forall k :: 0 <= k < |items| ==> seenAt(items[i]) <= seenAt(items[k])
    ensures forall k :: 0 <= k < i ==> seenAt(items[i]) < seenAt(items[k])
  {
    if |items| == 1 then 0
    else
      var i := FirstOldest(Init(items), seenAt);
      assert forall k :: 0 <= k < |items| - 1 ==> Init(items)[k] == items[k];
      if seenAt(Last(items)) < seenAt(items[i]) then |items| - 1 else i
  }
}
