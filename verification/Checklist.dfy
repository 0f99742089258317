/** Going down a list of rows with a set of the ids seen so far: what the validation loops of
    both plans do. */
module Checklist {
  /** Every item is sound on its own and no two share an id. */
  predicate Identified<T>(items: seq<T>, sound: T -> bool, id: T -> int) {
    && (forall i :: 0 <= i < |items| ==> sound(items[i]))
    && (forall i, j :: 0 <= i < j < |items| ==> id(items[i]) != id(items[j]))
  }

  /** The first n items are identified, having filled `seen` with their ids. */
  ghost predicate IdsPassed<T>(items: seq<T>, n: nat, seen: set<int>, sound: T -> bool, id: T -> int)
    requires n <= |items|
  {
    && Identified(items[..n], sound, id)
    && (forall i :: 0 <= i < n ==> id(items[i]) in seen)
    && (forall x :: x in seen ==> exists i :: 0 <= i < n && id(items[i]) == x)
  }

  lemma IdsPassNext<T>(items: seq<T>, n: nat, seen: set<int>, sound: T -> bool, id: T -> int)
    requires n < |items| && IdsPassed(items, n, seen, sound, id)
    ensures if sound(items[n]) && id(items[n]) !in seen then IdsPassed(items, n + 1, seen + {id(items[n])}, sound, id)
            else !Identified(items, sound, id)
  {
    assert items[..n + 1] == items[..n] + [items[n]];
    if id(items[n]) in seen {
      var i :| 0 <= i < n && id(items[i]) == id(items[n]);
    }
  }

  predicate FirstAre<T>(items: seq<T>, n: nat, sound: T -> bool)
    requires n <= |items|
  {
    forall i :: 0 <= i < n ==> sound(items[i])
  }

  lemma FirstAreNext<T>(items: seq<T>, n: nat, sound: T -> bool)
    requires n < |items| && FirstAre(items, n, sound) && sound(items[n])
    ensures FirstAre(items, n + 1, sound)
  {
  }
}
