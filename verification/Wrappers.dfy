/** Shared small types. */
module Wrappers {
  /** A value that may be absent. */
  datatype Option<+T> = None | Some(value: T)

  /** What an operation that can fail returns: its value, or why there is none. */
  datatype Result<+T, +E> = Ok(value: T) | Err(error: E)

  /** What befalls one transaction: it runs, it fails and rolls back, or it commits and
      the caller is told it failed. */
  datatype Fault = NoFault | RolledBack | LostAck

  /** The first n items, in order, if none of them is missing. */
  function Collected<T>(item: nat -> Option<T>, n: nat): (r: Option<seq<T>>)
    ensures r.Some? ==> |r.value| == n
  {
    if n == 0 then Some([])
    else
      var front := Collected(item, n - 1);
      if front.None? || item(n - 1).None? then None else Some(front.value + [item(n - 1).value])
  }

  lemma {:induction false} CollectedAt<T>(item: nat -> Option<T>, n: nat, i: nat)
    requires i < n && Collected(item, n).Some?
    ensures item(i) == Some(Collected(item, n).value[i])
  {
    if i < n - 1 {
      CollectedAt(item, n - 1, i);
    }
  }

  /** A missing item is missed by everything longer. */
  lemma {:induction false} CollectedStaysNone<T>(item: nat -> Option<T>, m: nat, n: nat)
    requires m <= n && Collected(item, m).None?
    ensures Collected(item, n).None?
  {
    if m < n {
      CollectedStaysNone(item, m, n - 1);
    }
  }

  /** How many of 0 .. n - 1 satisfy f. */
  function CountTrue(f: nat -> bool, n: nat): nat {
    if n == 0 then 0 else CountTrue(f, n - 1) + if f(n - 1) then 1 else 0
  }

  lemma {:induction false} CountTrueZero(f: nat -> bool, n: nat)
    ensures CountTrue(f, n) == 0 <==> forall i: nat :: i < n ==> !f(i)
  {
    if n > 0 {
      CountTrueZero(f, n - 1);
    }
  }

  /** A tally that starts at zero and grows by one exactly where f holds is the count of f. */
  lemma {:induction false} TallyIsCount(tally: nat -> int, f: nat -> bool, n: nat)
    requires tally(0) == 0 && forall i: nat :: i < n ==> tally(i + 1) == tally(i) + if f(i) then 1 else 0
    ensures tally(n) == CountTrue(f, n)
  {
    if n > 0 {
      TallyIsCount(tally, f, n - 1);
      assert tally(n - 1 + 1) == tally(n - 1) + if f(n - 1) then 1 else 0;
    }
  }
}
