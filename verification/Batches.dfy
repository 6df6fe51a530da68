/**
 * The batch loop shared by the adapters: each item is normalized on its own,
 * failures are collected with their position, and one bad item never drops the
 * others.
 */
module Batches {
  import opened Wrappers

  datatype Rejection<+E> = Rejection(index: nat, error: E)

  /** How many of the first `n` items fail. */
  ghost function Failures<T, U, E>(f: T -> Result<U, E>, items: seq<T>, n: nat): (k: nat)
    requires n <= |items|
    ensures k <= n
  {
    if n == 0 then 0 else Failures(f, items, n - 1) + if f(items[n - 1]).Failure? then 1 else 0
  }

  /** The item at `i` is accepted after the successes before it, or rejected after the failures before it. */
  ghost predicate Placed<T, U, E>(f: T -> Result<U, E>, items: seq<T>, accepted: seq<U>, rejected: seq<Rejection<E>>, i: nat)
    requires i < |items|
  {
    var k, r := Failures(f, items, i), f(items[i]);
    if r.Success? then i - k < |accepted| && accepted[i - k] == r.value
    else k < |rejected| && rejected[k] == Rejection(i, r.error)
  }

  /**
   * The results partition the batch: every item is in its place, with its own
   * position and error when it is rejected, and nothing else appears.
   */
  ghost predicate Partitions<T, U, E>(f: T -> Result<U, E>, items: seq<T>, accepted: seq<U>, rejected: seq<Rejection<E>>) {
    && |rejected| == Failures(f, items, |items|)
    && |accepted| + |rejected| == |items|
    && forall i: nat :: i < |items| ==> Placed(f, items, accepted, rejected, i)
  }

  lemma {:induction false} FailuresPrefix<T, U, E>(f: T -> Result<U, E>, items: seq<T>, item: T, n: nat)
    requires n <= |items|
    ensures Failures(f, items + [item], n) == Failures(f, items, n)
  {
    if n > 0 { FailuresPrefix(f, items, item, n - 1); }
  }

  lemma {:induction false} PartitionsSnoc<T, U, E>(f: T -> Result<U, E>, items: seq<T>, item: T, accepted: seq<U>, rejected: seq<Rejection<E>>,
                               accepted': seq<U>, rejected': seq<Rejection<E>>)
    requires Partitions(f, items, accepted, rejected)
    requires var r := f(item);
             if r.Success? then accepted' == accepted + [r.value] && rejected' == rejected
             else accepted' == accepted && rejected' == rejected + [Rejection(|items|, r.error)]
    ensures Partitions(f, items + [item], accepted', rejected')
  {
    var all := items + [item];
    FailuresPrefix(f, items, item, |items|);
    forall i: nat | i < |all| ensures Placed(f, all, accepted', rejected', i) {
      if i < |items| {
        assert Placed(f, items, accepted, rejected, i);
        FailuresPrefix(f, items, item, i);
      }
    }
  }

  /** The loop over a batch with a try around each item. */
  method Collect<T, U, E>(f: T -> Result<U, E>, items: seq<T>) returns (accepted: seq<U>, rejected: seq<Rejection<E>>)
    ensures Partitions(f, items, accepted, rejected)
  {
    hide Placed;
    accepted, rejected := [], [];
    for i := 0 to |items|
      invariant Partitions(f, items[..i], accepted, rejected)
    {
      ghost var accepted0, rejected0 := accepted, rejected;
      var r := f(items[i]);
      if r.Success? {
        accepted := accepted + [r.value];
      } else {
        rejected := rejected + [Rejection(i, r.error)];
      }
      PartitionsSnoc(f, items[..i], items[i], accepted0, rejected0, accepted, rejected);
      assert items[..i + 1] == items[..i] + [items[i]];
    }
    assert items[..|items|] == items;
  }
}
