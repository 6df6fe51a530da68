/**
 * The site collector's delivery buffer: a bounded queue without duplicate keys
 * that is flushed oldest first, and its mirror in a file.
 *
 * JavaScript runs a piece of code without interruption up to its next `await`.
 * `flush` awaits only the send, so its atomic pieces are the ones named here;
 * Protocol.dfy interleaves them with everything else that can happen.
 */
module Delivery {
  import opened Wrappers

  /** The configuration accepts only a positive capacity. */
  type Cap = n: int | 0 < n witness 1

  datatype Item<+P> = Item(key: string, channel: string, payload: P, queuedAt: int)

  /** What is found at the buffer file's path. `Unreadable` covers text that is not JSON and JSON that is not an array. */
  datatype File<+P> = Absent | Unreadable | Saved(items: seq<Item<P>>)

  /** The buffer as a value. `persists` tells the file-backed buffer from the in-memory one. */
  datatype Buffer<+P> = Buffer(cap: Cap, persists: bool, items: seq<Item<P>>, file: File<P>)

  predicate HasKey<P>(items: seq<Item<P>>, key: string) {
    exists i :: 0 <= i < |items| && items[i].key == key
  }

  ghost predicate UniqueKeys<P>(items: seq<Item<P>>) {
    forall i, j :: 0 <= i < j < |items| ==> items[i].key != items[j].key
  }

  /** The change hook: the in-memory buffer does nothing, the file-backed one replaces its file. */
  function Persisted<P>(b: Buffer<P>): Buffer<P> {
    if b.persists then b.(file := Saved(b.items)) else b
  }

  function Enqueued<P>(b: Buffer<P>, item: Item<P>): Buffer<P> {
    if HasKey(b.items, item.key) then b
    else Persisted(b.(items := LastN(b.items + [item], b.cap)))
  }

  /** `Array.shift`, which leaves an empty array alone. */
  function Shifted<P>(b: Buffer<P>): Buffer<P> {
    if b.items == [] then b else b.(items := b.items[1..])
  }

  /** The end of a flush that delivered `delivered` items. */
  function Finished<P>(b: Buffer<P>, delivered: nat): Buffer<P> {
    if delivered > 0 then Persisted(b) else b
  }

  /** What a file-backed buffer starts from: an unreadable file is discarded and the cap is applied again. */
  function Loaded<P>(file: File<P>, cap: Cap): seq<Item<P>> {
    if file.Saved? then LastN(file.items, cap) else []
  }

  /** The key is queued, at most the oldest item goes, and what stays keeps its order and its distinct keys. */
  lemma EnqueuedDrops<P>(b: Buffer<P>, item: Item<P>)
    requires |b.items| <= b.cap && UniqueKeys(b.items)
    ensures var r := Enqueued(b, item).items;
            && HasKey(r, item.key) && |r| <= b.cap && UniqueKeys(r)
            && exists dropped: nat :: dropped <= 1 && dropped <= |b.items| && |b.items| - dropped <= |r| && r[..|b.items| - dropped] == b.items[dropped..]
  {
    var r, n := Enqueued(b, item).items, |b.items|;
    if HasKey(b.items, item.key) || n < b.cap {
      assert r[..n - 0] == b.items[0..];
    } else {
      assert r[..n - 1] == b.items[1..];
    }
    if !HasKey(b.items, item.key) { assert r[|r| - 1] == item; }
  }

  class DeliveryBuffer<P> {
    const maxItems: Cap
    const persists: bool
    var items: seq<Item<P>>
    /** The file on disk; it outlives this object. */
    var file: File<P>

    ghost function State(): Buffer<P>
      reads this
    {
      Buffer(maxItems, persists, items, file)
    }

    ghost predicate Valid()
      reads this
    {
      |items| <= maxItems && UniqueKeys(items)
    }

    constructor (maxItems: Cap, persists: bool, disk: File<P>)
      ensures |items| <= maxItems
      ensures persists && disk.Saved? ==> exists cut :: 0 <= cut <= |disk.items| && items == disk.items[cut..] && (cut == 0 || |items| == maxItems)
      ensures !persists || !disk.Saved? ==> items == []
      ensures (disk.Saved? ==> UniqueKeys(disk.items)) ==> Valid()
      ensures State() == Buffer(maxItems, persists, if persists then Loaded(disk, maxItems) else [], disk)
    {
      this.maxItems := maxItems;
      this.persists := persists;
      this.file := disk;
      this.items := if persists then Loaded(disk, maxItems) else [];
      assert disk.Saved? && |disk.items| <= maxItems ==> Loaded(disk, maxItems) == disk.items[0..];
    }

    method Enqueue(key: string, channel: string, payload: P, now: int)
      requires Valid()
      modifies this
      ensures Valid()
      ensures State() == Enqueued(old(State()), Item(key, channel, payload, now))
      ensures HasKey(items, key)
      ensures file == if persists && !HasKey(old(items), key) then Saved(items) else old(file)
      ensures exists dropped: nat :: dropped <= 1 && dropped <= |old(items)| && |old(items)| - dropped <= |items| &&
                                     items[..|old(items)| - dropped] == old(items)[dropped..]
    {
      EnqueuedDrops(State(), Item(key, channel, payload, now));
      if HasKey(items, key) {
        return;
      }
      items := items + [Item(key, channel, payload, now)];
      if |items| > maxItems {
        items := items[|items| - maxItems..];
      }
      OnChange();
    }

    /**
     * A flush nothing interleaves with. The `i`-th send of this flush resolves
     * when `outcome(i)` holds and rejects otherwise.
     */
    method Flush(outcome: nat -> bool) returns (delivered: nat, remaining: nat, sent: seq<Item<P>>)
      requires Valid()
      modifies this
      ensures Valid()
      ensures delivered <= |old(items)| && remaining == |old(items)| - delivered
      ensures forall i: nat :: i < delivered ==> outcome(i)
      ensures delivered < |old(items)| ==> !outcome(delivered)
      ensures sent == old(items)[..if delivered < |old(items)| then delivered + 1 else delivered]
      ensures State() == Finished(old(State()).(items := old(items)[delivered..]), delivered)
      ensures items == old(items)[delivered..]
      ensures file == if persists && delivered > 0 then Saved(items) else old(file)
    {
      delivered, sent := 0, [];
      while |items| > 0
        invariant delivered <= |old(items)| && items == old(items)[delivered..]
        invariant sent == old(items)[..delivered] && file == old(file)
        invariant forall i: nat :: i < delivered ==> outcome(i)
        decreases |items|
      {
        var next := items[0];
        sent := sent + [next];
        if !outcome(delivered) {
          break;
        }
        items := items[1..];
        delivered := delivered + 1;
      }
      if delivered > 0 {
        OnChange();
      }
      remaining := |items|;
    }

    method OnChange()
      modifies this`file
      ensures State() == Persisted(old(State()))
      ensures file == if persists then Saved(items) else old(file)
    {
      if persists {
        file := Saved(items);
      }
    }
  }
}
