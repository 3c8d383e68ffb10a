/** A small ordered working list for learning and review sessions: the
    current entry is the first one, it can be popped, or deferred to a random
    position near the end. The random position is the caller's `insertAt`. */
module SessionQueues {
  import opened Wrappers

  /** The first admissible reinsertion index when `n` entries remain after
      removing the current one: a window of at most `max(1, window)` slots
      that ends with the append position `n`. */
  function WindowStart(n: int, window: int): int {
    var w := Max(1, window);
    var actualWindow := Min(w, n);
    Max(0, n - actualWindow)
  }

  /** The window covers the last `min(max(1, window), n)` slots; a window of
      zero or less acts as one. */
  lemma WindowBounds(n: nat, window: int)
    ensures WindowStart(n, window) == n - Min(Max(1, window), n)
    ensures 0 <= WindowStart(n, window) <= n
    ensures window <= 0 ==> WindowStart(n, window) == WindowStart(n, 1)
    ensures window >= n ==> WindowStart(n, window) == 0
  {
  }

  /** The current entry of `s` reinserted at `k` among the remaining ones. */
  function MovedNearEnd<T>(s: seq<T>, k: nat): (r: seq<T>)
    requires 0 < |s| && k <= |s| - 1
  {
    var rest := s[1..];
    rest[..k] + [s[0]] + rest[k..]
  }

  /** Deleting position `k`. */
  function RemovedAt<T>(s: seq<T>, k: nat): seq<T>
    requires k < |s|
  {
    s[..k] + s[k + 1..]
  }

  /** The deferral keeps every entry and the count, puts the current entry at
      `k`, and leaves the others in their relative order. */
  lemma MovedNearEndConserves<T>(s: seq<T>, k: nat)
    requires 0 < |s| && k <= |s| - 1
    ensures var r := MovedNearEnd(s, k);
      && |r| == |s|
      && multiset(r) == multiset(s)
      && r[k] == s[0]
      && RemovedAt(r, k) == s[1..]
  {
    var r := MovedNearEnd(s, k);
    var rest := s[1..];
    assert r[k + 1..] == rest[k..];
    assert r[..k] == rest[..k];
    assert rest[..k] + rest[k..] == rest;
    assert s == [s[0]] + rest;
    calc {
      multiset(r);
      multiset(rest[..k]) + multiset([s[0]]) + multiset(rest[k..]);
      multiset([s[0]]) + multiset(rest[..k] + rest[k..]);
      multiset(s);
    }
  }

  /** For a window narrower than the rest of the queue the deferred entry is
      never current again right away; for a window covering the whole rest it
      may be. */
  lemma DeferredEntryLeavesFront(n: nat, window: int, k: nat)
    requires WindowStart(n, window) <= k <= n
    ensures Max(1, window) < n ==> k >= 1
    ensures window >= n ==> WindowStart(n, window) == 0
  {
  }

  /** One queue operation other than `setItems`. */
  datatype QueueOp = PopOp | MoveOp(window: int, insertAt: nat)

  /** Each deferral in `ops` picks an index inside its window. */
  predicate Admissible<T>(s: seq<T>, ops: seq<QueueOp>)
    decreases |ops|
  {
    if ops == [] then true
    else match ops[0]
      case PopOp => Admissible(if s == [] then s else s[1..], ops[1..])
      case MoveOp(w, k) =>
        if |s| <= 1 then Admissible(s, ops[1..])
        else WindowStart(|s| - 1, w) <= k <= |s| - 1 && Admissible(MovedNearEnd(s, k), ops[1..])
  }

  /** The queue after `ops`, and the entries popped on the way. */
  function Run<T>(s: seq<T>, ops: seq<QueueOp>): (seq<T>, seq<T>)
    requires Admissible(s, ops)
    decreases |ops|
  {
    if ops == [] then (s, [])
    else match ops[0]
      case PopOp =>
        if s == [] then Run(s, ops[1..])
        else var (q, popped) := Run(s[1..], ops[1..]); (q, [s[0]] + popped)
      case MoveOp(w, k) =>
        if |s| <= 1 then Run(s, ops[1..]) else Run(MovedNearEnd(s, k), ops[1..])
  }

  /** Conservation: across any pops and deferrals no entry is duplicated or
      lost; what left the queue is exactly what was popped. */
  lemma {:induction false} RunConserves<T>(s: seq<T>, ops: seq<QueueOp>)
    requires Admissible(s, ops)
    ensures multiset(Run(s, ops).0) + multiset(Run(s, ops).1) == multiset(s)
    decreases |ops|
  {
    if ops != [] {
      match ops[0]
      case PopOp =>
        if s == [] {
          RunConserves(s, ops[1..]);
        } else {
          RunConserves(s[1..], ops[1..]);
          assert s == [s[0]] + s[1..];
        }
      case MoveOp(w, k) =>
        if |s| <= 1 {
          RunConserves(s, ops[1..]);
        } else {
          MovedNearEndConserves(s, k);
          RunConserves(MovedNearEnd(s, k), ops[1..]);
        }
    }
  }

  class Queue<T> {
    var items: seq<T>
    const id: T -> string

    constructor (items: seq<T>, id: T -> string)
      ensures this.items == items && this.id == id
    {
      this.items := items;
      this.id := id;
    }

    function Count(): (n: nat)
      reads this
      ensures n == |items|
    {
      |items|
    }

    function IsEmpty(): (b: bool)
      reads this
      ensures b <==> |items| == 0
    {
      items == []
    }

    /** The first entry, or none. */
    function Current(): (r: Option<T>)
      reads this
      ensures r.None? <==> items == []
      ensures r.Some? ==> r.value == items[0]
    {
      if items == [] then None else Some(items[0])
    }

    method SetItems(newItems: seq<T>)
      modifies this
      ensures items == newItems
    {
      items := newItems;
    }

    /** Removes and returns the first entry; on an empty queue returns none
        and changes nothing. */
    method PopCurrent() returns (r: Option<T>)
      modifies this
      ensures old(items) == [] ==> r == None && items == old(items)
      ensures old(items) != [] ==> r == Some(old(items)[0]) && items == old(items)[1..]
    {
      if items == [] {
        return None;
      }
      r := Some(items[0]);
      items := items[1..];
    }

    /** Defers the current entry to `insertAt`, chosen in the near-end window
        of the entries that remain; a queue of at most one entry is left as
        it is. */
    method MoveCurrentNearEnd(window: int, insertAt: nat)
      requires |items| > 1 ==> WindowStart(|items| - 1, window) <= insertAt <= |items| - 1
      modifies this
      ensures |old(items)| <= 1 ==> items == old(items)
      ensures |old(items)| > 1 ==> items == MovedNearEnd(old(items), insertAt)
    {
      if |items| <= 1 {
        return;
      }
      var item := items[0];
      items := items[1..];
      items := items[..insertAt] + [item] + items[insertAt..];
    }

    /** Whether some entry has the identifier `elementId`. */
    function ContainsId(elementId: string): (b: bool)
      reads this
      ensures b <==> exists i :: 0 <= i < |items| && id(items[i]) == elementId
    {
      AnyHasId(items, elementId)
    }

    function AnyHasId(s: seq<T>, elementId: string): (b: bool)
      ensures b <==> exists i :: 0 <= i < |s| && id(s[i]) == elementId
    {
      if s == [] then false
      else id(s[0]) == elementId || AnyHasId(s[1..], elementId)
    }

    /** The identifier of the current entry, or none. */
    function CurrentId(): (r: Option<string>)
      reads this
      ensures r.None? <==> items == []
      ensures r.Some? ==> r.value == id(items[0])
    {
      match Current()
      case None => None
      case Some(cur) => Some(id(cur))
    }
  }
}
