/**
 * A proxy for one remote element: reading it fetches the element, writing
 * it stores one, and nothing is cached between uses.
 *
 * The accessor stands for a capability bound to one remote location. Copies
 * of an accessor address the same location, so the model represents every
 * copy by one reference to that location's object. The transport behind it
 * is not modelled; instead every fetch and store is appended to a ghost log,
 * the calling unit's record of its remote operations in program order.
 */
module RemoteRefs {

  /** One blocking remote operation: which accessor it went through and
      the value that crossed the network. */
  datatype Event<T> = Fetch(source: object, value: T) | Store(target: object, value: T)

  /** The instrumented record of one unit's remote operations. */
  class Log<T> {
    ghost var events: seq<Event<T>>

    constructor ()
      ensures events == []
    {
      events := [];
    }
  }

  /** `n` fetches through `source`, each delivering `v`. */
  ghost function Fetches<T>(source: object, v: T, n: nat): seq<Event<T>>
  {
    seq(n, _ => Fetch(source, v))
  }

  /** One more read appends one more fetch. */
  lemma FetchesSnoc<T>(source: object, v: T, n: nat)
    ensures Fetches(source, v, n + 1) == Fetches(source, v, n) + [Fetch(source, v)]
  {
  }

  /** `NonSequentialMemoryAccessor<T>`: the remote cell it is bound to, and
      the log its operations are recorded in. */
  class NonSequentialMemoryAccessor<T> {
    var remote: T
    ghost const log: Log<T>

    constructor (ghost log: Log<T>, initial: T)
      ensures this.log == log && remote == initial
    {
      this.log := log;
      remote := initial;
    }

    /** `get_value(&t)`: one fetch of the current remote value. */
    method GetValue() returns (t: T)
      modifies log
      ensures t == remote
      ensures log.events == old(log.events) + [Fetch(this, t)]
    {
      t := remote;
      log.events := log.events + [Fetch(this, t)];
    }

    /** `put_value(v)`: one store of `v`. */
    method PutValue(v: T)
      modifies this, log
      ensures remote == v
      ensures log.events == old(log.events) + [Store(this, v)]
    {
      remote := v;
      log.events := log.events + [Store(this, v)];
    }
  }

  /** `NSMRef<T>`: holds one accessor, bound at construction and never
      replaced; it has no other state. */
  class NSMRef<T> {
    const acc: NonSequentialMemoryAccessor<T>

    constructor (acc: NonSequentialMemoryAccessor<T>)
      ensures this.acc == acc
    {
      this.acc := acc;
    }

    /** `operator T()`: exactly one fetch, whose value is returned; the
        remote element is left as it was. */
    method Read() returns (t: T)
      modifies acc.log
      ensures t == acc.remote
      ensures acc.log.events == old(acc.log.events) + [Fetch(acc, t)]
    {
      t := acc.GetValue();
    }

    /** `operator=(const T)`: exactly one store of `v`, no fetch; returns
        the proxy itself. */
    method AssignValue(v: T) returns (self: NSMRef<T>)
      modifies acc, acc.log
      ensures self == this
      ensures acc.remote == v
      ensures acc.log.events == old(acc.log.events) + [Store(acc, v)]
    {
      acc.PutValue(v);
      self := this;
    }

    /** `operator=(const NSMRef&)`: one fetch through the source's accessor,
        then one store of the fetched value through this proxy's accessor;
        returns the proxy itself. When both accessors record into one log,
        the log shows the fetch immediately followed by the store. */
    method Assign(src: NSMRef<T>) returns (self: NSMRef<T>)
      modifies acc, acc.log, src.acc.log
      ensures self == this
      ensures acc.remote == old(src.acc.remote)
      ensures src.acc != acc ==> src.acc.remote == old(src.acc.remote)
      ensures src.acc.log == acc.log ==>
                acc.log.events == old(acc.log.events)
                  + [Fetch(src.acc, old(src.acc.remote)), Store(acc, old(src.acc.remote))]
      ensures src.acc.log != acc.log ==>
                && src.acc.log.events == old(src.acc.log.events) + [Fetch(src.acc, old(src.acc.remote))]
                && acc.log.events == old(acc.log.events) + [Store(acc, old(src.acc.remote))]
    {
      var v := src.Read();
      self := AssignValue(v);
    }

    /** `get_accessor()`: the accessor bound at construction. */
    method GetAccessor() returns (a: NonSequentialMemoryAccessor<T>)
      ensures a == acc
    {
      a := acc;
    }
  }

  /** `n` reads through a proxy are `n` fetches, each returning the current
      remote value: none is skipped, merged or served from a cache. */
  method ReadRepeatedly<T>(r: NSMRef<T>, n: nat) returns (values: seq<T>)
    modifies r.acc.log
    ensures |values| == n
    ensures forall k :: 0 <= k < n ==> values[k] == r.acc.remote
    ensures r.acc.log.events == old(r.acc.log.events) + Fetches(r.acc, r.acc.remote, n)
  {
    values := [];
    var i := 0;
    while i < n
      invariant 0 <= i <= n
      invariant |values| == i
      invariant forall k :: 0 <= k < i ==> values[k] == r.acc.remote
      invariant r.acc.log.events == old(r.acc.log.events) + Fetches(r.acc, r.acc.remote, i)
    {
      var t := r.Read();
      FetchesSnoc(r.acc, r.acc.remote, i);
      values := values + [t];
      i := i + 1;
    }
  }

  /** A read after a write through another proxy on the same location sees
      the written value: reads are never answered from stale state. */
  method WriteThenRead<T>(w: NSMRef<T>, r: NSMRef<T>, x: T) returns (t: T)
    requires w.acc == r.acc
    modifies w.acc, w.acc.log
    ensures t == x
    ensures w.acc.log.events == old(w.acc.log.events) + [Store(w.acc, x), Fetch(r.acc, x)]
  {
    var _ := w.AssignValue(x);
    t := r.Read();
  }
}
