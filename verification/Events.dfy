/** The in-memory publish/subscribe bus: sequence stamping, the bounded replay
    buffer kept by append-and-reslice, and the drop-on-full fan-out. */
module Events {
  // b.seq is a uint64 and wraps.
  const U64 := 0x1_0000_0000_0000_0000
  const CHANNEL_CAPACITY := 64

  datatype Event = Event(stamp: nat, level: string, component: string, name: string,
                         project: string, fields: map<string, string>)

  /** The newest `max` events of `es`, oldest first. */
  function Newest(es: seq<Event>, max: nat): seq<Event> {
    if |es| > max then es[|es| - max..] else es
  }

  /** A non-blocking send on a buffered channel: dropped when the channel is full. */
  function Offer(queue: seq<Event>, ev: Event): seq<Event> {
    if |queue| < CHANNEL_CAPACITY then queue + [ev] else queue
  }

  /** The n-th event ever published (counting from 0) carries the stamp n + 1, modulo 2^64. */
  ghost predicate Stamped(log: seq<Event>) {
    forall i :: 0 <= i < |log| ==> log[i].stamp == (i + 1) % U64
  }

  /** A bounded buffer and a wrapping counter that stand for an unbounded log. */
  ghost predicate Refines(buffer: seq<Event>, count: nat, log: seq<Event>, max: nat) {
    && count == |log| % U64
    && Stamped(log)
    && buffer == Newest(log, max)
  }

  lemma NewestAppend(log: seq<Event>, ev: Event, max: nat)
    ensures Newest(Newest(log, max) + [ev], max) == Newest(log + [ev], max)
  {
    if |log| > max {
      assert (log[|log| - max..] + [ev])[1..] == (log + [ev])[|log| + 1 - max..];
    }
  }

  /** Dropping the oldest events at every publish leaves the same events as
      keeping everything and dropping once, and the counter keeps in step. */
  lemma PublishRefines(buffer: seq<Event>, count: nat, log: seq<Event>, ev: Event, max: nat)
    requires Refines(buffer, count, log, max)
    ensures
      var next := (count + 1) % U64;
      && Refines(Newest(buffer + [ev.(stamp := next)], max), next, log + [ev.(stamp := next)], max)
      && next == (|log| + 1) % U64
  {
    NewestAppend(log, ev.(stamp := (count + 1) % U64), max);
  }

  /** The replay buffer after n publishes holds min(n, max) events, and their
      stamps are the contiguous run that ends at n. */
  lemma ReplayWindow(log: seq<Event>, max: nat)
    requires Stamped(log) && |log| < U64
    ensures |Newest(log, max)| == if |log| > max then max else |log|
    ensures forall i :: 0 <= i < |Newest(log, max)| ==>
              Newest(log, max)[i].stamp == |log| - |Newest(log, max)| + i + 1
  {
  }

  /** Go's growth rule for append, before rounding to an allocator size class. */
  function GrownCapacity(len: nat): (cap: nat)
    ensures cap > len
  {
    if len == 0 then 1 else if len < 256 then 2 * len else len + (len + 768) / 4
  }

  class Channel {
    var queue: seq<Event>

    constructor ()
      ensures queue == []
    {
      queue := [];
    }

    method TrySend(ev: Event)
      modifies this
      ensures queue == if |old(queue)| < 64 then old(queue) + [ev] else old(queue)
    {
      if |queue| < CHANNEL_CAPACITY {
        queue := queue + [ev];
      }
    }

    /** `<-ch` when the channel is not empty. */
    method Receive() returns (ev: Event)
      requires queue != []
      modifies this
      ensures [ev] + queue == old(queue)
    {
      ev := queue[0];
      queue := queue[1..];
    }
  }

  class Bus {
    const max: nat
    // The slice b.buffer is data[off..off+len]; its capacity is data.Length - off.
    var data: array<Event>
    var off: nat
    var len: nat
    var count: nat
    var subs: set<Channel>
    ghost var log: seq<Event>

    ghost predicate Valid()
      reads this, data
    {
      && off + len <= data.Length
      && Refines(Buffer(), count, log, max)
    }

    ghost function Buffer(): seq<Event>
      reads this, data
      requires off + len <= data.Length
    {
      data[off..off + len]
    }

    constructor (max: nat)
      ensures Valid() && fresh(data)
      ensures this.max == max && log == [] && subs == {}
    {
      this.max := max;
      data := new Event[0];
      off, len, count := 0, 0, 0;
      subs := {};
      log := [];
    }

    /** append(b.buffer, ev): in place while the backing array has room, else into a larger copy. */
    method Append(ev: Event)
      requires off + len <= data.Length
      modifies this`data, this`off, this`len, data
      ensures off + len <= data.Length
      ensures Buffer() == old(Buffer()) + [ev]
      ensures data == old(data) || fresh(data)
    {
      if off + len == data.Length {
        var from, source := off, data;
        var bigger := new Event[GrownCapacity(len)](i requires 0 <= i reads this, source =>
          if i < len && from + i < source.Length then source[from + i] else ev);
        assert bigger[..len] == source[from..from + len];
        data, off := bigger, 0;
      }
      data[off + len] := ev;
      len := len + 1;
    }

    /** Appends and reslices, so that the slice never holds more than max events. */
    method Retain(ev: Event)
      requires off + len <= data.Length
      modifies this`data, this`off, this`len, data
      ensures off + len <= data.Length
      ensures Buffer() == Newest(old(Buffer()) + [ev], max)
      ensures data == old(data) || fresh(data)
    {
      Append(ev);
      if len > max {
        off, len := off + (len - max), max;
      }
    }

    /** The first half of a publish: stamp the event and keep it for replay. */
    method Record(ev: Event) returns (stamped: Event)
      requires Valid()
      modifies this`data, this`off, this`len, this`count, this`log, data
      ensures Valid()
      ensures log == old(log) + [stamped]
      ensures stamped == ev.(stamp := (|old(log)| + 1) % U64)
      ensures data == old(data) || fresh(data)
    {
      PublishRefines(Buffer(), count, log, ev, max);
      count := (count + 1) % U64;
      stamped := ev.(stamp := count);
      log := log + [stamped];
      Retain(stamped);
    }

    method Publish(ev: Event)
      requires Valid()
      modifies this`data, this`off, this`len, this`count, this`log, data, subs
      ensures Valid()
      ensures log == old(log) + [ev.(stamp := (|old(log)| + 1) % U64)]
      ensures forall ch :: ch in subs ==> ch.queue == Offer(old(ch.queue), log[|log| - 1])
      ensures data == old(data) || fresh(data)
    {
      var stamped := Record(ev);
      FanOut(stamped);
    }

    /** Offers ev to every subscriber. Map iteration order is unspecified: any
        order gives the same queues. */
    method FanOut(ev: Event)
      modifies subs
      ensures forall ch :: ch in subs ==> ch.queue == Offer(old(ch.queue), ev)
    {
      var todo := subs;
      while todo != {}
        invariant todo <= subs
        invariant forall ch :: ch in subs ==>
                    ch.queue == if ch in todo then old(ch.queue) else Offer(old(ch.queue), ev)
        decreases |todo|
      {
        var ch :| ch in todo;
        todo := todo - {ch};
        ch.TrySend(ev);
      }
    }

    method Subscribe() returns (ch: Channel)
      requires Valid()
      modifies this`subs
      ensures Valid() && fresh(ch) && ch.queue == []
      ensures subs == old(subs) + {ch}
    {
      ch := new Channel();
      subs := subs + {ch};
    }

    method Unsubscribe(ch: Channel)
      requires Valid()
      modifies this`subs
      ensures Valid() && subs == old(subs) - {ch}
    {
      subs := subs - {ch};
    }

    method Snapshot() returns (out: array<Event>)
      requires Valid()
      ensures fresh(out) && out[..] == Buffer()
    {
      out := new Event[len](i requires 0 <= i < len reads this, data =>
        if off + i < data.Length then data[off + i] else Event(0, "", "", "", "", map[]));
    }

    /** Publishing any number of events in turn. */
    method PublishAll(evs: seq<Event>)
      requires Valid()
      modifies this`data, this`off, this`len, this`count, this`log, data, subs
      ensures Valid() && |log| == |old(log)| + |evs| && old(log) <= log
      ensures forall i :: 0 <= i < |evs| ==> log[|old(log)| + i] == evs[i].(stamp := (|old(log)| + i + 1) % U64)
      ensures data == old(data) || fresh(data)
    {
      for k := 0 to |evs|
        invariant Valid() && |log| == |old(log)| + k && old(log) <= log
        invariant forall i :: 0 <= i < k ==> log[|old(log)| + i] == evs[i].(stamp := (|old(log)| + i + 1) % U64)
        invariant data == old(data) || fresh(data)
      {
        Publish(evs[k]);
      }
    }

    /** A snapshot is a copy: whatever is published afterwards, in place or
        after a reallocation, it still reads as the buffer did when it was taken. */
    method SnapshotOutlivesPublishes(evs: seq<Event>) returns (out: array<Event>)
      requires Valid()
      modifies this`data, this`off, this`len, this`count, this`log, data, subs
      ensures Valid() && out[..] == Newest(old(log), max)
      ensures |log| == |old(log)| + |evs| && old(log) <= log
    {
      out := Snapshot();
      PublishAll(evs);
    }
  }
}
