/** Any schedule of the step system carried out on a real bus with real channels:
    the two descriptions of publishers and streams agree. */
module Schedules {
  import opened Events
  import opened Streams

  /** A StreamEvents call: its channel and its own variables. */
  datatype Handler = Handler(
    ch: Channel, replay: bool, snapped: bool, pending: seq<Event>, replayed: seq<Event>,
    hand: seq<Event>, live: seq<Event>, running: bool, subscribed: bool)

  function Channels(handlers: map<nat, Handler>): set<Channel> {
    set id | id in handlers :: handlers[id].ch
  }

  ghost predicate Shows(h: Handler, st: Stream)
    reads h.ch
  {
    && h.replay == st.replay && h.snapped == st.snap.Some? && h.pending == st.pending && h.replayed == st.replayed
    && h.ch.queue == st.queue && h.hand == st.hand && h.live == st.live
    && h.running == st.running && h.subscribed == st.subscribed
  }

  ghost predicate AllShow(handlers: map<nat, Handler>, streams: map<nat, Stream>)
    reads Channels(handlers)
  {
    && handlers.Keys == streams.Keys
    && forall id :: id in handlers ==> Shows(handlers[id], streams[id])
  }

  /** Every handler has its own channel, and the subscribers are theirs. */
  ghost predicate Apart(subs: set<Channel>, handlers: map<nat, Handler>) {
    && (forall i, j :: i in handlers && j in handlers && i != j ==> handlers[i].ch != handlers[j].ch)
    && (forall id :: id in handlers ==> (handlers[id].subscribed <==> handlers[id].ch in subs))
    && subs <= Channels(handlers)
  }

  /** The bus and the handlers are in state s; only the history of s has no counterpart. */
  ghost predicate Linked(bus: Bus, handlers: map<nat, Handler>, s: State)
    reads bus, bus.data, Channels(handlers)
  {
    && bus.Valid() && s.max == bus.max && s.log == bus.log && s.buffer == bus.Buffer()
    && Apart(bus.subs, handlers) && AllShow(handlers, s.streams)
  }

  method PublishStep(bus: Bus, handlers: map<nat, Handler>, ev: Event, ghost s: State)
    requires Linked(bus, handlers, s)
    modifies bus`data, bus`off, bus`len, bus`count, bus`log, bus.data, bus.subs
    ensures Linked(bus, handlers, Step(s, Publish(ev)))
    ensures bus.subs == old(bus.subs) && (bus.data == old(bus.data) || fresh(bus.data))
  {
    ghost var stamped := StampNext(s.log, ev);
    PublishRefines(s.buffer, bus.count, s.log, ev, s.max);
    bus.Publish(ev);
    assert bus.log == s.log + [stamped];
    forall id | id in handlers ensures Shows(handlers[id], Delivered(s.streams[id], stamped)) {
      assert handlers[id].ch in Channels(handlers);
    }
  }

  method SubscribeStep(bus: Bus, handlers: map<nat, Handler>, id: nat, replay: bool, ghost s: State)
    returns (after: map<nat, Handler>)
    requires Linked(bus, handlers, s)
    modifies bus`subs
    ensures Linked(bus, after, Step(s, Subscribe(id, replay)))
    ensures forall ch :: ch in Channels(after) ==> ch in Channels(handlers) || fresh(ch)
  {
    after := handlers;
    if id !in handlers {
      var ch := bus.Subscribe();
      var h := Handler(ch, replay, false, [], [], [], [], true, true);
      after := handlers[id := h];
      OneMoreChannel(handlers, id, h);
      JoinsApart(old(bus.subs), handlers, id, h);
      ShowsAll(handlers, s.streams, id, h, Stream(|s.log|, replay, None, [], [], [], [], [], [], true, true));
    }
  }

  lemma JoinsApart(subs: set<Channel>, handlers: map<nat, Handler>, id: nat, h: Handler)
    requires Apart(subs, handlers) && id !in handlers && h.ch !in Channels(handlers) && h.subscribed
    ensures Apart(subs + {h.ch}, handlers[id := h])
  {
    OneMoreChannel(handlers, id, h);
    assert forall i :: i in handlers ==> handlers[i].ch in Channels(handlers);
  }

  lemma ShowsAll(handlers: map<nat, Handler>, streams: map<nat, Stream>, id: nat, h: Handler, st: Stream)
    requires handlers.Keys == streams.Keys && Shows(h, st)
    requires forall i :: i in handlers && i != id ==> Shows(handlers[i], streams[i])
    ensures AllShow(handlers[id := h], streams[id := st])
  {
  }

  lemma OneMoreChannel(handlers: map<nat, Handler>, id: nat, h: Handler)
    requires id !in handlers
    ensures Channels(handlers[id := h]) == Channels(handlers) + {h.ch}
  {
    var after := handlers[id := h];
    assert after[id].ch == h.ch;
    forall ch | ch in Channels(handlers) ensures ch in Channels(after) {
      var i :| i in handlers && handlers[i].ch == ch;
      assert after[i].ch == ch;
    }
  }

  method SnapshotStep(bus: Bus, handlers: map<nat, Handler>, id: nat, ghost s: State)
    returns (after: map<nat, Handler>)
    requires Linked(bus, handlers, s)
    ensures Linked(bus, after, Step(s, Snapshot(id)))
    ensures Channels(after) == Channels(handlers)
  {
    after := handlers;
    if id in handlers && handlers[id].running && handlers[id].replay && !handlers[id].snapped {
      var events := bus.Snapshot();
      after := handlers[id := handlers[id].(snapped := true, pending := events[..])];
      SameChannels(handlers, id, after[id]);
    }
  }

  lemma SameChannels(handlers: map<nat, Handler>, id: nat, h: Handler)
    requires id in handlers && h.ch == handlers[id].ch
    ensures Channels(handlers[id := h]) == Channels(handlers)
  {
    var after := handlers[id := h];
    forall ch | ch in Channels(handlers) ensures ch in Channels(after) {
      var i :| i in handlers && handlers[i].ch == ch;
      assert after[i].ch == ch;
    }
  }

  method UnsubscribeStep(bus: Bus, handlers: map<nat, Handler>, id: nat, ghost s: State)
    returns (after: map<nat, Handler>)
    requires Linked(bus, handlers, s)
    modifies bus`subs
    ensures Linked(bus, after, Step(s, Unsubscribe(id)))
    ensures Channels(after) == Channels(handlers)
  {
    after := handlers;
    if id in handlers && !handlers[id].running {
      bus.Unsubscribe(handlers[id].ch);
      after := handlers[id := handlers[id].(subscribed := false)];
      SameChannels(handlers, id, after[id]);
    }
  }

  method LocalAction(h: Handler, step: Local, ghost st: Stream) returns (after: Handler)
    requires Shows(h, st)
    modifies h.ch
    ensures Shows(after, LocalStep(st, step)) && after.ch == h.ch && after.subscribed == h.subscribed
  {
    after := h;
    match step {
      case SendReplayed =>
        if h.running && |h.pending| > 0 {
          after := h.(replayed := h.replayed + [h.pending[0]], pending := h.pending[1..]);
        }
      case Receive =>
        var waiting := |h.ch.queue|;
        if h.running && (h.replay ==> h.snapped && |h.pending| == 0) && |h.hand| == 0 && waiting > 0 {
          var ev := h.ch.Receive();
          after := h.(hand := [ev]);
        }
      case FinishSend =>
        if h.running && |h.hand| > 0 {
          after := h.(live := h.live + h.hand, hand := []);
        }
      case Return =>
        if h.running && (h.replay ==> h.snapped) {
          after := h.(running := false);
        }
    }
  }

  lemma StaysApart(subs: set<Channel>, handlers: map<nat, Handler>, id: nat, h: Handler)
    requires Apart(subs, handlers) && id in handlers && h.ch == handlers[id].ch && h.subscribed == handlers[id].subscribed
    ensures Apart(subs, handlers[id := h])
  {
    SameChannels(handlers, id, h);
  }

  method DoStep(bus: Bus, handlers: map<nat, Handler>, id: nat, step: Local, ghost s: State)
    returns (after: map<nat, Handler>)
    requires Linked(bus, handlers, s)
    modifies Channels(handlers)
    ensures Linked(bus, after, Step(s, Do(id, step)))
    ensures Channels(after) == Channels(handlers)
  {
    after := handlers;
    if id in handlers {
      assert handlers[id].ch in Channels(handlers);
      var h := LocalAction(handlers[id], step, s.streams[id]);
      after := handlers[id := h];
      SameChannels(handlers, id, h);
      StaysApart(bus.subs, handlers, id, h);
      ShowsAll(handlers, s.streams, id, h, LocalStep(s.streams[id], step));
    }
  }

  /** A whole schedule, run on a new bus, ends in the state that the step system
      computes. */
  method RunSchedule(max: nat, acts: seq<Action>) returns (bus: Bus, handlers: map<nat, Handler>)
    ensures Linked(bus, handlers, Exec(Init(max), acts))
  {
    bus := new Bus(max);
    handlers := map[];
    for i := 0 to |acts|
      invariant fresh(bus) && fresh(bus.data) && fresh(Channels(handlers))
      invariant Linked(bus, handlers, Exec(Init(max), acts[..i]))
    {
      assert acts[..i + 1][..i] == acts[..i];
      ghost var s := Exec(Init(max), acts[..i]);
      match acts[i] {
        case Publish(ev) => PublishStep(bus, handlers, ev, s);
        case Subscribe(id, replay) => handlers := SubscribeStep(bus, handlers, id, replay, s);
        case Snapshot(id) => handlers := SnapshotStep(bus, handlers, id, s);
        case Unsubscribe(id) => handlers := UnsubscribeStep(bus, handlers, id, s);
        case Do(id, step) => handlers := DoStep(bus, handlers, id, step, s);
      }
    }
    assert acts[..|acts|] == acts;
  }
}
