/** Every StreamEvents call against one bus, as a step system. A call subscribes,
    takes a snapshot when replay was asked for, sends the snapshot, and then
    forwards its channel until it returns. Publishers and other calls step in
    between at any point. Here a publish is one step; module Reduction shows
    that this loses nothing. */
module Streams {
  import opened Events

  datatype Option<T> = None | Some(value: T)

  datatype Stream = Stream(
    joined: nat,            // how many events had been published at Subscribe
    replay: bool,
    snap: Option<nat>,      // how many events had been published at Snapshot
    pending: seq<Event>,    // snapshot events still to send
    replayed: seq<Event>,   // snapshot events sent
    queue: seq<Event>,      // the subscriber channel
    hand: seq<Event>,       // received from the channel, send not finished
    live: seq<Event>,       // channel events sent
    met: seq<nat>,          // history: the backlog each publish found in the channel
    running: bool,          // the handler has not returned
    subscribed: bool)       // the channel is in the bus's subscriber map

  datatype State = State(max: nat, log: seq<Event>, buffer: seq<Event>, streams: map<nat, Stream>)

  /** Steps of one handler that take no lock. */
  datatype Local = SendReplayed | Receive | FinishSend | Return

  datatype Action =
    | Publish(ev: Event)
    | Subscribe(id: nat, replay: bool)
    | Snapshot(id: nat)
    | Unsubscribe(id: nat)
    | Do(id: nat, step: Local)

  function Init(max: nat): State {
    State(max, [], [], map[])
  }

  /** One handler step; a step that is not enabled changes nothing. Return may
      happen whenever the handler can see a cancelled context or a failed send. */
  function LocalStep(st: Stream, a: Local): Stream {
    var draining := st.replay ==> st.snap.Some? && st.pending == [];
    match a
    case SendReplayed =>
      if st.running && st.pending != []
      then st.(replayed := st.replayed + [st.pending[0]], pending := st.pending[1..]) else st
    case Receive =>
      if st.running && draining && st.hand == [] && st.queue != []
      then st.(hand := [st.queue[0]], queue := st.queue[1..]) else st
    case FinishSend =>
      if st.running && st.hand != [] then st.(live := st.live + st.hand, hand := []) else st
    case Return =>
      if st.running && (st.replay ==> st.snap.Some?) then st.(running := false) else st
  }

  function Delivered(st: Stream, ev: Event): Stream {
    if st.subscribed then st.(queue := Offer(st.queue, ev), met := st.met + [|st.queue|]) else st
  }

  function StampNext(log: seq<Event>, ev: Event): Event {
    ev.(stamp := (|log| + 1) % U64)
  }

  function Step(s: State, a: Action): State {
    match a
    case Publish(ev) =>
      var stamped := StampNext(s.log, ev);
      s.(log := s.log + [stamped],
         buffer := Newest(s.buffer + [stamped], s.max),
         streams := map id | id in s.streams :: Delivered(s.streams[id], stamped))
    case Subscribe(id, replay) =>
      if id in s.streams then s else
        s.(streams := s.streams[id := Stream(|s.log|, replay, None, [], [], [], [], [], [], true, true)])
    case Snapshot(id) =>
      if id in s.streams && s.streams[id].running && s.streams[id].replay && s.streams[id].snap.None?
      then s.(streams := s.streams[id := s.streams[id].(snap := Some(|s.log|), pending := s.buffer)])
      else s
    case Unsubscribe(id) =>
      if id in s.streams && !s.streams[id].running
      then s.(streams := s.streams[id := s.streams[id].(subscribed := false)])
      else s
    case Do(id, step) =>
      if id in s.streams then s.(streams := s.streams[id := LocalStep(s.streams[id], step)]) else s
  }

  function Exec(s: State, acts: seq<Action>): State {
    if acts == [] then s else Step(Exec(s, acts[..|acts| - 1]), acts[|acts| - 1])
  }

  // ------------------------------------------------------------------
  // What a subscriber accepts and what it loses

  /** The events of `window` whose publish found room in the channel. */
  function Accepted(window: seq<Event>, met: seq<nat>): seq<Event>
    requires |window| == |met|
  {
    if met == [] then [] else
      Accepted(window[..|met| - 1], met[..|met| - 1]) +
      (if met[|met| - 1] < CHANNEL_CAPACITY then [window[|met| - 1]] else [])
  }

  /** The events of `window` whose publish found the channel full. */
  function Dropped(window: seq<Event>, met: seq<nat>): seq<Event>
    requires |window| == |met|
  {
    if met == [] then [] else
      Dropped(window[..|met| - 1], met[..|met| - 1]) +
      (if met[|met| - 1] < CHANNEL_CAPACITY then [] else [window[|met| - 1]])
  }

  /** How many events had been published when the stream left the subscriber
      map, or so far. */
  function End(st: Stream): nat {
    st.joined + |st.met|
  }

  /** Everything the stream took from the bus after subscribing, sent or not. */
  function Taken(st: Stream): seq<Event> {
    st.live + st.hand + st.queue
  }

  function Window(st: Stream, log: seq<Event>): seq<Event>
    requires End(st) <= |log|
  {
    log[st.joined..End(st)]
  }

  ghost predicate StreamInv(st: Stream, s: State) {
    && End(st) <= |s.log|
    && (st.subscribed ==> End(st) == |s.log|)
    && Taken(st) == Accepted(Window(st, s.log), st.met)
    && |st.queue| <= CHANNEL_CAPACITY && |st.hand| <= 1
    && (st.met != [] ==> st.met[0] == 0)
    && (st.snap.Some? ==>
          && st.replay && st.joined <= st.snap.value <= End(st)
          && st.replayed + st.pending == Newest(s.log[..st.snap.value], s.max))
    && (st.snap.None? ==> st.replayed == st.pending == [])
    && (st.running ==> st.subscribed)
    && (st.replay && (st.snap.None? || st.pending != []) ==> st.live == st.hand == [])
  }

  ghost predicate Inv(s: State) {
    && Refines(s.buffer, |s.log| % U64, s.log, s.max)
    && forall id :: id in s.streams ==> StreamInv(s.streams[id], s)
  }

  lemma LocalKeeps(st: Stream, s: State, a: Local)
    requires StreamInv(st, s)
    ensures StreamInv(LocalStep(st, a), s)
  {
    var st' := LocalStep(st, a);
    assert Taken(st') == Taken(st);
    assert st'.replayed + st'.pending == st.replayed + st.pending;
  }

  lemma WindowGrows(log: seq<Event>, e: Event, lo: nat)
    requires lo <= |log|
    ensures
      var n, window := |log| - lo, (log + [e])[lo..|log| + 1];
      |window| == n + 1 && window[..n] == log[lo..] && window[n] == e
  {
  }

  lemma WindowStays(log: seq<Event>, e: Event, lo: nat, hi: nat)
    requires lo <= hi <= |log|
    ensures (log + [e])[lo..hi] == log[lo..hi]
  {
  }

  lemma DeliveredKeeps(st: Stream, s: State, ev: Event)
    requires StreamInv(st, s)
    ensures StreamInv(Delivered(st, StampNext(s.log, ev)), Step(s, Publish(ev)))
  {
    var s', e := Step(s, Publish(ev)), StampNext(s.log, ev);
    if st.snap.Some? {
      WindowStays(s.log, e, 0, st.snap.value);
    }
    if st.subscribed {
      var st' := Delivered(st, e);
      WindowGrows(s.log, e, st.joined);
      assert Window(st, s.log) == s.log[st.joined..];
      assert st'.met[..|st.met|] == st.met;
      assert Taken(st') == Accepted(Window(st', s'.log), st'.met);
    } else {
      WindowStays(s.log, e, st.joined, End(st));
    }
  }

  lemma PublishKeeps(s: State, ev: Event)
    requires Inv(s)
    ensures Inv(Step(s, Publish(ev)))
  {
    var s' := Step(s, Publish(ev));
    PublishRefines(s.buffer, |s.log| % U64, s.log, ev, s.max);
    forall id | id in s'.streams ensures StreamInv(s'.streams[id], s') {
      DeliveredKeeps(s.streams[id], s, ev);
    }
  }

  lemma StepKeeps(s: State, a: Action)
    requires Inv(s)
    ensures Inv(Step(s, a))
  {
    match a
    case Publish(ev) =>
      PublishKeeps(s, ev);
    case Do(id, step) =>
      if id in s.streams {
        LocalKeeps(s.streams[id], s, step);
      }
    case Snapshot(id) =>
      assert s.log[..|s.log|] == s.log;
    case _ =>
  }

  lemma {:induction false} Reachable(max: nat, acts: seq<Action>)
    ensures Inv(Exec(Init(max), acts)) && Exec(Init(max), acts).max == max
  {
    if acts != [] {
      Reachable(max, acts[..|acts| - 1]);
      StepKeeps(Exec(Init(max), acts[..|acts| - 1]), acts[|acts| - 1]);
    }
  }

  // ------------------------------------------------------------------
  // Until its snapshot a replaying stream only lets its channel fill up

  /** How many events were published between Subscribe and Snapshot, or so far. */
  function Waited(st: Stream): int {
    if st.snap.Some? then st.snap.value - st.joined else |st.met|
  }

  function Backlog(i: nat): nat {
    if i < CHANNEL_CAPACITY then i else CHANNEL_CAPACITY
  }

  /** The i-th publish of the wait met the i events before it, or a full channel. */
  ghost predicate FillsUp(st: Stream) {
    && Waited(st) <= |st.met|
    && (st.replay ==> forall i :: 0 <= i < Waited(st) ==> st.met[i] == Backlog(i))
    && (st.replay && st.snap.None? ==> |st.queue| == Backlog(|st.met|))
  }

  lemma DeliveredFillsUp(st: Stream, ev: Event)
    requires FillsUp(st)
    ensures FillsUp(Delivered(st, ev))
  {
  }

  lemma LocalFillsUp(st: Stream, a: Local)
    requires FillsUp(st)
    ensures FillsUp(LocalStep(st, a))
  {
    var st' := LocalStep(st, a);
    assert st'.met == st.met && st'.snap == st.snap && st'.joined == st.joined && st'.replay == st.replay;
  }

  lemma StepFillsUp(s: State, a: Action)
    requires Inv(s) && forall id :: id in s.streams ==> FillsUp(s.streams[id])
    ensures forall id :: id in Step(s, a).streams ==> FillsUp(Step(s, a).streams[id])
  {
    match a
    case Publish(ev) =>
      forall id | id in s.streams ensures FillsUp(Delivered(s.streams[id], StampNext(s.log, ev))) {
        DeliveredFillsUp(s.streams[id], StampNext(s.log, ev));
      }
    case Do(id, step) =>
      if id in s.streams {
        LocalFillsUp(s.streams[id], step);
      }
    case Snapshot(id) =>
      assert id in s.streams ==> StreamInv(s.streams[id], s);
    case _ =>
  }

  lemma {:induction false} AllFillUp(max: nat, acts: seq<Action>)
    ensures forall id :: id in Exec(Init(max), acts).streams ==> FillsUp(Exec(Init(max), acts).streams[id])
  {
    if acts != [] {
      Reachable(max, acts[..|acts| - 1]);
      AllFillUp(max, acts[..|acts| - 1]);
      StepFillsUp(Exec(Init(max), acts[..|acts| - 1]), acts[|acts| - 1]);
    }
  }
}
