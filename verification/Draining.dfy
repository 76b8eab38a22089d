/** A stream that is left alone sends everything it has, and can leave. */
module Draining {
  import opened Events
  import opened Streams
  import opened Reduction

  /** Steps of one handler only. */
  ghost predicate OwnSteps(steps: seq<Action>, id: nat) {
    forall k :: 0 <= k < |steps| ==> steps[k].Do? && steps[k].id == id
  }

  /** Whatever waits has been sent, in order; all else in the system is as before. */
  ghost predicate Drained(s: State, end: State, id: nat)
    requires id in s.streams
  {
    var st := s.streams[id];
    && end == s.(streams := end.streams) && end.streams.Keys == s.streams.Keys
    && (forall other :: other in s.streams && other != id ==> end.streams[other] == s.streams[other])
    && end.streams[id] == st.(pending := [], hand := [], queue := [],
                              replayed := st.replayed + st.pending, live := Taken(st))
  }

  function Waiting(st: Stream): nat {
    |st.pending| + 2 * |st.queue| + |st.hand|
  }

  /** What the handler does next. */
  function Next(st: Stream): Local {
    if st.pending != [] then SendReplayed else if st.hand != [] then FinishSend else Receive
  }

  lemma NextSends(st: Stream)
    requires st.running && (st.replay ==> st.snap.Some?) && Waiting(st) > 0
    ensures
      var st' := LocalStep(st, Next(st));
      && Waiting(st') < Waiting(st) && st'.running
      && Taken(st') == Taken(st) && st'.replayed + st'.pending == st.replayed + st.pending
      && st' == st.(pending := st'.pending, replayed := st'.replayed, queue := st'.queue, hand := st'.hand, live := st'.live)
  {
  }

  lemma StepsCompose(s: State, id: nat, step: Local, steps: seq<Action>)
    requires OwnSteps(steps, id)
    ensures OwnSteps([Do(id, step)] + steps, id)
    ensures Exec(s, [Do(id, step)] + steps) == Exec(Step(s, Do(id, step)), steps)
  {
    ExecAppend(s, [Do(id, step)], steps);
    assert [Do(id, step)][..0] == [];
    assert Exec(s, [Do(id, step)]) == Step(s, Do(id, step));
  }

  /** From any state a running stream, once it has its snapshot if it asked for
      one, can send all it has replayed, received and queued, by its own steps. */
  lemma {:induction false} CanDrain(s: State, id: nat) returns (steps: seq<Action>)
    requires id in s.streams && s.streams[id].running
    requires s.streams[id].replay ==> s.streams[id].snap.Some?
    ensures OwnSteps(steps, id) && Drained(s, Exec(s, steps), id)
    decreases Waiting(s.streams[id])
  {
    var st := s.streams[id];
    if Waiting(st) == 0 {
      steps := [];
      assert s.streams[id := st] == s.streams;
    } else {
      NextSends(st);
      var rest := CanDrain(Step(s, Do(id, Next(st))), id);
      StepsCompose(s, id, Next(st), rest);
      steps := [Do(id, Next(st))] + rest;
    }
  }

  /** A replaying stream can take its snapshot, and then send it all. */
  lemma CanReplay(s: State, id: nat) returns (steps: seq<Action>)
    requires Inv(s) && id in s.streams && s.streams[id].running && s.streams[id].replay && s.streams[id].snap.None?
    ensures OwnSteps(steps, id)
    ensures
      var after := Exec(s, [Snapshot(id)] + steps);
      id in after.streams &&
      var end := after.streams[id];
      && end.replayed == Newest(s.log, s.max) && end.live == Taken(s.streams[id])
      && end.pending == end.hand == end.queue == []
  {
    var after := Step(s, Snapshot(id));
    steps := CanDrain(after, id);
    ExecAppend(s, [Snapshot(id)], steps);
    assert [Snapshot(id)][..0] == [];
    assert Exec(s, [Snapshot(id)]) == after;
    assert StreamInv(s.streams[id], s);
  }

  /** So over all runs: whatever a stream took from the bus after subscribing it
      can deliver, and nothing it cannot. */
  lemma EverythingTakenArrives(max: nat, acts: seq<Action>, id: nat) returns (steps: seq<Action>)
    requires
      var s := Exec(Init(max), acts);
      id in s.streams && s.streams[id].running && (s.streams[id].replay ==> s.streams[id].snap.Some?)
    ensures OwnSteps(steps, id)
    ensures
      var s := Exec(Init(max), acts);
      var after := Exec(Init(max), acts + steps);
      id in after.streams && StreamInv(s.streams[id], s) &&
      var st, end := s.streams[id], after.streams[id];
      && end.pending == end.hand == end.queue == []
      && end.live == Accepted(Window(st, s.log), st.met)
      && (st.replay ==> end.replayed == Newest(s.log[..st.snap.value], max))
  {
    var s := Exec(Init(max), acts);
    Reachable(max, acts);
    steps := CanDrain(s, id);
    ExecAppend(Init(max), acts, steps);
    assert StreamInv(s.streams[id], s);
  }

  /** Such a stream can also return and unsubscribe at once. */
  lemma CanLeave(s: State, id: nat)
    requires id in s.streams && s.streams[id].running && (s.streams[id].replay ==> s.streams[id].snap.Some?)
    ensures
      var end := Step(Step(s, Do(id, Return)), Unsubscribe(id));
      end == s.(streams := s.streams[id := s.streams[id].(running := false, subscribed := false)])
  {
  }

  /** And then no step of anyone changes it any more. */
  lemma {:induction false} GoneForGood(s: State, id: nat, acts: seq<Action>)
    requires id in s.streams && !s.streams[id].running && !s.streams[id].subscribed
    ensures id in Exec(s, acts).streams && Exec(s, acts).streams[id] == s.streams[id]
  {
    if acts != [] {
      GoneForGood(s, id, acts[..|acts| - 1]);
    }
  }

  // ------------------------------------------------------------------
  // From subscribing to receiving

  function Publishes(evs: seq<Event>): (acts: seq<Action>)
    ensures |acts| == |evs|
  {
    if evs == [] then [] else Publishes(evs[..|evs| - 1]) + [Publish(evs[|evs| - 1])]
  }

  /** A subscribed stream that has received nothing meanwhile. */
  ghost predicate Gathers(s: State, end: State, id: nat) {
    && id in s.streams && id in end.streams && s.log <= end.log
    && var st := s.streams[id];
       end.streams[id] == st.(queue := st.queue + end.log[|s.log|..], met := end.streams[id].met)
  }

  lemma GathersNext(s: State, mid: State, id: nat, ev: Event)
    requires Gathers(s, mid, id) && s.streams[id].subscribed && |mid.streams[id].queue| < 64
    ensures Gathers(s, Step(mid, Publish(ev)), id)
  {
    var e := StampNext(mid.log, ev);
    assert (mid.log + [e])[|s.log|..] == mid.log[|s.log|..] + [e];
  }

  lemma {:induction false} PublishesGather(s: State, id: nat, evs: seq<Event>)
    requires id in s.streams && s.streams[id].subscribed && |s.streams[id].queue| + |evs| <= 64
    ensures Gathers(s, Exec(s, Publishes(evs)), id) && |Exec(s, Publishes(evs)).log| == |s.log| + |evs|
  {
    if evs != [] {
      var n := |evs| - 1;
      PublishesGather(s, id, evs[..n]);
      ExecOne(s, Publishes(evs[..n]), Publish(evs[n]));
      GathersNext(s, Exec(s, Publishes(evs[..n])), id, evs[n]);
    }
  }

  /** How a call of StreamEvents begins. */
  function Begins(id: nat, replay: bool): seq<Action> {
    if replay then [Subscribe(id, true)] + [Snapshot(id)] else [Subscribe(id, false)]
  }

  lemma BeginsWith(s: State, id: nat, replay: bool)
    requires id !in s.streams
    ensures
      var snap, pending := if replay then Some(|s.log|) else None, if replay then s.buffer else [];
      Exec(s, Begins(id, replay)) ==
        s.(streams := s.streams[id := Stream(|s.log|, replay, snap, pending, [], [], [], [], [], true, true)])
  {
    ExecOne(s, [], Subscribe(id, replay));
    assert [] + [Subscribe(id, replay)] == [Subscribe(id, replay)];
    if replay {
      ExecOne(s, [Subscribe(id, true)], Snapshot(id));
    }
  }

  /** A client that subscribes in any reachable state can be sent what the bus
      retains, if it asks for that, and then exactly the events published since,
      up to 64 of them without a step in between. */
  lemma SubscribersAreServed(s: State, id: nat, replay: bool, evs: seq<Event>) returns (steps: seq<Action>)
    requires Inv(s) && id !in s.streams && |evs| <= 64
    ensures OwnSteps(steps, id)
    ensures
      var end := Exec(s, Begins(id, replay) + Publishes(evs) + steps);
      && |end.log| == |s.log| + |evs| && id in end.streams
      && end.streams[id].live == end.log[|s.log|..]
      && end.streams[id].replayed == if replay then Newest(s.log, s.max) else []
  {
    var begun := Exec(s, Begins(id, replay));
    var full := Exec(begun, Publishes(evs));
    BeginsWith(s, id, replay);
    PublishesGather(begun, id, evs);
    steps := CanDrain(full, id);
    ExecAppend(s, Begins(id, replay), Publishes(evs));
    ExecAppend(s, Begins(id, replay) + Publishes(evs), steps);
  }
}
