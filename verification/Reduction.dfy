/** Publish holds the bus lock while it sends to one subscriber after another,
    in whatever order the map yields them; handlers drain their channels
    without the lock. This module models each send as its own step and proves
    that every such run is matched by a run with atomic publishes. */
module Reduction {
  import opened Events
  import opened Streams

  /** `sending` is the stamped event of the publish that holds the lock, and
      `todo` the subscribers it has not reached yet. */
  datatype Fine = Fine(base: State, sending: Option<Event>, todo: set<nat>)

  datatype FineAction =
    | Begin(ev: Event)            // lock, stamp, append and reslice
    | Send(id: nat)               // one select/default of the loop
    | End                         // unlock after the loop
    | Locked(a: Action)           // Subscribe, Snapshot or Unsubscribe: waits for the lock
    | Free(id: nat, step: Local)  // a handler step: needs no lock

  function FineInit(max: nat): Fine {
    Fine(Init(max), None, {})
  }

  function FineStep(f: Fine, a: FineAction): Fine {
    match a
    case Begin(ev) =>
      if f.sending.Some? then f else
        var stamped := StampNext(f.base.log, ev);
        Fine(f.base.(log := f.base.log + [stamped], buffer := Newest(f.base.buffer + [stamped], f.base.max)),
             Some(stamped), set id | id in f.base.streams && f.base.streams[id].subscribed)
    case Send(id) =>
      if f.sending.Some? && id in f.todo && id in f.base.streams
      then Fine(f.base.(streams := f.base.streams[id := Delivered(f.base.streams[id], f.sending.value)]),
                f.sending, f.todo - {id})
      else f
    case End =>
      if f.sending.Some? && f.todo == {} then f.(sending := None) else f
    case Locked(b) =>
      if f.sending.None? && (b.Subscribe? || b.Snapshot? || b.Unsubscribe?) then f.(base := Step(f.base, b)) else f
    case Free(id, step) =>
      f.(base := Step(f.base, Do(id, step)))
  }

  function FineExec(f: Fine, acts: seq<FineAction>): Fine {
    if acts == [] then f else FineStep(FineExec(f, acts[..|acts| - 1]), acts[|acts| - 1])
  }

  /** Handler steps only, none of them by a stream in `ids`. */
  ghost predicate OnlyOthers(acts: seq<Action>, ids: set<nat>) {
    forall k :: 0 <= k < |acts| ==> acts[k].Do? && acts[k].id !in ids
  }

  lemma {:induction false} ExecAppend(s: State, acts: seq<Action>, more: seq<Action>)
    ensures Exec(s, acts + more) == Exec(Exec(s, acts), more)
  {
    if more == [] {
      assert acts + more == acts;
    } else {
      var n := |more| - 1;
      assert (acts + more)[..|acts| + n] == acts + more[..n];
      ExecAppend(s, acts, more[..n]);
    }
  }

  lemma ExecOne(s: State, acts: seq<Action>, a: Action)
    ensures Exec(s, acts + [a]) == Step(Exec(s, acts), a)
  {
    assert (acts + [a])[..|acts|] == acts;
  }

  /** Handler steps leave the log and the buffer alone. */
  lemma {:induction false} HandlersFrame(s: State, acts: seq<Action>, ids: set<nat>)
    requires OnlyOthers(acts, ids)
    ensures Exec(s, acts).(streams := map[]) == s.(streams := map[])
    ensures Exec(s, acts).streams.Keys == s.streams.Keys
  {
    if acts != [] {
      HandlersFrame(s, acts[..|acts| - 1], ids);
    }
  }

  /** What handler steps do to a stream depends on that stream only. */
  lemma {:induction false} HandlersLocal(s: State, t: State, acts: seq<Action>, ids: set<nat>, id: nat)
    requires OnlyOthers(acts, ids) && id in s.streams && id in t.streams
    ensures id in Exec(s, acts).streams && id in Exec(t, acts).streams
    ensures id in ids ==> Exec(s, acts).streams[id] == s.streams[id]
    ensures s.streams[id] == t.streams[id] ==> Exec(s, acts).streams[id] == Exec(t, acts).streams[id]
  {
    if acts != [] {
      HandlersLocal(s, t, acts[..|acts| - 1], ids, id);
    }
  }

  /** While `f.sending` is on its way: the atomic run `pre`, the publish, then
      the handler steps `post` give every stream that was already reached; the
      ones still in `todo` are as `pre` left them. */
  ghost predicate Straddles(f: Fine, init: State, pre: seq<Action>, ev: Event, post: seq<Action>) {
    && OnlyOthers(post, f.todo)
    && Between(f, Exec(init, pre), Exec(Step(Exec(init, pre), Publish(ev)), post), ev)
  }

  ghost predicate Between(f: Fine, p: State, q: State, ev: Event) {
    && f.sending == Some(StampNext(p.log, ev))
    && f.base.(streams := map[]) == q.(streams := map[])
    && f.base.streams.Keys == p.streams.Keys == q.streams.Keys
    && f.todo <= f.base.streams.Keys
    && forall id :: id in f.base.streams ==>
         if id in f.todo then f.base.streams[id] == p.streams[id] && p.streams[id].subscribed
         else f.base.streams[id] == q.streams[id]
  }

  lemma BeginStraddles(f: Fine, init: State, pre: seq<Action>, ev: Event)
    requires f.sending.None? && f.base == Exec(init, pre)
    ensures Straddles(FineStep(f, Begin(ev)), init, pre, ev, [])
  {
  }

  lemma SendStraddles(f: Fine, init: State, pre: seq<Action>, ev: Event, post: seq<Action>, id: nat)
    requires Straddles(f, init, pre, ev, post)
    ensures Straddles(FineStep(f, Send(id)), init, pre, ev, post)
  {
    if id in f.todo {
      var p := Exec(init, pre);
      HandlersLocal(Step(p, Publish(ev)), p, post, f.todo, id);
    }
  }

  /** A step of a stream already reached goes after the publish. */
  lemma LateStep(f: Fine, init: State, pre: seq<Action>, ev: Event, post: seq<Action>, id: nat, step: Local)
    requires Straddles(f, init, pre, ev, post) && id !in f.todo
    ensures Straddles(FineStep(f, Free(id, step)), init, pre, ev, post + [Do(id, step)])
  {
    ExecOne(Step(Exec(init, pre), Publish(ev)), post, Do(id, step));
  }

  /** A handler step taken just before a publish changes only its own stream. */
  lemma StepThenPublish(p: State, id: nat, step: Local, ev: Event)
    ensures
      var p' := Step(p, Do(id, step));
      var a, a' := Step(p, Publish(ev)), Step(p', Publish(ev));
      && p'.log == p.log && p'.streams.Keys == p.streams.Keys == a.streams.Keys == a'.streams.Keys
      && a'.(streams := map[]) == a.(streams := map[])
      && (forall other :: other in p.streams ==> p'.streams[other].subscribed == p.streams[other].subscribed)
      && (forall other :: other in p.streams && other != id ==>
            p'.streams[other] == p.streams[other] && a'.streams[other] == a.streams[other])
  {
  }

  /** A step of a stream not reached yet goes before the publish. */
  lemma EarlyStep(f: Fine, init: State, pre: seq<Action>, ev: Event, post: seq<Action>, id: nat, step: Local)
    requires Straddles(f, init, pre, ev, post) && id in f.todo
    ensures Straddles(FineStep(f, Free(id, step)), init, pre + [Do(id, step)], ev, post)
  {
    ExecOne(init, pre, Do(id, step));
    EarlyCore(f, Exec(init, pre), ev, post, id, step);
  }

  lemma EarlyCore(f: Fine, p: State, ev: Event, post: seq<Action>, id: nat, step: Local)
    requires OnlyOthers(post, f.todo) && Between(f, p, Exec(Step(p, Publish(ev)), post), ev) && id in f.todo
    ensures OnlyOthers(post, FineStep(f, Free(id, step)).todo)
    ensures Between(FineStep(f, Free(id, step)), Step(p, Do(id, step)),
                    Exec(Step(Step(p, Do(id, step)), Publish(ev)), post), ev)
  {
    EarlyStepAt(f, p, ev, post, id, step);
    EarlyBetween(f, p, Exec(Step(p, Publish(ev)), post), Exec(Step(Step(p, Do(id, step)), Publish(ev)), post), ev, id, step);
  }

  ghost predicate SameButFor(id: nat, q: State, q': State) {
    && q'.(streams := map[]) == q.(streams := map[]) && q'.streams.Keys == q.streams.Keys
    && forall other :: other in q.streams && other != id ==> q'.streams[other] == q.streams[other]
  }

  lemma EarlyBetween(f: Fine, p: State, q: State, q': State, ev: Event, id: nat, step: Local)
    requires Between(f, p, q, ev) && id in f.todo && SameButFor(id, q, q')
    ensures Between(FineStep(f, Free(id, step)), Step(p, Do(id, step)), q', ev)
  {
  }

  lemma EarlyStepAt(f: Fine, p: State, ev: Event, post: seq<Action>, id: nat, step: Local)
    requires OnlyOthers(post, f.todo) && id in f.todo && f.todo <= p.streams.Keys
    ensures
      var q := Exec(Step(p, Publish(ev)), post);
      var q' := Exec(Step(Step(p, Do(id, step)), Publish(ev)), post);
      SameButFor(id, q, q')
  {
    StepThenPublish(p, id, step, ev);
    var a, a' := Step(p, Publish(ev)), Step(Step(p, Do(id, step)), Publish(ev));
    HandlersFrame(a, post, f.todo);
    HandlersFrame(a', post, f.todo);
    forall other | other in p.streams && other != id
      ensures other in Exec(a, post).streams && other in Exec(a', post).streams
      ensures Exec(a', post).streams[other] == Exec(a, post).streams[other]
    {
      HandlersLocal(a, a', post, f.todo, other);
    }
  }

  lemma EndStraddles(f: Fine, init: State, pre: seq<Action>, ev: Event, post: seq<Action>)
    requires Straddles(f, init, pre, ev, post) && f.todo == {}
    ensures Exec(init, pre + [Publish(ev)] + post) == f.base
  {
    ExecAppend(init, pre + [Publish(ev)], post);
    ExecOne(init, pre, Publish(ev));
    var q := Exec(Step(Exec(init, pre), Publish(ev)), post);
    assert f.base.streams == q.streams;
    assert f.base == f.base.(streams := map[]).(streams := q.streams);
  }

  /** For every fine-grained run there is a run with atomic publishes that ends
      in the same state whenever no publish is under way: the same log and
      replay buffer, and for every subscriber the same received, queued and
      dropped events, whatever order the sends took. */
  lemma {:induction false} Linearize(max: nat, acts: seq<FineAction>)
    returns (pre: seq<Action>, ev: Event, post: seq<Action>)
    ensures
      var f := FineExec(FineInit(max), acts);
      if f.sending.None? then f.base == Exec(Init(max), pre) else Straddles(f, Init(max), pre, ev, post)
  {
    if acts == [] {
      pre, ev, post := [], Event(0, "", "", "", "", map[]), [];
      return;
    }
    var f := FineExec(FineInit(max), acts[..|acts| - 1]);
    pre, ev, post := Linearize(max, acts[..|acts| - 1]);
    match acts[|acts| - 1]
    case Begin(e) =>
      if f.sending.None? {
        BeginStraddles(f, Init(max), pre, e);
        ev, post := e, [];
      }
    case Send(id) =>
      if f.sending.Some? {
        SendStraddles(f, Init(max), pre, ev, post, id);
      }
    case End =>
      if f.sending.Some? && f.todo == {} {
        EndStraddles(f, Init(max), pre, ev, post);
        pre := pre + [Publish(ev)] + post;
      }
    case Locked(b) =>
      if f.sending.None? && (b.Subscribe? || b.Snapshot? || b.Unsubscribe?) {
        ExecOne(Init(max), pre, b);
        pre := pre + [b];
      }
    case Free(id, step) =>
      if f.sending.None? {
        ExecOne(Init(max), pre, Do(id, step));
        pre := pre + [Do(id, step)];
      } else if id in f.todo {
        EarlyStep(f, Init(max), pre, ev, post, id, step);
        pre := pre + [Do(id, step)];
      } else {
        LateStep(f, Init(max), pre, ev, post, id, step);
        post := post + [Do(id, step)];
      }
  }

  /** So the invariant of the atomic system holds at every unlocked point of
      every fine-grained run. */
  lemma FineReachable(max: nat, acts: seq<FineAction>)
    requires FineExec(FineInit(max), acts).sending.None?
    ensures Inv(FineExec(FineInit(max), acts).base)
    ensures exists atomic :: Exec(Init(max), atomic) == FineExec(FineInit(max), acts).base
  {
    var pre, _, _ := Linearize(max, acts);
    Reachable(max, pre);
  }

  // ------------------------------------------------------------------
  // And the other way round

  lemma {:induction false} FineExecAppend(f: Fine, acts: seq<FineAction>, more: seq<FineAction>)
    ensures FineExec(f, acts + more) == FineExec(FineExec(f, acts), more)
  {
    if more == [] {
      assert acts + more == acts;
    } else {
      var n := |more| - 1;
      FineExecAppend(f, acts, more[..n]);
      FineExecOne(f, acts + more[..n], more[n]);
      FineExecOne(FineExec(f, acts), more[..n], more[n]);
      assert more == more[..n] + [more[n]] && acts + more == acts + more[..n] + [more[n]];
    }
  }

  lemma FineExecOne(f: Fine, acts: seq<FineAction>, a: FineAction)
    ensures FineExec(f, acts + [a]) == FineStep(FineExec(f, acts), a)
  {
    assert (acts + [a])[..|acts|] == acts;
  }

  /** Every stream still to be reached has been sent the event, the others are as they were. */
  ghost predicate Sent(f: Fine, end: Fine)
    requires f.sending.Some?
  {
    && end.sending == f.sending && end.todo == {}
    && end.base.(streams := map[]) == f.base.(streams := map[])
    && end.base.streams.Keys == f.base.streams.Keys
    && forall id :: id in f.base.streams ==>
         end.base.streams[id] ==
           if id in f.todo then Delivered(f.base.streams[id], f.sending.value) else f.base.streams[id]
  }

  /** The loop of a publish reaches every subscriber. */
  lemma {:induction false} SendAll(f: Fine) returns (acts: seq<FineAction>)
    requires f.sending.Some? && f.todo <= f.base.streams.Keys
    ensures Sent(f, FineExec(f, acts))
    decreases |f.todo|
  {
    if f.todo == {} {
      acts := [];
    } else {
      var id :| id in f.todo;
      var next := FineStep(f, Send(id));
      var rest := SendAll(next);
      acts := [Send(id)] + rest;
      FineExecAppend(f, [Send(id)], rest);
      FineExecOne(f, [], Send(id));
      assert [] + [Send(id)] == [Send(id)];
    }
  }

  lemma PublishInSteps(s: State, ev: Event) returns (acts: seq<FineAction>)
    ensures FineExec(Fine(s, None, {}), acts) == Fine(Step(s, Publish(ev)), None, {})
  {
    var start := Fine(s, None, {});
    var begun := FineStep(start, Begin(ev));
    var sends := SendAll(begun);
    FineExecOne(start, [], Begin(ev));
    assert [] + [Begin(ev)] == [Begin(ev)];
    FineExecAppend(start, [Begin(ev)], sends);
    acts := [Begin(ev)] + sends;
    PublishEnds(s, ev, FineExec(start, acts));
    FineExecOne(start, acts, End);
    acts := acts + [End];
  }

  lemma PublishEnds(s: State, ev: Event, end: Fine)
    requires Sent(FineStep(Fine(s, None, {}), Begin(ev)), end)
    ensures FineStep(end, End) == Fine(Step(s, Publish(ev)), None, {})
  {
    var after := Step(s, Publish(ev));
    assert end.base.streams == after.streams;
    assert end.base == end.base.(streams := map[]).(streams := after.streams);
  }

  lemma InSteps(s: State, a: Action) returns (acts: seq<FineAction>)
    ensures FineExec(Fine(s, None, {}), acts) == Fine(Step(s, a), None, {})
  {
    if a.Publish? {
      acts := PublishInSteps(s, a.ev);
    } else {
      var one := if a.Do? then Free(a.id, a.step) else Locked(a);
      acts := [] + [one];
      FineExecOne(Fine(s, None, {}), [], one);
      OneStep(s, a, one);
    }
  }

  lemma OneStep(s: State, a: Action, one: FineAction)
    requires !a.Publish? && one == if a.Do? then Free(a.id, a.step) else Locked(a)
    ensures FineStep(Fine(s, None, {}), one) == Fine(Step(s, a), None, {})
  {
  }

  /** Every atomic run is one of the fine-grained runs. */
  lemma {:induction false} Refine(max: nat, acts: seq<Action>) returns (fine: seq<FineAction>)
    ensures FineExec(FineInit(max), fine) == Fine(Exec(Init(max), acts), None, {})
  {
    if acts == [] {
      return [];
    }
    var n := |acts| - 1;
    var s := Exec(Init(max), acts[..n]);
    fine := Refine(max, acts[..n]);
    var more := InSteps(s, acts[n]);
    FineExecAppend(FineInit(max), fine, more);
    fine := fine + more;
  }
}
