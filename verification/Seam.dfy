/** What a client of StreamEvents gets, over every interleaving: exactly which
    events are replayed, accepted, lost and delivered twice. */
module Seam {
  import opened Events
  import opened Streams

  function Stamps(es: seq<Event>): set<nat> {
    set e | e in es :: e.stamp
  }

  /** The stamps after `from`, up to and including `to`. */
  function Span(from: nat, to: nat): (span: set<nat>)
    ensures forall q :: q in span <==> from < q <= to
  {
    if to <= from then {} else Span(from, to - 1) + {to}
  }

  ghost predicate Ascending(es: seq<Event>) {
    forall i, j :: 0 <= i < j < |es| ==> es[i].stamp < es[j].stamp
  }

  lemma AppendStamp(es: seq<Event>, last: Event)
    ensures Stamps(es + [last]) == Stamps(es) + {last.stamp}
  {
    forall q | q in Stamps(es) + {last.stamp} ensures q in Stamps(es + [last]) {
      var e :| e in es + [last] && e.stamp == q;
    }
  }

  lemma BeforeLast(es: seq<Event>, last: Event)
    requires Ascending(es + [last])
    ensures Ascending(es) && forall q :: q in Stamps(es) ==> q < last.stamp
  {
    assert forall i :: 0 <= i < |es| ==> (es + [last])[i] == es[i];
    forall q | q in Stamps(es) ensures q < last.stamp {
      var i :| 0 <= i < |es| && es[i].stamp == q;
      assert (es + [last])[i].stamp < (es + [last])[|es|].stamp;
    }
  }

  lemma AppendAscending(es: seq<Event>, last: Event)
    requires Ascending(es) && forall q :: q in Stamps(es) ==> q < last.stamp
    ensures Ascending(es + [last])
  {
    forall i | 0 <= i < |es| ensures es[i].stamp < last.stamp {
      assert es[i] in es && es[i].stamp in Stamps(es);
    }
  }

  /** Accepted and dropped events split the window between them, keeping its order. */
  lemma {:induction false} AcceptedSplits(window: seq<Event>, met: seq<nat>)
    requires |window| == |met| && Ascending(window)
    ensures Stamps(Accepted(window, met)) + Stamps(Dropped(window, met)) == Stamps(window)
    ensures Stamps(Accepted(window, met)) !! Stamps(Dropped(window, met))
    ensures Ascending(Accepted(window, met))
  {
    if met != [] {
      var n := |met| - 1;
      var w, last := window[..n], window[n];
      var acc, drop := Accepted(w, met[..n]), Dropped(w, met[..n]);
      assert window == w + [last];
      BeforeLast(w, last);
      AcceptedSplits(w, met[..n]);
      AppendStamp(w, last);
      if met[n] < CHANNEL_CAPACITY {
        AppendStamp(acc, last);
        AppendAscending(acc, last);
        assert Dropped(window, met) == drop;
      } else {
        AppendStamp(drop, last);
        assert Accepted(window, met) == acc;
      }
    }
  }

  /** Every publish since Subscribe was either accepted or dropped. */
  lemma {:induction false} AcceptedCount(window: seq<Event>, met: seq<nat>)
    requires |window| == |met|
    ensures |Accepted(window, met)| + |Dropped(window, met)| == |met|
  {
    if met != [] {
      AcceptedCount(window[..|met| - 1], met[..|met| - 1]);
    }
  }

  /** Nothing is missing exactly when no publish met a full channel. */
  lemma {:induction false} AcceptedAll(window: seq<Event>, met: seq<nat>)
    requires |window| == |met|
    ensures Accepted(window, met) == window <==> forall i :: 0 <= i < |met| ==> met[i] < CHANNEL_CAPACITY
  {
    if met != [] {
      var n := |met| - 1;
      AcceptedAll(window[..n], met[..n]);
      AcceptedCount(window[..n], met[..n]);
      assert window == window[..n] + [window[n]];
      assert forall i :: 0 <= i < n ==> met[..n][i] == met[i];
    }
  }

  /** The stamp of each event in a stretch of the log is its place in the log. */
  lemma StretchStamps(log: seq<Event>, lo: nat, hi: nat)
    requires Stamped(log) && |log| < U64 && lo <= hi <= |log|
    ensures forall i :: 0 <= i < hi - lo ==> log[lo..hi][i].stamp == lo + i + 1
    ensures Ascending(log[lo..hi])
    ensures Stamps(log[lo..hi]) == Span(lo, hi)
  {
    forall q | q in Span(lo, hi) ensures q in Stamps(log[lo..hi]) {
      assert log[lo..hi][q - lo - 1].stamp == q;
    }
  }

  // ------------------------------------------------------------------
  // Facts about one stream of a reachable state

  /** Where the replayed part starts: stamps Floor + 1, ..., snap are replayed. */
  function Floor(st: Stream, max: nat): nat
    requires st.snap.Some?
  {
    if st.snap.value > max then st.snap.value - max else 0
  }

  function Replay(st: Stream): seq<Event> {
    st.replayed + st.pending
  }

  function Lost(st: Stream, log: seq<Event>): seq<Event>
    requires End(st) <= |log|
  {
    Dropped(Window(st, log), st.met)
  }

  ghost predicate Observable(st: Stream, s: State) {
    Refines(s.buffer, |s.log| % U64, s.log, s.max) && StreamInv(st, s) && |s.log| < U64
  }

  lemma ReplayStretch(st: Stream, s: State)
    requires Observable(st, s) && st.snap.Some?
    ensures Replay(st) == s.log[Floor(st, s.max)..st.snap.value]
    ensures Stamps(Replay(st)) == Span(Floor(st, s.max), st.snap.value)
    ensures Ascending(Replay(st))
    ensures forall i :: 0 <= i < |Replay(st)| ==> Replay(st)[i].stamp == Floor(st, s.max) + i + 1
  {
    var lo, hi := Floor(st, s.max), st.snap.value;
    assert s.log[..hi][lo..] == s.log[lo..hi];
    StretchStamps(s.log, lo, hi);
  }

  lemma TakenStretch(st: Stream, s: State)
    requires Observable(st, s)
    ensures Ascending(Taken(st))
    ensures Stamps(Taken(st)) + Stamps(Lost(st, s.log)) == Span(st.joined, End(st))
    ensures Stamps(Taken(st)) !! Stamps(Lost(st, s.log))
    ensures |Taken(st)| + |Lost(st, s.log)| == |st.met|
  {
    StretchStamps(s.log, st.joined, End(st));
    AcceptedSplits(Window(st, s.log), st.met);
    AcceptedCount(Window(st, s.log), st.met);
  }

  /** st is stream `id` after the run `acts` of a bus that retains s.max events.
      Stamps have not wrapped. */
  ghost predicate OfRun(st: Stream, s: State, acts: seq<Action>, id: nat) {
    s == Exec(Init(s.max), acts) && id in s.streams && st == s.streams[id] && |s.log| < U64
  }

  lemma Observe(st: Stream, s: State, acts: seq<Action>, id: nat)
    requires OfRun(st, s, acts, id)
    ensures Observable(st, s)
  {
    Reachable(s.max, acts);
  }

  // ------------------------------------------------------------------
  // Main results, for every run `acts` of the whole system

  /** The replay is the newest `max` events at the snapshot, in order; what came
      through the channel is in order and newer than the subscription; and
      replayed, accepted and dropped events together are one contiguous run of
      stamps, with accepted and dropped disjoint. */
  lemma NothingElseIsMissing(st: Stream, s: State, acts: seq<Action>, id: nat)
    requires OfRun(st, s, acts, id)
    ensures Ascending(Replay(st)) && Ascending(Taken(st)) && End(st) <= |s.log|
    ensures Stamps(Taken(st)) !! Stamps(Lost(st, s.log))
    ensures Stamps(Taken(st)) + Stamps(Lost(st, s.log)) == Span(st.joined, End(st))
    ensures st.snap.None? ==> Replay(st) == []
    ensures st.snap.Some? ==> Stamps(Replay(st)) == Span(Floor(st, s.max), st.snap.value)
    ensures st.snap.Some? ==>
              Stamps(Replay(st)) + Stamps(Taken(st)) + Stamps(Lost(st, s.log))
              == Span(if st.joined < Floor(st, s.max) then st.joined else Floor(st, s.max), End(st))
  {
    Observe(st, s, acts, id);
    TakenStretch(st, s);
    if st.snap.Some? {
      ReplayStretch(st, s);
      SpansMeet(Floor(st, s.max), st.snap.value, st.joined, End(st));
      JoinSets(Stamps(Replay(st)), Stamps(Taken(st)), Stamps(Lost(st, s.log)));
    }
  }

  lemma SpansMeet(a: nat, b: nat, c: nat, d: nat)
    requires a <= b <= d && c <= b
    ensures Span(a, b) + Span(c, d) == Span(if c < a then c else a, d)
  {
  }

  lemma JoinSets(a: set<int>, b: set<int>, c: set<int>)
    ensures a + b + c == a + (b + c)
  {
  }

  /** A subscriber took the full contiguous run of events since it subscribed
      exactly when no publish ever met a backlog of 64; a channel never holds
      more than 64 events, and at most one more is being sent. */
  lemma FullRunIffNeverFull(s: State, acts: seq<Action>, id: nat)
    requires s == Exec(Init(s.max), acts) && id in s.streams
    ensures
      var st := s.streams[id];
      && End(st) <= |s.log|
      && (st.subscribed ==> End(st) == |s.log|)
      && |st.queue| <= 64 && |st.hand| <= 1
      && |Taken(st)| + |Lost(st, s.log)| == |st.met|
      && (Taken(st) == s.log[st.joined..End(st)] <==> forall i :: 0 <= i < |st.met| ==> st.met[i] < 64)
  {
    Reachable(s.max, acts);
    var st := s.streams[id];
    AcceptedCount(Window(st, s.log), st.met);
    AcceptedAll(Window(st, s.log), st.met);
  }

  /** The first event that comes through the channel is always the first one
      published after Subscribe: it met an empty channel. */
  lemma FirstTaken(st: Stream, s: State)
    requires Observable(st, s) && st.met != []
    ensures Taken(st) != [] && Taken(st)[0].stamp == st.joined + 1
  {
    var w := Window(st, s.log);
    StretchStamps(s.log, st.joined, End(st));
    FirstAccepted(w, st.met);
  }

  lemma {:induction false} FirstAccepted(window: seq<Event>, met: seq<nat>)
    requires |window| == |met| > 0 && met[0] < CHANNEL_CAPACITY
    ensures Accepted(window, met) != [] && Accepted(window, met)[0] == window[0]
  {
    var n := |met| - 1;
    if n > 0 {
      FirstAccepted(window[..n], met[..n]);
    } else {
      assert Accepted(window[..n], met[..n]) == [];
    }
  }

  lemma LiveNeedsWholeReplay(st: Stream, s: State)
    requires Observable(st, s) && st.live != []
    ensures st.met != [] && st.live[0].stamp == st.joined + 1
    ensures Ascending(st.live) && Stamps(st.live) <= Span(st.joined, End(st))
    ensures st.replay ==> st.snap.Some? && st.replayed == Replay(st)
  {
    AcceptedCount(Window(st, s.log), st.met);
    assert Taken(st)[0] == st.live[0];
    FirstTaken(st, s);
    TakenStretch(st, s);
    assert forall i :: 0 <= i < |st.live| ==> Taken(st)[i] == st.live[i];
    assert Stamps(st.live) <= Stamps(Taken(st));
  }

  // ------------------------------------------------------------------
  // Exactly which events come twice

  lemma {:induction false} AcceptedAppend(w: seq<Event>, v: seq<Event>, m: seq<nat>, n: seq<nat>)
    requires |w| == |m| && |v| == |n|
    ensures Accepted(w + v, m + n) == Accepted(w, m) + Accepted(v, n)
  {
    if n == [] {
      assert w + v == w && m + n == m;
    } else {
      var k := |n| - 1;
      AcceptedAppend(w, v[..k], m, n[..k]);
      assert (w + v)[..|m| + k] == w + v[..k] && (m + n)[..|m| + k] == m + n[..k];
    }
  }

  /** While the channel only fills up, it takes the first 64 events. */
  lemma {:induction false} AcceptedWhileFilling(w: seq<Event>, m: seq<nat>)
    requires |w| == |m| && forall i :: 0 <= i < |m| ==> m[i] == Backlog(i)
    ensures Accepted(w, m) == w[..Backlog(|m|)]
  {
    if m != [] {
      AcceptedWhileFilling(w[..|m| - 1], m[..|m| - 1]);
    }
  }

  lemma {:induction false} AcceptedAreOffered(w: seq<Event>, m: seq<nat>)
    requires |w| == |m|
    ensures forall e :: e in Accepted(w, m) ==> e in w
  {
    if m != [] {
      AcceptedAreOffered(w[..|m| - 1], m[..|m| - 1]);
    }
  }

  /** A channel that filled up with the first `wait` events of the window holds
      their first 64, in order, before anything newer. */
  lemma TakenByWait(w: seq<Event>, m: seq<nat>, wait: nat)
    requires |w| == |m| && wait <= |m| && forall i :: 0 <= i < wait ==> m[i] == Backlog(i)
    ensures
      var taken := Accepted(w, m);
      && Backlog(wait) <= |taken| && taken[..Backlog(wait)] == w[..Backlog(wait)]
      && forall i :: Backlog(wait) <= i < |taken| ==> taken[i] in w[wait..]
  {
    assert w == w[..wait] + w[wait..] && m == m[..wait] + m[wait..];
    AcceptedAppend(w[..wait], w[wait..], m[..wait], m[wait..]);
    AcceptedWhileFilling(w[..wait], m[..wait]);
    AcceptedAreOffered(w[wait..], m[wait..]);
    var rest := Accepted(w[wait..], m[wait..]);
    assert w[..wait][..Backlog(wait)] == w[..Backlog(wait)];
    forall i | Backlog(wait) <= i < |Accepted(w, m)| ensures Accepted(w, m)[i] in w[wait..] {
      assert Accepted(w, m)[i] == rest[i - Backlog(wait)];
    }
  }

  function Smaller(a: nat, b: nat): nat {
    if a < b then a else b
  }

  /** How many of the live events were published before the snapshot. */
  function Early(st: Stream): nat
    requires st.snap.Some? && st.joined <= st.snap.value
  {
    Smaller(|st.live|, Backlog(st.snap.value - st.joined))
  }

  lemma StampsByWait(taken: seq<Event>, w: seq<Event>, wait: nat, joined: nat)
    requires wait <= |w| && forall i :: 0 <= i < |w| ==> w[i].stamp == joined + i + 1
    requires Backlog(wait) <= |taken| && taken[..Backlog(wait)] == w[..Backlog(wait)]
    requires forall i :: Backlog(wait) <= i < |taken| ==> taken[i] in w[wait..]
    ensures forall i :: 0 <= i < Backlog(wait) ==> taken[i].stamp == joined + i + 1
    ensures forall i :: Backlog(wait) <= i < |taken| ==> taken[i].stamp > joined + wait
  {
    forall i | 0 <= i < Backlog(wait) ensures taken[i].stamp == joined + i + 1 {
      assert taken[i] == taken[..Backlog(wait)][i] == w[i];
    }
    forall i | Backlog(wait) <= i < |taken| ensures taken[i].stamp > joined + wait {
      var j :| 0 <= j < |w| - wait && w[wait..][j] == taken[i];
      assert w[wait + j] == taken[i];
    }
  }

  lemma TakenStamps(st: Stream, s: State)
    requires Observable(st, s) && FillsUp(st) && st.replay && st.snap.Some?
    ensures
      var early := Backlog(st.snap.value - st.joined);
      && (forall i :: 0 <= i < early && i < |Taken(st)| ==> Taken(st)[i].stamp == st.joined + i + 1)
      && (forall i :: early <= i < |Taken(st)| ==> Taken(st)[i].stamp > st.snap.value)
  {
    var w, wait := Window(st, s.log), st.snap.value - st.joined;
    StretchStamps(s.log, st.joined, End(st));
    TakenByWait(w, st.met, wait);
    StampsByWait(Taken(st), w, wait, st.joined);
  }

  lemma LiveStamps(st: Stream, s: State)
    requires Observable(st, s) && FillsUp(st) && st.replay && st.snap.Some?
    ensures forall i :: 0 <= i < Early(st) ==> st.live[i].stamp == st.joined + i + 1
    ensures forall i :: Early(st) <= i < |st.live| ==> st.live[i].stamp > st.snap.value
  {
    TakenStamps(st, s);
    assert forall i :: 0 <= i < |st.live| ==> st.live[i] == Taken(st)[i];
  }

  lemma EarlyLive(st: Stream, s: State, q: nat)
    requires Observable(st, s) && FillsUp(st) && st.replay && st.snap.Some? && q <= st.snap.value
    ensures q in Stamps(st.live) <==> st.joined < q <= st.joined + Early(st)
  {
    LiveStamps(st, s);
    if st.joined < q <= st.joined + Early(st) {
      assert st.live[q - st.joined - 1].stamp == q;
      assert st.live[q - st.joined - 1] in st.live;
    }
  }

  /** An event comes twice exactly when the replay still held it and it is among
      the first events published after Subscribe: as many of them as fit the
      channel, were published before Snapshot and have been sent. */
  lemma DeliveredTwiceIff(st: Stream, s: State, acts: seq<Action>, id: nat, q: nat)
    requires OfRun(st, s, acts, id)
    ensures st.snap.Some? ==> st.joined <= st.snap.value
    ensures q in Stamps(st.replayed) && q in Stamps(st.live) <==>
              st.snap.Some? && Floor(st, s.max) < q && st.joined < q <= st.joined + Early(st)
  {
    Observe(st, s, acts, id);
    AllFillUp(s.max, acts);
    if st.live != [] && st.snap.Some? {
      LiveNeedsWholeReplay(st, s);
      ReplayStretch(st, s);
      if q <= st.snap.value {
        EarlyLive(st, s, q);
      }
    }
  }

  /** Exactly-once delivery holds if and only if nothing was sent live, nothing
      was published between Subscribe and Snapshot, the bus retains nothing, or
      so much was published in between that every early live event had been
      evicted from the replay: with 64 or more live events, at least max + 64. */
  lemma ExactlyOnceIff(st: Stream, s: State, acts: seq<Action>, id: nat)
    requires OfRun(st, s, acts, id) && st.snap.Some?
    ensures Stamps(st.replayed) !! Stamps(st.live) <==>
              || st.live == [] || st.snap.value == st.joined || s.max == 0
              || st.snap.value >= st.joined + s.max + Smaller(|st.live|, 64)
  {
    DeliveredTwiceIff(st, s, acts, id, 0);
    var first := if st.joined < Floor(st, s.max) then Floor(st, s.max) + 1 else st.joined + 1;
    DeliveredTwiceIff(st, s, acts, id, first);
    forall q | q in Stamps(st.replayed) && q in Stamps(st.live) ensures first <= q <= st.joined + Early(st) {
      DeliveredTwiceIff(st, s, acts, id, q);
    }
  }

  /** A schedule that delivers an event twice: it is published after Subscribe
      and before Snapshot. */
  lemma ExactlyOnceFails(max: nat, ev: Event)
    requires max > 0
    ensures
      var acts := [Subscribe(0, true), Publish(ev), Snapshot(0), Do(0, SendReplayed), Do(0, Receive), Do(0, FinishSend)];
      var streams := Exec(Init(max), acts).streams;
      0 in streams && streams[0].replayed == streams[0].live == [ev.(stamp := 1)]
  {
    var s1 := Step(Init(max), Subscribe(0, true));
    var s2 := Step(s1, Publish(ev));
    var s3 := Step(s2, Snapshot(0));
    var s4 := Step(s3, Do(0, SendReplayed));
    var s5 := Step(s4, Do(0, Receive));
    var s6 := Step(s5, Do(0, FinishSend));
    assert s2.buffer == [ev.(stamp := 1)];
    assert s3.streams[0].pending == [ev.(stamp := 1)];
    assert s6.streams[0].replayed == s6.streams[0].live == [ev.(stamp := 1)];
    ExecSix(Init(max), Subscribe(0, true), Publish(ev), Snapshot(0),
            Do(0, SendReplayed), Do(0, Receive), Do(0, FinishSend));
  }

  lemma ExecSix(s: State, a: Action, b: Action, c: Action, d: Action, e: Action, f: Action)
    ensures Exec(s, [a, b, c, d, e, f]) == Step(Step(Step(Step(Step(Step(s, a), b), c), d), e), f)
  {
    assert [a][..0] == [] && [a, b][..1] == [a] && [a, b, c][..2] == [a, b];
    assert [a, b, c, d][..3] == [a, b, c] && [a, b, c, d, e][..4] == [a, b, c, d];
    assert [a, b, c, d, e, f][..5] == [a, b, c, d, e];
    assert Exec(s, [a]) == Step(s, a);
    assert Exec(s, [a, b]) == Step(Step(s, a), b);
    assert Exec(s, [a, b, c]) == Step(Step(Step(s, a), b), c);
    assert Exec(s, [a, b, c, d]) == Step(Step(Step(Step(s, a), b), c), d);
    assert Exec(s, [a, b, c, d, e]) == Step(Step(Step(Step(Step(s, a), b), c), d), e);
  }

  // ------------------------------------------------------------------
  // What the stamps let a client do

  function After(live: seq<Event>, t: nat): seq<Event> {
    if live == [] then [] else
      After(live[..|live| - 1], t) + (if live[|live| - 1].stamp > t then [live[|live| - 1]] else [])
  }

  /** The client's rule: ignore live events no newer than the last replayed one. */
  function ClientView(replayed: seq<Event>, live: seq<Event>): seq<Event> {
    replayed + After(live, if replayed == [] then 0 else replayed[|replayed| - 1].stamp)
  }

  lemma {:induction false} AfterStamps(live: seq<Event>, t: nat)
    ensures forall q :: q in Stamps(After(live, t)) <==> q in Stamps(live) && q > t
  {
    if live != [] {
      var n := |live| - 1;
      assert live == live[..n] + [live[n]];
      AfterStamps(live[..n], t);
      AppendStamp(live[..n], live[n]);
      AppendStamp(After(live[..n], t), live[n]);
    }
  }

  lemma {:induction false} AfterKeepsNewer(live: seq<Event>, t: nat)
    requires Ascending(live)
    ensures Ascending(After(live, t))
    ensures forall q :: q in Stamps(After(live, t)) <==> q in Stamps(live) && q > t
  {
    AfterStamps(live, t);
    if live != [] {
      var n := |live| - 1;
      assert live == live[..n] + [live[n]];
      BeforeLast(live[..n], live[n]);
      AfterKeepsNewer(live[..n], t);
      if live[n].stamp > t {
        AppendAscending(After(live[..n], t), live[n]);
      }
    }
  }

  lemma JoinAscending(a: seq<Event>, b: seq<Event>)
    requires Ascending(a) && Ascending(b)
    requires forall q :: q in Stamps(b) ==> a == [] || q > a[|a| - 1].stamp
    ensures Ascending(a + b) && Stamps(a + b) == Stamps(a) + Stamps(b)
  {
    forall i, j | 0 <= i < j < |a + b| ensures (a + b)[i].stamp < (a + b)[j].stamp {
      if i < |a| <= j {
        assert b[j - |a|] in b && b[j - |a|].stamp in Stamps(b);
        assert a[i].stamp <= a[|a| - 1].stamp;
      }
    }
    forall q | q in Stamps(a) + Stamps(b) ensures q in Stamps(a + b) {
      var e :| (e in a || e in b) && e.stamp == q;
      assert e in a + b;
    }
  }

  /** What the client sees by the rule: a strictly increasing stream, hence free
      of duplicates, of delivered events only. Of the delivered ones it misses
      exactly the live ones at or below floor behind a replay, and it misses some
      exactly if `hides`. */
  ghost predicate Viewed(replayed: seq<Event>, live: seq<Event>, floor: nat, hides: bool) {
    var raw, view := Stamps(replayed) + Stamps(live), ClientView(replayed, live);
    && Ascending(view)
    && Stamps(view) <= raw
    && (forall q :: q in raw && q !in Stamps(view) <==> q in Stamps(live) && replayed != [] && q <= floor)
    && (Stamps(view) != raw <==> hides)
  }

  /** The rule makes any replaying stream strictly increasing and hides a
      delivered event exactly when it is a live one that the replay had already
      evicted. That happens if and only if a live event was delivered, something
      was replayed, and more than `max` events were published between Subscribe
      and Snapshot. */
  lemma ClientViewTheorem(st: Stream, s: State, acts: seq<Action>, id: nat)
    requires OfRun(st, s, acts, id) && st.snap.Some?
    ensures Viewed(st.replayed, st.live, Floor(st, s.max),
                   st.live != [] && st.replayed != [] && st.snap.value > st.joined + s.max)
  {
    Observe(st, s, acts, id);
    ReplayStretch(st, s);
    ReplayedAscending(st);
    if st.live == [] {
      ViewWithoutLive(st.replayed, Floor(st, s.max));
    } else {
      LiveNeedsWholeReplay(st, s);
      ViewOfWholeReplay(st.replayed, st.live, st.joined, Floor(st, s.max), st.snap.value);
    }
  }

  lemma ViewWithoutLive(replayed: seq<Event>, floor: nat)
    requires Ascending(replayed)
    ensures Viewed(replayed, [], floor, false)
  {
    assert ClientView(replayed, []) == replayed;
  }

  /** With the replay being (floor, snap], a threshold hides from the live
      stamps what is at or below floor, and nothing exactly when the oldest live
      stamp, joined + 1, is above it. */
  lemma HiddenStamps(replayed: set<nat>, live: set<nat>, newer: set<nat>, joined: nat, floor: nat, snap: nat, t: nat)
    requires replayed == Span(floor, snap) && floor <= snap && t == if floor == snap then 0 else snap
    requires joined + 1 in live && forall q :: q in live ==> q > joined
    requires forall q :: q in newer <==> q in live && q > t
    ensures forall q :: q in replayed + live && q !in replayed + newer <==>
                        q in live && floor < snap && q <= floor
    ensures replayed + newer == replayed + live <==> !(floor < snap && joined + 1 <= floor)
  {
    if floor < snap && joined + 1 <= floor {
      assert joined + 1 in replayed + live && joined + 1 !in replayed + newer;
    }
  }

  lemma ReplayedAscending(st: Stream)
    requires Ascending(Replay(st))
    ensures Ascending(st.replayed)
  {
    assert forall i :: 0 <= i < |st.replayed| ==> Replay(st)[i] == st.replayed[i];
  }

  lemma ViewOfWholeReplay(replayed: seq<Event>, live: seq<Event>, joined: nat, floor: nat, snap: nat)
    requires Ascending(replayed) && Stamps(replayed) == Span(floor, snap) && floor <= snap
    requires if floor == snap then replayed == [] else replayed != [] && replayed[|replayed| - 1].stamp == snap
    requires Ascending(live) && live != [] && live[0].stamp == joined + 1
    requires forall q :: q in Stamps(live) ==> q > joined
    ensures Viewed(replayed, live, floor, floor < snap && joined < floor)
  {
    var t := if replayed == [] then 0 else replayed[|replayed| - 1].stamp;
    AfterKeepsNewer(live, t);
    JoinAscending(replayed, After(live, t));
    assert live[0] in live && joined + 1 in Stamps(live);
    HiddenStamps(Stamps(replayed), Stamps(live), Stamps(After(live, t)), joined, floor, snap, t);
  }
}
