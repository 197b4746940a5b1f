/**
 What the synchroniser guarantees over whole runs, starting empty.
 */
module FrameSyncRuns {
  import opened FrameSyncSpec

  // ---------- The invariant ----------

  /** The buffered frames are, in order, the ones pushed at the strictly increasing positions `at`. */
  ghost predicate InOrder(q: Frames, pushed: Frames, at: seq<int>) {
    && |at| == |q|
    && (forall k | 0 <= k < |at| :: 0 <= at[k] < |pushed| && q[k] == pushed[at[k]])
    && (forall k, l | 0 <= k < l < |at| :: at[k] < at[l])
  }

  /** The frame was pushed at least `max` pushes of its kind before the latest one. */
  ghost predicate Stale(max: nat, pushed: Frames, f: TimestampedFrame) {
    exists k | 0 <= k < |pushed| - max :: pushed[k] == f
  }

  /** The buffer keeps arrival order. */
  ghost predicate Ordered(s: Side) {
    exists at :: InOrder(s.buffer, s.pushed, at)
  }

  /** Each pushed frame is buffered, evicted, drained or matched, exactly once. */
  ghost predicate Accounted(s: Side) {
    multiset(s.pushed) == multiset(s.buffer) + multiset(s.evicted) + multiset(s.drained) + multiset(s.matched)
  }

  ghost predicate OnlyStaleEvicted(max: nat, s: Side) {
    forall f | f in s.evicted :: Stale(max, s.pushed, f)
  }

  ghost predicate SideOk(max: nat, s: Side) {
    |s.buffer| <= max && Ordered(s) && Accounted(s) && OnlyStaleEvicted(max, s)
  }

  ghost predicate Quiescent(tolerance: int, w: World) {
    forall i, j | InRange(w.vis.buffer, w.uv.buffer, i, j) :: Diff(w.vis.buffer[i], w.uv.buffer[j]) > tolerance
  }

  ghost predicate PairsClose(tolerance: int, w: World) {
    && |w.vis.matched| == |w.uv.matched|
    && forall k | 0 <= k < |w.vis.matched| :: Diff(w.vis.matched[k], w.uv.matched[k]) <= tolerance
  }

  ghost predicate Good(tolerance: int, max: nat, w: World) {
    SideOk(max, w.vis) && SideOk(max, w.uv) && Quiescent(tolerance, w) && PairsClose(tolerance, w)
  }

  lemma EnterKeeps(max: nat, s: Side, f: TimestampedFrame)
    requires SideOk(max, s)
    ensures SideOk(max, Enter(max, s, f))
  {
    EnterOrdered(max, s, f);
    EnterAccounted(max, s, f);
  }

  lemma EnterAccounted(max: nat, s: Side, f: TimestampedFrame)
    requires Accounted(s)
    ensures Accounted(Enter(max, s, f))
  {
    var s' := Enter(max, s, f);
    var q := s.buffer + [f];
    var out := q[..|q| - |s'.buffer|];
    assert q == out + s'.buffer && s'.evicted == s.evicted + out;
    calc {
      multiset(s'.pushed);
      multiset(s.buffer) + multiset(s.evicted) + multiset(s.drained) + multiset(s.matched) + multiset{f};
      multiset(q) + multiset(s.evicted) + multiset(s.drained) + multiset(s.matched);
      multiset(s'.buffer) + (multiset(s.evicted) + multiset(out)) + multiset(s.drained) + multiset(s.matched);
    }
  }

  /** Entering keeps arrival order, and evicts at most the oldest frame. */
  lemma EnterOrdered(max: nat, s: Side, f: TimestampedFrame)
    requires |s.buffer| <= max && Ordered(s) && OnlyStaleEvicted(max, s)
    ensures Ordered(Enter(max, s, f)) && OnlyStaleEvicted(max, Enter(max, s, f))
  {
    var s' := Enter(max, s, f);
    var at :| InOrder(s.buffer, s.pushed, at);
    var q, at1 := s.buffer + [f], at + [|s.pushed|];
    assert InOrder(q, s'.pushed, at1);
    if |q| > max {
      assert InOrder(q[1..], s'.pushed, at1[1..]);
      OldestIsStale(max, q, s'.pushed, at1);
      assert s'.evicted == s.evicted + [q[0]];
    }
    forall e | e in s.evicted
      ensures Stale(max, s'.pushed, e)
    {
      StaleStays(max, s.pushed, f, e);
    }
  }

  lemma StaleStays(max: nat, pushed: Frames, f: TimestampedFrame, e: TimestampedFrame)
    requires Stale(max, pushed, e)
    ensures Stale(max, pushed + [f], e)
  {
    var k :| 0 <= k < |pushed| - max && pushed[k] == e;
    assert (pushed + [f])[k] == e;
  }

  /** The front of an overfull buffer has `max` later frames of its kind behind it. */
  lemma OldestIsStale(max: nat, q: Frames, pushed: Frames, at: seq<int>)
    requires InOrder(q, pushed, at) && |q| > max
    ensures Stale(max, pushed, q[0])
  {
    SpreadOut(at, 0);
    assert pushed[at[0]] == q[0];
  }

  /** Strictly increasing positions lie at least as far apart as their ranks. */
  lemma {:induction false} SpreadOut(at: seq<int>, k: nat)
    requires k < |at| && forall i, j | 0 <= i < j < |at| :: at[i] < at[j]
    ensures at[k] + (|at| - 1 - k) <= at[|at| - 1]
    decreases |at| - k
  {
    if k + 1 < |at| {
      SpreadOut(at, k + 1);
    }
  }

  lemma MatchedKeeps(max: nat, s: Side, i: int)
    requires SideOk(max, s) && 0 <= i < |s.buffer|
    ensures SideOk(max, Matched(s, i))
  {
    var at :| InOrder(s.buffer, s.pushed, at);
    assert InOrder(RemoveAt(s.buffer, i), s.pushed, at[..i] + at[i + 1..]);
    assert s.buffer == s.buffer[..i] + [s.buffer[i]] + s.buffer[i + 1..];
  }

  lemma EmptiedKeeps(max: nat, s: Side)
    requires SideOk(max, s)
    ensures SideOk(max, Emptied(s))
  {
    assert InOrder([], s.pushed, []);
  }

  /** Every close buffered pair uses the frame at vis position p (or uv position p). */
  ghost predicate OnlyAt(tolerance: int, w: World, visible: bool, p: int) {
    forall i, j | InRange(w.vis.buffer, w.uv.buffer, i, j) && Diff(w.vis.buffer[i], w.uv.buffer[j]) <= tolerance ::
      (if visible then i else j) == p
  }

  /** Taking away the frame that every close pair uses leaves no close pair. */
  lemma RemovalQuiets(tolerance: int, w: World, visible: bool, p: int, i: int, j: int)
    requires OnlyAt(tolerance, w, visible, p) && InRange(w.vis.buffer, w.uv.buffer, i, j)
    requires (if visible then i else j) == p
    ensures Quiescent(tolerance, World(Matched(w.vis, i), Matched(w.uv, j)))
  {
    var vis, uv := RemoveAt(w.vis.buffer, i), RemoveAt(w.uv.buffer, j);
    forall k, l | InRange(vis, uv, k, l)
      ensures Diff(vis[k], uv[l]) > tolerance
    {
      var k0, l0 := if k < i then k else k + 1, if l < j then l else l + 1;
      assert vis[k] == w.vis.buffer[k0] && uv[l] == w.uv.buffer[l0];
      assert InRange(w.vis.buffer, w.uv.buffer, k0, l0);
    }
  }

  /** One match per push is enough: it takes away the only frame that was close to anything. */
  lemma TryMatchKeeps(tolerance: int, max: nat, w: World, visible: bool, p: int)
    requires SideOk(max, w.vis) && SideOk(max, w.uv) && PairsClose(tolerance, w)
    requires OnlyAt(tolerance, w, visible, p)
    ensures Good(tolerance, max, TryMatch(tolerance, w))
  {
    if w.vis.buffer != [] && w.uv.buffer != [] {
      var (i, j) := Best(w.vis.buffer, w.uv.buffer);
      if Diff(w.vis.buffer[i], w.uv.buffer[j]) > tolerance {
        forall k, l | InRange(w.vis.buffer, w.uv.buffer, k, l)
          ensures Diff(w.vis.buffer[k], w.uv.buffer[l]) > tolerance
        {
          assert !Beats(w.vis.buffer, w.uv.buffer, k, l, i, j);
        }
      } else {
        MatchedKeeps(max, w.vis, i);
        MatchedKeeps(max, w.uv, j);
        RemovalQuiets(tolerance, w, visible, p, i, j);
      }
    }
  }

  lemma PushVisibleKeeps(tolerance: int, max: nat, w: World, f: TimestampedFrame)
    requires Good(tolerance, max, w)
    ensures Good(tolerance, max, Step(tolerance, max, w, PushVisible(f)))
  {
    EnterKeeps(max, w.vis, f);
    var w1 := w.(vis := Enter(max, w.vis, f));
    assert OnlyAt(tolerance, w1, true, |w1.vis.buffer| - 1);
    TryMatchKeeps(tolerance, max, w1, true, |w1.vis.buffer| - 1);
  }

  lemma PushUVKeeps(tolerance: int, max: nat, w: World, f: TimestampedFrame)
    requires Good(tolerance, max, w)
    ensures Good(tolerance, max, Step(tolerance, max, w, PushUV(f)))
  {
    EnterKeeps(max, w.uv, f);
    var w1 := w.(uv := Enter(max, w.uv, f));
    assert OnlyAt(tolerance, w1, false, |w1.uv.buffer| - 1);
    TryMatchKeeps(tolerance, max, w1, false, |w1.uv.buffer| - 1);
  }

  lemma StepKeeps(tolerance: int, max: nat, w: World, op: Op)
    requires Good(tolerance, max, w)
    ensures Good(tolerance, max, Step(tolerance, max, w, op))
  {
    match op
    case PushVisible(f) => PushVisibleKeeps(tolerance, max, w, f);
    case PushUV(f) => PushUVKeeps(tolerance, max, w, f);
    case Drain =>
      EmptiedKeeps(max, w.vis);
      EmptiedKeeps(max, w.uv);
  }

  /** After every call of every run: no close pair is buffered, and every frame is accounted for once. */
  lemma {:induction false} RunGood(tolerance: int, max: nat, ops: seq<Op>)
    ensures Good(tolerance, max, Run(tolerance, max, ops))
  {
    if ops == [] {
      assert InOrder([], [], []);
    } else {
      RunGood(tolerance, max, ops[..|ops| - 1]);
      StepKeeps(tolerance, max, Run(tolerance, max, ops[..|ops| - 1]), ops[|ops| - 1]);
    }
  }

  // ---------- Which pair one push emits ----------

  /** The first closest frame of one scan of a buffer. */
  ghost predicate IsNearest(f: TimestampedFrame, q: Frames, j: int) {
    && 0 <= j < |q|
    && forall l | 0 <= l < |q| :: Diff(f, q[j]) < Diff(f, q[l]) || (Diff(f, q[j]) == Diff(f, q[l]) && j <= l)
  }

  /** A pushed visible frame is emitted with its first nearest UV frame, if close; nothing else is emitted. */
  lemma VisiblePushScansOnce(tolerance: int, max: nat, w: World, f: TimestampedFrame, j: int)
    requires Good(tolerance, max, w) && max > 0 && IsNearest(f, w.uv.buffer, j)
    ensures var w' := Step(tolerance, max, w, PushVisible(f));
            if Diff(f, w.uv.buffer[j]) <= tolerance then
              w'.vis.matched == w.vis.matched + [f] && w'.uv == Matched(w.uv, j)
            else w' == w.(vis := Enter(max, w.vis, f))
  {
    var w1 := w.(vis := Enter(max, w.vis, f));
    var vis, uv, last := w1.vis.buffer, w.uv.buffer, |w1.vis.buffer| - 1;
    assert vis[last] == f;
    var (bi, bj) := Best(vis, uv);
    if Diff(vis[bi], uv[bj]) <= tolerance {
      assert bi == last;
      assert !Beats(vis, uv, last, j, bi, bj);
    } else {
      assert !Beats(vis, uv, last, j, bi, bj);
    }
  }

  /** The same for a pushed UV frame and the first nearest visible one. */
  lemma UVPushScansOnce(tolerance: int, max: nat, w: World, f: TimestampedFrame, i: int)
    requires Good(tolerance, max, w) && max > 0 && IsNearest(f, w.vis.buffer, i)
    ensures var w' := Step(tolerance, max, w, PushUV(f));
            if Diff(w.vis.buffer[i], f) <= tolerance then
              w'.uv.matched == w.uv.matched + [f] && w'.vis == Matched(w.vis, i)
            else w' == w.(uv := Enter(max, w.uv, f))
  {
    var w1 := w.(uv := Enter(max, w.uv, f));
    var vis, uv, last := w.vis.buffer, w1.uv.buffer, |w1.uv.buffer| - 1;
    assert uv[last] == f;
    var (bi, bj) := Best(vis, uv);
    assert !Beats(vis, uv, i, last, bi, bj);
    if Diff(vis[bi], uv[bj]) <= tolerance {
      assert bj == last;
    }
  }

  // ---------- Frames of one camera further apart than twice the tolerance ----------

  ghost predicate Spaced(tolerance: int, pushed: Frames) {
    forall i, j | 0 <= i < j < |pushed| :: Diff(pushed[i], pushed[j]) > 2 * tolerance
  }

  ghost predicate NoDrain(ops: seq<Op>) {
    forall i | 0 <= i < |ops| :: ops[i] != Drain
  }

  ghost predicate EmittedPair(w: World, v: TimestampedFrame, u: TimestampedFrame) {
    && |w.vis.matched| == |w.uv.matched|
    && exists k | 0 <= k < |w.vis.matched| :: w.vis.matched[k] == v && w.uv.matched[k] == u
  }

  lemma {:induction false} NothingDrained(tolerance: int, max: nat, ops: seq<Op>)
    requires NoDrain(ops)
    ensures var w := Run(tolerance, max, ops); w.vis.drained == [] && w.uv.drained == []
  {
    if ops == [] {
    } else {
      NothingDrained(tolerance, max, ops[..|ops| - 1]);
      assert ops[|ops| - 1] != Drain;
    }
  }

  /** Spaced frames within twice the tolerance are one push. */
  lemma SamePush(tolerance: int, pushed: Frames, a: int, b: int)
    requires Spaced(tolerance, pushed) && 0 <= a < |pushed| && 0 <= b < |pushed|
    requires Diff(pushed[a], pushed[b]) <= 2 * tolerance
    ensures a == b
  {
  }

  /** A frame with fewer than `max` later frames of its kind is still buffered or already matched. */
  lemma FreshIsKept(tolerance: int, max: nat, s: Side, a: int)
    requires SideOk(max, s) && Spaced(tolerance, s.pushed) && tolerance >= 0 && s.drained == []
    requires |s.pushed| - max <= a < |s.pushed| && 0 <= a
    ensures s.pushed[a] in s.buffer || s.pushed[a] in s.matched
  {
    var f := s.pushed[a];
    assert f in multiset(s.pushed);
    if f in s.evicted {
      var k :| 0 <= k < |s.pushed| - max && s.pushed[k] == f;
      SamePush(tolerance, s.pushed, k, a);
    }
  }

  /** Matched frames were pushed. */
  lemma MatchedWasPushed(s: Side, k: int) returns (a: int)
    requires Accounted(s) && 0 <= k < |s.matched|
    ensures 0 <= a < |s.pushed| && s.pushed[a] == s.matched[k]
  {
    assert s.matched[k] in multiset(s.matched);
    assert s.matched[k] in multiset(s.pushed);
    assert s.matched[k] in s.pushed;
    a :| 0 <= a < |s.pushed| && s.pushed[a] == s.matched[k];
  }

  /** Two frames of one kind close to one frame of the other kind are the same frame. */
  lemma OnePartner(tolerance: int, pushed: Frames, a: int, b: int, f: TimestampedFrame)
    requires Spaced(tolerance, pushed) && 0 <= a < |pushed| && 0 <= b < |pushed|
    requires Diff(pushed[a], f) <= tolerance && Diff(pushed[b], f) <= tolerance
    ensures pushed[a] == pushed[b]
  {
  }

  /** A close pair both of whose frames are recent has been emitted: no other outcome is left. */
  lemma RecentPairEmitted(tolerance: int, max: nat, w: World, a: int, b: int)
    requires Good(tolerance, max, w) && w.vis.drained == [] && w.uv.drained == []
    requires Spaced(tolerance, w.vis.pushed) && Spaced(tolerance, w.uv.pushed)
    requires 0 <= a && |w.vis.pushed| - max <= a < |w.vis.pushed|
    requires 0 <= b && |w.uv.pushed| - max <= b < |w.uv.pushed|
    requires Diff(w.vis.pushed[a], w.uv.pushed[b]) <= tolerance
    ensures EmittedPair(w, w.vis.pushed[a], w.uv.pushed[b])
  {
    var v, u := w.vis.pushed[a], w.uv.pushed[b];
    FreshIsKept(tolerance, max, w.vis, a);
    FreshIsKept(tolerance, max, w.uv, b);
    if v in w.vis.matched {
      var k :| 0 <= k < |w.vis.matched| && w.vis.matched[k] == v;
      var c := MatchedWasPushed(w.uv, k);
      OnePartner(tolerance, w.uv.pushed, b, c, v);
    } else if u in w.uv.matched {
      var k :| 0 <= k < |w.uv.matched| && w.uv.matched[k] == u;
      var c := MatchedWasPushed(w.vis, k);
      OnePartner(tolerance, w.vis.pushed, a, c, u);
    } else {
      var i :| 0 <= i < |w.vis.buffer| && w.vis.buffer[i] == v;
      var j :| 0 <= j < |w.uv.buffer| && w.uv.buffer[j] == u;
      assert InRange(w.vis.buffer, w.uv.buffer, i, j);
      assert false;
    }
  }

  lemma {:induction false} HistoryGrows(tolerance: int, max: nat, ops: seq<Op>, n: nat)
    requires n <= |ops|
    ensures var w, w' := Run(tolerance, max, ops[..n]), Run(tolerance, max, ops);
            && w.vis.pushed <= w'.vis.pushed && w.uv.pushed <= w'.uv.pushed
            && w.vis.matched <= w'.vis.matched && w.uv.matched <= w'.uv.matched
  {
    if n == |ops| {
      assert ops[..n] == ops;
    } else {
      assert ops[..|ops| - 1][..n] == ops[..n];
      HistoryGrows(tolerance, max, ops[..|ops| - 1], n);
    }
  }

  /**
   Arrival order does not matter: whichever frame of a close pair arrives second, the pair is
   emitted, provided at some moment of the run neither frame has `max` later ones of its kind.
   */
  lemma ClosePairEmitted(tolerance: int, max: nat, ops: seq<Op>, n: nat, a: int, b: int)
    requires NoDrain(ops) && n <= |ops|
    requires Spaced(tolerance, Run(tolerance, max, ops).vis.pushed)
    requires Spaced(tolerance, Run(tolerance, max, ops).uv.pushed)
    requires var w := Run(tolerance, max, ops[..n]);
             && 0 <= a && |w.vis.pushed| - max <= a < |w.vis.pushed|
             && 0 <= b && |w.uv.pushed| - max <= b < |w.uv.pushed|
             && Diff(w.vis.pushed[a], w.uv.pushed[b]) <= tolerance
    ensures var w := Run(tolerance, max, ops[..n]);
            EmittedPair(Run(tolerance, max, ops), w.vis.pushed[a], w.uv.pushed[b])
  {
    var w, w' := Run(tolerance, max, ops[..n]), Run(tolerance, max, ops);
    HistoryGrows(tolerance, max, ops, n);
    NothingDrained(tolerance, max, ops[..n]);
    RunGood(tolerance, max, ops[..n]);
    RunGood(tolerance, max, ops);
    SpacedPrefix(tolerance, w.vis.pushed, w'.vis.pushed);
    SpacedPrefix(tolerance, w.uv.pushed, w'.uv.pushed);
    RecentPairEmitted(tolerance, max, w, a, b);
    var v, u := w.vis.pushed[a], w.uv.pushed[b];
    var k :| 0 <= k < |w.vis.matched| && w.vis.matched[k] == v && w.uv.matched[k] == u;
    assert w'.vis.matched[k] == v && w'.uv.matched[k] == u;
  }

  lemma SpacedPrefix(tolerance: int, p: Frames, q: Frames)
    requires p <= q && Spaced(tolerance, q)
    ensures Spaced(tolerance, p)
  {
  }

  /** Without evictions the emitted pairs are exactly the close pairs, for every interleaving of the pushes. */
  lemma ExactlyTheClosePairs(tolerance: int, max: nat, ops: seq<Op>, v: TimestampedFrame, u: TimestampedFrame)
    requires NoDrain(ops)
    requires Spaced(tolerance, Run(tolerance, max, ops).vis.pushed)
    requires Spaced(tolerance, Run(tolerance, max, ops).uv.pushed)
    requires Run(tolerance, max, ops).vis.evicted == Run(tolerance, max, ops).uv.evicted == []
    ensures var w := Run(tolerance, max, ops);
            EmittedPair(w, v, u) <==> v in w.vis.pushed && u in w.uv.pushed && Diff(v, u) <= tolerance
  {
    var w := Run(tolerance, max, ops);
    RunGood(tolerance, max, ops);
    NothingDrained(tolerance, max, ops);
    if EmittedPair(w, v, u) {
      var k :| 0 <= k < |w.vis.matched| && w.vis.matched[k] == v && w.uv.matched[k] == u;
      var a := MatchedWasPushed(w.vis, k);
      var b := MatchedWasPushed(w.uv, k);
    }
    if v in w.vis.pushed && u in w.uv.pushed && Diff(v, u) <= tolerance {
      var a :| 0 <= a < |w.vis.pushed| && w.vis.pushed[a] == v;
      var b :| 0 <= b < |w.uv.pushed| && w.uv.pushed[b] == u;
      var wide := max + |w.vis.pushed| + |w.uv.pushed|;
      assert Good(tolerance, wide, w);
      RecentPairEmitted(tolerance, wide, w, a, b);
    }
  }

  /** Two runs fed the same frames in whatever order emit the same pairs. */
  lemma ArrivalOrderIrrelevant(tolerance: int, max: nat, ops: seq<Op>, ops': seq<Op>, v: TimestampedFrame,
                               u: TimestampedFrame)
    requires NoDrain(ops) && NoDrain(ops')
    requires var w, w' := Run(tolerance, max, ops), Run(tolerance, max, ops');
             && multiset(w.vis.pushed) == multiset(w'.vis.pushed) && multiset(w.uv.pushed) == multiset(w'.uv.pushed)
             && Spaced(tolerance, w.vis.pushed) && Spaced(tolerance, w.uv.pushed)
             && Spaced(tolerance, w'.vis.pushed) && Spaced(tolerance, w'.uv.pushed)
             && w.vis.evicted == w.uv.evicted == w'.vis.evicted == w'.uv.evicted == []
    ensures EmittedPair(Run(tolerance, max, ops), v, u) <==> EmittedPair(Run(tolerance, max, ops'), v, u)
  {
    var w, w' := Run(tolerance, max, ops), Run(tolerance, max, ops');
    ExactlyTheClosePairs(tolerance, max, ops, v, u);
    ExactlyTheClosePairs(tolerance, max, ops', v, u);
    assert v in w.vis.pushed <==> v in multiset(w.vis.pushed);
    assert v in w'.vis.pushed <==> v in multiset(w'.vis.pushed);
    assert u in w.uv.pushed <==> u in multiset(w.uv.pushed);
    assert u in w'.uv.pushed <==> u in multiset(w'.uv.pushed);
  }

  // ---------- Cameras that deliver in time order ----------

  ghost predicate Increasing(q: Frames) {
    forall i, j | 0 <= i < j < |q| :: q[i].ptsNs < q[j].ptsNs
  }

  /** Close pairs of spaced frames keep their order: a later visible frame has a later partner. */
  lemma PartnersInOrder(tolerance: int, v1: TimestampedFrame, u1: TimestampedFrame, v2: TimestampedFrame,
                        u2: TimestampedFrame)
    requires Diff(v1, u1) <= tolerance && Diff(v2, u2) <= tolerance
    requires v1.ptsNs < v2.ptsNs && Diff(v1, v2) > 2 * tolerance
    ensures u1.ptsNs < u2.ptsNs
  {
  }

  /** Emitted pairs are strictly increasing in both timestamps. */
  ghost predicate NeverCrossed(w: World) {
    Increasing(w.vis.matched) && Increasing(w.uv.matched)
  }

  lemma PushedGrows(tolerance: int, max: nat, w: World, op: Op)
    ensures var w' := Step(tolerance, max, w, op);
            && w'.vis.pushed == (if op.PushVisible? then w.vis.pushed + [op.frame] else w.vis.pushed)
            && w'.uv.pushed == (if op.PushUV? then w.uv.pushed + [op.frame] else w.uv.pushed)
  {
  }

  /** The frame just pushed is the latest of its kind, and its partner the latest of the other. */
  lemma NewPairIsLater(tolerance: int, w: World, w': World, op: Op, k: int)
    requires Accounted(w.vis) && Accounted(w.uv) && PairsClose(tolerance, w')
    requires w.vis.matched <= w'.vis.matched && w.uv.matched <= w'.uv.matched
    requires 0 <= k < |w.vis.matched| == |w.uv.matched| < |w'.vis.matched|
    requires if op.PushVisible?
             then w'.vis.pushed == w.vis.pushed + [w'.vis.matched[|w.vis.matched|]]
             else w'.uv.pushed == w.uv.pushed + [w'.uv.matched[|w.uv.matched|]]
    requires Spaced(tolerance, w'.vis.pushed) && Increasing(w'.vis.pushed)
    requires Spaced(tolerance, w'.uv.pushed) && Increasing(w'.uv.pushed)
    ensures var n := |w.vis.matched|;
            && w'.vis.matched[k].ptsNs < w'.vis.matched[n].ptsNs
            && w'.uv.matched[k].ptsNs < w'.uv.matched[n].ptsNs
  {
    var n := |w.vis.matched|;
    var v1, u1, v2, u2 := w'.vis.matched[k], w'.uv.matched[k], w'.vis.matched[n], w'.uv.matched[n];
    if op.PushVisible? {
      LatestOfItsKind(tolerance, w.vis, w'.vis, v2, k);
      PartnersInOrder(tolerance, v1, u1, v2, u2);
    } else {
      LatestOfItsKind(tolerance, w.uv, w'.uv, u2, k);
      PartnersInOrder(tolerance, u1, v1, u2, v2);
    }
  }

  lemma LatestOfItsKind(tolerance: int, s: Side, s': Side, f: TimestampedFrame, k: int)
    requires Accounted(s) && 0 <= k < |s.matched|
    requires s'.pushed == s.pushed + [f] && Spaced(tolerance, s'.pushed) && Increasing(s'.pushed)
    ensures s.matched[k].ptsNs < f.ptsNs && Diff(s.matched[k], f) > 2 * tolerance
  {
    var a := MatchedWasPushed(s, k);
    assert s'.pushed[a] == s.matched[k] && s'.pushed[|s.pushed|] == f;
  }

  /** The pair one push emits comes after every pair emitted before it. */
  lemma StepNeverCrosses(tolerance: int, max: nat, w: World, op: Op)
    requires Good(tolerance, max, w) && NeverCrossed(w)
    requires var w' := Step(tolerance, max, w, op);
             && Spaced(tolerance, w'.vis.pushed) && Increasing(w'.vis.pushed)
             && Spaced(tolerance, w'.uv.pushed) && Increasing(w'.uv.pushed)
    ensures NeverCrossed(Step(tolerance, max, w, op))
  {
    StepKeeps(tolerance, max, w, op);
    EmissionHasThePush(tolerance, max, w, op);
    PushedGrows(tolerance, max, w, op);
    ExtendsInOrder(tolerance, w, Step(tolerance, max, w, op), op);
  }

  lemma ExtendsInOrder(tolerance: int, w: World, w': World, op: Op)
    requires Accounted(w.vis) && Accounted(w.uv) && NeverCrossed(w) && PairsClose(tolerance, w')
    requires w.vis.matched <= w'.vis.matched && w.uv.matched <= w'.uv.matched
    requires |w.vis.matched| == |w.uv.matched| && |w'.vis.matched| <= |w.vis.matched| + 1
    requires |w'.vis.matched| > |w.vis.matched| ==>
               if op.PushVisible?
               then w'.vis.pushed == w.vis.pushed + [w'.vis.matched[|w.vis.matched|]]
               else w'.uv.pushed == w.uv.pushed + [w'.uv.matched[|w.uv.matched|]]
    requires Spaced(tolerance, w'.vis.pushed) && Increasing(w'.vis.pushed)
    requires Spaced(tolerance, w'.uv.pushed) && Increasing(w'.uv.pushed)
    ensures NeverCrossed(w')
  {
    var n := |w.vis.matched|;
    forall i, j | 0 <= i < j < |w'.vis.matched|
      ensures w'.vis.matched[i].ptsNs < w'.vis.matched[j].ptsNs
      ensures w'.uv.matched[i].ptsNs < w'.uv.matched[j].ptsNs
    {
      if j == n {
        NewPairIsLater(tolerance, w, w', op, i);
      } else {
        assert w'.vis.matched[i] == w.vis.matched[i] && w'.vis.matched[j] == w.vis.matched[j];
        assert w'.uv.matched[i] == w.uv.matched[i] && w'.uv.matched[j] == w.uv.matched[j];
      }
    }
  }

  /** A call emits at most one pair, and that pair contains the frame just pushed. */
  lemma EmissionHasThePush(tolerance: int, max: nat, w: World, op: Op)
    requires Good(tolerance, max, w)
    ensures var w' := Step(tolerance, max, w, op);
            var n := |w.vis.matched|;
            && |w'.vis.matched| == |w'.uv.matched| <= n + 1
            && w.vis.matched <= w'.vis.matched && w.uv.matched <= w'.uv.matched
            && (|w'.vis.matched| == n + 1 ==>
              && op != Drain
              && (if op.PushVisible? then w'.vis.matched[n] else w'.uv.matched[n]) == op.frame)
  {
  }

  /** With spaced frames arriving in time order, emitted pairs are strictly increasing in both timestamps. */
  lemma {:induction false} PairsNeverCross(tolerance: int, max: nat, ops: seq<Op>)
    requires var w := Run(tolerance, max, ops);
             && Spaced(tolerance, w.vis.pushed) && Increasing(w.vis.pushed)
             && Spaced(tolerance, w.uv.pushed) && Increasing(w.uv.pushed)
    ensures NeverCrossed(Run(tolerance, max, ops))
  {
    if ops == [] {
    } else {
      var before := ops[..|ops| - 1];
      var w, w' := Run(tolerance, max, before), Run(tolerance, max, ops);
      HistoryGrows(tolerance, max, ops, |ops| - 1);
      SpacedPrefix(tolerance, w.vis.pushed, w'.vis.pushed);
      SpacedPrefix(tolerance, w.uv.pushed, w'.uv.pushed);
      RunGood(tolerance, max, before);
      PairsNeverCross(tolerance, max, before);
      StepNeverCrosses(tolerance, max, w, ops[|ops| - 1]);
    }
  }
}
