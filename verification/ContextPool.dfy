/**
 The pool of execution contexts between load and unload, under any interleaving of any number of
 infer calls. The mutex makes each acquire and each release one step; a caller that finds the pool
 empty waits, and either wakes to a free context or times out.
 */
module ContextPool {

  datatype Phase = Waiting | Holding(ctx: nat)

  /** `free` is the deque; `calls` the infer calls now running, and where each of them stands. */
  datatype Pool = Pool(size: nat, free: seq<nat>, calls: map<int, Phase>)

  datatype Action = Enter(caller: int) | Acquire(caller: int) | TimeOut(caller: int) | Leave(caller: int)

  /** create_context_pool; a size of zero or less becomes one. */
  function Created(poolSize: int): Pool {
    var n := if poolSize <= 0 then 1 else poolSize;
    Pool(n, seq(n, i requires 0 <= i < n => i), map[])
  }

  predicate Enabled(p: Pool, a: Action) {
    match a
    case Enter(c) => c !in p.calls
    case Acquire(c) => c in p.calls && p.calls[c] == Waiting && p.free != []
    case TimeOut(c) => c in p.calls && p.calls[c] == Waiting && p.free == []
    case Leave(c) => c in p.calls && p.calls[c].Holding?
  }

  function Step(p: Pool, a: Action): Pool
    requires Enabled(p, a)
  {
    match a
    case Enter(c) => p.(calls := p.calls[c := Waiting])
    case Acquire(c) => p.(free := p.free[1..], calls := p.calls[c := Holding(p.free[0])])
    case TimeOut(c) => p.(calls := p.calls - {c})
    case Leave(c) => p.(free := p.free + [p.calls[c].ctx], calls := p.calls - {c})
  }

  /** Every context of the pool is free once or held by one caller, and nothing else is anywhere. */
  ghost predicate Partitioned(p: Pool) {
    && (forall i, j | 0 <= i < j < |p.free| :: p.free[i] != p.free[j])
    && (forall c | c in p.calls && p.calls[c].Holding? :: p.calls[c].ctx !in p.free)
    && (forall c, d | c in p.calls && d in p.calls && p.calls[c].Holding? && p.calls[d].Holding? && c != d ::
          p.calls[c].ctx != p.calls[d].ctx)
    && (forall x: nat :: x < p.size <==> x in p.free || HeldBySomeone(p, x))
  }

  ghost predicate HeldBySomeone(p: Pool, x: nat) {
    exists c | c in p.calls :: p.calls[c] == Holding(x)
  }

  lemma CreatedPartitioned(poolSize: int)
    ensures Partitioned(Created(poolSize))
    ensures Created(poolSize).size == |Created(poolSize).free| && Created(poolSize).calls == map[]
    ensures |Created(poolSize).free| == if poolSize >= 1 then poolSize else 1
  {
    var p := Created(poolSize);
    forall x: nat
      ensures x < p.size <==> x in p.free || HeldBySomeone(p, x)
    {
      if x < p.size {
        assert p.free[x] == x;
      }
    }
  }

  lemma StepPartitioned(p: Pool, a: Action)
    requires Partitioned(p) && Enabled(p, a)
    ensures Partitioned(Step(p, a)) && Step(p, a).size == p.size
  {
    var p' := Step(p, a);
    forall x: nat
      ensures x < p'.size <==> x in p'.free || HeldBySomeone(p', x)
    {
      match a
      case Enter(c) =>
        SameHolders(p, p', c, x);
      case TimeOut(c) =>
        SameHolders(p, p', c, x);
      case Acquire(c) =>
        assert p.free == [p.free[0]] + p'.free;
        assert p'.calls[c] == Holding(p.free[0]);
        if HeldBySomeone(p, x) {
          var d :| d in p.calls && p.calls[d] == Holding(x);
          assert p'.calls[d] == Holding(x);
        }
      case Leave(c) =>
        if HeldBySomeone(p, x) {
          var d :| d in p.calls && p.calls[d] == Holding(x);
          assert d != c ==> d in p'.calls && p'.calls[d] == Holding(x);
          assert d == c ==> p'.free[|p.free|] == x;
        }
        assert x in p'.free ==> x in p.free || x == p.calls[c].ctx;
        assert HeldBySomeone(p', x) ==> HeldBySomeone(p, x);
        assert p.calls[c] == Holding(p.calls[c].ctx);
    }
  }

  /** Entering and timing out change no holder. */
  lemma SameHolders(p: Pool, p': Pool, c: int, x: nat)
    requires forall d | d != c :: (d in p.calls <==> d in p'.calls) && (d in p.calls ==> p.calls[d] == p'.calls[d])
    requires c in p.calls ==> !p.calls[c].Holding?
    requires c in p'.calls ==> !p'.calls[c].Holding?
    ensures HeldBySomeone(p, x) <==> HeldBySomeone(p', x)
  {
  }

  ghost predicate Reachable(poolSize: int, actions: seq<Action>, ps: seq<Pool>) {
    && |ps| == |actions| + 1 && ps[0] == Created(poolSize)
    && forall i | 0 <= i < |actions| :: Follows(ps[i], actions[i], ps[i + 1])
  }

  ghost predicate Follows(p: Pool, a: Action, p': Pool) {
    Enabled(p, a) && p' == Step(p, a)
  }

  /** At every moment of every execution no context is lost, duplicated, or held by two callers. */
  lemma {:induction false} AlwaysPartitioned(poolSize: int, actions: seq<Action>, ps: seq<Pool>, i: nat)
    requires Reachable(poolSize, actions, ps) && i < |ps|
    ensures Partitioned(ps[i]) && ps[i].size == Created(poolSize).size
  {
    if i == 0 {
      CreatedPartitioned(poolSize);
    } else {
      AlwaysPartitioned(poolSize, actions, ps, i - 1);
      assert Follows(ps[i - 1], actions[i - 1], ps[i]);
      StepPartitioned(ps[i - 1], actions[i - 1]);
    }
  }

  /** When no call is running the pool is full again: its deque holds every context exactly once. */
  lemma FullWhenIdle(poolSize: int, actions: seq<Action>, ps: seq<Pool>, i: nat)
    requires Reachable(poolSize, actions, ps) && i < |ps| && ps[i].calls == map[]
    ensures var p := ps[i];
            && (forall x: nat :: x < p.size <==> x in p.free)
            && (forall k, l | 0 <= k < l < |p.free| :: p.free[k] != p.free[l])
  {
    AlwaysPartitioned(poolSize, actions, ps, i);
    forall x: nat
      ensures ps[i].size > x <==> x in ps[i].free
    {
      assert !HeldBySomeone(ps[i], x);
    }
  }

  // ---------- The order of the deque ----------

  /** The contexts handed out by the first n actions, in order. */
  function Acquired(actions: seq<Action>, ps: seq<Pool>, n: nat): seq<nat>
    requires n <= |actions| < |ps|
  {
    if n == 0 then []
    else
      var c := if actions[n - 1].Acquire? then ContextOf(ps[n], actions[n - 1].caller) else [];
      Acquired(actions, ps, n - 1) + c
  }

  /** The contexts given back by them. */
  function Released(actions: seq<Action>, ps: seq<Pool>, n: nat): seq<nat>
    requires n <= |actions| < |ps|
  {
    if n == 0 then []
    else
      var c := if actions[n - 1].Leave? then ContextOf(ps[n - 1], actions[n - 1].caller) else [];
      Released(actions, ps, n - 1) + c
  }

  /** The context a caller holds, if it holds one. */
  function ContextOf(p: Pool, caller: int): seq<nat> {
    if caller in p.calls && p.calls[caller].Holding? then [p.calls[caller].ctx] else []
  }

  lemma StepMovesOne(p: Pool, a: Action)
    requires Enabled(p, a)
    ensures var p' := Step(p, a);
            p.free + (if a.Leave? then ContextOf(p, a.caller) else [])
            == (if a.Acquire? then ContextOf(p', a.caller) else []) + p'.free
  {
  }

  lemma Reassociate(start: seq<nat>, back: seq<nat>, out: seq<nat>, free: seq<nat>, b: seq<nat>, o: seq<nat>,
                    free': seq<nat>)
    requires start + back == out + free && free + b == o + free'
    ensures start + (back + b) == out + o + free'
  {
    calc {
      start + (back + b);
      (start + back) + b;
      out + (free + b);
      out + (o + free');
    }
  }

  /** First in, first out: what was there or given back is, in that order, what was handed out and what is there. */
  lemma {:induction false} FirstInFirstOut(poolSize: int, actions: seq<Action>, ps: seq<Pool>, n: nat)
    requires Reachable(poolSize, actions, ps) && n <= |actions|
    ensures ps[0].free + Released(actions, ps, n) == Acquired(actions, ps, n) + ps[n].free
  {
    if n == 0 {
    } else {
      FirstInFirstOut(poolSize, actions, ps, n - 1);
      assert Follows(ps[n - 1], actions[n - 1], ps[n]);
      StepMovesOne(ps[n - 1], actions[n - 1]);
      Reassociate(ps[0].free, Released(actions, ps, n - 1), Acquired(actions, ps, n - 1), ps[n - 1].free,
                  if actions[n - 1].Leave? then ContextOf(ps[n - 1], actions[n - 1].caller) else [],
                  if actions[n - 1].Acquire? then ContextOf(ps[n], actions[n - 1].caller) else [], ps[n].free);
    }
  }
}
