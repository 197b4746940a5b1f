/**
 Nothing the tracker is fed gets lost: every detection is answered by exactly one update, every id
 is issued once and lives in exactly one place, and the frame counts add up.
 */
module TrackerConservation {
  import opened Geometry
  import opened TrackerSpec
  import TrackerMatching

  function Ids(tracks: seq<Track>): seq<int> {
    seq(|tracks|, i requires 0 <= i < |tracks| => tracks[i].trackId)
  }

  /** The ids handed out before the counter reached `next`. */
  function Issued(next: int): seq<int>
    requires next >= 1
  {
    seq(next - 1, k => k + 1)
  }

  function Frames(tracks: seq<Track>): int {
    if tracks == [] then 0 else Frames(tracks[..|tracks| - 1]) + tracks[|tracks| - 1].frameCount
  }

  /** How many detections a sequence of calls has been given. */
  function Fed(ops: seq<Op>): int {
    if ops == [] then 0
    else Fed(ops[..|ops| - 1]) + (if ops[|ops| - 1].Update? then |ops[|ops| - 1].dets| else 0)
  }

  ghost predicate IncreasingIds(tracks: seq<Track>, next: int) {
    && (forall i | 0 <= i < |tracks| :: 1 <= tracks[i].trackId < next)
    && (forall i, j | 0 <= i < j < |tracks| :: tracks[i].trackId < tracks[j].trackId)
  }

  /** Every issued id is active, completed or trimmed, and in one place only. */
  ghost predicate IdsAccounted(s: Tracker) {
    s.nextId >= 1
    && multiset(Ids(s.active)) + multiset(Ids(s.completed)) + multiset(Ids(s.trimmed)) == multiset(Issued(s.nextId))
  }

  function AllFrames(s: Tracker): int {
    Frames(s.active) + Frames(s.completed) + Frames(s.trimmed)
  }

  predicate AllActive(tracks: seq<Track>) {
    forall i | 0 <= i < |tracks| :: tracks[i].active
  }

  ghost predicate Conserved(s: Tracker, fed: int) {
    && AllActive(s.active) && IncreasingIds(s.active, s.nextId) && IdsAccounted(s) && AllFrames(s) == fed
  }

  // ---------- Sums over sequences ----------

  lemma {:induction false} FramesOfConcat(a: seq<Track>, b: seq<Track>)
    ensures Frames(a + b) == Frames(a) + Frames(b)
  {
    if b == [] {
      assert a + b == a;
    } else {
      assert (a + b)[..|a + b| - 1] == a + b[..|b| - 1];
      FramesOfConcat(a, b[..|b| - 1]);
    }
  }

  lemma IdsOfConcat(a: seq<Track>, b: seq<Track>)
    ensures Ids(a + b) == Ids(a) + Ids(b)
  {
  }

  // ---------- Counting the matches ----------

  function Count(m: seq<int>): nat {
    if m == [] then 0 else Count(m[..|m| - 1]) + (if m[|m| - 1] >= 0 then 1 else 0)
  }

  predicate Injective(m: seq<int>) {
    forall s, t | 0 <= s < t < |m| :: m[t] >= 0 ==> m[s] != m[t]
  }

  function Below(taken: set<int>, n: nat): set<int> {
    set d | d in taken && 0 <= d < n
  }

  lemma BelowGrows(m: seq<int>, n: nat)
    requires m != []
    ensures var d := m[|m| - 1];
            Below(Taken(m), n) == Below(Taken(m[..|m| - 1]), n) + (if 0 <= d < n then {d} else {})
  {
  }

  lemma {:induction false} CountIsTaken(m: seq<int>, n: nat)
    requires Choices(m, n) && Injective(m)
    ensures Count(m) == |Below(Taken(m), n)|
  {
    if m == [] {
      assert Below(Taken(m), n) == {};
    } else {
      var k := |m| - 1;
      CountIsTaken(m[..k], n);
      BelowGrows(m, n);
      assert m[k] >= 0 ==> m[k] !in Below(Taken(m[..k]), n);
    }
  }

  lemma {:induction false} UnclaimedAreTheRest(taken: set<int>, n: nat)
    ensures |Unclaimed(taken, n)| + |Below(taken, n)| == n
  {
    if n == 0 {
      assert Below(taken, 0) == {};
    } else {
      UnclaimedAreTheRest(taken, n - 1);
      if n - 1 in taken {
        assert Below(taken, n) == Below(taken, n - 1) + {n - 1};
      } else {
        assert Below(taken, n) == Below(taken, n - 1);
      }
    }
  }

  /** Matched and unclaimed detections together are all of them. */
  lemma MatchedPlusNew(boxes: seq<Box>, dets: seq<Box>, threshold: real)
    ensures var m := Greedy(boxes, dets, threshold);
            Choices(m, |dets|) && Count(m) + |Unclaimed(Taken(m), |dets|)| == |dets|
  {
    GreedyInRange(boxes, dets, threshold);
    TrackerMatching.OneToOne(boxes, dets, threshold);
    CountIsTaken(Greedy(boxes, dets, threshold), |dets|);
    UnclaimedAreTheRest(Taken(Greedy(boxes, dets, threshold)), |dets|);
  }

  // ---------- One update ----------

  lemma {:induction false} TouchedFrames(cfg: Config, tracks: seq<Track>, m: seq<int>, pts: int, dets: seq<Box>,
                                         energies: seq<real>)
    requires |m| == |tracks| && Choices(m, |dets|) && |dets| <= |energies| && AllSound(tracks)
    ensures Frames(Touched(cfg, tracks, m, pts, dets, energies)) == Frames(tracks) + Count(m)
  {
    if tracks == [] {
    } else {
      var k := |tracks| - 1;
      TouchedFrames(cfg, tracks[..k], m[..k], pts, dets, energies);
      assert Touched(cfg, tracks, m, pts, dets, energies)[..k]
              == Touched(cfg, tracks[..k], m[..k], pts, dets, energies);
    }
  }

  lemma {:induction false} NewFrames(tracks: seq<Track>)
    requires forall i | 0 <= i < |tracks| :: tracks[i].frameCount == 1
    ensures Frames(tracks) == |tracks|
  {
    if tracks == [] {
    } else {
      NewFrames(tracks[..|tracks| - 1]);
    }
  }

  lemma UpdateKeepsFrames(cfg: Config, s: Tracker, pts: int, dets: seq<Box>, energies: seq<real>)
    requires AllSound(s.active) && |dets| <= |energies|
    ensures AllFrames(AfterUpdate(cfg, s, pts, dets, energies).0) == AllFrames(s) + |dets|
  {
    var m := Greedy(Boxes(s.active), dets, cfg.iouMatch);
    MatchedPlusNew(Boxes(s.active), dets, cfg.iouMatch);
    var matched := Touched(cfg, s.active, m, pts, dets, energies);
    var newcomers := NewTracks(Unclaimed(Taken(m), |dets|), s.nextId, pts, dets, energies);
    TouchedFrames(cfg, s.active, m, pts, dets, energies);
    NewFrames(newcomers);
    FramesOfConcat(matched, newcomers);
  }

  /** Touching tracks leaves their ids and flags as they are. */
  lemma TouchedIds(cfg: Config, tracks: seq<Track>, m: seq<int>, pts: int, dets: seq<Box>, energies: seq<real>)
    requires |m| == |tracks| && Choices(m, |dets|) && |dets| <= |energies| && AllSound(tracks)
    ensures Ids(Touched(cfg, tracks, m, pts, dets, energies)) == Ids(tracks)
    ensures AllActive(tracks) ==> AllActive(Touched(cfg, tracks, m, pts, dets, energies))
  {
  }

  /** New tracks carry the next ids. */
  lemma NewTracksIds(news: seq<int>, nextId: int, pts: int, dets: seq<Box>, energies: seq<real>)
    requires |dets| <= |energies| && forall k | 0 <= k < |news| :: 0 <= news[k] < |dets|
    ensures Ids(NewTracks(news, nextId, pts, dets, energies)) == seq(|news|, k => nextId + k)
    ensures AllActive(NewTracks(news, nextId, pts, dets, energies))
  {
  }

  /** Old tracks followed by tracks with the next ids. */
  lemma NextIdsKeepOrder(olds: seq<Track>, news: seq<Track>, nextId: int)
    requires IncreasingIds(olds, nextId) && nextId >= 1 && Ids(news) == seq(|news|, k => nextId + k)
    ensures IncreasingIds(olds + news, nextId + |news|)
    ensures Ids(olds + news) == Ids(olds) + Ids(news) && Issued(nextId + |news|) == Issued(nextId) + Ids(news)
  {
    assert forall k | 0 <= k < |news| :: Ids(news)[k] == news[k].trackId;
  }

  lemma SameIdsInOrder(a: seq<Track>, b: seq<Track>, nextId: int)
    requires IncreasingIds(a, nextId) && Ids(b) == Ids(a)
    ensures IncreasingIds(b, nextId)
  {
    assert |Ids(b)| == |b| && |Ids(a)| == |a|;
    assert forall i | 0 <= i < |a| :: Ids(b)[i] == b[i].trackId && Ids(a)[i] == a[i].trackId;
  }

  /** The deque replaced by the same tracks touched, and new ones behind them. */
  lemma IdsStayAccounted(s: Tracker, touched: seq<Track>, news: seq<Track>)
    requires IncreasingIds(s.active, s.nextId) && IdsAccounted(s)
    requires AllActive(touched) && AllActive(news)
    requires Ids(touched) == Ids(s.active) && Ids(news) == seq(|news|, k => s.nextId + k)
    ensures var s' := s.(active := touched + news, nextId := s.nextId + |news|);
            IncreasingIds(s'.active, s'.nextId) && IdsAccounted(s') && AllActive(s'.active)
  {
    SameIdsInOrder(s.active, touched, s.nextId);
    NextIdsKeepOrder(touched, news, s.nextId);
  }

  lemma UpdateKeepsIds(cfg: Config, s: Tracker, pts: int, dets: seq<Box>, energies: seq<real>)
    requires AllSound(s.active) && |dets| <= |energies|
    requires IncreasingIds(s.active, s.nextId) && IdsAccounted(s) && AllActive(s.active)
    ensures var s' := AfterUpdate(cfg, s, pts, dets, energies).0;
            IncreasingIds(s'.active, s'.nextId) && IdsAccounted(s') && AllActive(s'.active)
  {
    var m := Greedy(Boxes(s.active), dets, cfg.iouMatch);
    GreedyInRange(Boxes(s.active), dets, cfg.iouMatch);
    var touched := Touched(cfg, s.active, m, pts, dets, energies);
    var news := NewTracks(Unclaimed(Taken(m), |dets|), s.nextId, pts, dets, energies);
    TouchedIds(cfg, s.active, m, pts, dets, energies);
    NewTracksIds(Unclaimed(Taken(m), |dets|), s.nextId, pts, dets, energies);
    IdsStayAccounted(s, touched, news);
    assert AfterUpdate(cfg, s, pts, dets, energies).0 == s.(active := touched + news, nextId := s.nextId + |news|);
  }

  // ---------- One expiry ----------

  /** A sweep gives every active track's id either to the kept or to the retired ones. */
  lemma {:induction false} SweepIds(cfg: Config, tracks: seq<Track>, pts: int)
    requires AllActive(tracks)
    ensures multiset(Ids(Kept(cfg, tracks, pts))) + multiset(Ids(Retired(cfg, tracks, pts))) == multiset(Ids(tracks))
  {
    if tracks == [] {
    } else {
      var n := |tracks| - 1;
      var t := tracks[n];
      SweepIds(cfg, tracks[..n], pts);
      var kept, retired := Kept(cfg, tracks[..n], pts), Retired(cfg, tracks[..n], pts);
      assert Ids(tracks) == Ids(tracks[..n]) + [t.trackId];
      if Expires(cfg, t, pts) {
        assert Kept(cfg, tracks, pts) == kept;
        assert Ids(Retired(cfg, tracks, pts)) == Ids(retired) + [t.trackId];
      } else {
        assert Ids(Kept(cfg, tracks, pts)) == Ids(kept) + [t.trackId];
        assert Retired(cfg, tracks, pts) == retired;
      }
    }
  }

  lemma {:induction false} SweepFrames(cfg: Config, tracks: seq<Track>, pts: int)
    requires AllActive(tracks)
    ensures Frames(Kept(cfg, tracks, pts)) + Frames(Retired(cfg, tracks, pts)) == Frames(tracks)
  {
    if tracks == [] {
    } else {
      var n := |tracks| - 1;
      var t := tracks[n];
      SweepFrames(cfg, tracks[..n], pts);
      var kept, retired := Kept(cfg, tracks[..n], pts), Retired(cfg, tracks[..n], pts);
      if Expires(cfg, t, pts) {
        assert Kept(cfg, tracks, pts) == kept;
        FramesOfConcat(retired, [t.(active := false)]);
        FramesOne(t.(active := false));
      } else {
        assert Retired(cfg, tracks, pts) == retired;
        FramesOfConcat(kept, [t]);
        FramesOne(t);
      }
    }
  }

  lemma FramesOne(t: Track)
    ensures Frames([t]) == t.frameCount
  {
  }

  /** A sweep keeps tracks of the deque in their order. */
  lemma {:induction false} KeptInOrder(cfg: Config, tracks: seq<Track>, pts: int, next: int)
    requires IncreasingIds(tracks, next)
    ensures IncreasingIds(Kept(cfg, tracks, pts), next)
    ensures forall t | t in Kept(cfg, tracks, pts) :: t in tracks
  {
    if tracks == [] {
    } else {
      var n := |tracks| - 1;
      KeptInOrder(cfg, tracks[..n], pts, next);
      var kept := Kept(cfg, tracks[..n], pts);
      forall i | 0 <= i < |kept|
        ensures kept[i].trackId < tracks[n].trackId
      {
        assert kept[i] in tracks[..n];
      }
    }
  }

  lemma IdsSplit(a: seq<Track>, b: seq<Track>)
    ensures multiset(Ids(a + b)) == multiset(Ids(a)) + multiset(Ids(b))
  {
    IdsOfConcat(a, b);
  }

  lemma Regroup(active: multiset<int>, completed: multiset<int>, trimmed: multiset<int>,
                kept: multiset<int>, retired: multiset<int>, front: multiset<int>, back: multiset<int>)
    requires kept + retired == active && completed + retired == front + back
    ensures kept + back + (trimmed + front) == active + completed + trimmed
  {
    calc {
      kept + back + (trimmed + front);
      kept + (front + back) + trimmed;
      kept + (completed + retired) + trimmed;
      (kept + retired) + completed + trimmed;
    }
  }

  lemma ExpireKeepsIds(cfg: Config, s: Tracker, pts: int)
    requires AllActive(s.active) && IdsAccounted(s)
    ensures IdsAccounted(AfterExpire(cfg, s, pts))
  {
    var kept, retired := Kept(cfg, s.active, pts), Retired(cfg, s.active, pts);
    var completed := s.completed + retired;
    var k := Excess(cfg, |completed|);
    var front, back := completed[..k], completed[k..];
    SweepIds(cfg, s.active, pts);
    IdsSplit(s.completed, retired);
    assert front + back == completed;
    IdsSplit(front, back);
    IdsSplit(s.trimmed, front);
    Regroup(multiset(Ids(s.active)), multiset(Ids(s.completed)), multiset(Ids(s.trimmed)),
            multiset(Ids(kept)), multiset(Ids(retired)), multiset(Ids(front)), multiset(Ids(back)));
  }

  lemma ExpireKeepsFrames(cfg: Config, s: Tracker, pts: int)
    requires AllActive(s.active)
    ensures AllFrames(AfterExpire(cfg, s, pts)) == AllFrames(s)
  {
    var retired := Retired(cfg, s.active, pts);
    var completed := s.completed + retired;
    var k := Excess(cfg, |completed|);
    SweepFrames(cfg, s.active, pts);
    FramesOfConcat(s.completed, retired);
    FramesOfConcat(completed[..k], completed[k..]);
    FramesOfConcat(s.trimmed, completed[..k]);
    assert completed[..k] + completed[k..] == completed;
  }

  lemma ExpireConserves(cfg: Config, s: Tracker, pts: int, fed: int)
    requires Conserved(s, fed)
    ensures Conserved(AfterExpire(cfg, s, pts), fed)
  {
    ExpireKeepsIds(cfg, s, pts);
    ExpireKeepsFrames(cfg, s, pts);
    KeptInOrder(cfg, s.active, pts, s.nextId);
    var kept := Kept(cfg, s.active, pts);
    forall i | 0 <= i < |kept|
      ensures kept[i].active
    {
      assert kept[i] in s.active;
    }
  }

  /** Whatever is called in whatever order: ids and frames are all accounted for. */
  lemma {:induction false} RunConserves(cfg: Config, ops: seq<Op>)
    requires ValidOps(ops)
    ensures Conserved(Run(cfg, ops), Fed(ops))
  {
    if ops == [] {
    } else {
      var n := |ops| - 1;
      RunConserves(cfg, ops[..n]);
      var s := Run(cfg, ops[..n]);
      match ops[n]
      case Update(pts, dets, energies) =>
        UpdateKeepsFrames(cfg, s, pts, dets, energies);
        UpdateKeepsIds(cfg, s, pts, dets, energies);
      case Expire(pts) =>
        ExpireConserves(cfg, s, pts, Fed(ops[..n]));
    }
  }

  // ---------- get_track is unambiguous ----------

  lemma TwoPlaces(q: seq<int>, i: int, j: int)
    requires 0 <= i < j < |q| && q[i] == q[j]
    ensures multiset(q)[q[i]] >= 2
  {
    assert q == q[..j] + q[j..];
    assert q[..j][i] == q[i] && q[j..][0] == q[i];
    assert q[i] in multiset(q[..j]) && q[i] in multiset(q[j..]);
  }

  lemma {:induction false} IssuedOnce(next: int, id: int)
    requires next >= 1
    ensures multiset(Issued(next))[id] <= 1
    ensures id >= next ==> id !in multiset(Issued(next))
  {
    if next == 1 {
    } else {
      IssuedOnce(next - 1, id);
      assert Issued(next) == Issued(next - 1) + [next - 1];
    }
  }

  /** At most one track of the two searched containers carries a given id. */
  lemma OneTrackPerId(cfg: Config, ops: seq<Op>, i: int, j: int)
    requires ValidOps(ops)
    requires var s := Run(cfg, ops); var all := s.active + s.completed;
             0 <= i < |all| && 0 <= j < |all| && all[i].trackId == all[j].trackId
    ensures i == j
  {
    var s := Run(cfg, ops);
    var all := s.active + s.completed;
    RunConserves(cfg, ops);
    IdsOfConcat(s.active, s.completed);
    var q, id := Ids(all), all[i].trackId;
    assert multiset(q) == multiset(Ids(s.active)) + multiset(Ids(s.completed));
    IssuedOnce(s.nextId, id);
    assert multiset(q)[id] <= multiset(Issued(s.nextId))[id];
    if i < j {
      TwoPlaces(q, i, j);
    } else if j < i {
      TwoPlaces(q, j, i);
    }
  }

  // ---------- One update per detection ----------

  lemma {:induction false} MatchedTracksComplete(m: seq<int>, n: nat)
    requires n <= |m|
    ensures |MatchedTracks(m, n)| == Count(m[..n])
    ensures forall t | 0 <= t < n && m[t] >= 0 :: t in MatchedTracks(m, n)
  {
    if n == 0 {
    } else {
      MatchedTracksComplete(m, n - 1);
      assert m[..n][..n - 1] == m[..n - 1];
    }
  }

  lemma {:induction false} UnclaimedComplete(taken: set<int>, n: nat)
    ensures forall d | 0 <= d < n && d !in taken :: d in Unclaimed(taken, n)
  {
    if n == 0 {
    } else {
      UnclaimedComplete(taken, n - 1);
    }
  }

  /** Which detection each returned update answers: the claims in track order, then the rest. */
  function OriginsOf(m: seq<int>, n: nat): (os: seq<int>) {
    var ts := MatchedTracks(m, |m|);
    seq(|ts|, k requires 0 <= k < |ts| => m[ts[k]]) + Unclaimed(Taken(m), n)
  }

  ghost function Origins(cfg: Config, s: Tracker, dets: seq<Box>): seq<int> {
    OriginsOf(Greedy(Boxes(s.active), dets, cfg.iouMatch), |dets|)
  }

  /** The update carries the box and the energy of that detection, unchanged. */
  predicate Answers(u: TrackUpdate, box: Box, energy: real) {
    u.box == box && u.instant == energy
  }

  lemma OriginsDistinct(m: seq<int>, n: nat, u: int, v: int)
    requires Injective(m) && 0 <= u < v < |OriginsOf(m, n)|
    ensures OriginsOf(m, n)[u] != OriginsOf(m, n)[v]
  {
  }

  lemma OriginsComplete(m: seq<int>, n: nat, d: int)
    requires 0 <= d < n
    ensures d in OriginsOf(m, n)
  {
    if t :| 0 <= t < |m| && m[t] == d {
      ClaimListed(m, n, t);
    } else {
      assert d !in Taken(m);
      UnclaimedComplete(Taken(m), n);
    }
  }

  lemma ClaimListed(m: seq<int>, n: nat, t: int)
    requires 0 <= t < |m| && m[t] >= 0
    ensures m[t] in OriginsOf(m, n)
  {
    var ts := MatchedTracks(m, |m|);
    MatchedTracksComplete(m, |m|);
    var k :| 0 <= k < |ts| && ts[k] == t;
    assert OriginsOf(m, n)[k] == m[t];
  }

  lemma OriginsCount(boxes: seq<Box>, dets: seq<Box>, threshold: real)
    ensures var m := Greedy(boxes, dets, threshold); Injective(m) && |OriginsOf(m, |dets|)| == |dets|
  {
    var m := Greedy(boxes, dets, threshold);
    MatchedPlusNew(boxes, dets, threshold);
    MatchedTracksComplete(m, |m|);
    assert m[..|m|] == m;
    TrackerMatching.OneToOne(boxes, dets, threshold);
  }

  /** No detection is answered twice and none is left out. */
  lemma OriginsAreAPermutation(cfg: Config, s: Tracker, dets: seq<Box>)
    ensures var os := Origins(cfg, s, dets);
            && |os| == |dets|
            && (forall u, v | 0 <= u < v < |os| :: os[u] != os[v])
            && (forall d | 0 <= d < |dets| :: d in os)
  {
    var m := Greedy(Boxes(s.active), dets, cfg.iouMatch);
    OriginsCount(Boxes(s.active), dets, cfg.iouMatch);
    forall u, v | 0 <= u < v < |OriginsOf(m, |dets|)|
      ensures OriginsOf(m, |dets|)[u] != OriginsOf(m, |dets|)[v]
    {
      OriginsDistinct(m, |dets|, u, v);
    }
    forall d | 0 <= d < |dets|
      ensures d in OriginsOf(m, |dets|)
    {
      OriginsComplete(m, |dets|, d);
    }
  }

  /** The u-th update answers the detection it comes from. */
  lemma UpdateAnswers(cfg: Config, s: Tracker, pts: int, dets: seq<Box>, energies: seq<real>, u: int)
    requires AllSound(s.active) && |dets| <= |energies| && 0 <= u < |Origins(cfg, s, dets)|
    ensures var us, os := AfterUpdate(cfg, s, pts, dets, energies).1, Origins(cfg, s, dets);
            |us| == |os| && 0 <= os[u] < |dets| && Answers(us[u], dets[os[u]], energies[os[u]])
  {
    GreedyInRange(Boxes(s.active), dets, cfg.iouMatch);
  }

  lemma AsManyUpdates(cfg: Config, s: Tracker, pts: int, dets: seq<Box>, energies: seq<real>)
    requires AllSound(s.active) && |dets| <= |energies|
    ensures |AfterUpdate(cfg, s, pts, dets, energies).1| == |Origins(cfg, s, dets)|
  {
    GreedyInRange(Boxes(s.active), dets, cfg.iouMatch);
  }

  /** Each detection is answered by exactly one update, which carries its box and its energy. */
  lemma OneUpdatePerDetection(cfg: Config, s: Tracker, pts: int, dets: seq<Box>, energies: seq<real>)
    requires AllSound(s.active) && |dets| <= |energies|
    ensures var us, os := AfterUpdate(cfg, s, pts, dets, energies).1, Origins(cfg, s, dets);
            && |us| == |os| == |dets|
            && (forall u | 0 <= u < |us| :: 0 <= os[u] < |dets| && Answers(us[u], dets[os[u]], energies[os[u]]))
            && (forall u, v | 0 <= u < v < |os| :: os[u] != os[v])
            && (forall d | 0 <= d < |dets| :: d in os)
  {
    AsManyUpdates(cfg, s, pts, dets, energies);
    OriginsAreAPermutation(cfg, s, dets);
    forall u | 0 <= u < |Origins(cfg, s, dets)| {
      UpdateAnswers(cfg, s, pts, dets, energies, u);
    }
  }

  /** The id of the u-th update: that of a matched track, or the next free one. */
  lemma UpdateIdAt(cfg: Config, s: Tracker, pts: int, dets: seq<Box>, energies: seq<real>, u: int)
    requires AllSound(s.active) && |dets| <= |energies|
    requires 0 <= u < |AfterUpdate(cfg, s, pts, dets, energies).1|
    ensures var us := AfterUpdate(cfg, s, pts, dets, energies).1;
            var m := Greedy(Boxes(s.active), dets, cfg.iouMatch);
            var ts := MatchedTracks(m, |m|);
            us[u].trackId == if u < |ts| then s.active[ts[u]].trackId else s.nextId + (u - |ts|)
  {
    GreedyInRange(Boxes(s.active), dets, cfg.iouMatch);
  }

  /** The updates of one call carry distinct positive ids: strictly increasing ones. */
  lemma UpdateIdsAscend(cfg: Config, s: Tracker, pts: int, dets: seq<Box>, energies: seq<real>)
    requires AllSound(s.active) && |dets| <= |energies| && IncreasingIds(s.active, s.nextId) && s.nextId >= 1
    ensures var us := AfterUpdate(cfg, s, pts, dets, energies).1;
            && (forall u | 0 <= u < |us| :: us[u].trackId >= 1)
            && (forall u, v | 0 <= u < v < |us| :: us[u].trackId < us[v].trackId)
  {
    var us := AfterUpdate(cfg, s, pts, dets, energies).1;
    forall u | 0 <= u < |us|
      ensures us[u].trackId >= 1
    {
      UpdateIdAt(cfg, s, pts, dets, energies, u);
    }
    forall u, v | 0 <= u < v < |us|
      ensures us[u].trackId < us[v].trackId
    {
      UpdateIdAt(cfg, s, pts, dets, energies, u);
      UpdateIdAt(cfg, s, pts, dets, energies, v);
    }
  }
}
