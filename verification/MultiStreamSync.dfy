/**
 One synchroniser object per stream index, created on demand: calls on one index never touch
 the state of another.
 */
module MultiStreamSync {
  import opened FrameSyncSpec
  import FrameSync

  /** A call on one stream, or on all of them. */
  datatype Call = VisibleTo(i: int, frame: TimestampedFrame) | UVTo(i: int, frame: TimestampedFrame) | DrainAll

  /** What one call is for stream i: one operation or none. */
  function Seen(call: Call, i: int): seq<Op> {
    match call
    case VisibleTo(k, f) => if k == i then [PushVisible(f)] else []
    case UVTo(k, f) => if k == i then [PushUV(f)] else []
    case DrainAll => [Drain]
  }

  /** The operations stream i sees of a sequence of calls. */
  function CallsOf(calls: seq<Call>, i: int): seq<Op> {
    if calls == [] then [] else CallsOf(calls[..|calls| - 1], i) + Seen(calls[|calls| - 1], i)
  }

  /** The world of a stream after one more call on the object. */
  ghost function Next(tolerance: int, max: nat, w: World, call: Call, i: int): World {
    if Seen(call, i) == [] then w else Step(tolerance, max, w, Seen(call, i)[0])
  }

  lemma OneMoreCall(tolerance: int, max: nat, calls: seq<Call>, call: Call, i: int)
    ensures Run(tolerance, max, CallsOf(calls + [call], i))
            == Next(tolerance, max, Run(tolerance, max, CallsOf(calls, i)), call, i)
  {
    assert (calls + [call])[..|calls|] == calls;
    if Seen(call, i) == [] {
      assert CallsOf(calls + [call], i) == CallsOf(calls, i);
    } else {
      assert Seen(call, i) == [Seen(call, i)[0]];
      RunOneMore(tolerance, max, CallsOf(calls, i), Seen(call, i)[0]);
    }
  }

  /** Draining a stream that has never been pushed to changes nothing. */
  lemma DrainAtStart(tolerance: int, max: nat)
    ensures Step(tolerance, max, START, Drain) == START
  {
  }

  class MultiStreamSync {
    var streams: map<int, FrameSync.FrameSync>
    const tolerance: int
    const maxBuffer: int
    /** The calls so far, on whatever streams. */
    ghost var calls: seq<Call>

    ghost function Limit(): nat {
      if maxBuffer < 0 then 0 else maxBuffer
    }

    /** Every object is sound, set up alike, and no other index's object. */
    ghost predicate Separate()
      reads this, streams.Values
    {
      && (forall i | i in streams ::
            streams[i].Valid() && streams[i].toleranceNs == tolerance && streams[i].maxBufferSize == maxBuffer)
      && (forall i, j | i in streams && j in streams && i != j :: streams[i] != streams[j])
    }

    /** And every stream is where its own calls alone would have taken it. */
    ghost predicate Valid()
      reads this, streams.Values
    {
      Separate() && forall i :: WorldOf(i) == Run(tolerance, Limit(), CallsOf(calls, i))
    }

    /** The history of one stream; an index never used has the empty one. */
    ghost function WorldOf(i: int): World
      reads this, streams.Values
    {
      if i in streams then streams[i].world else START
    }

    constructor (tolerance: int, maxBuffer: int)
      ensures Valid() && streams == map[] && calls == []
      ensures this.tolerance == tolerance && this.maxBuffer == maxBuffer
    {
      streams, calls := map[], [];
      this.tolerance, this.maxBuffer := tolerance, maxBuffer;
    }

    method GetOrCreateSync(streamIdx: int) returns (fs: FrameSync.FrameSync)
      requires Separate()
      modifies this`streams
      ensures Separate() && streamIdx in streams && streams[streamIdx] == fs
      ensures forall i :: WorldOf(i) == old(WorldOf(i))
      ensures streams.Keys == old(streams.Keys) + {streamIdx}
      ensures streamIdx in old(streams) ==> streams == old(streams)
      ensures streamIdx !in old(streams) ==>
                fresh(fs) && fs.world == START && streams == old(streams)[streamIdx := fs]
    {
      if streamIdx in streams {
        return streams[streamIdx];
      }
      fs := new FrameSync.FrameSync(tolerance, maxBuffer);
      streams := streams[streamIdx := fs];
    }

    /** The calls recorded, if they have taken every stream one step on. */
    lemma AllSeen(before: seq<Call>, call: Call)
      requires Separate() && calls == before + [call]
      requires forall i :: WorldOf(i) == Next(tolerance, Limit(), Run(tolerance, Limit(), CallsOf(before, i)), call, i)
      ensures Valid()
    {
      forall i
        ensures WorldOf(i) == Run(tolerance, Limit(), CallsOf(calls, i))
      {
        OneMoreCall(tolerance, Limit(), before, call, i);
      }
    }

    method PushVisible(streamIdx: int, frame: TimestampedFrame)
      requires Valid() && maxBuffer >= 0
      modifies this, streams.Values
      ensures Valid() && streams.Keys == old(streams.Keys) + {streamIdx}
      ensures calls == old(calls) + [VisibleTo(streamIdx, frame)]
      ensures WorldOf(streamIdx) == Step(tolerance, maxBuffer, old(WorldOf(streamIdx)), Op.PushVisible(frame))
      ensures forall i | i != streamIdx :: WorldOf(i) == old(WorldOf(i))
    {
      OnVisible(streamIdx, frame);
      calls := calls + [VisibleTo(streamIdx, frame)];
      AllSeen(old(calls), VisibleTo(streamIdx, frame));
    }

    method OnVisible(streamIdx: int, frame: TimestampedFrame)
      requires Separate() && maxBuffer >= 0
      modifies this`streams, streams.Values
      ensures Separate() && streams.Keys == old(streams.Keys) + {streamIdx}
      ensures WorldOf(streamIdx) == Step(tolerance, maxBuffer, old(WorldOf(streamIdx)), Op.PushVisible(frame))
      ensures forall i | i != streamIdx :: WorldOf(i) == old(WorldOf(i))
    {
      var fs := GetOrCreateSync(streamIdx);
      VisitVisible(streamIdx, frame);
    }

    method VisitVisible(streamIdx: int, frame: TimestampedFrame)
      requires Separate() && maxBuffer >= 0 && streamIdx in streams
      modifies streams[streamIdx]
      ensures Separate()
      ensures WorldOf(streamIdx) == Step(tolerance, maxBuffer, old(WorldOf(streamIdx)), Op.PushVisible(frame))
      ensures forall i | i != streamIdx :: WorldOf(i) == old(WorldOf(i))
    {
      streams[streamIdx].PushVisible(frame);
    }

    method PushUV(streamIdx: int, frame: TimestampedFrame)
      requires Valid() && maxBuffer >= 0
      modifies this, streams.Values
      ensures Valid() && streams.Keys == old(streams.Keys) + {streamIdx}
      ensures calls == old(calls) + [UVTo(streamIdx, frame)]
      ensures WorldOf(streamIdx) == Step(tolerance, maxBuffer, old(WorldOf(streamIdx)), Op.PushUV(frame))
      ensures forall i | i != streamIdx :: WorldOf(i) == old(WorldOf(i))
    {
      OnUV(streamIdx, frame);
      calls := calls + [UVTo(streamIdx, frame)];
      AllSeen(old(calls), UVTo(streamIdx, frame));
    }

    method OnUV(streamIdx: int, frame: TimestampedFrame)
      requires Separate() && maxBuffer >= 0
      modifies this`streams, streams.Values
      ensures Separate() && streams.Keys == old(streams.Keys) + {streamIdx}
      ensures WorldOf(streamIdx) == Step(tolerance, maxBuffer, old(WorldOf(streamIdx)), Op.PushUV(frame))
      ensures forall i | i != streamIdx :: WorldOf(i) == old(WorldOf(i))
    {
      var fs := GetOrCreateSync(streamIdx);
      VisitUV(streamIdx, frame);
    }

    method VisitUV(streamIdx: int, frame: TimestampedFrame)
      requires Separate() && maxBuffer >= 0 && streamIdx in streams
      modifies streams[streamIdx]
      ensures Separate()
      ensures WorldOf(streamIdx) == Step(tolerance, maxBuffer, old(WorldOf(streamIdx)), Op.PushUV(frame))
      ensures forall i | i != streamIdx :: WorldOf(i) == old(WorldOf(i))
    {
      streams[streamIdx].PushUV(frame);
    }

    method Drain()
      requires Valid()
      modifies this`calls, streams.Values
      ensures Valid() && streams == old(streams) && calls == old(calls) + [DrainAll]
      ensures forall i :: WorldOf(i) == Step(tolerance, Limit(), old(WorldOf(i)), Op.Drain)
    {
      DrainEach();
      DrainAtStart(tolerance, Limit());
      calls := calls + [DrainAll];
      AllSeen(old(calls), DrainAll);
    }

    /** The loop over the map. */
    method DrainEach()
      requires Separate()
      modifies streams.Values
      ensures Separate()
      ensures forall i | i in streams ::
                streams[i].world == Step(tolerance, Limit(), old(streams[i].world), Op.Drain)
    {
      var todo: set<int> := streams.Keys;
      while todo != {}
        invariant todo <= streams.Keys && Separate()
        invariant forall i | i in streams ::
                    streams[i].world == if i in todo then old(streams[i].world)
                                        else Step(tolerance, Limit(), old(streams[i].world), Op.Drain)
        decreases todo
      {
        var i := Pick(todo);
        streams[i].Drain();
        todo := todo - {i};
      }
    }
  }

  /** Go ranges over a map in an order of its own choosing. */
  method Pick<T(==)>(s: set<T>) returns (x: T)
    requires s != {}
    ensures x in s
  {
    x :| x in s;
  }
}
