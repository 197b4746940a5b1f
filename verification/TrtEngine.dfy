/**
 The inference engine: its own copy of suppression behind a score filter, and the pool of
 execution contexts shared by any number of concurrent infer calls.
 */
module TrtEngine {
  import opened Common
  import opened Geometry
  import Nms

  // ---------- postprocess ----------

  /** One output row of the network: a box, an objectness and a class score. */
  datatype Row = Row(box: Box, objectness: real, score: real)

  datatype Detection = Detection(box: Box, confidence: real, classId: int)

  function Decode(row: Row): Detection {
    Detection(row.box, row.objectness * row.score, Truncate(row.score))
  }

  /** The detections confident enough to be considered, in row order. */
  function Confident(rows: seq<Row>, scoreThreshold: real): (ds: seq<Detection>)
    ensures forall i | 0 <= i < |ds| :: ds[i].confidence >= scoreThreshold
  {
    if rows == [] then []
    else
      var d := Decode(rows[|rows| - 1]);
      Confident(rows[..|rows| - 1], scoreThreshold) + (if d.confidence < scoreThreshold then [] else [d])
  }

  lemma ConfidentGrows(rows: seq<Row>, scoreThreshold: real, i: nat)
    requires i < |rows|
    ensures var d := Decode(rows[i]);
            Confident(rows[..i + 1], scoreThreshold)
            == Confident(rows[..i], scoreThreshold) + (if d.confidence < scoreThreshold then [] else [d])
  {
    assert rows[..i + 1][..i] == rows[..i];
  }

  /** d is what the row says: its box, the product of its two scores, and its last number without the fraction. */
  predicate Reads(d: Detection, row: Row) {
    && d.box == row.box && d.confidence == row.objectness * row.score
    && (row.score >= 0.0 ==> d.classId as real <= row.score < (d.classId + 1) as real)
    && (row.score < 0.0 ==> (d.classId - 1) as real < row.score <= d.classId as real)
  }

  /** Detection k reads row at[k]. */
  predicate ReadsAt(ds: seq<Detection>, rows: seq<Row>, at: seq<int>) {
    |at| == |ds| && forall k | 0 <= k < |at| :: 0 <= at[k] < |rows| && Reads(ds[k], rows[at[k]])
  }

  predicate Ascending(at: seq<int>) {
    forall k, l | 0 <= k < l < |at| :: at[k] < at[l]
  }

  predicate ReachesAt(row: Row, threshold: real) {
    row.objectness * row.score >= threshold
  }

  predicate AllReaching(rows: seq<Row>, threshold: real, at: seq<int>) {
    forall i | 0 <= i < |rows| :: ReachesAt(rows[i], threshold) <==> i in at
  }

  /** The detections read the rows at these increasing positions, and no other row reaches the threshold. */
  ghost predicate ReadsExactly(ds: seq<Detection>, rows: seq<Row>, threshold: real, at: seq<int>) {
    ReadsAt(ds, rows, at) && Ascending(at) && AllReaching(rows, threshold, at)
  }

  lemma ReadAtLast(ds: seq<Detection>, rows: seq<Row>, at: seq<int>, d: Detection)
    requires rows != [] && ReadsAt(ds, rows[..|rows| - 1], at) && Reads(d, rows[|rows| - 1]) && Ascending(at)
    ensures ReadsAt(ds + [d], rows, at + [|rows| - 1]) && Ascending(at + [|rows| - 1])
  {
  }

  lemma LastReaching(rows: seq<Row>, threshold: real, at: seq<int>)
    requires rows != [] && AllReaching(rows[..|rows| - 1], threshold, at)
    requires forall k | 0 <= k < |at| :: at[k] < |rows| - 1
    ensures var n := |rows| - 1;
            AllReaching(rows, threshold, if ReachesAt(rows[n], threshold) then at + [n] else at)
  {
  }

  lemma NotReadLast(ds: seq<Detection>, rows: seq<Row>, at: seq<int>)
    requires rows != [] && ReadsAt(ds, rows[..|rows| - 1], at)
    ensures ReadsAt(ds, rows, at)
  {
  }

  lemma DecodeReads(row: Row)
    ensures Reads(Decode(row), row)
  {
  }

  /** Exactly the rows whose product of scores reaches the threshold are read, in row order. */
  lemma {:induction false} ConfidentReads(rows: seq<Row>, scoreThreshold: real) returns (at: seq<int>)
    ensures ReadsExactly(Confident(rows, scoreThreshold), rows, scoreThreshold, at)
  {
    if rows == [] {
      at := [];
    } else {
      var n := |rows| - 1;
      at := ConfidentReads(rows[..n], scoreThreshold);
      LastReaching(rows, scoreThreshold, at);
      DecodeReads(rows[n]);
      if ReachesAt(rows[n], scoreThreshold) {
        ReadAtLast(Confident(rows[..n], scoreThreshold), rows, at, Decode(rows[n]));
        at := at + [n];
      } else {
        NotReadLast(Confident(rows[..n], scoreThreshold), rows, at);
      }
    }
  }

  const BOX: Detection -> Box := (d: Detection) => d.box

  const CONFIDENCE: Detection -> real := (d: Detection) => d.confidence

  /** The loop over the output rows. */
  method FilterByScore(rows: seq<Row>, scoreThreshold: real) returns (detections: seq<Detection>)
    ensures detections == Confident(rows, scoreThreshold)
    ensures exists at :: ReadsExactly(detections, rows, scoreThreshold, at)
  {
    ghost var at := ConfidentReads(rows, scoreThreshold);
    detections := [];
    for i := 0 to |rows|
      invariant detections == Confident(rows[..i], scoreThreshold)
    {
      ConfidentGrows(rows, scoreThreshold, i);
      var conf := rows[i].objectness * rows[i].score;
      if conf < scoreThreshold {
        continue;
      }
      detections := detections + [Detection(rows[i].box, conf, Truncate(rows[i].score))];
    }
    assert rows[..|rows|] == rows;
  }

  /** Survivors of the confident rows: sorted, separated, and complete. */
  method Postprocess(rows: seq<Row>, scoreThreshold: real, nmsThreshold: real)
    returns (filtered: seq<Detection>)
    ensures Nms.SuppressionOf(Confident(rows, scoreThreshold), filtered, BOX, CONFIDENCE, nmsThreshold)
    ensures Nms.Separated(filtered, BOX, nmsThreshold) && Nms.Descending(filtered, CONFIDENCE)
  {
    var detections := FilterByScore(rows, scoreThreshold);
    var a := new Detection[|detections|](i requires 0 <= i < |detections| => detections[i]);
    assert a[..] == detections;
    filtered := Nms.Run(a, BOX, CONFIDENCE, nmsThreshold);
    ghost var sorted := a[..];
    Nms.SurvivorsSeparated(sorted, BOX, nmsThreshold);
    Nms.SurvivorsDescend(sorted, BOX, CONFIDENCE, nmsThreshold);
  }
}
