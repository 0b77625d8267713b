/**
 * Track segmentation, the loop of `processGpxAndSplit`: every timed track
 * point is assigned to the first interval of the recording that contains
 * its time, and runs of consecutive points in one state become the Good
 * and Avoid segments. A run is closed by a gap of more than five minutes,
 * a change of state, a point outside every interval, or the end of the
 * track.
 */
module Segmentation {
  import opened Wrappers
  import opened Dates
  import opened Recording
  import opened Gpx
  import Strings

  /** A `<trkpt>` as the XML extraction yields it: the text of its `<time>` and `<ele>`, if present. */
  datatype TrackPoint = TrackPoint(time: Option<string>, lat: string, lon: string, ele: Option<string>)

  /** The points of the track, the intervals of the recording and the date parser. */
  datatype Input = Input(points: seq<TrackPoint>, intervals: seq<Interval>, parse: DateParser)

  /** `maxGap`: five minutes in milliseconds. */
  const MaxGap: int := 5 * 60 * 1000

  /** `ptTime >= start && ptTime < end`, where every comparison with NaN is false. */
  predicate Covers(iv: Interval, t: Millis, parse: DateParser) {
    t.Ms? && parse(iv.start).Ms? && parse(iv.end).Ms? &&
    parse(iv.start).ms <= t.ms < parse(iv.end).ms
  }

  /** `intervals.find(...)`: the position of the first interval containing `t`. */
  function FindInterval(ivs: seq<Interval>, t: Millis, parse: DateParser): (r: Option<nat>)
    ensures r.Some? ==> r.value < |ivs| && Covers(ivs[r.value], t, parse)
    ensures r.Some? ==> forall k :: 0 <= k < r.value ==> !Covers(ivs[k], t, parse)
    ensures r.None? ==> forall k :: 0 <= k < |ivs| ==> !Covers(ivs[k], t, parse)
  {
    if |ivs| == 0 then None
    else if Covers(ivs[0], t, parse) then Some(0)
    else match FindInterval(ivs[1..], t, parse)
         case None => None
         case Some(k) => Some(k + 1)
  }

  /** `lastTime !== null && ptTime - lastTime > maxGap`; a NaN on either side is no gap. */
  predicate Gap(last: Option<Millis>, t: Millis) {
    last.Some? && last.value.Ms? && t.Ms? && t.ms - last.value.ms > MaxGap
  }

  /**
   * The interval test is half-open and NaN-blind: the start time is in,
   * the end time is out, and an unparsable time, start or end makes the
   * test fail.
   */
  lemma CoversEdges(iv: Interval, parse: DateParser, t: Millis)
    ensures Covers(iv, parse(iv.start), parse) <==> parse(iv.start).Ms? && parse(iv.end).Ms? && parse(iv.start).ms < parse(iv.end).ms
    ensures !Covers(iv, parse(iv.end), parse)
    ensures t.NaN? || parse(iv.start).NaN? || parse(iv.end).NaN? ==> !Covers(iv, t, parse)
  {
  }

  /**
   * A gap is more than five minutes: exactly 300000 ms after the last time
   * is no gap, one millisecond more is, and no earlier time is one; there is
   * none before the first timed point, and a NaN on either side is none either.
   */
  lemma GapEdges(a: int, t: Millis)
    ensures MaxGap == 300000
    ensures !Gap(Some(Ms(a)), Ms(a + 300000)) && Gap(Some(Ms(a)), Ms(a + 300001))
    ensures !Gap(Some(Ms(a)), Ms(a - 300001))
    ensures forall u: int :: u <= a ==> !Gap(Some(Ms(a)), Ms(u))
    ensures forall u: int :: Gap(Some(Ms(a)), Ms(u)) <==> u - a > 300000
    ensures !Gap(None, t) && !Gap(Some(NaN), t) && !Gap(Some(t), NaN)
  {
  }

  /** The time of a point, as the parser reads it; NaN for an untimed point, which the loop skips anyway. */
  function PointTime(inp: Input, i: nat): Millis
    requires i < |inp.points|
  {
    match inp.points[i].time
    case None => NaN
    case Some(s) => inp.parse(s)
  }

  /** The state of the interval a point falls in, if it is timed and falls in one. */
  function Label(inp: Input, i: nat): Option<string>
    requires i < |inp.points|
  {
    if inp.points[i].time.None? then None
    else match FindInterval(inp.intervals, PointTime(inp, i), inp.parse)
         case None => None
         case Some(k) => Some(inp.intervals[k].state)
  }

  /** The positions below `n` of the points labelled `s`, in track order. */
  function Positions(inp: Input, n: nat, s: string): (ps: seq<nat>)
    requires n <= |inp.points|
    ensures forall k :: 0 <= k < |ps| ==> ps[k] < n && Label(inp, ps[k]) == Some(s)
  {
    if n == 0 then []
    else Positions(inp, n - 1, s) + (if Label(inp, n - 1) == Some(s) then [n - 1] else [])
  }

  /** The position of the last timed point below `n`. */
  function LastTimed(inp: Input, n: nat): (r: Option<nat>)
    requires n <= |inp.points|
    ensures r.Some? ==> r.value < n && inp.points[r.value].time.Some?
    ensures r.Some? ==> forall k :: r.value < k < n ==> inp.points[k].time.None?
    ensures r.None? ==> forall k :: 0 <= k < n ==> inp.points[k].time.None?
  {
    if n == 0 then None
    else if inp.points[n - 1].time.Some? then Some(n - 1)
    else LastTimed(inp, n - 1)
  }

  /** The value of `lastTime` after the first `n` points. */
  function LastTime(inp: Input, n: nat): Option<Millis>
    requires n <= |inp.points|
  {
    match LastTimed(inp, n)
    case None => None
    case Some(j) => Some(PointTime(inp, j))
  }

  /**
   * Points `i` and `j` can follow each other in a segment: both timed,
   * no timed point between them, and no gap from `i` to `j`.
   */
  predicate Linked(inp: Input, i: nat, j: nat) {
    && i < j < |inp.points|
    && inp.points[i].time.Some? && inp.points[j].time.Some?
    && (forall k :: i < k < j ==> inp.points[k].time.None?)
    && !Gap(Some(PointTime(inp, i)), PointTime(inp, j))
  }

  predicate Chained(inp: Input, r: seq<nat>) {
    forall k :: 0 <= k < |r| - 1 ==> Linked(inp, r[k], r[k + 1])
  }

  /** A segment of state `s`, as positions: non-empty, every point labelled `s`, consecutive points linked. */
  predicate IsRun(inp: Input, r: seq<nat>, s: string) {
    && |r| > 0
    && (forall k :: 0 <= k < |r| ==> r[k] < |inp.points| && Label(inp, r[k]) == Some(s))
    && Chained(inp, r)
  }

  predicate RunsOk(inp: Input, runs: seq<seq<nat>>, s: string) {
    forall k :: 0 <= k < |runs| ==> IsRun(inp, runs[k], s)
  }

  function Flatten<T>(runs: seq<seq<T>>): seq<T> {
    if |runs| == 0 then [] else Flatten(runs[..|runs| - 1]) + runs[|runs| - 1]
  }

  lemma FlattenAppend<T>(runs: seq<seq<T>>, r: seq<T>)
    ensures Flatten(runs + [r]) == Flatten(runs) + r
  {
    assert (runs + [r])[..|runs|] == runs;
  }

  // ---------------------------------------------------------------------
  // The loop as a function of the points seen so far, on positions

  /** The loop variables, with segments held as positions of the track. */
  datatype Builder = Builder(good: seq<seq<nat>>, avoid: seq<seq<nat>>, curType: Option<string>,
                             cur: seq<nat>, last: Option<Millis>)

  const Initial: Builder := Builder([], [], None, [], None)

  /** The two states whose segments are kept. */
  predicate Kept(s: string) {
    s == "Good" || s == "Avoid"
  }

  function RunsOf(b: Builder, s: string): seq<seq<nat>> {
    if s == "Good" then b.good else b.avoid
  }

  /** The points of the current segment that will count for state `s`. */
  function Pending(b: Builder, s: string): seq<nat> {
    if b.curType == Some(s) then b.cur else []
  }

  /** Push the current segment onto the list of its state, if that is Good or Avoid, and empty it. */
  function Flush(b: Builder): (r: Builder)
    ensures r.cur == [] && r.curType == b.curType && r.last == b.last
    ensures forall s :: Kept(s) ==> Flatten(RunsOf(r, s)) == Flatten(RunsOf(b, s)) + Pending(b, s)
  {
    var r := if b.curType == Some("Good") then b.(good := b.good + [b.cur], cur := [])
             else if b.curType == Some("Avoid") then b.(avoid := b.avoid + [b.cur], cur := [])
             else b.(cur := []);
    FlattenAppend(b.good, b.cur);
    FlattenAppend(b.avoid, b.cur);
    r
  }

  /** Flush and forget the state. */
  function Emit(b: Builder): Builder {
    Flush(b).(curType := None)
  }

  /** The gap check: a gap of more than five minutes closes the current segment, if any. */
  function AfterGap(b: Builder, t: Millis): Builder {
    if Gap(b.last, t) && |b.cur| > 0 then Emit(b) else b
  }

  /** A point of state `s`: a change of state closes the current segment, then the point joins the current one. */
  function Assign(b: Builder, s: string, n: nat): Builder {
    var b3 := if Some(s) != b.curType && |b.cur| > 0 then Flush(b) else b;
    b3.(curType := Some(s), cur := b3.cur + [n])
  }

  /** A point outside every interval closes the current segment, if any. */
  function Outside(b: Builder): Builder {
    if |b.cur| > 0 then Emit(b) else b
  }

  /** The interval check for the timed point `n` with time `t`. */
  function Place(inp: Input, b: Builder, n: nat, t: Millis): Builder {
    match FindInterval(inp.intervals, t, inp.parse)
    case Some(k) => Assign(b, inp.intervals[k].state, n)
    case None => Outside(b)
  }

  /** One iteration of the loop, for the point at position `n`. */
  function Step(inp: Input, b: Builder, n: nat): Builder
    requires n < |inp.points|
  {
    match inp.points[n].time
    case None => b
    case Some(ts) =>
      var t := inp.parse(ts);
      Place(inp, AfterGap(b, t), n, t).(last := Some(t))
  }

  /** The loop variables after the first `n` points. */
  function Run(inp: Input, n: nat): Builder
    requires n <= |inp.points|
  {
    if n == 0 then Initial else Step(inp, Run(inp, n - 1), n - 1)
  }

  /** The final flush after the loop. */
  function Finish(b: Builder): Builder {
    if |b.cur| > 0 then Flush(b) else b
  }

  /** The Good and Avoid segments one call produces, as positions of the track. */
  function Segments(inp: Input): Builder {
    Finish(Run(inp, |inp.points|))
  }

  // ---------------------------------------------------------------------
  // The loop invariant

  /** The current segment: typed iff non-empty, ends at the last timed point, one state, linked. */
  predicate CurOk(inp: Input, b: Builder, n: nat)
    requires n <= |inp.points|
  {
    && (b.curType.Some? <==> |b.cur| > 0)
    && (|b.cur| > 0 ==> LastTimed(inp, n) == Some(b.cur[|b.cur| - 1]))
    && (forall k :: 0 <= k < |b.cur| ==> b.cur[k] < n && Label(inp, b.cur[k]) == b.curType)
    && Chained(inp, b.cur)
  }

  /** The points of state `s` seen so far are those of its segments, then those pending. */
  predicate Accounts(inp: Input, b: Builder, n: nat, s: string)
    requires n <= |inp.points|
  {
    Flatten(RunsOf(b, s)) + Pending(b, s) == Positions(inp, n, s)
  }

  /** The invariant but for `lastTime`. */
  predicate Settled(inp: Input, b: Builder, n: nat)
    requires n <= |inp.points|
  {
    && CurOk(inp, b, n)
    && RunsOk(inp, b.good, "Good") && RunsOk(inp, b.avoid, "Avoid")
    && Accounts(inp, b, n, "Good") && Accounts(inp, b, n, "Avoid")
  }

  predicate Inv(inp: Input, b: Builder, n: nat)
    requires n <= |inp.points|
  {
    b.last == LastTime(inp, n) && Settled(inp, b, n)
  }

  /** A flushed current segment is a run of its state. */
  lemma FlushRunsOk(inp: Input, b: Builder, n: nat)
    requires n <= |inp.points| && CurOk(inp, b, n)
    requires RunsOk(inp, b.good, "Good") && RunsOk(inp, b.avoid, "Avoid")
    ensures RunsOk(inp, Flush(b).good, "Good") && RunsOk(inp, Flush(b).avoid, "Avoid")
  {
    if b.curType == Some("Good") {
      assert IsRun(inp, b.cur, "Good");
    } else if b.curType == Some("Avoid") {
      assert IsRun(inp, b.cur, "Avoid");
    }
  }

  lemma EmitSettled(inp: Input, b: Builder, n: nat)
    requires n <= |inp.points| && Settled(inp, b, n)
    ensures Settled(inp, Emit(b), n)
  {
    FlushRunsOk(inp, b, n);
  }

  /** An untimed point changes nothing. */
  lemma StepUntimed(inp: Input, b: Builder, n: nat)
    requires n < |inp.points| && inp.points[n].time.None? && Inv(inp, b, n)
    ensures Inv(inp, Step(inp, b, n), n + 1)
  {
    assert Step(inp, b, n) == b;
    assert LastTimed(inp, n + 1) == LastTimed(inp, n);
    assert Label(inp, n) == None;
    assert Positions(inp, n + 1, "Good") == Positions(inp, n, "Good");
    assert Positions(inp, n + 1, "Avoid") == Positions(inp, n, "Avoid");
    assert CurOk(inp, b, n + 1);
  }

  /** An unlabelled point adds no position. */
  lemma PositionsUnlabelled(inp: Input, n: nat, s: string)
    requires n < |inp.points| && Label(inp, n) == None
    ensures Positions(inp, n + 1, s) == Positions(inp, n, s)
  {
  }

  /** Without a current segment, an unlabelled point keeps the invariant. */
  lemma SettledEmptyNext(inp: Input, b: Builder, n: nat)
    requires n < |inp.points| && Label(inp, n) == None
    requires b.cur == [] && Settled(inp, b, n)
    ensures Settled(inp, b, n + 1)
  {
    PositionsUnlabelled(inp, n, "Good");
    PositionsUnlabelled(inp, n, "Avoid");
    assert CurOk(inp, b, n + 1);
  }

  lemma AfterGapSettled(inp: Input, b: Builder, n: nat, t: Millis)
    requires n <= |inp.points| && Settled(inp, b, n)
    ensures Settled(inp, AfterGap(b, t), n)
  {
    if Gap(b.last, t) && |b.cur| > 0 {
      EmitSettled(inp, b, n);
    }
  }

  /** A timed point outside every interval closes the current segment. */
  lemma OutsideSettled(inp: Input, b1: Builder, n: nat)
    requires n < |inp.points| && Label(inp, n) == None && Settled(inp, b1, n)
    ensures Settled(inp, Outside(b1), n + 1)
  {
    if |b1.cur| > 0 {
      EmitSettled(inp, b1, n);
    }
    SettledEmptyNext(inp, Outside(b1), n);
  }

  /** The last point of a current segment that survives the gap check is linked to the timed point `n`. */
  lemma LinkedToLast(inp: Input, b: Builder, n: nat)
    requires n < |inp.points| && inp.points[n].time.Some? && Inv(inp, b, n)
    requires |b.cur| > 0 && !Gap(b.last, PointTime(inp, n))
    ensures Linked(inp, b.cur[|b.cur| - 1], n)
  {
    var c := b.cur[|b.cur| - 1];
    assert LastTimed(inp, n) == Some(c);
    assert b.last == Some(PointTime(inp, c));
  }

  /** `lastTime` is not part of the settled invariant. */
  lemma SettledLast(inp: Input, b: Builder, n: nat, l: Option<Millis>)
    requires n <= |inp.points| && Settled(inp, b, n)
    ensures Settled(inp, b.(last := l), n)
  {
    var b' := b.(last := l);
    assert RunsOf(b', "Good") == RunsOf(b, "Good") && RunsOf(b', "Avoid") == RunsOf(b, "Avoid");
    assert Pending(b', "Good") == Pending(b, "Good") && Pending(b', "Avoid") == Pending(b, "Avoid");
    assert CurOk(inp, b', n);
  }

  /** The positions of state `t` after a point labelled `s`. */
  lemma PositionsAfter(inp: Input, n: nat, s: string, t: string)
    requires n < |inp.points| && Label(inp, n) == Some(s)
    ensures Positions(inp, n + 1, t) == Positions(inp, n, t) + (if s == t then [n] else [])
  {
  }

  /** A point of state `s` that starts a new segment. */
  lemma StartSegment(inp: Input, b3: Builder, n: nat, s: string)
    requires n < |inp.points| && Label(inp, n) == Some(s)
    requires b3.cur == [] && RunsOk(inp, b3.good, "Good") && RunsOk(inp, b3.avoid, "Avoid")
    requires Flatten(b3.good) == Positions(inp, n, "Good") && Flatten(b3.avoid) == Positions(inp, n, "Avoid")
    ensures Settled(inp, b3.(curType := Some(s), cur := [n]), n + 1)
  {
    var b4 := b3.(curType := Some(s), cur := [n]);
    assert LastTimed(inp, n + 1) == Some(n);
    PositionsAfter(inp, n, s, "Good");
    PositionsAfter(inp, n, s, "Avoid");
    assert CurOk(inp, b4, n + 1);
  }

  /** A point of state `s` that extends the current segment of state `s`. */
  lemma ExtendSegment(inp: Input, b1: Builder, n: nat, s: string)
    requires n < |inp.points| && Label(inp, n) == Some(s)
    requires Settled(inp, b1, n) && |b1.cur| > 0 && b1.curType == Some(s)
    requires Linked(inp, b1.cur[|b1.cur| - 1], n)
    ensures Settled(inp, b1.(cur := b1.cur + [n]), n + 1)
  {
    var b4 := b1.(cur := b1.cur + [n]);
    assert LastTimed(inp, n + 1) == Some(n);
    AccountsExtend(inp, b1, n, s, "Good");
    AccountsExtend(inp, b1, n, s, "Avoid");
    ChainedAppend(inp, b1.cur, n);
    assert CurOk(inp, b4, n + 1);
  }

  /** Extending the current segment of state `s` by point `n` keeps every state's account. */
  lemma AccountsExtend(inp: Input, b1: Builder, n: nat, s: string, t: string)
    requires n < |inp.points| && Label(inp, n) == Some(s) && b1.curType == Some(s)
    requires Accounts(inp, b1, n, t)
    ensures Accounts(inp, b1.(cur := b1.cur + [n]), n + 1, t)
  {
    PositionsAfter(inp, n, s, t);
    if s == t {
      Strings.ConcatAssoc(Flatten(RunsOf(b1, t)), b1.cur, [n]);
    }
  }

  /** A point linked to the end of a chain extends the chain. */
  lemma ChainedAppend(inp: Input, r: seq<nat>, n: nat)
    requires |r| > 0 && Chained(inp, r) && Linked(inp, r[|r| - 1], n)
    ensures Chained(inp, r + [n])
  {
    var r2 := r + [n];
    forall k | 0 <= k < |r2| - 1
      ensures Linked(inp, r2[k], r2[k + 1])
    {
      if k < |r| - 1 {
        assert r2[k] == r[k] && r2[k + 1] == r[k + 1];
      }
    }
  }

  /** A point of a new state closes the current segment and starts the next. */
  lemma AssignNewState(inp: Input, b1: Builder, n: nat, s: string)
    requires n < |inp.points| && Label(inp, n) == Some(s)
    requires Settled(inp, b1, n) && Some(s) != b1.curType && |b1.cur| > 0
    ensures Settled(inp, Assign(b1, s, n), n + 1)
  {
    var b3 := Flush(b1);
    FlushRunsOk(inp, b1, n);
    assert Flatten(b3.good) == Positions(inp, n, "Good") by {
      assert Accounts(inp, b1, n, "Good");
      assert Flatten(RunsOf(b3, "Good")) == Flatten(RunsOf(b1, "Good")) + Pending(b1, "Good");
    }
    assert Flatten(b3.avoid) == Positions(inp, n, "Avoid") by {
      assert Accounts(inp, b1, n, "Avoid");
      assert Flatten(RunsOf(b3, "Avoid")) == Flatten(RunsOf(b1, "Avoid")) + Pending(b1, "Avoid");
    }
    StartSegment(inp, b3, n, s);
    assert b3.cur + [n] == [n];
  }

  /** A point in an interval with no current segment starts one. */
  lemma AssignFirst(inp: Input, b1: Builder, n: nat, s: string)
    requires n < |inp.points| && Label(inp, n) == Some(s)
    requires Settled(inp, b1, n) && |b1.cur| == 0
    ensures Settled(inp, Assign(b1, s, n), n + 1)
  {
    assert b1.cur == [] && b1.curType == None;
    assert Pending(b1, "Good") == [] && Pending(b1, "Avoid") == [];
    assert Accounts(inp, b1, n, "Good") && Accounts(inp, b1, n, "Avoid");
    assert Flatten(b1.good) == Positions(inp, n, "Good");
    assert Flatten(b1.avoid) == Positions(inp, n, "Avoid");
    StartSegment(inp, b1, n, s);
    assert b1.cur + [n] == [n];
  }

  /** A point in an interval joins the current segment of its state, if any, or starts one after a flush. */
  lemma AssignSettled(inp: Input, b1: Builder, n: nat, s: string)
    requires n < |inp.points| && Label(inp, n) == Some(s)
    requires Settled(inp, b1, n)
    requires |b1.cur| > 0 && b1.curType == Some(s) ==> Linked(inp, b1.cur[|b1.cur| - 1], n)
    ensures Settled(inp, Assign(b1, s, n), n + 1)
  {
    if Some(s) != b1.curType && |b1.cur| > 0 {
      AssignNewState(inp, b1, n, s);
    } else if |b1.cur| == 0 {
      AssignFirst(inp, b1, n, s);
    } else {
      ExtendSegment(inp, b1, n, s);
      assert Assign(b1, s, n) == b1.(cur := b1.cur + [n]);
    }
  }

  /** The interval check of a timed point keeps the invariant but for `lastTime`. */
  lemma PlaceSettled(inp: Input, b: Builder, n: nat)
    requires n < |inp.points| && inp.points[n].time.Some? && Inv(inp, b, n)
    ensures Settled(inp, Place(inp, AfterGap(b, PointTime(inp, n)), n, PointTime(inp, n)), n + 1)
  {
    var t := PointTime(inp, n);
    var b1 := AfterGap(b, t);
    AfterGapSettled(inp, b, n, t);
    match FindInterval(inp.intervals, t, inp.parse)
    case Some(k) =>
      var s := inp.intervals[k].state;
      assert Label(inp, n) == Some(s);
      if |b1.cur| > 0 {
        LinkedToLast(inp, b, n);
      }
      AssignSettled(inp, b1, n, s);
    case None =>
      assert Label(inp, n) == None;
      OutsideSettled(inp, b1, n);
  }

  /** A timed point keeps the invariant. */
  lemma StepTimed(inp: Input, b: Builder, n: nat)
    requires n < |inp.points| && inp.points[n].time.Some? && Inv(inp, b, n)
    ensures Inv(inp, Step(inp, b, n), n + 1)
  {
    var t := PointTime(inp, n);
    var b2 := Place(inp, AfterGap(b, t), n, t);
    PlaceSettled(inp, b, n);
    SettledLast(inp, b2, n + 1, Some(t));
    assert LastTimed(inp, n + 1) == Some(n);
    assert Step(inp, b, n) == b2.(last := Some(t));
  }

  /** Each iteration keeps the invariant. */
  lemma StepKeepsInv(inp: Input, b: Builder, b2: Builder, n: nat)
    requires n < |inp.points| && Inv(inp, b, n) && b2 == Step(inp, b, n)
    ensures Inv(inp, b2, n + 1)
  {
    if inp.points[n].time.None? {
      StepUntimed(inp, b, n);
    } else {
      StepTimed(inp, b, n);
    }
  }

  /** The invariant holds after every prefix of the track. */
  lemma {:induction false} RunKeepsInv(inp: Input, n: nat)
    requires n <= |inp.points|
    ensures Inv(inp, Run(inp, n), n)
  {
    if n > 0 {
      RunKeepsInv(inp, n - 1);
      RunStepKeepsInv(inp, n);
    } else {
      InitialInv(inp);
    }
  }

  /** One more round of the loop keeps the invariant. */
  lemma RunStepKeepsInv(inp: Input, n: nat)
    requires 0 < n <= |inp.points| && Inv(inp, Run(inp, n - 1), n - 1)
    ensures Inv(inp, Run(inp, n), n)
  {
    StepKeepsInv(inp, Run(inp, n - 1), Run(inp, n), n - 1);
  }

  /** Before the first point nothing is held. */
  lemma InitialInv(inp: Input)
    ensures Inv(inp, Initial, 0)
  {
    assert LastTime(inp, 0) == None;
    assert Positions(inp, 0, "Good") == [] && Positions(inp, 0, "Avoid") == [];
    assert Flatten(Initial.good) == [] && Flatten(Initial.avoid) == [];
    assert Accounts(inp, Initial, 0, "Good") && Accounts(inp, Initial, 0, "Avoid");
    assert CurOk(inp, Initial, 0);
  }

  /**
   * Partition and order: for Good and for Avoid, the segments, joined in
   * order, are exactly the positions of the timed points whose first
   * containing interval has that state, in track order; and every segment
   * is a run of that state.
   */
  lemma SegmentsPartition(inp: Input, s: string)
    requires Kept(s)
    ensures Flatten(RunsOf(Segments(inp), s)) == Positions(inp, |inp.points|, s)
    ensures RunsOk(inp, RunsOf(Segments(inp), s), s)
  {
    var b := Run(inp, |inp.points|);
    RunKeepsInv(inp, |inp.points|);
    if |b.cur| > 0 {
      FlushRunsOk(inp, b, |inp.points|);
    }
  }

  /** A position is among the positions of state `s` exactly when that point is labelled `s`. */
  lemma {:induction false} PositionsMembers(inp: Input, n: nat, s: string, i: nat)
    requires n <= |inp.points|
    ensures i in Positions(inp, n, s) <==> i < n && Label(inp, i) == Some(s)
  {
    if n > 0 {
      PositionsMembers(inp, n - 1, s, i);
    }
  }

  /**
   * Within a segment, two consecutive points are consecutive timed points
   * of the track, both in an interval, and the later is at most five
   * minutes after the earlier: a gap of exactly five minutes, or a step
   * back in time, does not split.
   */
  lemma RunPointsClose(inp: Input, r: seq<nat>, s: string, k: nat)
    requires IsRun(inp, r, s) && k + 1 < |r|
    ensures r[k] < r[k + 1] < |inp.points|
    ensures forall j :: r[k] < j < r[k + 1] ==> inp.points[j].time.None?
    ensures PointTime(inp, r[k]).Ms? && PointTime(inp, r[k + 1]).Ms?
    ensures PointTime(inp, r[k + 1]).ms - PointTime(inp, r[k]).ms <= MaxGap
  {
    assert Linked(inp, r[k], r[k + 1]);
    assert Label(inp, r[k]) == Some(s) && Label(inp, r[k + 1]) == Some(s);
  }

  // ---------------------------------------------------------------------
  // Segments are maximal: a segment is cut only where the loop must cut it

  /** No point of state `s` can follow point `e` in a segment: a segment ending at `e` could not be extended. */
  predicate EndClosed(inp: Input, e: nat, s: string) {
    forall j :: 0 <= j < |inp.points| && Linked(inp, e, j) ==> Label(inp, j) != Some(s)
  }

  /** Every segment of `runs` ends closed for state `s`. */
  predicate EndsClosed(inp: Input, runs: seq<seq<nat>>, s: string) {
    |runs| == 0 ||
    (EndsClosed(inp, runs[..|runs| - 1], s) &&
     var r := runs[|runs| - 1]; |r| > 0 ==> EndClosed(inp, r[|r| - 1], s))
  }

  lemma {:induction false} EndsClosedAt(inp: Input, runs: seq<seq<nat>>, s: string, k: nat)
    requires EndsClosed(inp, runs, s) && k < |runs| && |runs[k]| > 0
    ensures EndClosed(inp, runs[k][|runs[k]| - 1], s)
  {
    if k < |runs| - 1 {
      EndsClosedAt(inp, runs[..|runs| - 1], s, k);
    }
  }

  /** Every segment pushed so far ends where it had to. */
  predicate Closed(inp: Input, b: Builder) {
    EndsClosed(inp, b.good, "Good") && EndsClosed(inp, b.avoid, "Avoid")
  }

  /**
   * A cut before the timed point `n`, after the last timed point `e`: by a
   * gap, or because `n` is not of state `s`.
   */
  lemma CutClosed(inp: Input, e: nat, n: nat, s: string)
    requires e < n < |inp.points| && inp.points[n].time.Some?
    requires forall k :: e < k < n ==> inp.points[k].time.None?
    requires Gap(Some(PointTime(inp, e)), PointTime(inp, n)) || Label(inp, n) != Some(s)
    ensures EndClosed(inp, e, s)
  {
    forall j | 0 <= j < |inp.points| && Linked(inp, e, j)
      ensures Label(inp, j) != Some(s)
    {
      if j == n {
        assert !Gap(Some(PointTime(inp, e)), PointTime(inp, n));
      }
    }
  }

  /** The cut at the end of the track: no timed point follows `e`. */
  lemma FinalClosed(inp: Input, e: nat, s: string)
    requires e < |inp.points| && forall k :: e < k < |inp.points| ==> inp.points[k].time.None?
    ensures EndClosed(inp, e, s)
  {
  }

  lemma EndsClosedAppend(inp: Input, runs: seq<seq<nat>>, r: seq<nat>, s: string)
    requires EndsClosed(inp, runs, s) && (|r| > 0 ==> EndClosed(inp, r[|r| - 1], s))
    ensures EndsClosed(inp, runs + [r], s)
  {
    assert (runs + [r])[..|runs|] == runs;
  }

  /** Pushing a current segment whose end is closed keeps every segment closed. */
  lemma FlushClosed(inp: Input, b: Builder)
    requires Closed(inp, b)
    requires b.curType.Some? && |b.cur| > 0 ==> EndClosed(inp, b.cur[|b.cur| - 1], b.curType.value)
    ensures Closed(inp, Flush(b))
  {
    if b.curType == Some("Good") {
      EndsClosedAppend(inp, b.good, b.cur, "Good");
    } else if b.curType == Some("Avoid") {
      EndsClosedAppend(inp, b.avoid, b.cur, "Avoid");
    }
  }

  /** What a cut needs to know: the time last seen and the position the current segment ends at. */
  predicate CutReady(inp: Input, b: Builder, n: nat)
    requires n <= |inp.points|
  {
    && b.last == LastTime(inp, n)
    && (|b.cur| > 0 ==> b.curType.Some? && LastTimed(inp, n) == Some(b.cur[|b.cur| - 1]))
  }

  lemma InvCutReady(inp: Input, b: Builder, n: nat)
    requires n <= |inp.points| && Inv(inp, b, n)
    ensures CutReady(inp, b, n)
  {
  }

  /** The current segment, cut before the timed point `n` for the reason `CutClosed` names. */
  lemma CutCurrent(inp: Input, b: Builder, n: nat)
    requires n < |inp.points| && inp.points[n].time.Some?
    requires CutReady(inp, b, n) && Closed(inp, b) && |b.cur| > 0
    requires Gap(Some(PointTime(inp, b.cur[|b.cur| - 1])), PointTime(inp, n)) || Label(inp, n) != b.curType
    ensures Closed(inp, Flush(b)) && Closed(inp, Emit(b))
  {
    CutClosed(inp, b.cur[|b.cur| - 1], n, b.curType.value);
    FlushClosed(inp, b);
  }

  /** The interval check of the timed point `n` cuts only where it must. */
  lemma PlaceClosed(inp: Input, b1: Builder, n: nat)
    requires n < |inp.points| && inp.points[n].time.Some?
    requires CutReady(inp, b1, n) && Closed(inp, b1)
    ensures Closed(inp, Place(inp, b1, n, PointTime(inp, n)))
  {
    var t := PointTime(inp, n);
    match FindInterval(inp.intervals, t, inp.parse)
    case Some(k) =>
      var st := inp.intervals[k].state;
      assert Label(inp, n) == Some(st);
      if Some(st) != b1.curType && |b1.cur| > 0 {
        CutCurrent(inp, b1, n);
      }
    case None =>
      assert Label(inp, n) == None;
      if |b1.cur| > 0 {
        CutCurrent(inp, b1, n);
      }
  }

  /** Each iteration cuts only where it must. */
  lemma StepClosed(inp: Input, b: Builder, b2: Builder, n: nat)
    requires n < |inp.points| && CutReady(inp, b, n) && Closed(inp, b) && b2 == Step(inp, b, n)
    ensures Closed(inp, b2)
  {
    if inp.points[n].time.Some? {
      var t := PointTime(inp, n);
      if Gap(b.last, t) && |b.cur| > 0 {
        CutCurrent(inp, b, n);
      }
      PlaceClosed(inp, AfterGap(b, t), n);
    }
  }

  lemma {:induction false} RunClosed(inp: Input, n: nat)
    requires n <= |inp.points|
    ensures Closed(inp, Run(inp, n))
  {
    if n > 0 {
      RunClosed(inp, n - 1);
      RunCutReady(inp, n - 1);
      StepClosed(inp, Run(inp, n - 1), Run(inp, n), n - 1);
    }
  }

  lemma RunCutReady(inp: Input, n: nat)
    requires n <= |inp.points|
    ensures CutReady(inp, Run(inp, n), n)
  {
    RunKeepsInv(inp, n);
    InvCutReady(inp, Run(inp, n), n);
  }

  /** The final flush ends the last segment at the last timed point. */
  lemma SegmentsClosed(inp: Input)
    ensures Closed(inp, Segments(inp))
  {
    var b := Run(inp, |inp.points|);
    RunClosed(inp, |inp.points|);
    RunKeepsInv(inp, |inp.points|);
    assert Segments(inp) == Finish(b);
    if |b.cur| > 0 {
      var e := b.cur[|b.cur| - 1];
      assert LastTimed(inp, |inp.points|) == Some(e);
      FinalClosed(inp, e, b.curType.value);
      FlushClosed(inp, b);
    }
  }

  /**
   * Segments are maximal: no segment can be extended at its end by a point
   * of its state that may follow it, so two consecutive segments of one
   * state are separated by a gap of more than five minutes, a point of
   * another state or a point outside every interval.
   */
  lemma SegmentsMaximal(inp: Input, s: string)
    requires Kept(s)
    ensures EndsClosed(inp, RunsOf(Segments(inp), s), s)
    ensures var runs := RunsOf(Segments(inp), s);
            forall k :: 0 <= k < |runs| - 1 && |runs[k]| > 0 && |runs[k + 1]| > 0 ==>
              !Linked(inp, runs[k][|runs[k]| - 1], runs[k + 1][0])
  {
    SegmentsClosed(inp);
    SegmentsPartition(inp, s);
    var runs := RunsOf(Segments(inp), s);
    forall k | 0 <= k < |runs| - 1 && |runs[k]| > 0 && |runs[k + 1]| > 0
      ensures !Linked(inp, runs[k][|runs[k]| - 1], runs[k + 1][0])
    {
      assert IsRun(inp, runs[k + 1], s);
      EndsClosedAt(inp, runs, s, k);
    }
  }

  /** Positions are listed in strictly increasing order. */
  lemma {:induction false} PositionsIncreasing(inp: Input, n: nat, s: string)
    requires n <= |inp.points|
    ensures Increasing(Positions(inp, n, s)) && Below(Positions(inp, n, s), n)
  {
    if n > 0 {
      PositionsIncreasing(inp, n - 1, s);
      var add := Label(inp, n - 1) == Some(s);
      assert Positions(inp, n, s) == Positions(inp, n - 1, s) + (if add then [n - 1] else []);
      IncreasingAppend(Positions(inp, n - 1, s), n - 1, add);
    }
  }

  /** Strictly increasing, stated one step at a time. */
  predicate Increasing(xs: seq<nat>) {
    |xs| <= 1 || (Increasing(xs[..|xs| - 1]) && xs[|xs| - 2] < xs[|xs| - 1])
  }

  lemma {:induction false} IncreasingAt(xs: seq<nat>, i: nat, j: nat)
    requires Increasing(xs) && i < j < |xs|
    ensures xs[i] < xs[j]
    decreases |xs|
  {
    var ys := xs[..|xs| - 1];
    if j < |xs| - 1 {
      IncreasingAt(ys, i, j);
    } else if i < |xs| - 2 {
      IncreasingAt(ys, i, |xs| - 2);
    }
  }

  predicate Below(xs: seq<nat>, n: nat) {
    forall k :: 0 <= k < |xs| ==> xs[k] < n
  }

  lemma IncreasingAppend(xs: seq<nat>, x: nat, add: bool)
    requires Increasing(xs) && Below(xs, x)
    ensures Increasing(xs + (if add then [x] else [])) && Below(xs + (if add then [x] else []), x + 1)
  {
    var ys := xs + (if add then [x] else []);
    if add {
      assert ys[..|ys| - 1] == xs;
      assert |xs| > 0 ==> ys[|ys| - 2] == xs[|xs| - 1] < x;
      assert Increasing(ys);
    } else {
      assert ys == xs;
    }
    assert forall k :: 0 <= k < |ys| ==> ys[k] == if k < |xs| then xs[k] else x;
  }

  /** The first timed point after `i`, which exists when `c` is one. */
  function NextTimed(inp: Input, i: nat, c: nat): (r: nat)
    requires i < c < |inp.points| && inp.points[c].time.Some?
    ensures i < r <= c && inp.points[r].time.Some?
    ensures forall k :: i < k < r ==> inp.points[k].time.None?
    decreases c - i
  {
    if inp.points[i + 1].time.Some? then i + 1 else NextTimed(inp, i + 1, c)
  }

  /** Every timed point is labelled `s`. */
  predicate AllLabelled(inp: Input, s: string) {
    forall j :: 0 <= j < |inp.points| && inp.points[j].time.Some? ==> Label(inp, j) == Some(s)
  }

  /** No two consecutive timed points are more than five minutes apart. */
  predicate NoGaps(inp: Input) {
    forall i, j ::
      (0 <= i < j < |inp.points| && inp.points[i].time.Some? && inp.points[j].time.Some? &&
       forall k :: i < k < j ==> inp.points[k].time.None?) ==>
      !Gap(Some(PointTime(inp, i)), PointTime(inp, j))
  }

  /** In such a track, a segment can only end at the last timed point. */
  lemma EndIsLast(inp: Input, s: string, e: nat)
    requires AllLabelled(inp, s) && NoGaps(inp)
    requires e < |inp.points| && inp.points[e].time.Some? && EndClosed(inp, e, s)
    ensures forall c :: e < c < |inp.points| ==> inp.points[c].time.None?
  {
    forall c | e < c < |inp.points|
      ensures inp.points[c].time.None?
    {
      if inp.points[c].time.Some? {
        var r := NextTimed(inp, e, c);
        assert false;
      }
    }
  }

  /** In a strictly increasing `xs + a + b`, the last of `a` is below the last of `b`. */
  lemma LastBelowLast(xs: seq<nat>, a: seq<nat>, b: seq<nat>)
    requires |a| > 0 && |b| > 0
    requires Increasing(xs + a + b)
    ensures a[|a| - 1] < b[|b| - 1]
  {
    var p := xs + a + b;
    assert p[|xs| + |a| - 1] == a[|a| - 1];
    assert p[|p| - 1] == b[|b| - 1];
    IncreasingAt(p, |xs| + |a| - 1, |p| - 1);
  }

  /** The last two segments of a state end at timed points, in track order, the first of them closed. */
  lemma LastTwoEnds(inp: Input, s: string) returns (ea: nat, eb: nat)
    requires Kept(s) && |RunsOf(Segments(inp), s)| >= 2
    ensures ea < eb < |inp.points| && inp.points[ea].time.Some? && inp.points[eb].time.Some?
    ensures EndClosed(inp, ea, s)
  {
    SegmentsPartition(inp, s);
    SegmentsMaximal(inp, s);
    var runs := RunsOf(Segments(inp), s);
    var m := |runs|;
    var a, b := runs[m - 2], runs[m - 1];
    assert IsRun(inp, a, s) && IsRun(inp, b, s);
    assert runs[..m - 1][..m - 2] == runs[..m - 2];
    assert Flatten(runs) == Flatten(runs[..m - 2]) + a + b;
    PositionsIncreasing(inp, |inp.points|, s);
    LastBelowLast(Flatten(runs[..m - 2]), a, b);
    EndsClosedAt(inp, runs, s, m - 2);
    ea, eb := a[|a| - 1], b[|b| - 1];
  }

  /** A timed point labelled `s` gives at least one segment of state `s`. */
  lemma SomeSegment(inp: Input, s: string, j: nat)
    requires Kept(s) && j < |inp.points| && Label(inp, j) == Some(s)
    ensures |RunsOf(Segments(inp), s)| >= 1
  {
    SegmentsPartition(inp, s);
    PositionsMembers(inp, |inp.points|, s, j);
  }

  /**
   * A track whose timed points all fall in intervals of state `s`, with no
   * gap longer than five minutes, yields exactly one segment of that state
   * (none when no point is timed).
   */
  lemma OneSegment(inp: Input, s: string)
    requires Kept(s) && AllLabelled(inp, s) && NoGaps(inp)
    ensures |RunsOf(Segments(inp), s)| <= 1
    ensures (exists j :: 0 <= j < |inp.points| && inp.points[j].time.Some?) ==> |RunsOf(Segments(inp), s)| == 1
  {
    if exists j :: 0 <= j < |inp.points| && inp.points[j].time.Some? {
      var j :| 0 <= j < |inp.points| && inp.points[j].time.Some?;
      SomeSegment(inp, s, j);
    }
    if |RunsOf(Segments(inp), s)| >= 2 {
      var ea, eb := LastTwoEnds(inp, s);
      EndIsLast(inp, s, ea);
      assert false;
    }
  }

  // ---------------------------------------------------------------------
  // The loop itself, on point data

  /** The `pointData` of a track point. */
  function DataOf(p: TrackPoint): PointData {
    PointData(p.lat, p.lon, p.ele, p.time.GetOr(""))
  }

  /** Every position of `r` is a point of the track. */
  predicate WithinTrack(pts: seq<TrackPoint>, r: seq<nat>) {
    forall k :: 0 <= k < |r| ==> r[k] < |pts|
  }

  /** The point data of the points at the positions `r`. */
  function Image(pts: seq<TrackPoint>, r: seq<nat>): (d: seq<PointData>)
    requires WithinTrack(pts, r)
    ensures |d| == |r| && forall k :: 0 <= k < |r| ==> d[k] == DataOf(pts[r[k]])
  {
    seq(|r|, k requires 0 <= k < |r| => DataOf(pts[r[k]]))
  }

  predicate InRange(pts: seq<TrackPoint>, runs: seq<seq<nat>>) {
    forall j :: 0 <= j < |runs| ==> WithinTrack(pts, runs[j])
  }

  function Images(pts: seq<TrackPoint>, runs: seq<seq<nat>>): (ds: seq<seq<PointData>>)
    requires InRange(pts, runs)
    ensures |ds| == |runs| && forall j :: 0 <= j < |runs| ==> ds[j] == Image(pts, runs[j])
  {
    seq(|runs|, j requires 0 <= j < |runs| => Image(pts, runs[j]))
  }

  lemma RunsInRange(inp: Input, runs: seq<seq<nat>>, s: string)
    requires RunsOk(inp, runs, s)
    ensures InRange(inp.points, runs)
  {
    forall j | 0 <= j < |runs|
      ensures WithinTrack(inp.points, runs[j])
    {
      assert IsRun(inp, runs[j], s);
    }
  }

  lemma {:induction false} FlattenImages(pts: seq<TrackPoint>, runs: seq<seq<nat>>)
    requires InRange(pts, runs)
    ensures WithinTrack(pts, Flatten(runs))
    ensures Flatten(Images(pts, runs)) == Image(pts, Flatten(runs))
    decreases |runs|
  {
    if |runs| > 0 {
      var n := |runs|;
      var front := runs[..n - 1];
      assert InRange(pts, front);
      FlattenImages(pts, front);
      assert Images(pts, runs)[..n - 1] == Images(pts, front);
      assert Flatten(runs) == Flatten(front) + runs[n - 1];
    }
  }

  /**
   * The Good (or Avoid) segments the loop produces, joined in order, are
   * the point data of exactly the timed points whose first containing
   * interval has that state, in track order.
   */
  lemma SegmentedPoints(inp: Input, s: string)
    requires Kept(s)
    ensures InRange(inp.points, RunsOf(Segments(inp), s))
    ensures WithinTrack(inp.points, Positions(inp, |inp.points|, s))
    ensures Flatten(Images(inp.points, RunsOf(Segments(inp), s))) == Image(inp.points, Positions(inp, |inp.points|, s))
  {
    SegmentsPartition(inp, s);
    RunsInRange(inp, RunsOf(Segments(inp), s), s);
    FlattenImages(inp.points, RunsOf(Segments(inp), s));
  }

  /** How flushing the positions shows in the point data. */
  lemma FlushImages(pts: seq<TrackPoint>, b: Builder)
    requires InRange(pts, b.good) && InRange(pts, b.avoid)
    requires WithinTrack(pts, b.cur)
    ensures InRange(pts, Flush(b).good) && InRange(pts, Flush(b).avoid)
    ensures Images(pts, Flush(b).good) ==
              if b.curType == Some("Good") then Images(pts, b.good) + [Image(pts, b.cur)] else Images(pts, b.good)
    ensures Images(pts, Flush(b).avoid) ==
              if b.curType == Some("Avoid") then Images(pts, b.avoid) + [Image(pts, b.cur)] else Images(pts, b.avoid)
  {
  }

  lemma ImageAppend(pts: seq<TrackPoint>, r: seq<nat>, i: nat)
    requires WithinTrack(pts, r) && i < |pts|
    ensures Image(pts, r + [i]) == Image(pts, r) + [DataOf(pts[i])]
  {
  }

  /** The positions the loop holds after `n` points are points of the track. */
  lemma RunInRange(inp: Input, n: nat)
    requires n <= |inp.points|
    ensures InRange(inp.points, Run(inp, n).good) && InRange(inp.points, Run(inp, n).avoid)
    ensures WithinTrack(inp.points, Run(inp, n).cur)
  {
    RunKeepsInv(inp, n);
    RunsInRange(inp, Run(inp, n).good, "Good");
    RunsInRange(inp, Run(inp, n).avoid, "Avoid");
  }

  /** The values of every timed point can be written without escaping. */
  predicate PlainTrack(pts: seq<TrackPoint>) {
    forall i :: 0 <= i < |pts| && pts[i].time.Some? ==> Plain(DataOf(pts[i]))
  }

  /**
   * The GPX document of the segments of state `s` records exactly those
   * segments: none of them is empty, so none is dropped by the writer.
   */
  lemma WrittenSegmentsReadBack(inp: Input, s: string)
    requires Kept(s) && PlainTrack(inp.points)
    ensures InRange(inp.points, RunsOf(Segments(inp), s))
    ensures var ds := Images(inp.points, RunsOf(Segments(inp), s));
            DecodeGpx(GpxDocument(ds)) == Some(ds)
  {
    var runs := RunsOf(Segments(inp), s);
    SegmentsPartition(inp, s);
    RunsInRange(inp, runs, s);
    var ds := Images(inp.points, runs);
    forall j, k | 0 <= j < |ds| && 0 <= k < |ds[j]|
      ensures Plain(ds[j][k])
    {
      assert IsRun(inp, runs[j], s);
      assert Label(inp, runs[j][k]) == Some(s);
    }
    forall j | 0 <= j < |ds|
      ensures |ds[j]| > 0
    {
      assert IsRun(inp, runs[j], s);
    }
    GpxRoundTrip(ds);
    NonEmptyAll(ds);
  }

  /** The loop of `processGpxAndSplit` over the track points, and its final flush: the Good and Avoid segments. */
  method SplitSegments(trkpts: seq<TrackPoint>, intervals: seq<Interval>, parse: DateParser)
    returns (goodSegments: seq<seq<PointData>>, avoidSegments: seq<seq<PointData>>)
    ensures InRange(trkpts, Segments(Input(trkpts, intervals, parse)).good)
    ensures InRange(trkpts, Segments(Input(trkpts, intervals, parse)).avoid)
    ensures goodSegments == Images(trkpts, Segments(Input(trkpts, intervals, parse)).good)
    ensures avoidSegments == Images(trkpts, Segments(Input(trkpts, intervals, parse)).avoid)
  {
    ghost var inp := Input(trkpts, intervals, parse);
    goodSegments, avoidSegments := [], [];
    var currentSegmentType: Option<string> := None;
    var currentSegmentPoints: seq<PointData> := [];
    var lastTime: Option<Millis> := None;
    ghost var b := Initial;
    for i := 0 to |trkpts|
      invariant b == Run(inp, i)
      invariant InRange(trkpts, b.good) && InRange(trkpts, b.avoid) && WithinTrack(trkpts, b.cur)
      invariant goodSegments == Images(trkpts, b.good) && avoidSegments == Images(trkpts, b.avoid)
      invariant currentSegmentType == b.curType && lastTime == b.last
      invariant currentSegmentPoints == Image(trkpts, b.cur)
    {
      ghost var next := Step(inp, b, i);
      RunInRange(inp, i + 1);
      var pt := trkpts[i];
      if pt.time.None? {
        b := next;
        continue;
      }
      var ptTime := parse(pt.time.value);
      var interval := FindInterval(intervals, ptTime, parse);
      var pointData := PointData(pt.lat, pt.lon, pt.ele, pt.time.value);
      if Gap(lastTime, ptTime) {
        if |currentSegmentPoints| > 0 {
          if currentSegmentType == Some("Good") {
            goodSegments := goodSegments + [currentSegmentPoints];
          } else if currentSegmentType == Some("Avoid") {
            avoidSegments := avoidSegments + [currentSegmentPoints];
          }
          FlushImages(trkpts, b);
          currentSegmentPoints := [];
          currentSegmentType := None;
          b := Emit(b);
        }
      }
      if interval.Some? {
        var newSegmentType := intervals[interval.value].state;
        if Some(newSegmentType) != currentSegmentType && |currentSegmentPoints| > 0 {
          if currentSegmentType == Some("Good") {
            goodSegments := goodSegments + [currentSegmentPoints];
          } else if currentSegmentType == Some("Avoid") {
            avoidSegments := avoidSegments + [currentSegmentPoints];
          }
          FlushImages(trkpts, b);
          currentSegmentPoints := [];
          b := Flush(b);
        }
        currentSegmentType := Some(newSegmentType);
        ImageAppend(trkpts, b.cur, i);
        currentSegmentPoints := currentSegmentPoints + [pointData];
        b := b.(curType := Some(newSegmentType), cur := b.cur + [i]);
      } else {
        if |currentSegmentPoints| > 0 {
          if currentSegmentType == Some("Good") {
            goodSegments := goodSegments + [currentSegmentPoints];
          } else if currentSegmentType == Some("Avoid") {
            avoidSegments := avoidSegments + [currentSegmentPoints];
          }
          FlushImages(trkpts, b);
          currentSegmentPoints := [];
          currentSegmentType := None;
          b := Emit(b);
        }
      }
      lastTime := Some(ptTime);
      b := b.(last := Some(ptTime));
      assert b == next;
    }
    if |currentSegmentPoints| > 0 {
      if currentSegmentType == Some("Good") {
        goodSegments := goodSegments + [currentSegmentPoints];
      } else if currentSegmentType == Some("Avoid") {
        avoidSegments := avoidSegments + [currentSegmentPoints];
      }
      FlushImages(trkpts, b);
      b := Flush(b);
    }
    SegmentsPartition(inp, "Good");
    SegmentsPartition(inp, "Avoid");
    RunsInRange(inp, b.good, "Good");
    RunsInRange(inp, b.avoid, "Avoid");
  }

  /**
   * `processGpxAndSplit` on the track points of the GPX file: the Good
   * and Avoid segments and the two GPX documents offered for download.
   */
  method ProcessGpxAndSplit(trkpts: seq<TrackPoint>, intervals: seq<Interval>, parse: DateParser)
    returns (goodSegments: seq<seq<PointData>>, avoidSegments: seq<seq<PointData>>,
             goodGpxContent: string, avoidGpxContent: string)
    ensures InRange(trkpts, Segments(Input(trkpts, intervals, parse)).good)
    ensures InRange(trkpts, Segments(Input(trkpts, intervals, parse)).avoid)
    ensures goodSegments == Images(trkpts, Segments(Input(trkpts, intervals, parse)).good)
    ensures avoidSegments == Images(trkpts, Segments(Input(trkpts, intervals, parse)).avoid)
    ensures goodGpxContent == GpxDocument(goodSegments) && avoidGpxContent == GpxDocument(avoidSegments)
    ensures PlainTrack(trkpts) ==>
              DecodeGpx(goodGpxContent) == Some(goodSegments) && DecodeGpx(avoidGpxContent) == Some(avoidSegments)
  {
    goodSegments, avoidSegments := SplitSegments(trkpts, intervals, parse);
    goodGpxContent := GenerateGpxContent(goodSegments);
    avoidGpxContent := GenerateGpxContent(avoidSegments);
    if PlainTrack(trkpts) {
      WrittenSegmentsReadBack(Input(trkpts, intervals, parse), "Good");
      WrittenSegmentsReadBack(Input(trkpts, intervals, parse), "Avoid");
    }
  }
}
