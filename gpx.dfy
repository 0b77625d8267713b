/**
 * The GPX writer, `generateGpxContent`: a GPX 1.1 document with one track
 * holding one `<trkseg>` per non-empty segment and one `<trkpt>` per point.
 * A reader for exactly that layout shows that the document records every
 * segment and point, in order.
 */
module Gpx {
  import opened Wrappers
  import opened Strings

  /** The `pointData` object the segmentation keeps for a timed track point. */
  datatype PointData = PointData(lat: string, lon: string, ele: Option<string>, time: string)

  const Header: string :=
    "<?xml version=\"1.0\" encoding=\"UTF-8\"?>\n" +
    "<gpx xmlns=\"http://www.topografix.com/GPX/1/1\" version=\"1.1\" creator=\"SegmentApp\">\n" +
    "  <trk>\n" +
    "    <name>Segmented Track</name>\n"
  const Footer: string := "  </trk>\n</gpx>"

  const SegOpen: string := "    <trkseg>\n"
  const SegClose: string := "    </trkseg>\n"
  const LatOpen: string := "      <trkpt lat=\""
  const LatClose: string := "\""
  const LonOpen: string := " lon=\""
  const LonClose: string := "\">\n"
  const EleOpen: string := "        <ele>"
  const EleClose: string := "</ele>\n"
  const TimeOpen: string := "        <time>"
  const TimeClose: string := "</time>\n"
  const PointClose: string := "      </trkpt>\n"

  /** An element or attribute: its opening text, its value, its closing text. */
  function Field(open: string, v: string, close: string): string {
    open + v + close
  }

  /** The opening `<trkpt>` line of a point. */
  function OpenTag(p: PointData): string {
    Field(LatOpen, p.lat, LatClose) + Field(LonOpen, p.lon, LonClose)
  }

  /** The `<ele>` line, written only when the point has an elevation. */
  function EleText(p: PointData): string {
    match p.ele case None => "" case Some(e) => Field(EleOpen, e, EleClose)
  }

  /** The `<time>` line, always written. */
  function TimeText(p: PointData): string {
    Field(TimeOpen, p.time, TimeClose)
  }

  /** The lines of one point. */
  function PointText(p: PointData): string {
    OpenTag(p) + EleText(p) + TimeText(p) + PointClose
  }

  function PointsText(ps: seq<PointData>): string {
    if |ps| == 0 then "" else PointText(ps[0]) + PointsText(ps[1..])
  }

  /** An empty segment writes nothing. */
  function SegmentText(seg: seq<PointData>): string {
    if |seg| == 0 then "" else SegOpen + PointsText(seg) + SegClose
  }

  function Body(segs: seq<seq<PointData>>): string {
    if |segs| == 0 then "" else SegmentText(segs[0]) + Body(segs[1..])
  }

  /** The document `generateGpxContent(segments)` returns. */
  function GpxDocument(segs: seq<seq<PointData>>): string {
    Header + Body(segs) + Footer
  }

  /** The document opens with the XML declaration and the `<gpx>`, `<trk>` and `<name>` header, and closes the track and the document. */
  lemma DocumentFrame(segs: seq<seq<PointData>>)
    ensures StartsWith(GpxDocument(segs), Header) && EndsWith(GpxDocument(segs), Footer)
  {
    FrameSlices(Header, Body(segs), Footer);
  }

  /** The three parts of `h + b + f` are its slices. */
  lemma FrameSlices<T>(h: seq<T>, b: seq<T>, f: seq<T>)
    ensures var d := h + b + f;
            d[..|h|] == h && d[|d| - |f|..] == f && d[|h|..|d| - |f|] == b
  {
  }

  lemma {:induction false} PointsAppend(ps: seq<PointData>, p: PointData)
    ensures PointsText(ps + [p]) == PointsText(ps) + PointText(p)
    decreases |ps|
  {
    if |ps| == 0 {
      assert ps + [p] == [p];
      assert PointsText([p]) == PointText(p) + PointsText([]);
    } else {
      var all := ps + [p];
      assert all[0] == ps[0];
      assert all[1..] == ps[1..] + [p];
      assert PointsText(all) == PointText(ps[0]) + PointsText(ps[1..] + [p]);
      PointsAppend(ps[1..], p);
      ConcatAssoc(PointText(ps[0]), PointsText(ps[1..]), PointText(p));
    }
  }

  lemma {:induction false} BodyAppend(segs: seq<seq<PointData>>, seg: seq<PointData>)
    ensures Body(segs + [seg]) == Body(segs) + SegmentText(seg)
    decreases |segs|
  {
    if |segs| == 0 {
      assert segs + [seg] == [seg];
      assert Body([seg]) == SegmentText(seg) + Body([]);
    } else {
      var all := segs + [seg];
      assert all[0] == segs[0];
      assert all[1..] == segs[1..] + [seg];
      assert Body(all) == SegmentText(segs[0]) + Body(segs[1..] + [seg]);
      BodyAppend(segs[1..], seg);
      ConcatAssoc(SegmentText(segs[0]), Body(segs[1..]), SegmentText(seg));
    }
  }

  // The appends of the loop body, one at a time.

  lemma AppendOpenTag(g: string, p: PointData)
    ensures g + "      <trkpt lat=\"" + p.lat + "\" lon=\"" + p.lon + "\">\n" == g + OpenTag(p)
  {
  }

  lemma AppendEle(g: string, p: PointData)
    requires p.ele.Some?
    ensures g + "        <ele>" + p.ele.value + "</ele>\n" == g + EleText(p)
  {
  }

  lemma AppendNoEle(g: string, p: PointData)
    requires p.ele.None?
    ensures g == g + EleText(p)
  {
  }

  lemma AppendTime(g: string, p: PointData)
    ensures g + "        <time>" + p.time + "</time>\n" == g + TimeText(p)
  {
  }

  lemma AppendPoint(g: string, seg: seq<PointData>, k: nat)
    requires k < |seg|
    ensures var p := seg[k]; var ps := seg[..k];
            g + PointsText(ps) + OpenTag(p) + EleText(p) + TimeText(p) + PointClose == g + PointsText(seg[..k + 1])
  {
    var p := seg[k];
    var ps := seg[..k];
    TakeNext(seg, k);
    PointsAppend(ps, p);
    ConcatAssoc4(g, PointsText(ps), OpenTag(p), EleText(p), TimeText(p), PointClose);
    ConcatAssoc(g, PointsText(ps), PointText(p));
  }

  lemma AppendSegment(g: string, all: seq<seq<PointData>>, s: nat)
    requires s < |all| && |all[s]| > 0
    ensures var segs := all[..s]; var seg := all[s];
            g + Body(segs) + SegOpen + PointsText(seg) + SegClose == g + Body(all[..s + 1])
  {
    var segs := all[..s];
    var seg := all[s];
    TakeNext(all, s);
    BodyAppend(segs, seg);
    ConcatGroup(g, Body(segs), SegOpen, PointsText(seg), SegClose);
  }

  /** The `segment.forEach` of `generateGpxContent`: one `<trkpt>` per point, appended in order. */
  method WritePoints(start: string, segment: seq<PointData>) returns (gpx: string)
    ensures gpx == start + PointsText(segment)
  {
    gpx := start;
    ConcatEmpty(start);
    for k := 0 to |segment|
      invariant gpx == start + PointsText(segment[..k])
    {
      var pt := segment[k];
      ghost var g0 := gpx;
      AppendOpenTag(g0, pt);
      gpx := gpx + "      <trkpt lat=\"" + pt.lat + "\" lon=\"" + pt.lon + "\">\n";
      ghost var g1 := gpx;
      if pt.ele.Some? {
        AppendEle(g1, pt);
        gpx := gpx + "        <ele>" + pt.ele.value + "</ele>\n";
      } else {
        AppendNoEle(g1, pt);
      }
      ghost var g2 := gpx;
      assert g2 == g0 + OpenTag(pt) + EleText(pt);
      AppendTime(g2, pt);
      gpx := gpx + "        <time>" + pt.time + "</time>\n";
      gpx := gpx + "      </trkpt>\n";
      assert gpx == g2 + TimeText(pt) + PointClose;
      AppendPoint(start, segment, k);
    }
    TakeAll(segment);
  }

  /** `generateGpxContent(segments)`. */
  method GenerateGpxContent(segments: seq<seq<PointData>>) returns (gpx: string)
    ensures gpx == GpxDocument(segments)
  {
    gpx := Header;
    for s := 0 to |segments|
      invariant gpx == Header + Body(segments[..s])
    {
      var segment := segments[s];
      if |segment| > 0 {
        ghost var g0 := gpx;
        AppendSegOpen(g0);
        gpx := gpx + "    <trkseg>\n";
        gpx := WritePoints(gpx, segment);
        AppendSegClose(gpx);
        gpx := gpx + "    </trkseg>\n";
        AppendSegment(Header, segments, s);
      } else {
        SkipSegment(segments, s);
      }
    }
    TakeAll(segments);
    AppendFooter(gpx);
    gpx := gpx + "  </trk>\n</gpx>";
  }

  lemma SkipSegment(all: seq<seq<PointData>>, s: nat)
    requires s < |all| && |all[s]| == 0
    ensures Body(all[..s + 1]) == Body(all[..s])
  {
    TakeNext(all, s);
    BodyAppend(all[..s], all[s]);
    ConcatEmpty(Body(all[..s]));
  }

  lemma AppendSegOpen(g: string)
    ensures g + "    <trkseg>\n" == g + SegOpen
  {
  }

  lemma AppendSegClose(g: string)
    ensures g + "    </trkseg>\n" == g + SegClose
  {
  }

  lemma AppendFooter(g: string)
    ensures g + "  </trk>\n</gpx>" == g + Footer
  {
  }

  // ---------------------------------------------------------------------
  // Reading the document back

  /** `s` without the prefix `lit`, if it has it. */
  function Expect(s: string, lit: string): (r: Option<string>)
    ensures r.Some? ==> |r.value| == |s| - |lit|
  {
    if StartsWith(s, lit) then Some(s[|lit|..]) else None
  }

  /** `s` cut before the first `c`: the part free of `c` and the rest, which starts with `c` if non-empty. */
  function TakeUntil(s: string, c: char): (r: (string, string))
    ensures r.0 + r.1 == s && c !in r.0 && (|r.1| == 0 || r.1[0] == c)
  {
    if |s| == 0 then ("", "")
    else if s[0] == c then ("", s)
    else
      var (a, b) := TakeUntil(s[1..], c);
      ConcatAssoc([s[0]], a, b);
      assert [s[0]] + s[1..] == s;
      ([s[0]] + a, b)
  }

  /** A field: `open`, a value up to the first character of `close`, then `close`. */
  function ParseField(s: string, open: string, close: string): (r: Option<(string, string)>)
    requires |close| > 0
    ensures r.Some? ==> |r.value.1| <= |s| - |open| - |close|
  {
    match Expect(s, open)
    case None => None
    case Some(s1) =>
      var (v, s2) := TakeUntil(s1, close[0]);
      match Expect(s2, close)
      case None => None
      case Some(s3) => Some((v, s3))
  }

  function ParseEle(s: string): (r: Option<(Option<string>, string)>)
    ensures r.Some? ==> |r.value.1| <= |s|
  {
    if StartsWith(s, EleOpen) then
      match ParseField(s, EleOpen, EleClose)
      case None => None
      case Some((e, rest)) => Some((Some(e), rest))
    else Some((None, s))
  }

  function ParsePoint(s: string): (r: Option<(PointData, string)>)
    ensures r.Some? ==> |r.value.1| < |s|
  {
    match ParseField(s, LatOpen, LatClose)
    case None => None
    case Some((lat, s1)) =>
      match ParseField(s1, LonOpen, LonClose)
      case None => None
      case Some((lon, s2)) =>
        match ParseEle(s2)
        case None => None
        case Some((ele, s3)) =>
          match ParseField(s3, TimeOpen, TimeClose)
          case None => None
          case Some((time, s4)) =>
            match Expect(s4, PointClose)
            case None => None
            case Some(s5) => Some((PointData(lat, lon, ele, time), s5))
  }

  /** The points of a segment: as many as follow one another. */
  function ParsePoints(s: string): (r: Option<(seq<PointData>, string)>)
    ensures r.Some? ==> |r.value.1| <= |s|
    decreases |s|
  {
    if StartsWith(s, LatOpen) then
      match ParsePoint(s)
      case None => None
      case Some((p, s1)) =>
        match ParsePoints(s1)
        case None => None
        case Some((ps, s2)) => Some(([p] + ps, s2))
    else Some(([], s))
  }

  function ParseSegments(s: string): Option<seq<seq<PointData>>>
    decreases |s|
  {
    if |s| == 0 then Some([])
    else
      match Expect(s, SegOpen)
      case None => None
      case Some(s1) =>
        match ParsePoints(s1)
        case None => None
        case Some((ps, s2)) =>
          match Expect(s2, SegClose)
          case None => None
          case Some(s3) =>
            match ParseSegments(s3)
            case None => None
            case Some(segs) => Some([ps] + segs)
  }

  /** The segments a document written by `generateGpxContent` records. */
  function DecodeGpx(doc: string): Option<seq<seq<PointData>>> {
    if |Header| + |Footer| <= |doc| && StartsWith(doc, Header) && EndsWith(doc, Footer)
    then ParseSegments(doc[|Header|..|doc| - |Footer|])
    else None
  }

  /** The segments that are written: the non-empty ones, in order. */
  function NonEmpty(segs: seq<seq<PointData>>): (r: seq<seq<PointData>>)
    ensures forall k :: 0 <= k < |r| ==> |r[k]| > 0
  {
    if |segs| == 0 then []
    else if |segs[0]| == 0 then NonEmpty(segs[1..])
    else [segs[0]] + NonEmpty(segs[1..])
  }

  /** Segments that are all non-empty are all written. */
  lemma {:induction false} NonEmptyAll(segs: seq<seq<PointData>>)
    requires forall k :: 0 <= k < |segs| ==> |segs[k]| > 0
    ensures NonEmpty(segs) == segs
    decreases |segs|
  {
    if |segs| > 0 {
      NonEmptyAll(segs[1..]);
      assert [segs[0]] + segs[1..] == segs;
    }
  }

  /** Values the document can carry unescaped: no quote in an attribute, no `<` in an element. */
  predicate Plain(p: PointData) {
    '"' !in p.lat && '"' !in p.lon && (p.ele.Some? ==> '<' !in p.ele.value) && '<' !in p.time
  }

  lemma ExpectConcat(lit: string, x: string)
    ensures Expect(lit + x, lit) == Some(x)
  {
    assert (lit + x)[..|lit|] == lit;
    assert (lit + x)[|lit|..] == x;
  }

  lemma {:induction false} TakeUntilConcat(a: string, c: char, y: string)
    requires c !in a && |y| > 0 && y[0] == c
    ensures TakeUntil(a + y, c) == (a, y)
    decreases |a|
  {
    if |a| > 0 {
      assert (a + y)[1..] == a[1..] + y;
      TakeUntilConcat(a[1..], c, y);
      assert [a[0]] + a[1..] == a;
    } else {
      assert a + y == y;
    }
  }

  lemma FieldRoundTrip(open: string, v: string, close: string, rest: string)
    requires |close| > 0 && close[0] !in v
    ensures ParseField(Field(open, v, close) + rest, open, close) == Some((v, rest))
  {
    ConcatAssoc(open + v, close, rest);
    ConcatAssoc(open, v, close + rest);
    ExpectConcat(open, v + (close + rest));
    TakeUntilConcat(v, close[0], close + rest);
    ExpectConcat(close, rest);
  }

  lemma PointParts(p: PointData, rest: string)
    ensures PointText(p) + rest ==
              Field(LatOpen, p.lat, LatClose) + (Field(LonOpen, p.lon, LonClose) +
              (EleText(p) + (TimeText(p) + (PointClose + rest))))
  {
    var a, b, c, d, e := Field(LatOpen, p.lat, LatClose), Field(LonOpen, p.lon, LonClose), EleText(p), TimeText(p), PointClose;
    ConcatAssoc4(a, b, c, d, e, rest);
    ConcatAssoc(b, c, d + e + rest);
    ConcatAssoc(c, d, e + rest);
    ConcatAssoc(d, e, rest);
    ConcatAssoc(b + c, d, e + rest);
    ConcatAssoc(b, c, d + (e + rest));
  }

  lemma EleRoundTrip(p: PointData, rest: string)
    requires Plain(p) && StartsWith(rest, TimeOpen)
    ensures ParseEle(EleText(p) + rest) == Some((p.ele, rest))
  {
    match p.ele
    case None =>
      assert EleText(p) + rest == rest;
      assert rest[9] == TimeOpen[9] != EleOpen[9];
    case Some(e) =>
      FieldRoundTrip(EleOpen, e, EleClose, rest);
      assert (EleText(p) + rest)[..|EleOpen|] == EleOpen;
  }

  lemma PointRoundTrip(p: PointData, rest: string)
    requires Plain(p)
    ensures ParsePoint(PointText(p) + rest) == Some((p, rest))
  {
    var r4 := PointClose + rest;
    var r3 := TimeText(p) + r4;
    var r2 := EleText(p) + r3;
    var r1 := Field(LonOpen, p.lon, LonClose) + r2;
    PointParts(p, rest);
    FieldRoundTrip(LatOpen, p.lat, LatClose, r1);
    FieldRoundTrip(LonOpen, p.lon, LonClose, r2);
    ConcatAssoc(TimeOpen, p.time, TimeClose);
    ConcatAssoc(TimeOpen, p.time + TimeClose, r4);
    assert StartsWith(r3, TimeOpen);
    EleRoundTrip(p, r3);
    FieldRoundTrip(TimeOpen, p.time, TimeClose, r4);
    ExpectConcat(PointClose, rest);
  }

  lemma {:induction false} PointsRoundTrip(ps: seq<PointData>, tail: string)
    requires forall k :: 0 <= k < |ps| ==> Plain(ps[k])
    requires !StartsWith(tail, LatOpen)
    ensures ParsePoints(PointsText(ps) + tail) == Some((ps, tail))
    decreases |ps|
  {
    if |ps| == 0 {
      assert PointsText(ps) + tail == tail;
    } else {
      var s1 := PointsText(ps[1..]) + tail;
      ConcatAssoc(PointText(ps[0]), PointsText(ps[1..]), tail);
      PointStartsWithLat(ps[0], s1);
      PointRoundTrip(ps[0], s1);
      PointsRoundTrip(ps[1..], tail);
      ParsePointsCons(PointText(ps[0]) + s1, ps[0], s1, ps[1..], tail);
      assert [ps[0]] + ps[1..] == ps;
    }
  }

  /** A written point starts with the opening of a `<trkpt>`. */
  lemma PointStartsWithLat(p: PointData, rest: string)
    ensures StartsWith(PointText(p) + rest, LatOpen)
  {
    PointParts(p, rest);
    var r := Field(LonOpen, p.lon, LonClose) + (EleText(p) + (TimeText(p) + (PointClose + rest)));
    ConcatAssoc(LatOpen, p.lat, LatClose);
    ConcatAssoc(LatOpen, p.lat + LatClose, r);
    PrefixOfConcat(LatOpen, p.lat + LatClose + r);
  }

  lemma PrefixOfConcat(a: string, b: string)
    ensures StartsWith(a + b, a)
  {
    assert (a + b)[..|a|] == a;
  }

  lemma ParsePointsCons(s: string, p: PointData, s1: string, ps: seq<PointData>, tail: string)
    requires StartsWith(s, LatOpen) && ParsePoint(s) == Some((p, s1)) && ParsePoints(s1) == Some((ps, tail))
    ensures ParsePoints(s) == Some(([p] + ps, tail))
  {
  }

  /** The end of a segment is not the start of a point. */
  lemma SegCloseIsNoPoint(rest: string)
    ensures !StartsWith(SegClose + rest, LatOpen)
  {
    assert (SegClose + rest)[4] == SegClose[4] != LatOpen[4];
  }

  lemma ParseSegmentsCons(x: string, ps: seq<PointData>, rest: string, segs: seq<seq<PointData>>)
    requires ParsePoints(x) == Some((ps, SegClose + rest)) && ParseSegments(rest) == Some(segs)
    ensures ParseSegments(SegOpen + x) == Some([ps] + segs)
  {
    ExpectConcat(SegOpen, x);
    ExpectConcat(SegClose, rest);
  }

  /** One written segment reads back as its points, followed by what comes after it. */
  lemma SegmentRoundTrip(seg: seq<PointData>, rest: string, segs: seq<seq<PointData>>)
    requires |seg| > 0 && forall k :: 0 <= k < |seg| ==> Plain(seg[k])
    requires ParseSegments(rest) == Some(segs)
    ensures ParseSegments(SegmentText(seg) + rest) == Some([seg] + segs)
  {
    var tail := SegClose + rest;
    SegCloseIsNoPoint(rest);
    ConcatAssoc3(SegOpen, PointsText(seg), SegClose, rest);
    PointsRoundTrip(seg, tail);
    ParseSegmentsCons(PointsText(seg) + tail, seg, rest, segs);
  }

  lemma {:induction false} BodyRoundTrip(segs: seq<seq<PointData>>)
    requires forall j, k :: 0 <= j < |segs| && 0 <= k < |segs[j]| ==> Plain(segs[j][k])
    ensures ParseSegments(Body(segs)) == Some(NonEmpty(segs))
    decreases |segs|
  {
    if |segs| > 0 {
      BodyRoundTrip(segs[1..]);
      if |segs[0]| == 0 {
        assert Body(segs) == Body(segs[1..]);
      } else {
        SegmentRoundTrip(segs[0], Body(segs[1..]), NonEmpty(segs[1..]));
      }
    }
  }

  /**
   * The round trip of the writer: the document records exactly the
   * non-empty segments, in order, with every point, in order, and each
   * point's coordinates, elevation when it has one, and time.
   */
  lemma GpxRoundTrip(segs: seq<seq<PointData>>)
    requires forall j, k :: 0 <= j < |segs| && 0 <= k < |segs[j]| ==> Plain(segs[j][k])
    ensures DecodeGpx(GpxDocument(segs)) == Some(NonEmpty(segs))
  {
    FrameSlices(Header, Body(segs), Footer);
    BodyRoundTrip(segs);
  }
}
