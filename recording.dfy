/**
 * Interval extraction: `parseRecordingText` turns a recorded log, one
 * `Start|Toggle|End: <state> at <time>` entry per line, into the list of
 * `{state, start, end}` intervals it describes.
 */
module Recording {
  import opened Wrappers
  import opened Strings

  datatype Kind = Start | Toggle | End

  /** The three groups captured by the log-line pattern. */
  datatype LineMatch = LineMatch(kind: Kind, state: string, rawTime: string)

  /** A log entry, with its time already normalised. */
  datatype Entry = Entry(kind: Kind, state: string, time: string)

  /** An interval during which the recorded state held, `start` included, `end` excluded. */
  datatype Interval = Interval(state: string, start: string, end: string)

  /** The interval left open by the last Start or Toggle entry. */
  datatype Open = Open(state: string, start: string)

  function KindName(k: Kind): string {
    match k
    case Start => "Start"
    case Toggle => "Toggle"
    case End => "End"
  }

  /** `\w`: the regular-expression word characters. */
  predicate IsWordChar(c: char) {
    'a' <= c <= 'z' || 'A' <= c <= 'Z' || '0' <= c <= '9' || c == '_'
  }

  /** The characters that `.` does not match. */
  predicate IsLineTerminator(c: char) {
    c == '\n' || c == '\r' || c == '\U{2028}' || c == '\U{2029}'
  }

  /** End of the longest run of word characters starting at `i`. */
  function WordEnd(s: string, i: nat): (j: nat)
    requires i <= |s|
    ensures i <= j <= |s|
    ensures forall k :: i <= k < j ==> IsWordChar(s[k])
    ensures j == |s| || !IsWordChar(s[j])
    decreases |s| - i
  {
    if i < |s| && IsWordChar(s[i]) then WordEnd(s, i + 1) else i
  }

  /** End of the longest run of characters other than line terminators starting at `i`. */
  function LineEnd(s: string, i: nat): (j: nat)
    requires i <= |s|
    ensures i <= j <= |s|
    ensures forall k :: i <= k < j ==> !IsLineTerminator(s[k])
    ensures j == |s| || IsLineTerminator(s[j])
    decreases |s| - i
  {
    if i < |s| && !IsLineTerminator(s[i]) then LineEnd(s, i + 1) else i
  }

  /** Which alternative of `(Start|Toggle|End)` matches at `p`; at most one can. */
  function KindAt(s: string, p: nat): (k: Option<Kind>)
    ensures k.Some? ==> OccursAt(s, KindName(k.value), p)
    ensures k.None? ==> forall kind :: !OccursAt(s, KindName(kind), p)
  {
    if OccursAt(s, "Start", p) then Some(Start)
    else if OccursAt(s, "Toggle", p) then Some(Toggle)
    else if OccursAt(s, "End", p) then Some(End)
    else None
  }

  /** The text `<Kind>: <state> at <time>` of one log line. */
  function EntryText(kind: Kind, state: string, time: string): string {
    KindName(kind) + ": " + state + " at " + time
  }

  /**
   * The pattern `(Start|Toggle|End): (\w+) at (.+)` tried at position `p`
   * of `s`. A shorter `\w+` would leave a word character where the space
   * must be, so the state is the whole word; `.+` is greedy and takes the
   * rest of the line.
   */
  function MatchAt(s: string, p: nat): Option<LineMatch>
  {
    match KindAt(s, p)
    case None => None
    case Some(k) =>
      var q := p + |KindName(k)|;
      if !OccursAt(s, ": ", q) then None
      else
        var w := WordEnd(s, q + 2);
        if w == q + 2 || !OccursAt(s, " at ", w) then None
        else
          var v := LineEnd(s, w + 4);
          if v == w + 4 then None
          else Some(LineMatch(k, s[q + 2..w], s[w + 4..v]))
  }

  /** Soundness: what the pattern captures at `p` is laid out there as an entry. */
  lemma MatchAtSoundAt(s: string, p: nat)
    ensures MatchAt(s, p).Some? ==> MatchesAt(s, p, MatchAt(s, p).value)
  {
    if MatchAt(s, p).Some? {
      var k := KindAt(s, p).value;
      var q := p + |KindName(k)|;
      var w := WordEnd(s, q + 2);
      var v := LineEnd(s, w + 4);
      MatchAtSound(s, p, MatchAt(s, p).value, q, w, v);
    }
  }

  /** The state is a non-empty word. */
  predicate IsWord(t: string) {
    |t| > 0 && forall i :: 0 <= i < |t| ==> IsWordChar(t[i])
  }

  /** The time is non-empty and free of line terminators. */
  predicate IsLineText(t: string) {
    |t| > 0 && forall i :: 0 <= i < |t| ==> !IsLineTerminator(t[i])
  }

  /** `m` is what the pattern captures when it matches at `p`: the text of the entry, up to a line end. */
  predicate MatchesAt(s: string, p: nat, m: LineMatch) {
    var e := p + |EntryText(m.kind, m.state, m.rawTime)|;
    && OccursAt(s, EntryText(m.kind, m.state, m.rawTime), p)
    && IsWord(m.state)
    && IsLineText(m.rawTime)
    && (e == |s| || IsLineTerminator(s[e]))
  }

  lemma MatchAtSound(s: string, p: nat, m: LineMatch, q: nat, w: nat, v: nat)
    requires q == p + |KindName(m.kind)| && OccursAt(s, KindName(m.kind), p)
    requires OccursAt(s, ": ", q) && q + 2 < w <= |s| && OccursAt(s, " at ", w)
    requires w + 4 < v <= |s| && m.state == s[q + 2..w] && m.rawTime == s[w + 4..v]
    requires forall k :: q + 2 <= k < w ==> IsWordChar(s[k])
    requires forall k :: w + 4 <= k < v ==> !IsLineTerminator(s[k])
    requires v == |s| || IsLineTerminator(s[v])
    ensures MatchesAt(s, p, m)
  {
    SliceParts(s, p, q, q + 2, w, w + 4, v);
  }

  /** The leftmost position at or after `p` where the pattern matches. */
  function FirstMatch(s: string, p: nat): (r: Option<nat>)
    requires p <= |s|
    ensures r.Some? ==> p <= r.value <= |s| && MatchAt(s, r.value).Some?
    ensures r.Some? ==> forall k :: p <= k < r.value ==> MatchAt(s, k).None?
    ensures r.None? ==> forall k :: p <= k <= |s| ==> MatchAt(s, k).None?
    decreases |s| - p
  {
    if MatchAt(s, p).Some? then Some(p)
    else if p == |s| then None
    else FirstMatch(s, p + 1)
  }

  /** `line.match(/(Start|Toggle|End): (\w+) at (.+)/)`: the pattern is not anchored. */
  function MatchLine(line: string): Option<LineMatch> {
    match FirstMatch(line, 0)
    case None => None
    case Some(k) => MatchAt(line, k)
  }

  /** A line has a match exactly when the pattern matches at some position of it; the match is the leftmost. */
  lemma MatchLineLeftmost(line: string)
    ensures MatchLine(line).Some? <==> exists k :: 0 <= k <= |line| && MatchAt(line, k).Some?
    ensures forall k :: 0 <= k <= |line| && MatchAt(line, k).Some? ==>
              exists j :: 0 <= j <= k && MatchLine(line) == MatchAt(line, j) && forall i :: 0 <= i < j ==> MatchAt(line, i).None?
  {
    match FirstMatch(line, 0)
    case None =>
    case Some(j) =>
      forall k | 0 <= k <= |line| && MatchAt(line, k).Some?
        ensures exists j :: 0 <= j <= k && MatchLine(line) == MatchAt(line, j) && forall i :: 0 <= i < j ==> MatchAt(line, i).None?
      {
        assert j <= k;
      }
  }

  /** The pattern at `p` captures `m` exactly when `m` is what it describes there. */
  lemma MatchAtExactly(s: string, p: nat, m: LineMatch)
    ensures MatchAt(s, p) == Some(m) <==> MatchesAt(s, p, m)
  {
    MatchAtSoundAt(s, p);
    if MatchesAt(s, p, m) {
      MatchAtComplete(s, p, m);
    }
  }

  /**
   * A line has a match exactly when the text of an entry occurs in it up to
   * a line end; the match is the one at the leftmost such position.
   */
  lemma MatchLineExactly(line: string)
    ensures MatchLine(line).Some? <==> exists k, m :: 0 <= k <= |line| && MatchesAt(line, k, m)
    ensures MatchLine(line).Some? ==>
              exists k :: 0 <= k <= |line| && MatchesAt(line, k, MatchLine(line).value) &&
                forall i, m :: 0 <= i < k ==> !MatchesAt(line, i, m)
  {
    forall k, m | 0 <= k <= |line|
      ensures MatchAt(line, k) == Some(m) <==> MatchesAt(line, k, m)
    {
      MatchAtExactly(line, k, m);
    }
    match FirstMatch(line, 0)
    case None =>
    case Some(j) =>
      assert MatchesAt(line, j, MatchLine(line).value);
  }

  /**
   * A line that is exactly `<Kind>: <state> at <time>`, with a word for
   * the state and a time free of line terminators, matches at its start
   * and gives back its three parts.
   */
  lemma MatchEntryText(kind: Kind, state: string, time: string)
    requires IsWord(state) && IsLineText(time)
    ensures MatchLine(EntryText(kind, state, time)) == Some(LineMatch(kind, state, time))
  {
    MatchAtEntryText(kind, state, time);
    assert FirstMatch(EntryText(kind, state, time), 0) == Some(0);
  }

  /** The pattern tried at the start of an entry's text captures its three parts. */
  lemma MatchAtEntryText(kind: Kind, state: string, time: string)
    requires IsWord(state) && IsLineText(time)
    ensures MatchAt(EntryText(kind, state, time), 0) == Some(LineMatch(kind, state, time))
  {
    EntryTextParts(kind, state, time);
    MatchLaidOut(EntryText(kind, state, time), kind, state, time);
  }

  lemma MatchLaidOut(s: string, kind: Kind, state: string, time: string)
    requires IsWord(state) && IsLineText(time)
    requires var q := |KindName(kind)|;
             var w := q + 2 + |state|;
             && |s| == w + 4 + |time|
             && OccursAt(s, KindName(kind), 0) && OccursAt(s, ": ", q) && OccursAt(s, " at ", w)
             && s[q + 2..w] == state && s[w + 4..] == time
    ensures MatchAt(s, 0) == Some(LineMatch(kind, state, time))
  {
    var q := |KindName(kind)|;
    var w := q + 2 + |state|;
    KindAtEntryText(kind, s, 0);
    assert s[w] == ' ';
    WordEndAt(s, q + 2, w);
    assert forall k :: w + 4 <= k < |s| ==> s[k] == time[k - w - 4];
    LineEndAt(s, w + 4);
    MatchAtParts(s, kind, state, time, w);
  }

  /** The pattern at 0 of a text laid out as `<Kind>: <state> at <time>`, whichever text it is. */
  lemma MatchAtParts(s: string, kind: Kind, state: string, time: string, w: nat)
    requires KindAt(s, 0) == Some(kind) && w == |KindName(kind)| + 2 + |state|
    requires OccursAt(s, ": ", |KindName(kind)|) && |state| > 0 && WordEnd(s, |KindName(kind)| + 2) == w
    requires OccursAt(s, " at ", w) && |time| > 0 && LineEnd(s, w + 4) == |s| && |s| == w + 4 + |time|
    requires s[|KindName(kind)| + 2..w] == state && s[w + 4..] == time
    ensures MatchAt(s, 0) == Some(LineMatch(kind, state, time))
  {
    assert s[w + 4..|s|] == time;
  }

  lemma EntryTextParts(kind: Kind, state: string, time: string)
    ensures var s := EntryText(kind, state, time);
            var q := |KindName(kind)|;
            var w := q + 2 + |state|;
            && |s| == w + 4 + |time|
            && OccursAt(s, KindName(kind), 0) && OccursAt(s, ": ", q) && OccursAt(s, " at ", w)
            && s[q + 2..w] == state && s[w + 4..] == time
  {
    FiveParts(KindName(kind), ": ", state, " at ", time);
  }

  /** The three kind names begin with different letters, so the one that occurs is the one found. */
  lemma KindAtEntryText(kind: Kind, s: string, p: nat)
    requires OccursAt(s, KindName(kind), p)
    ensures KindAt(s, p) == Some(kind)
  {
    assert s[p] == s[p..p + |KindName(kind)|][0] == KindName(kind)[0];
  }

  lemma WordEndAt(s: string, i: nat, w: nat)
    requires i <= w < |s| && IsWord(s[i..w]) && s[w] == ' '
    ensures WordEnd(s, i) == w
  {
    assert forall k :: i <= k < w ==> s[k] == s[i..w][k - i];
    WordEndTo(s, i, w);
  }

  lemma {:induction false} WordEndTo(s: string, i: nat, w: nat)
    requires i <= w < |s| && (forall k :: i <= k < w ==> IsWordChar(s[k])) && !IsWordChar(s[w])
    ensures WordEnd(s, i) == w
    decreases w - i
  {
    if i < w {
      WordEndTo(s, i + 1, w);
    }
  }

  lemma {:induction false} LineEndTo(s: string, i: nat, e: nat)
    requires i <= e <= |s| && forall k :: i <= k < e ==> !IsLineTerminator(s[k])
    requires e == |s| || IsLineTerminator(s[e])
    ensures LineEnd(s, i) == e
    decreases e - i
  {
    if i < e {
      LineEndTo(s, i + 1, e);
    }
  }

  /**
   * Completeness: wherever the text of an entry occurs, up to a line end,
   * the pattern tried at that position captures exactly its parts.
   */
  lemma MatchAtComplete(s: string, p: nat, m: LineMatch)
    requires MatchesAt(s, p, m)
    ensures MatchAt(s, p) == Some(m)
  {
    var q := p + |KindName(m.kind)|;
    var w := q + 2 + |m.state|;
    var e := w + 4 + |m.rawTime|;
    OccursParts(s, p, m.kind, m.state, m.rawTime);
    KindAtEntryText(m.kind, s, p);
    assert s[w] == s[w..w + 4][0];
    WordEndAt(s, q + 2, w);
    assert forall k :: w + 4 <= k < e ==> s[k] == s[w + 4..e][k - w - 4];
    LineEndTo(s, w + 4, e);
    MatchAtLaidOut(s, p, m, w, e);
  }

  /** The pattern at `p` of a text laid out as `<Kind>: <state> at <time>` up to `e`. */
  lemma MatchAtLaidOut(s: string, p: nat, m: LineMatch, w: nat, e: nat)
    requires KindAt(s, p) == Some(m.kind) && w == p + |KindName(m.kind)| + 2 + |m.state|
    requires OccursAt(s, ": ", p + |KindName(m.kind)|) && |m.state| > 0 && WordEnd(s, p + |KindName(m.kind)| + 2) == w
    requires OccursAt(s, " at ", w) && |m.rawTime| > 0 && e == w + 4 + |m.rawTime| && LineEnd(s, w + 4) == e
    requires s[p + |KindName(m.kind)| + 2..w] == m.state && s[w + 4..e] == m.rawTime
    ensures MatchAt(s, p) == Some(m)
  {
    var q := p + |KindName(m.kind)|;
    var found := LineMatch(m.kind, s[q + 2..w], s[w + 4..e]);
    assert found == m;
    assert w != q + 2 && e != w + 4;
    assert MatchAt(s, p) == Some(found);
  }

  /** Where the text of an entry occurs, so do its five parts, one after the other. */
  lemma OccursParts(s: string, p: nat, kind: Kind, state: string, time: string)
    requires OccursAt(s, EntryText(kind, state, time), p)
    ensures var q := p + |KindName(kind)|;
            var w := q + 2 + |state|;
            && w + 4 + |time| <= |s|
            && OccursAt(s, KindName(kind), p) && OccursAt(s, ": ", q) && OccursAt(s, " at ", w)
            && s[q + 2..w] == state && s[w + 4..w + 4 + |time|] == time
  {
    PartsAt(s, p, KindName(kind), ": ", state, " at ", time);
  }

  lemma LineEndAt(s: string, i: nat)
    requires i <= |s| && forall k :: i <= k < |s| ==> !IsLineTerminator(s[k])
    ensures LineEnd(s, i) == |s|
  {
  }

  /** `rawTime.replace('+00:00Z', 'Z')`. */
  function Normalize(rawTime: string): string {
    ReplaceFirst(rawTime, "+00:00Z", "Z")
  }

  /**
   * Normalising turns the first `+00:00Z` into `Z` and keeps everything
   * else; a time without one is unchanged.
   */
  lemma NormalizeSpec(rawTime: string)
    ensures (forall k: nat :: !OccursAt(rawTime, "+00:00Z", k)) ==> Normalize(rawTime) == rawTime
    ensures forall k: nat :: OccursAt(rawTime, "+00:00Z", k) && (forall j: nat :: j < k ==> !OccursAt(rawTime, "+00:00Z", j)) ==>
              Normalize(rawTime) == rawTime[..k] + "Z" + rawTime[k + 7..]
  {
    if forall k: nat :: !OccursAt(rawTime, "+00:00Z", k) {
      ReplaceFirstAbsent(rawTime, "+00:00Z", "Z");
    }
    forall k: nat | OccursAt(rawTime, "+00:00Z", k) && (forall j: nat :: j < k ==> !OccursAt(rawTime, "+00:00Z", j))
      ensures Normalize(rawTime) == rawTime[..k] + "Z" + rawTime[k + 7..]
    {
      ReplaceFirstAt(rawTime, "+00:00Z", "Z", k);
    }
  }

  /** A time written with the `+00:00Z` offset loses it, once. */
  lemma NormalizeOffset(d: string)
    requires forall k: nat :: k < |d| ==> !OccursAt(d + "+00:00Z", "+00:00Z", k)
    ensures Normalize(d + "+00:00Z") == d + "Z"
  {
    var s := d + "+00:00Z";
    assert s[|d|..|d| + 7] == "+00:00Z";
    ReplaceFirstAt(s, "+00:00Z", "Z", |d|);
    assert s[..|d|] == d && s[|d| + 7..] == [];
  }

  /** The entry a line contributes, if it matches the pattern. */
  function EntryOf(line: string): Option<Entry> {
    match MatchLine(line)
    case None => None
    case Some(m) => Some(Entry(m.kind, m.state, Normalize(m.rawTime)))
  }

  /** `text.trim().split('\n')`. */
  function Lines(text: string): seq<string> {
    Split(Trim(text), '\n')
  }

  /** The entries of the matching lines, in order. */
  function Entries(lines: seq<string>): (es: seq<Entry>)
    ensures |es| <= |lines|
  {
    if |lines| == 0 then []
    else
      Entries(lines[..|lines| - 1]) +
      (match EntryOf(lines[|lines| - 1]) case None => [] case Some(e) => [e])
  }

  /** A Start or a Toggle entry: one that opens an interval. */
  predicate Opens(e: Entry) {
    e.kind != End
  }

  /** The interval open after `es`: the one the last Start or Toggle opened. End closes nothing. */
  function OpenAfter(es: seq<Entry>): Option<Open> {
    if |es| == 0 then None
    else if Opens(es[|es| - 1]) then Some(Open(es[|es| - 1].state, es[|es| - 1].time))
    else OpenAfter(es[..|es| - 1])
  }

  /**
   * The intervals the entries describe: every entry, of any kind, closes
   * the interval that is open before it, if there is one, at its own time.
   */
  function Intervals(es: seq<Entry>): seq<Interval> {
    if |es| == 0 then []
    else
      Intervals(es[..|es| - 1]) +
      (match OpenAfter(es[..|es| - 1])
       case None => []
       case Some(o) => [Interval(o.state, o.start, es[|es| - 1].time)])
  }

  lemma EntriesStep(lines: seq<string>, i: nat)
    requires i < |lines|
    ensures Entries(lines[..i + 1]) ==
              Entries(lines[..i]) + (match EntryOf(lines[i]) case None => [] case Some(e) => [e])
  {
    assert lines[..i + 1][..i] == lines[..i];
  }

  /** A line that matches adds its entry. */
  lemma EntriesTake(lines: seq<string>, i: nat, e: Entry)
    requires i < |lines| && EntryOf(lines[i]) == Some(e)
    ensures Entries(lines[..i + 1]) == Entries(lines[..i]) + [e]
  {
    EntriesStep(lines, i);
  }

  /** A line that does not match contributes nothing. */
  lemma EntriesSkip(lines: seq<string>, i: nat)
    requires i < |lines| && MatchLine(lines[i]).None?
    ensures Entries(lines[..i + 1]) == Entries(lines[..i])
  {
    EntriesStep(lines, i);
  }

  /** How one more entry extends the open interval and the intervals. */
  lemma AppendEntry(es: seq<Entry>, e: Entry)
    ensures OpenAfter(es + [e]) == if Opens(e) then Some(Open(e.state, e.time)) else OpenAfter(es)
    ensures Intervals(es + [e]) ==
              Intervals(es) + (match OpenAfter(es) case None => [] case Some(o) => [Interval(o.state, o.start, e.time)])
  {
    assert (es + [e])[..|es|] == es;
  }

  /** `parseRecordingText(text)`. */
  method ParseRecordingText(text: string) returns (intervals: seq<Interval>)
    ensures intervals == Intervals(Entries(Lines(text)))
  {
    var lines := Split(Trim(text), '\n');
    intervals := [];
    var currentState: Option<string> := None;
    var currentStartTime: Option<string> := None;
    ghost var es: seq<Entry> := [];
    for i := 0 to |lines|
      invariant es == Entries(lines[..i])
      invariant intervals == Intervals(es)
      invariant currentState.Some? <==> currentStartTime.Some?
      invariant currentState.None? ==> OpenAfter(es) == None
      invariant currentState.Some? ==> OpenAfter(es) == Some(Open(currentState.value, currentStartTime.value))
    {
      var m := MatchLine(lines[i]);
      if m.Some? {
        var time := Normalize(m.value.rawTime);
        ghost var e := Entry(m.value.kind, m.value.state, time);
        EntriesTake(lines, i, e);
        AppendEntry(es, e);
        if m.value.kind == Start || m.value.kind == Toggle {
          if currentState.Some? && currentStartTime.Some? {
            intervals := intervals + [Interval(currentState.value, currentStartTime.value, time)];
          }
          currentState := Some(m.value.state);
          currentStartTime := Some(time);
        }
        if m.value.kind == End {
          if currentState.Some? && currentStartTime.Some? {
            intervals := intervals + [Interval(currentState.value, currentStartTime.value, time)];
          }
        }
        es := es + [e];
      } else {
        EntriesSkip(lines, i);
      }
    }
    TakeAll(lines);
  }

  // ---------------------------------------------------------------------
  // What the parser promises

  /** `f` is the position of the first Start or Toggle entry. */
  predicate IsFirstOpener(es: seq<Entry>, f: nat) {
    f < |es| && Opens(es[f]) && forall j :: 0 <= j < f ==> !Opens(es[j])
  }

  /** Without a Start or Toggle entry nothing is open and no interval is emitted. */
  lemma {:induction false} NoOpenerNoIntervals(es: seq<Entry>)
    requires forall j :: 0 <= j < |es| ==> !Opens(es[j])
    ensures OpenAfter(es) == None && Intervals(es) == []
  {
    if |es| > 0 {
      NoOpenerNoIntervals(es[..|es| - 1]);
    }
  }

  /** After a Start or Toggle at `j`, followed only by End entries, the interval `j` opened is open. */
  lemma {:induction false} OpenAfterLastOpener(es: seq<Entry>, j: nat)
    requires j < |es| && Opens(es[j])
    requires forall k :: j < k < |es| ==> !Opens(es[k])
    ensures OpenAfter(es) == Some(Open(es[j].state, es[j].time))
    decreases |es|
  {
    if j < |es| - 1 {
      OpenAfterLastOpener(es[..|es| - 1], j);
    }
  }

  /** Once a Start or Toggle has been seen, some interval is open. */
  lemma {:induction false} OpenAfterOpener(es: seq<Entry>, j: nat)
    requires j < |es| && Opens(es[j])
    ensures OpenAfter(es).Some?
    decreases |es|
  {
    if !Opens(es[|es| - 1]) {
      OpenAfterOpener(es[..|es| - 1], j);
    }
  }

  /** Entries up to and including the first Start or Toggle emit nothing; every later entry emits one interval. */
  lemma {:induction false} IntervalsCount(es: seq<Entry>, f: nat)
    requires IsFirstOpener(es, f)
    ensures |Intervals(es)| == |es| - f - 1
    decreases |es|
  {
    var prev := es[..|es| - 1];
    assert es == prev + [es[|es| - 1]];
    AppendEntry(prev, es[|es| - 1]);
    if |es| == f + 1 {
      NoOpenerNoIntervals(prev);
    } else {
      IntervalsCount(prev, f);
      OpenAfterOpener(prev, f);
    }
  }

  /** The interval at position `m` is closed by the entry `f + 1 + m`, at that entry's time. */
  lemma {:induction false} IntervalEnd(es: seq<Entry>, f: nat, m: nat)
    requires IsFirstOpener(es, f) && m < |es| - f - 1
    ensures |Intervals(es)| == |es| - f - 1
    ensures Intervals(es)[m].end == es[f + 1 + m].time
    decreases |es|
  {
    IntervalsCount(es, f);
    var prev := es[..|es| - 1];
    assert es == prev + [es[|es| - 1]];
    AppendEntry(prev, es[|es| - 1]);
    OpenAfterOpener(prev, f);
    if m < |prev| - f - 1 {
      IntervalsCount(prev, f);
      IntervalEnd(prev, f, m);
    } else {
      IntervalsCount(prev, f);
    }
  }

  /**
   * Where the interval at position `m` starts: the first one where the
   * first Start or Toggle `f` opened it; a later one at the entry that
   * closed its predecessor, if that entry is a Start or Toggle, and
   * otherwise, after an End, with the same state and start as its
   * predecessor, which the End left open.
   */
  lemma {:induction false} IntervalStart(es: seq<Entry>, f: nat, m: nat)
    requires IsFirstOpener(es, f) && m < |es| - f - 1
    ensures |Intervals(es)| == |es| - f - 1
    ensures var ivs := Intervals(es);
            && (m == 0 ==> ivs[0].state == es[f].state && ivs[0].start == es[f].time)
            && (m > 0 && Opens(es[f + m]) ==> ivs[m].state == es[f + m].state && ivs[m].start == es[f + m].time)
            && (m > 0 && !Opens(es[f + m]) ==> ivs[m].state == ivs[m - 1].state && ivs[m].start == ivs[m - 1].start)
    decreases |es|
  {
    IntervalsCount(es, f);
    var n := |es|;
    var prev := es[..n - 1];
    assert es == prev + [es[n - 1]];
    AppendEntry(prev, es[n - 1]);
    OpenAfterOpener(prev, f);
    IntervalsCount(prev, f);
    if m < n - f - 2 {
      IntervalStart(prev, f, m);
    } else if m == 0 {
      OpenAfterLastOpener(prev, f);
    } else if Opens(es[n - 2]) {
      OpenAfterLastOpener(prev, n - 2);
    } else {
      var before := prev[..n - 2];
      assert prev == before + [prev[n - 2]];
      AppendEntry(before, prev[n - 2]);
      OpenAfterOpener(before, f);
    }
  }

  /**
   * Consecutive intervals chain: when the entry that closed an interval is
   * a Start or Toggle, the next interval starts exactly where it ended,
   * in the state that entry names.
   */
  lemma ChainedIntervals(es: seq<Entry>, f: nat, m: nat)
    requires IsFirstOpener(es, f) && m + 1 < |es| - f - 1 && Opens(es[f + 1 + m])
    ensures |Intervals(es)| == |es| - f - 1
    ensures Intervals(es)[m].end == Intervals(es)[m + 1].start && Intervals(es)[m + 1].state == es[f + 1 + m].state
  {
    IntervalsCount(es, f);
    IntervalEnd(es, f, m);
    IntervalStart(es, f, m + 1);
  }

  /** After an End the same interval stays open: the next interval repeats its state and start. */
  lemma EndLeavesIntervalOpen(es: seq<Entry>, f: nat, m: nat)
    requires IsFirstOpener(es, f) && m + 1 < |es| - f - 1 && !Opens(es[f + 1 + m])
    ensures |Intervals(es)| == |es| - f - 1
    ensures Intervals(es)[m + 1].start == Intervals(es)[m].start && Intervals(es)[m + 1].state == Intervals(es)[m].state
  {
    IntervalsCount(es, f);
    IntervalStart(es, f, m + 1);
  }

  /** The log `Start: Good at T0`, `Toggle: Avoid at T1`, `End: Avoid at T2`. */
  lemma StartToggleEnd(t0: string, t1: string, t2: string)
    ensures Intervals([Entry(Start, "Good", t0), Entry(Toggle, "Avoid", t1), Entry(End, "Avoid", t2)])
            == [Interval("Good", t0, t1), Interval("Avoid", t1, t2)]
  {
    var e0, e1, e2 := Entry(Start, "Good", t0), Entry(Toggle, "Avoid", t1), Entry(End, "Avoid", t2);
    AppendEntry([], e0);
    assert [] + [e0] == [e0];
    AppendEntry([e0], e1);
    assert [e0] + [e1] == [e0, e1];
    AppendEntry([e0, e1], e2);
    assert [e0, e1] + [e2] == [e0, e1, e2];
  }
}
