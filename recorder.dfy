/**
 * The Record page: the Start/Toggle button, the Good/Avoid checkbox and
 * the End button, which together write a log of `Start`, `Toggle` and
 * `End` entries and save it under a recording key when the session ends.
 */
module Recorder {
  import opened Wrappers
  import opened Strings
  import opened Recording
  import opened RecordingKeys

  /** `getStateLabel()`: a checked box means Avoid, an unchecked one Good. */
  function StateLabel(checked: bool): (name: string)
    ensures name == "Avoid" <==> checked
    ensures name == "Good" <==> !checked
    ensures IsWord(name)
  {
    var name := if checked then "Avoid" else "Good";
    assert forall i :: 0 <= i < |name| ==> IsWordChar(name[i]);
    name
  }

  /** The line the recorder writes for an entry. */
  function LogLine(e: Entry): string {
    EntryText(e.kind, e.state, e.time)
  }

  /** The lines of a log, one per entry. */
  function LogLines(es: seq<Entry>): (lines: seq<string>)
    ensures |lines| == |es|
    ensures forall i :: 0 <= i < |es| ==> lines[i] == LogLine(es[i])
  {
    seq(|es|, i requires 0 <= i < |es| => LogLine(es[i]))
  }

  /** An entry as the recorder writes it: a word for the state and an ISO instant for the time. */
  predicate WellFormed(e: Entry) {
    IsWord(e.state) && IsIsoInstant(e.time)
  }

  predicate AllWellFormed(es: seq<Entry>) {
    forall i :: 0 <= i < |es| ==> WellFormed(es[i])
  }

  /** Logging one more entry adds its line at the end. */
  lemma LogAppend(es: seq<Entry>, e: Entry)
    requires AllWellFormed(es) && WellFormed(e)
    ensures LogLines(es + [e]) == LogLines(es) + [LogLine(e)]
    ensures AllWellFormed(es + [e])
  {
    assert forall i :: 0 <= i < |es| ==> (es + [e])[i] == es[i];
  }

  /** A recording in progress: one Start, then Toggles. */
  predicate IsSession(es: seq<Entry>) {
    |es| >= 1 && es[0].kind == Start && forall i :: 1 <= i < |es| ==> es[i].kind == Toggle
  }

  /** A Toggle continues a session and becomes its last entry. */
  lemma SessionAppend(es: seq<Entry>, e: Entry)
    requires IsSession(es) && e.kind == Toggle
    ensures IsSession(es + [e]) && (es + [e])[|es|] == e
  {
    assert forall i :: 1 <= i < |es| ==> (es + [e])[i] == es[i];
  }

  /** The intervals a finished log describes: each entry but the last lasts until the next one. */
  function SessionIntervals(es: seq<Entry>): (ivs: seq<Interval>)
    requires |es| >= 1
    ensures |ivs| == |es| - 1
    ensures forall m :: 0 <= m < |es| - 1 ==> ivs[m] == Interval(es[m].state, es[m].time, es[m + 1].time)
  {
    seq(|es| - 1, m requires 0 <= m < |es| - 1 => Interval(es[m].state, es[m].time, es[m + 1].time))
  }

  /** The recorder's state: the closure variables of the Record page and the storage it saves into. */
  class Recorder {
    var recording: bool
    /** `stateToggle.checked`. */
    var checked: bool
    var recordingData: seq<string>
    /** `localStorage`. */
    var storage: map<string, string>
    /** The entries `recordingData` spells out. */
    ghost var entries: seq<Entry>

    ghost predicate Valid()
      reads this
    {
      && recordingData == LogLines(entries)
      && AllWellFormed(entries)
      && (recording ==> IsSession(entries) && entries[|entries| - 1].state == StateLabel(checked))
    }

    /** The Record page as loaded: not recording, an empty log. */
    constructor(initiallyChecked: bool, stored: map<string, string>)
      ensures Valid()
      ensures !recording && checked == initiallyChecked && recordingData == [] && storage == stored
    {
      recording := false;
      checked := initiallyChecked;
      recordingData := [];
      storage := stored;
      entries := [];
    }

    /**
     * A click on the Start/Toggle button at the instant `now`. Not
     * recording: start a log of one Start entry in the current state.
     * Recording: flip the checkbox and log a Toggle to the new state.
     */
    method ClickStart(now: string)
      requires Valid() && IsIsoInstant(now)
      modifies this
      ensures Valid() && recording && storage == old(storage)
      ensures !old(recording) ==> checked == old(checked) && entries == [Entry(Start, StateLabel(checked), now)]
      ensures !old(recording) ==> recordingData == [EntryText(Start, StateLabel(checked), now)]
      ensures old(recording) ==> checked == !old(checked) && entries == old(entries) + [Entry(Toggle, StateLabel(checked), now)]
      ensures old(recording) ==> recordingData == old(recordingData) + [EntryText(Toggle, StateLabel(checked), now)]
    {
      if !recording {
        recording := true;
        var currentUTC := now;
        recordingData := [EntryText(Start, StateLabel(checked), currentUTC)];
        entries := [Entry(Start, StateLabel(checked), currentUTC)];
        LogAppend([], entries[0]);
      } else {
        checked := !checked;
        var currentUTC := now;
        var entry := EntryText(Toggle, StateLabel(checked), currentUTC);
        LogAppend(entries, Entry(Toggle, StateLabel(checked), currentUTC));
        SessionAppend(entries, Entry(Toggle, StateLabel(checked), currentUTC));
        recordingData := recordingData + [entry];
        entries := entries + [Entry(Toggle, StateLabel(checked), currentUTC)];
      }
    }

    /**
     * The user flips the checkbox at the instant `now`; its change handler
     * logs a Toggle to the new state, but only while recording.
     */
    method ChangeCheckbox(now: string)
      requires Valid() && IsIsoInstant(now)
      modifies this
      ensures Valid() && checked == !old(checked) && recording == old(recording) && storage == old(storage)
      ensures old(recording) ==> entries == old(entries) + [Entry(Toggle, StateLabel(checked), now)]
      ensures old(recording) ==> recordingData == old(recordingData) + [EntryText(Toggle, StateLabel(checked), now)]
      ensures !old(recording) ==> entries == old(entries) && recordingData == old(recordingData)
    {
      checked := !checked;
      if recording {
        var currentUTC := now;
        var entry := EntryText(Toggle, StateLabel(checked), currentUTC);
        LogAppend(entries, Entry(Toggle, StateLabel(checked), currentUTC));
        recordingData := recordingData + [entry];
        entries := entries + [Entry(Toggle, StateLabel(checked), currentUTC)];
      }
    }

    /**
     * A click on the End button: log an End entry at `entryTime`, save the
     * joined log under the key of `saveTime` (the handler reads the clock
     * a second time when saving), stop recording and clear the checkbox.
     * The saved log of a session parses back to the session's intervals.
     */
    method ClickEnd(entryTime: string, saveTime: string)
      requires Valid() && IsIsoInstant(entryTime)
      modifies this
      ensures Valid() && !recording && !checked
      ensures entries == old(entries) + [Entry(End, StateLabel(old(checked)), entryTime)]
      ensures recordingData == old(recordingData) + [EntryText(End, StateLabel(old(checked)), entryTime)]
      ensures storage == SaveRecordingLocally(old(storage), saveTime, Join(recordingData, '\n'))
      ensures old(recording) ==>
                Intervals(Entries(Lines(storage[RecordingKey(saveTime)]))) == SessionIntervals(entries)
    {
      ghost var session := entries;
      recording := false;
      var currentUTC := entryTime;
      LogAppend(entries, Entry(End, StateLabel(checked), currentUTC));
      recordingData := recordingData + [EntryText(End, StateLabel(checked), currentUTC)];
      entries := entries + [Entry(End, StateLabel(checked), currentUTC)];
      var fullText := Join(recordingData, '\n');
      storage := SaveRecordingLocally(storage, saveTime, fullText);
      checked := false;
      if old(recording) {
        SavedSessionParses(session, entries[|entries| - 1]);
      }
    }
  }

  // ---------------------------------------------------------------------
  // Logs the recorder writes are logs the parser reads

  /** An ISO instant is a valid time for the log-line pattern and normalising leaves it alone. */
  lemma InstantIsLogTime(t: string)
    requires IsIsoInstant(t)
    ensures IsLineText(t) && Normalize(t) == t
  {
    forall k: nat
      ensures !OccursAt(t, "+00:00Z", k)
    {
      if k < |t| {
        assert t[k] != '+';
      }
    }
    ReplaceFirstAbsent(t, "+00:00Z", "Z");
  }

  /** A written line holds no line feed. */
  lemma LogLineHasNoNewline(e: Entry)
    requires WellFormed(e)
    ensures '\n' !in LogLine(e)
  {
    InstantIsLogTime(e.time);
    var s := LogLine(e);
    assert s == KindName(e.kind) + ": " + e.state + " at " + e.time;
    forall i | 0 <= i < |s|
      ensures s[i] != '\n'
    {
      assert IsLineTerminator('\n');
    }
  }

  /** The parser reads a written line back as the entry it came from. */
  lemma ReadLogLine(e: Entry)
    requires WellFormed(e)
    ensures EntryOf(LogLine(e)) == Some(e)
  {
    InstantIsLogTime(e.time);
    MatchEntryText(e.kind, e.state, e.time);
  }

  lemma LogLinesPrefix(es: seq<Entry>)
    requires |es| > 0
    ensures LogLines(es)[..|es| - 1] == LogLines(es[..|es| - 1])
  {
  }

  lemma EntriesOfLast(lines: seq<string>, e: Entry)
    requires |lines| > 0 && EntryOf(lines[|lines| - 1]) == Some(e)
    ensures Entries(lines) == Entries(lines[..|lines| - 1]) + [e]
  {
  }

  /** The entries of the written lines are the entries written. */
  lemma {:induction false} ReadLogLines(es: seq<Entry>)
    requires AllWellFormed(es)
    ensures Entries(LogLines(es)) == es
    decreases |es|
  {
    if |es| > 0 {
      var n := |es|;
      var lines := LogLines(es);
      LogLinesPrefix(es);
      ReadLogLines(es[..n - 1]);
      ReadLogLine(es[n - 1]);
      EntriesOfLast(lines, es[n - 1]);
      FrontLast(es);
    }
  }

  /** A written log begins with a kind name and ends with the 'Z' of a time, so trimming keeps it whole. */
  lemma LogTextTrimmed(es: seq<Entry>)
    requires |es| >= 1
    requires AllWellFormed(es)
    ensures var text := Join(LogLines(es), '\n'); Trim(text) == text
  {
    var lines := LogLines(es);
    var first, last := es[0], es[|es| - 1];
    EntryTextParts(first.kind, first.state, first.time);
    EntryTextParts(last.kind, last.state, last.time);
    JoinFirst(lines, '\n');
    JoinLast(lines, '\n');
    var text := Join(lines, '\n');
    assert text[0] == KindName(first.kind)[0];
    assert text[|text| - 1] == last.time[|last.time| - 1] == 'Z';
    assert !IsWhitespace(text[0]) && !IsWhitespace(text[|text| - 1]);
  }

  /** Reading a log the recorder saved gives back its entries: the round trip `join` then parse. */
  lemma RecordedLogParses(es: seq<Entry>)
    requires |es| >= 1
    requires AllWellFormed(es)
    ensures Entries(Lines(Join(LogLines(es), '\n'))) == es
  {
    var lines := LogLines(es);
    forall i | 0 <= i < |es|
      ensures '\n' !in lines[i]
    {
      LogLineHasNoNewline(es[i]);
    }
    LogTextTrimmed(es);
    SplitJoin(lines, '\n');
    assert Lines(Join(lines, '\n')) == lines;
    ReadLogLines(es);
  }

  /** A session closed by an End parses to one interval per Start or Toggle, each lasting until the next entry. */
  lemma SavedSessionParses(session: seq<Entry>, e: Entry)
    requires IsSession(session) && e.kind == End
    requires forall i :: 0 <= i < |session| ==> WellFormed(session[i])
    requires WellFormed(e)
    ensures Intervals(Entries(Lines(Join(LogLines(session + [e]), '\n')))) == SessionIntervals(session + [e])
  {
    var es := session + [e];
    RecordedLogParses(es);
    SessionIntervalsOf(session, e);
  }

  /** The intervals of a session closed by an End, one per Start or Toggle. */
  lemma SessionIntervalsOf(session: seq<Entry>, e: Entry)
    requires IsSession(session) && e.kind == End
    ensures Intervals(session + [e]) == SessionIntervals(session + [e])
  {
    var es := session + [e];
    assert IsFirstOpener(es, 0);
    IntervalsCount(es, 0);
    var ivs := Intervals(es);
    var want := SessionIntervals(es);
    forall m | 0 <= m < |es| - 1
      ensures ivs[m] == want[m]
    {
      SessionIntervalAt(session, e, m);
    }
  }

  /** Interval `m` of a session runs from entry `m` to entry `m + 1` in entry `m`'s state. */
  lemma SessionIntervalAt(session: seq<Entry>, e: Entry, m: nat)
    requires IsSession(session) && e.kind == End && m < |session|
    ensures |Intervals(session + [e])| == |session|
    ensures Intervals(session + [e])[m] == Interval(session[m].state, session[m].time, (session + [e])[m + 1].time)
  {
    var es := session + [e];
    assert IsFirstOpener(es, 0);
    IntervalEnd(es, 0, m);
    IntervalStart(es, 0, m);
    assert es[m] == session[m];
    assert m > 0 ==> es[m].kind == Toggle;
  }
}
