/**
 * The storage keys of saved recordings. `saveRecordingLocally` stores a
 * recording under `recording-<ISO time with ':' replaced by '-'>.txt`;
 * `populateRecordingList` picks the keys of that shape, strips them and
 * puts the colons of the clock time back.
 */
module RecordingKeys {
  import opened Wrappers
  import opened Strings
  import opened Dates

  const KeyPrefix: string := "recording-"
  const KeySuffix: string := ".txt"

  /** `new Date().toISOString()` for years 0 to 9999: `YYYY-MM-DDTHH:MM:SS.sssZ`; `d` marks a digit. */
  const IsoTemplate: string := "dddd-dd-ddTdd:dd:dd.dddZ"

  predicate IsIsoInstant(s: string) {
    |s| == |IsoTemplate| &&
    forall i :: 0 <= i < |s| ==> if IsoTemplate[i] == 'd' then IsDigit(s[i]) else s[i] == IsoTemplate[i]
  }

  /** The key `saveRecordingLocally` builds from the time of saving. */
  function RecordingKey(iso: string): (key: string)
    ensures ':' !in key
    ensures IsRecordingKey(key)
  {
    var key := KeyPrefix + ReplaceAllChar(iso, ':', '-') + KeySuffix;
    assert key[..|KeyPrefix|] == KeyPrefix;
    assert key[|key| - |KeySuffix|..] == KeySuffix;
    key
  }

  /** `localStorage.setItem(filename, content)` with the key above. */
  function SaveRecordingLocally(storage: map<string, string>, now: string, content: string): (r: map<string, string>)
    ensures RecordingKey(now) in r && r[RecordingKey(now)] == content
    ensures forall k :: k != RecordingKey(now) ==> (k in r <==> k in storage)
    ensures forall k :: k in storage && k != RecordingKey(now) ==> r[k] == storage[k]
  {
    storage[RecordingKey(now) := content]
  }

  /** The filter of `populateRecordingList`: `key.endsWith('.txt') && key.startsWith('recording-')`. */
  predicate IsRecordingKey(key: string) {
    EndsWith(key, KeySuffix) && StartsWith(key, KeyPrefix)
  }

  /** `key.replace("recording-", "").replace(".txt", "")`: first occurrences, wherever they are. */
  function StrippedName(key: string): string {
    ReplaceFirst(ReplaceFirst(key, KeyPrefix, ""), KeySuffix, "")
  }

  /** `T(\d{2})-(\d{2})-(\d{2})` matches at `p`. */
  predicate ClockAt(s: string, p: nat) {
    p + 9 <= |s| && s[p] == 'T' && IsDigit(s[p + 1]) && IsDigit(s[p + 2]) && s[p + 3] == '-' &&
    IsDigit(s[p + 4]) && IsDigit(s[p + 5]) && s[p + 6] == '-' && IsDigit(s[p + 7]) && IsDigit(s[p + 8])
  }

  /** The leftmost match of the clock pattern at or after `from`. */
  function FirstClock(s: string, from: nat): (r: Option<nat>)
    ensures r.Some? ==> from <= r.value && ClockAt(s, r.value)
    ensures r.Some? ==> forall p :: from <= p < r.value ==> !ClockAt(s, p)
    ensures r.None? ==> forall p :: from <= p ==> !ClockAt(s, p)
    decreases |s| - from
  {
    if from + 9 > |s| then None
    else if ClockAt(s, from) then Some(from)
    else FirstClock(s, from + 1)
  }

  /** `s.replace(/T(\d{2})-(\d{2})-(\d{2})/, 'T$1:$2:$3')`: the first match gets its colons back. */
  function RestoreColons(s: string): (r: string)
    ensures |r| == |s|
  {
    match FirstClock(s, 0)
    case None => s
    case Some(p) => s[..p + 3] + ":" + s[p + 4..p + 6] + ":" + s[p + 7..]
  }

  /** Only the first match of the clock pattern changes: its two dashes become colons. */
  lemma RestoreColonsSpec(s: string)
    ensures FirstClock(s, 0).None? ==> RestoreColons(s) == s
    ensures FirstClock(s, 0).Some? ==>
              var p, r := FirstClock(s, 0).value, RestoreColons(s);
              && r[p + 3] == ':' && r[p + 6] == ':'
              && forall i :: 0 <= i < |s| && i != p + 3 && i != p + 6 ==> r[i] == s[i]
  {
    match FirstClock(s, 0)
    case None =>
    case Some(p) =>
      var a, b, c := s[..p + 3], s[p + 4..p + 6], s[p + 7..];
      var r := a + ":" + b + ":" + c;
      assert RestoreColons(s) == r;
      forall i | 0 <= i < |s| && i != p + 3 && i != p + 6
        ensures r[i] == s[i]
      {
        if i < p + 3 {
          assert r[i] == a[i];
        } else if i < p + 6 {
          assert r[i] == b[i - p - 4];
        } else {
          assert r[i] == c[i - p - 7];
        }
      }
  }

  /** The timestamp `populateRecordingList` reads back from a key. */
  function TimestampOfKey(key: string): string {
    RestoreColons(StrippedName(key))
  }

  /** The key of a text `d` strips back to `d` when `d` holds no ".txt". */
  lemma StripKey(d: string)
    requires forall j: nat :: j < |d| ==> !OccursAt(d + KeySuffix, KeySuffix, j)
    ensures StrippedName(KeyPrefix + d + KeySuffix) == d
  {
    var key := KeyPrefix + d + KeySuffix;
    var s := d + KeySuffix;
    assert key == KeyPrefix + s;
    assert OccursAt(key, KeyPrefix, 0);
    ReplaceFirstAt(key, KeyPrefix, "", 0);
    assert ReplaceFirst(key, KeyPrefix, "") == s;
    assert OccursAt(s, KeySuffix, |d|);
    ReplaceFirstAt(s, KeySuffix, "", |d|);
    assert s[..|d|] == d;
  }

  /** In the dashed form of an ISO instant, ".txt" cannot start before the end. */
  lemma NoSuffixInInstant(iso: string, j: nat)
    requires IsIsoInstant(iso) && j < |iso|
    ensures !OccursAt(ReplaceAllChar(iso, ':', '-') + KeySuffix, KeySuffix, j)
  {
    var d := ReplaceAllChar(iso, ':', '-');
    var s := d + KeySuffix;
    var w := s[j..j + 4];
    assert w[0] == s[j] == d[j] && w[1] == s[j + 1];
    if d[j] == '.' {
      assert IsoTemplate[j] == '.';
      assert j == 19 && IsDigit(iso[20]);
      assert w[1] == d[20] == iso[20];
    }
  }

  /** The clock pattern first matches the dashed form of an ISO instant at its 'T'. */
  lemma ClockOfInstant(iso: string)
    requires IsIsoInstant(iso)
    ensures FirstClock(ReplaceAllChar(iso, ':', '-'), 0) == Some(10)
  {
    var d := ReplaceAllChar(iso, ':', '-');
    assert d[10] == 'T' && d[13] == '-' && d[16] == '-';
    assert ClockAt(d, 10);
    forall p: nat | p < 10
      ensures !ClockAt(d, p)
    {
      assert IsoTemplate[p] != 'T';
    }
  }

  /**
   * The round trip of the key: the key of an ISO instant has no colon,
   * passes the recording filter, and gives the instant back.
   */
  lemma KeyRoundTrip(iso: string)
    requires IsIsoInstant(iso)
    ensures ':' !in RecordingKey(iso)
    ensures IsRecordingKey(RecordingKey(iso))
    ensures TimestampOfKey(RecordingKey(iso)) == iso
  {
    var d := ReplaceAllChar(iso, ':', '-');
    forall j: nat | j < |d|
      ensures !OccursAt(d + KeySuffix, KeySuffix, j)
    {
      NoSuffixInInstant(iso, j);
    }
    StripKey(d);
    assert StrippedName(RecordingKey(iso)) == d;
    RestoreInstant(iso);
  }

  /** Restoring the colons of the dashed form of an ISO instant gives the instant back. */
  lemma RestoreInstant(iso: string)
    requires IsIsoInstant(iso)
    ensures RestoreColons(ReplaceAllChar(iso, ':', '-')) == iso
  {
    var d := ReplaceAllChar(iso, ':', '-');
    ClockOfInstant(iso);
    var r := RestoreColons(d);
    assert r == d[..13] + ":" + d[14..16] + ":" + d[17..];
    forall i | 0 <= i < |iso|
      ensures r[i] == iso[i]
    {
      if i == 13 || i == 16 {
        assert iso[i] == IsoTemplate[i];
      }
    }
  }

  /** `populateRecordingList`'s choice: recording keys whose timestamp is a date. */
  predicate IsListed(key: string, parse: DateParser) {
    IsRecordingKey(key) && parse(TimestampOfKey(key)).Ms?
  }

  /** The keys the recording list shows, in storage order. */
  function ListedKeys(keys: seq<string>, parse: DateParser): (r: seq<string>)
    ensures forall i :: 0 <= i < |r| ==> r[i] in keys && IsListed(r[i], parse)
    ensures forall i :: 0 <= i < |keys| && IsListed(keys[i], parse) ==> keys[i] in r
    ensures |r| <= |keys|
  {
    if |keys| == 0 then []
    else
      var prev := ListedKeys(keys[..|keys| - 1], parse);
      var key := keys[|keys| - 1];
      ListedKeysStep(keys, prev, parse);
      prev + (if IsListed(key, parse) then [key] else [])
  }

  /** The step of `ListedKeys`: the last key is appended when it is listed. */
  lemma ListedKeysStep(keys: seq<string>, prev: seq<string>, parse: DateParser)
    requires |keys| > 0
    requires forall i :: 0 <= i < |prev| ==> prev[i] in keys[..|keys| - 1] && IsListed(prev[i], parse)
    requires forall i :: 0 <= i < |keys| - 1 && IsListed(keys[i], parse) ==> keys[i] in prev
    requires |prev| <= |keys| - 1
    ensures var r := prev + (if IsListed(keys[|keys| - 1], parse) then [keys[|keys| - 1]] else []);
            && (forall i :: 0 <= i < |r| ==> r[i] in keys && IsListed(r[i], parse))
            && (forall i :: 0 <= i < |keys| && IsListed(keys[i], parse) ==> keys[i] in r)
            && |r| <= |keys|
  {
    var init := keys[..|keys| - 1];
    assert forall i :: 0 <= i < |init| ==> init[i] == keys[i];
  }

  lemma ListedKeysNext(keys: seq<string>, i: nat, parse: DateParser)
    requires i < |keys|
    ensures ListedKeys(keys[..i + 1], parse) ==
            ListedKeys(keys[..i], parse) + (if IsListed(keys[i], parse) then [keys[i]] else [])
  {
    assert keys[..i + 1][..i] == keys[..i];
  }

  /**
   * `populateRecordingList` over the keys of the storage, in the order
   * `Object.keys` gives them: the values of the options it appends. A key
   * whose timestamp is not a date gets a "Corrupted Name" label but the
   * callback returns before appending it, so it is not listed.
   */
  method PopulateRecordingList(keys: seq<string>, parse: DateParser) returns (options: seq<string>)
    ensures options == ListedKeys(keys, parse)
  {
    options := [];
    for i := 0 to |keys|
      invariant options == ListedKeys(keys[..i], parse)
    {
      var key := keys[i];
      ListedKeysNext(keys, i, parse);
      if EndsWith(key, ".txt") && StartsWith(key, "recording-") {
        var timestampStr := ReplaceFirst(ReplaceFirst(key, "recording-", ""), ".txt", "");
        timestampStr := RestoreColons(timestampStr);
        if parse(timestampStr).NaN? {
          continue;
        }
        options := options + [key];
      }
    }
    assert keys[..|keys|] == keys;
  }

  /** A recording saved at an ISO instant the date parser accepts shows up in the list. */
  lemma SavedRecordingIsListed(keys: seq<string>, iso: string, parse: DateParser)
    requires IsIsoInstant(iso) && parse(iso).Ms?
    requires RecordingKey(iso) in keys
    ensures RecordingKey(iso) in ListedKeys(keys, parse)
  {
    KeyRoundTrip(iso);
  }
}
