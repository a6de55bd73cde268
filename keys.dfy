/** Key resolution: the bucket name selects one of two naming schemes, and
    every catalog row is turned into the object key of the blob to download.
    Scheme A strips the domain part off a stored link; Scheme B assembles the
    key from the device uid, the recording time and the file name. */
module Keys {
  import opened Wrappers
  import opened Strings
  import opened Timestamps

  /** The bucket whose rows carry ready-made links. */
  const UploadsBucket: String := "clanz-uploads-ogg"

  /** The marker located in a stored link; the key starts five characters
      after it, past the marker and the separator that follows it. */
  const DomainMarker: String := ".com"

  /** The literal every Scheme B key starts with. */
  const KeyPrefix: String := "clanz-3reality-"

  datatype Scheme = LinkScheme | RecordScheme

  /** The bucket name, lower-cased, chooses the scheme for the whole batch. */
  function SelectScheme(bucket: String): Scheme
  {
    if ToLower(bucket) == UploadsBucket then LinkScheme else RecordScheme
  }

  /** Scheme A is chosen for every casing of the uploads bucket's name and
      for no other name. */
  lemma SelectSchemeCaseInsensitive(bucket: String)
    ensures SelectScheme(bucket) == LinkScheme <==> IsCasingOf(bucket, UploadsBucket)
    ensures SelectScheme(bucket) == RecordScheme <==> !IsCasingOf(bucket, UploadsBucket)
  {
    ToLowerIsCaseInsensitive(bucket, UploadsBucket);
  }

  // ---------------------------------------------------------------- Scheme A

  /** The key of one stored link: everything from five characters past the
      first ".com". The marker is not required to be there: without it the
      index is -1 and the key starts at offset 4. When the start lies beyond
      the end of the link the slice is out of range and the program aborts,
      which is `None` here. */
  function LinkKey(link: String): Option<String>
  {
    var index := Index(link, DomainMarker);
    if index + 5 <= |link| then Some(link[index + 5..]) else None
  }

  /** With the marker present, the key is the rest of the link after the
      first marker and one more character. */
  lemma LinkKeyWithMarker(link: String, i: nat)
    requires OccursAt(link, DomainMarker, i)
    requires forall k :: 0 <= k < i ==> !OccursAt(link, DomainMarker, k)
    ensures i + 5 <= |link| ==> LinkKey(link) == Some(link[i + 5..])
    ensures i + 5 <= |link| ==> link == link[..i] + DomainMarker + [link[i + 4]] + LinkKey(link).value
    ensures i + 5 > |link| ==> LinkKey(link) == None
  {
    var index := Index(link, DomainMarker);
    assert index == i;
    if i + 5 <= |link| {
      var key := link[i + 5..];
      assert link[i..i + 4] == DomainMarker;
      assert link == link[..i] + link[i..i + 4] + [link[i + 4]] + key;
    }
  }

  /** Without the marker the key is the link minus its first four characters,
      and no error is raised unless the link is shorter than that. */
  lemma LinkKeyWithoutMarker(link: String)
    requires forall k :: !OccursAt(link, DomainMarker, k)
    ensures 4 <= |link| ==> LinkKey(link) == Some(link[4..])
    ensures |link| < 4 ==> LinkKey(link) == None
  {
    assert Index(link, DomainMarker) == -1;
  }

  /** A derived key is always a proper suffix of its link. */
  lemma LinkKeyIsSuffix(link: String)
    requires LinkKey(link).Some?
    ensures var key := LinkKey(link).value;
      |key| + 4 <= |link| && link[|link| - |key|..] == key
  {
  }

  /** A link "x.y.com/key" whose host parts `x` and `y` hold no '.', and
      whose `y` does not start with "com", has the key `key`: the first ".com"
      is the one before the path. */
  lemma LinkKeyOfHostAndPath(x: String, y: String, key: String)
    requires '.' !in x && '.' !in y && |y| >= 1 && y[0] != 'c'
    ensures LinkKey(x + "." + y + DomainMarker + "/" + key) == Some(key)
  {
    var link := x + "." + y + DomainMarker + "/" + key;
    var i := |x| + 1 + |y|;
    assert link[i..i + 4] == DomainMarker;
    forall k | 0 <= k < i ensures !OccursAt(link, DomainMarker, k) {
      if k == |x| {
        assert link[k + 1] == y[0];
        assert link[k..k + 4][1] == link[k + 1];
      } else if k < |x| {
        assert link[k] == x[k];
        assert link[k..k + 4][0] == link[k];
      } else {
        assert link[k] == y[k - |x| - 1];
        assert link[k..k + 4][0] == link[k];
      }
    }
    LinkKeyWithMarker(link, i);
    assert link[i + 5..] == key;
  }

  /** A worked example of Scheme A: the link
      "https://bucket.example.com/foo/bar/baz.wav", written in its parts, has
      the key "foo/bar/baz.wav", the path after ".com/". */
  lemma LinkKeyExample()
    ensures LinkKey("https://bucket" + "." + "example" + ".com" + "/" + "foo/bar/baz.wav") == Some("foo/bar/baz.wav")
  {
    LinkKeyOfHostAndPath("https://bucket", "example", "foo/bar/baz.wav");
  }

  /** The loop over the stored links: one key per link, in input order,
      appended to an initially empty list. A link whose slice is out of range
      aborts the whole run, so then there is no list at all. */
  method DeriveLinkKeys(links: seq<String>) returns (validKeys: Option<seq<String>>)
    ensures validKeys.Some? <==> forall i :: 0 <= i < |links| ==> LinkKey(links[i]).Some?
    ensures validKeys.Some? ==> |validKeys.value| == |links|
    ensures validKeys.Some? ==> forall i :: 0 <= i < |links| ==> LinkKey(links[i]) == Some(validKeys.value[i])
  {
    var keys: seq<String> := [];
    for i := 0 to |links|
      invariant |keys| == i
      invariant forall k :: 0 <= k < i ==> LinkKey(links[k]) == Some(keys[k])
    {
      var key := LinkKey(links[i]);
      if key.None? {
        return None;
      }
      keys := keys + [key.value];
    }
    return Some(keys);
  }

  // ---------------------------------------------------------------- Scheme B

  /** One row of the structured catalog query. */
  datatype Record = Record(fileName: String, recordingTs: Timestamp, uid: String)

  /** "clanz-3reality-<uid>/<YYYY/MM/DD>/<HH>/<file name>". */
  function RecordKey(r: Record): String
  {
    KeyPrefix + r.uid + "/" + FormatDate(r.recordingTs) + "/" + HourString(r.recordingTs.hour) + "/" + r.fileName
  }

  /** The parts of a record that its key carries. */
  datatype KeyFields = KeyFields(uid: String, year: int, month: int, day: int, hour: int, fileName: String)

  function FieldsOf(r: Record): KeyFields
  {
    KeyFields(r.uid, r.recordingTs.year, r.recordingTs.month, r.recordingTs.day, r.recordingTs.hour, r.fileName)
  }

  /** Reads a Scheme B key back into its parts: the prefix, the uid up to the
      first separator, then the rest as read by `ParseTail`. */
  function ParseRecordKey(key: String): Option<KeyFields>
  {
    if |key| < |KeyPrefix| || key[..|KeyPrefix|] != KeyPrefix then None
    else
      var rest := key[|KeyPrefix|..];
      var j := Index(rest, "/");
      if j < 0 then None else ParseTail(rest[..j], rest[j + 1..])
  }

  /** Reads what follows the uid's separator: the fixed-width date and hour,
      each followed by a separator, and the remainder as the file name. */
  function ParseTail(uid: String, t: String): Option<KeyFields>
  {
    if |t| < 14 || !AllDigits(t[..4]) || t[4] != '/' || !AllDigits(t[5..7]) || t[7] != '/'
       || !AllDigits(t[8..10]) || t[10] != '/' || !AllDigits(t[11..13]) || t[13] != '/'
    then None
    else Some(KeyFields(uid, ParseDecimal(t[..4]), ParseDecimal(t[5..7]),
                        ParseDecimal(t[8..10]), ParseDecimal(t[11..13]), t[14..]))
  }

  /** The first separator of "a/b" with no separator in `a` is the one after `a`. */
  lemma IndexOfFirstSeparator(a: String, b: String)
    requires '/' !in a
    ensures Index(a + "/" + b, "/") == |a|
  {
    var s := a + "/" + b;
    var j := Index(s, "/");
    OccursAtChar(s, '/', |a|);
    OccursAtChar(s, '/', j);
  }

  /** Where the fixed-width fields stand after the uid's separator. */
  lemma TailSlices(date: String, hh: String, file: String)
    requires |date| == 10 && |hh| == 2
    ensures var t := date + "/" + hh + "/" + file;
      && |t| >= 14 && t[..4] == date[..4] && t[4] == date[4] && t[5..7] == date[5..7]
      && t[7] == date[7] && t[8..10] == date[8..] && t[10] == '/'
      && t[11..13] == hh && t[13] == '/' && t[14..] == file
  {
    var t := date + "/" + hh + "/" + file;
    assert t[..4] == date[..4];
    assert t[5..7] == date[5..7];
    assert t[8..10] == date[8..];
    assert t[11..13] == hh;
    assert t[14..] == file;
  }

  /** How a Scheme B key splits around the prefix and the uid. */
  lemma KeySlices(uid: String, t: String)
    ensures var key := KeyPrefix + uid + "/" + t;
      && |key| >= |KeyPrefix| && key[..|KeyPrefix|] == KeyPrefix
      && key[|KeyPrefix|..] == uid + "/" + t
  {
    var key := KeyPrefix + uid + "/" + t;
    assert key[..|KeyPrefix|] == KeyPrefix;
    assert key[|KeyPrefix|..] == uid + "/" + t;
  }

  /** Past the prefix, a key whose uid has no separator is read as that uid
      followed by whatever its tail holds. */
  lemma ParseRecordKeySplit(uid: String, t: String)
    requires '/' !in uid
    ensures ParseRecordKey(KeyPrefix + uid + "/" + t) == ParseTail(uid, t)
  {
    var key := KeyPrefix + uid + "/" + t;
    KeySlices(uid, t);
    var rest := key[|KeyPrefix|..];
    IndexOfFirstSeparator(uid, t);
    assert rest[..|uid|] == uid;
    assert rest[|uid| + 1..] == t;
  }

  /** The tail of a Scheme B key reads back as the timestamp's date and hour
      and the file name, for a four-digit year. */
  lemma ParseTailRoundTrip(uid: String, ts: Timestamp, fileName: String)
    requires 0 <= ts.year < 10000
    ensures ParseTail(uid, FormatDate(ts) + "/" + HourString(ts.hour) + "/" + fileName)
         == Some(KeyFields(uid, ts.year, ts.month, ts.day, ts.hour, fileName))
  {
    var date, hh := FormatDate(ts), HourString(ts.hour);
    FormatDateFields(ts);
    HourStringRoundTrip(ts.hour);
    TailSlices(date, hh, fileName);
  }

  /** A Scheme B key reads back as the record's uid, date, hour and file name,
      provided the uid has no separator and the year has four digits. */
  lemma ParseRecordKeyRoundTrip(r: Record)
    requires '/' !in r.uid
    requires 0 <= r.recordingTs.year < 10000
    ensures ParseRecordKey(RecordKey(r)) == Some(FieldsOf(r))
  {
    var t := FormatDate(r.recordingTs) + "/" + HourString(r.recordingTs.hour) + "/" + r.fileName;
    assert RecordKey(r) == KeyPrefix + r.uid + "/" + t;
    ParseRecordKeySplit(r.uid, t);
    ParseTailRoundTrip(r.uid, r.recordingTs, r.fileName);
  }

  /** Two records with a separator-free uid and a four-digit year share a key
      only if they agree on uid, date, hour and file name. */
  lemma RecordKeyInjective(r1: Record, r2: Record)
    requires '/' !in r1.uid && '/' !in r2.uid
    requires 0 <= r1.recordingTs.year < 10000 && 0 <= r2.recordingTs.year < 10000
    requires RecordKey(r1) == RecordKey(r2)
    ensures FieldsOf(r1) == FieldsOf(r2)
  {
    ParseRecordKeyRoundTrip(r1);
    ParseRecordKeyRoundTrip(r2);
  }

  /** Minutes, seconds and the validity of the date play no part in the key. */
  lemma RecordKeyUsesOnlyItsFields(r1: Record, r2: Record)
    requires FieldsOf(r1) == FieldsOf(r2)
    ensures RecordKey(r1) == RecordKey(r2)
  {
  }

  /** A uid may itself contain separators, and then the key no longer tells
      the fields apart: moving a "date/hour/name" block between the end of the
      uid and the start of the file name leaves the key unchanged, although
      the two records differ in uid and in file name. */
  lemma RecordKeyCollision(uid: String, p: String, q: String, t1: Timestamp, t2: Timestamp)
    ensures var r1 := Record(p + "/" + FormatDate(t2) + "/" + HourString(t2.hour) + "/" + q, t1, uid);
      var r2 := Record(q, t2, uid + "/" + FormatDate(t1) + "/" + HourString(t1.hour) + "/" + p);
      && RecordKey(r1) == RecordKey(r2)
      && r1.uid != r2.uid && r1.fileName != r2.fileName
  {
    SeparatorBlockMoves(KeyPrefix, uid, FormatDate(t1), HourString(t1.hour), p, FormatDate(t2), HourString(t2.hour), q);
  }

  /** Regrouping of the concatenation behind `RecordKeyCollision`. */
  lemma SeparatorBlockMoves(prefix: String, uid: String, d1: String, h1: String, p: String, d2: String, h2: String, q: String)
    ensures prefix + uid + "/" + d1 + "/" + h1 + "/" + (p + "/" + d2 + "/" + h2 + "/" + q)
         == prefix + (uid + "/" + d1 + "/" + h1 + "/" + p) + "/" + d2 + "/" + h2 + "/" + q
  {
  }

  /** A worked example of Scheme B: the key is
      "clanz-3reality-uid123/2022/05/22/09/clip.wav". */
  lemma RecordKeyExample()
    ensures RecordKey(Record("clip.wav", Timestamp(2022, 5, 22, 9, 5, 0), "uid123"))
         == KeyPrefix + "uid123" + "/" + "2022/05/22" + "/" + "09" + "/" + "clip.wav"
  {
    assert Decimal(2) == "2";
    assert Decimal(20) == Decimal(2) + "0";
    assert Decimal(202) == Decimal(20) + "2";
    assert Decimal(2022) == "2022";
    assert FormatYear(2022) == "2022";
    assert Decimal(5) == "5";
    assert Decimal(22) == "22";
    assert FormatDate(Timestamp(2022, 5, 22, 9, 5, 0)) == "2022/05/22";
    assert HourString(9) == "09";
  }

  /** Extending a prefix by the next element gives the next prefix. */
  lemma PrefixExtends<T>(s: seq<T>, i: nat)
    requires i < |s|
    ensures s[..i] + [s[i]] == s[..i + 1]
  {
  }

  /** The loop over the structured rows: one key per row, in input order,
      appended to an initially empty list. */
  method DeriveRecordKeys(records: seq<Record>) returns (validKeys: seq<String>)
    ensures |validKeys| == |records|
    ensures forall i :: 0 <= i < |records| ==> validKeys[i] == RecordKey(records[i])
  {
    ghost var expected := seq(|records|, k requires 0 <= k < |records| => RecordKey(records[k]));
    validKeys := [];
    for i := 0 to |records|
      invariant validKeys == expected[..i]
    {
      var key := RecordKey(records[i]);
      PrefixExtends(expected, i);
      validKeys := validKeys + [key];
    }
    assert validKeys == expected;
  }

  /** Key resolution for a batch. The catalog query that each scheme runs is
      outside the model: `links` and `records` stand for the rows that the
      link query and the structured query would return, and only the one the
      bucket selects is read. */
  method ResolveKeys(bucket: String, links: seq<String>, records: seq<Record>) returns (validKeys: Option<seq<String>>)
    ensures SelectScheme(bucket) == LinkScheme ==>
      && (validKeys.Some? <==> forall i :: 0 <= i < |links| ==> LinkKey(links[i]).Some?)
      && (validKeys.Some? ==> |validKeys.value| == |links|)
      && (validKeys.Some? ==> forall i :: 0 <= i < |links| ==> LinkKey(links[i]) == Some(validKeys.value[i]))
    ensures SelectScheme(bucket) == RecordScheme ==>
      && validKeys.Some? && |validKeys.value| == |records|
      && forall i :: 0 <= i < |records| ==> validKeys.value[i] == RecordKey(records[i])
  {
    if SelectScheme(bucket) == LinkScheme {
      validKeys := DeriveLinkKeys(links);
    } else {
      var keys := DeriveRecordKeys(records);
      validKeys := Some(keys);
    }
  }
}
