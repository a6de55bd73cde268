/** Where each downloaded object is written: the file name is the last path
    component of its key, placed in the target directory. */
module LocalFiles {
  import opened Strings
  import opened Keys

  /** The part of the key after its last "/", or the whole key when it has
      none. */
  function LocalFileName(key: String): (name: String)
    ensures '/' !in name
    ensures |name| <= |key| && key[|key| - |name|..] == name
    ensures '/' !in key ==> name == key
    ensures '/' in key ==> |name| < |key| && key[|key| - |name| - 1] == '/'
  {
    LastIndexOfChar(key, '/');
    var index := LastIndex(key, "/");
    key[index + 1..]
  }

  /** The path the object is written to: "./<dir>/<file name>". */
  function LocalPath(dir: String, key: String): String
  {
    "./" + dir + "/" + LocalFileName(key)
  }

  /** Whatever precedes the last separator, the name after it is the file name. */
  lemma LocalFileNameAfterSeparator(a: String, name: String)
    requires '/' !in name
    ensures LocalFileName(a + "/" + name) == name
  {
    var key := a + "/" + name;
    var r := LocalFileName(key);
    assert key[|a|] == '/';
    if |r| > |name| {
      assert false;
    } else if |r| < |name| {
      assert false;
    }
    assert key[|key| - |name|..] == name;
  }

  /** A file name has no separator, so deriving it again changes nothing. */
  lemma LocalFileNameIdempotent(key: String)
    ensures LocalFileName(LocalFileName(key)) == LocalFileName(key)
  {
  }

  /** The last component of the written path is the key's file name: the
      object lands directly inside the target directory. */
  lemma LocalPathFileName(dir: String, key: String)
    ensures LocalFileName(LocalPath(dir, key)) == LocalFileName(key)
  {
    LocalFileNameAfterSeparator("./" + dir, LocalFileName(key));
  }

  /** Cutting off a prefix of a key that leaves a separator in it keeps the
      file name. */
  lemma LocalFileNameOfSuffix(s: String, i: nat)
    requires i <= |s| && '/' in s[i..]
    ensures LocalFileName(s[i..]) == LocalFileName(s)
  {
    var t := s[i..];
    var r := LocalFileName(t);
    var x := t[..|t| - |r| - 1];
    assert t == x + "/" + r;
    assert s == (s[..i] + x) + "/" + r;
    LocalFileNameAfterSeparator(s[..i] + x, r);
  }

  /** A Scheme A key that still has a separator is saved under the same
      name as the stored link's last component. */
  lemma LocalFileNameOfLinkKey(link: String)
    requires LinkKey(link).Some? && '/' in LinkKey(link).value
    ensures LocalFileName(LinkKey(link).value) == LocalFileName(link)
  {
    var i := Index(link, DomainMarker);
    LocalFileNameOfSuffix(link, i + 5);
  }

  /** A Scheme B record whose file name has no separator is saved under that
      file name. */
  lemma LocalFileNameOfRecordKey(r: Record, dir: String)
    requires '/' !in r.fileName
    ensures LocalFileName(RecordKey(r)) == r.fileName
    ensures LocalPath(dir, RecordKey(r)) == "./" + dir + "/" + r.fileName
  {
    var a := KeyPrefix + r.uid + "/" + Timestamps.FormatDate(r.recordingTs) + "/" + Timestamps.HourString(r.recordingTs.hour);
    assert RecordKey(r) == a + "/" + r.fileName;
    LocalFileNameAfterSeparator(a, r.fileName);
  }

  /** Nothing keeps local files apart: keys that end in the same name are
      written to the same path, whatever comes before that name. */
  lemma LocalPathCollision(dir: String, a1: String, a2: String, name: String)
    requires '/' !in name
    ensures LocalPath(dir, a1 + "/" + name) == LocalPath(dir, a2 + "/" + name) == "./" + dir + "/" + name
  {
    LocalFileNameAfterSeparator(a1, name);
    LocalFileNameAfterSeparator(a2, name);
  }

  /** A worked example of the file name. */
  lemma LocalFileNameExample()
    ensures LocalFileName("a/b/c.wav") == "c.wav"
  {
    LocalFileNameAfterSeparator("a/b", "c.wav");
    assert "a/b" + "/" + "c.wav" == "a/b/c.wav";
  }
}
