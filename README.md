# s3-cli key resolution, modelled in Dafny

`s3-cli` is a command-line tool. It reads the catalog rows of a time window
from Postgres, turns each row into the key of an object in an S3 bucket, and
downloads the objects into a local directory, with at most 400 downloads
running at once. This project models the string logic of `main.go`: which
naming scheme the bucket selects, how each row becomes an object key, and
which local path each object is written to. It then proves properties of
that model.

- `wrappers.dfy` (module `Wrappers`): `Option`. A key whose computation
  aborts the Go program (a slice out of range) is `None`.
- `strings.dfy` (module `Strings`): Go's `strings.Index`,
  `strings.LastIndex` and `strings.ToLower`, and the decimal rendering done
  by `strconv.Itoa` and `%d`. Also a reader for decimal digit strings
  (`ParseDecimal`), used to state round trips.
- `timestamps.dfy` (module `Timestamps`): a recording timestamp as
  already-split calendar fields. Each field's range is a subset type (month
  1..12, day 1..31, hour 0..23, minute and second 0..59). The module also
  holds the layout `"2006/01/02"` (`FormatDate`) and the hour padded by hand
  (`HourString`).
- `keys.dfy` (module `Keys`): the scheme selection (`SelectScheme`).
  Scheme A turns a stored link into a key (`LinkKey`). Scheme B builds the
  key `"clanz-3reality-" + uid + "/" + YYYY/MM/DD + "/" + HH + "/" +
  fileName` (`RecordKey`). The two loops that append one key per row to
  `validKeys` (`DeriveLinkKeys`, `DeriveRecordKeys`) are methods, and
  `ResolveKeys` picks one of them. `ParseRecordKey` reads a Scheme B key
  back into its fields. It is the partner of `RecordKey`: for a uid without
  a `/` and a year from 0 to 9999, the round trip shows that the key loses
  none of the fields it encodes. Without the first condition it fails:
  `RecordKeyCollision` gives two records with different uids and file names
  and the same key.
- `local_files.dfy` (module `LocalFiles`): the local file name (the part of
  the key after its last `/`) and the path `"./" + dir + "/" + name`.

A Go string is bytes; here it is `seq<char>`, and each character stands for
one byte. For the ASCII keys and links the tool handles, the offsets
(`index+5`, `index+1`) mean the same thing in both.

Scheme A is modelled as written. The code never checks that `".com"` is
present. When it is missing, `Index` gives -1, and the key is the link
without its first four characters (`LinkKeyWithoutMarker`). The only
failure is a slice start beyond the end of the link. Go panics there, and
that ends the whole run, so `DeriveLinkKeys` returns `None` for the whole
batch.

Nothing in the code keeps the local files distinct. `LocalFileName` only
looks at the text after the last `/`, so two keys with the same last
component get the same local path (`LocalPathCollision`).

## Model

| member | source | states |
|---|---|---|
| Strings.Index | main.go:68 | the result is -1 exactly when `sub` occurs nowhere; otherwise `sub` occurs at the result and at no earlier position |
| Strings.LastIndex | main.go:138 | the result is -1 or a position where `sub` occurs; `sub` occurs at no later position |
| Strings.LastIndexOfChar | main.go:138 | for a one-character pattern: the result is -1 or a position holding that character, and no later position holds it |
| Strings.ToLower | main.go:50 | same length; every character is mapped to lower case |
| Strings.ToLowerIsCaseInsensitive | main.go:50 | take a target with no upper-case letters; lower-casing `s` gives that target exactly when `s` is the target in some mix of cases (both directions) |
| Strings.Decimal | main.go:108-110 | the rendering is all digits, has no leading zero, and has 1, 2, 3 or 4 digits exactly when the number is below 10, 100, 1000 or 10000 |
| Strings.ParseDecimalOfDecimal | main.go:108-110 | reading the decimal rendering back gives the number |
| Strings.ZeroPad | main.go:100 | the padded string has the requested width, or keeps its own length when that is already at least the width |
| Strings.ParseDecimalZeroPad | main.go:100 | zero padding keeps a digit string all digits and keeps its value |
| Timestamps.FormatYear | main.go:100 | the layout element "2006"; its contract is carried by `FormatYearRoundTrip` (four digits that read back as a year 0..9999) and `FormatYearNegative` (the sign and the magnitude of a negative year) |
| Timestamps.TwoDigits | main.go:100 | the layout elements "01" and "02"; its contract is carried by `TwoDigitsRoundTrip` (two digits that read back as the number) |
| Timestamps.FormatDate | main.go:100-114 | the layout "2006/01/02"; its contract is carried by `FormatDateFields` (10 characters, separators at 4 and 7, fields that read back as year, month and day) |
| Timestamps.HourString | main.go:105-111 | the hour padded by hand; its contract is carried by `HourStringRoundTrip`, `HourStringCases` and `HourStringIsTwoDigits` |
| Timestamps.HourStringRoundTrip | main.go:105-111 | every hour 0..23 gives exactly two digits, and those digits read back as the hour |
| Timestamps.HourStringCases | main.go:107-111 | hours below 10 give '0' followed by their digit; hours 10..23 give their own two digits |
| Timestamps.HourStringIsTwoDigits | main.go:105-111 | the hand-padded hour equals the fixed-width two-digit rendering that the date layout uses |
| Timestamps.TwoDigitsRoundTrip | main.go:100 | for the layout fields "01" and "02": a number below 100 gives two digits that read back as the number |
| Timestamps.FormatYearRoundTrip | main.go:100 | for the layout field "2006": a year 0..9999 gives four digits that read back as the year |
| Timestamps.FormatYearNegative | main.go:100 | a negative year gives '-' followed by at least four digits that read back as the year's magnitude |
| Timestamps.FormatDateFields | main.go:100-114 | for a four-digit year the date is "YYYY/MM/DD": 10 characters, with separators at positions 4 and 7 and fields that read back as year, month and day |
| Keys.SelectScheme | main.go:50 | the scheme of the whole batch; its contract is carried by `SelectSchemeCaseInsensitive` (Scheme A exactly for the casings of the uploads bucket's name) |
| Keys.SelectSchemeCaseInsensitive | main.go:50-72 | Scheme A is chosen exactly for the casings of "clanz-uploads-ogg"; every other bucket name chooses Scheme B |
| Keys.LinkKey | main.go:68-69 | the Scheme A key of one link; its contract is carried by `LinkKeyWithMarker`, `LinkKeyWithoutMarker`, `LinkKeyIsSuffix` and `LinkKeyOfHostAndPath` |
| Keys.LinkKeyWithMarker | main.go:68-69 | if the first ".com" is at `i` and `i+5` is within the link, the key is `link[i+5..]` and the link is the text before the marker, the marker, one character and then the key; if `i+5` is past the end, there is no key |
| Keys.LinkKeyWithoutMarker | main.go:68-69 | without ".com" the key is `link[4..]` and no error is raised; only a link shorter than 4 characters aborts |
| Keys.LinkKeyIsSuffix | main.go:69 | a derived key is a suffix of its link, at least four characters shorter |
| Keys.LinkKeyOfHostAndPath | main.go:68-69 | a link "x.y.com/key" whose host parts hold no '.', and whose `y` does not start with 'c', has the key `key` |
| Keys.LinkKeyExample | main.go:68-69 | "https://bucket.example.com/foo/bar/baz.wav" gives the key "foo/bar/baz.wav" |
| Keys.DeriveLinkKeys | main.go:67-70 | a list comes out exactly when every link has a key; it then holds one key per link, in input order |
| Keys.RecordKey | main.go:113-114 | the Scheme B key of one row; its contract is carried by `ParseRecordKeyRoundTrip`, `RecordKeyInjective`, `RecordKeyUsesOnlyItsFields`, `RecordKeyCollision` and `LocalFileNameOfRecordKey` |
| Keys.ParseTailRoundTrip | main.go:113-114 | the part after the uid reads back as the timestamp's year, month, day, hour and the file name |
| Keys.ParseRecordKeySplit | main.go:113 | for a uid with no '/', a key is read as the prefix, that uid, and then its tail |
| Keys.ParseRecordKeyRoundTrip | main.go:100-114 | a Scheme B key reads back as the record's uid, year, month, day, hour and file name, when the uid has no '/' and the year has four digits |
| Keys.RecordKeyInjective | main.go:113-114 | two such records share a key only if they agree on uid, date, hour and file name |
| Keys.RecordKeyUsesOnlyItsFields | main.go:100-114 | records that agree on uid, year, month, day, hour and file name have the same key; minutes and seconds play no part |
| Keys.RecordKeyCollision | main.go:113 | when a uid may hold '/', moving a "date/hour/name" block from the end of the uid to the start of the file name keeps the key; the two records differ in uid and file name |
| Keys.RecordKeyExample | main.go:113-114 | uid "uid123", 2022-05-22 09:05:00 and "clip.wav" give "clanz-3reality-uid123/2022/05/22/09/clip.wav" |
| Keys.DeriveRecordKeys | main.go:103-116 | one key per record, in input order; the key of record `i` is its Scheme B key |
| Keys.ResolveKeys | main.go:47-117 | under Scheme A the result is what the link loop gives for the links; under Scheme B it is one Scheme B key per record, in order |
| LocalFiles.LocalFileName | main.go:138-140 | the name has no '/' and is a suffix of the key; it is the whole key when the key has no '/', and otherwise it is preceded by a '/' |
| LocalFiles.LocalPath | main.go:140 | the path "./dir/name"; its contract is carried by `LocalPathFileName`, `LocalFileNameOfRecordKey` and `LocalPathCollision` |
| LocalFiles.LocalFileNameAfterSeparator | main.go:138 | for a name with no '/', the file name of "a/name" is that name, whatever `a` is |
| LocalFiles.LocalFileNameIdempotent | main.go:138 | taking the file name of a file name changes nothing |
| LocalFiles.LocalPathFileName | main.go:140 | the last component of "./dir/name" is the key's file name |
| LocalFiles.LocalFileNameOfSuffix | main.go:138 | removing a prefix of a key keeps its file name, as long as a '/' is still left |
| LocalFiles.LocalFileNameOfLinkKey | main.go:67-69 | a Scheme A key that still holds a '/' gets the same file name as its link |
| LocalFiles.LocalFileNameOfRecordKey | main.go:113-140 | a Scheme B record whose file name has no '/' is saved as that file name, at "./dir/fileName" |
| LocalFiles.LocalPathCollision | main.go:138-140 | two keys that end in the same '/'-free name are written to the same path, "./dir/name", whatever precedes the name |
| LocalFiles.LocalFileNameExample | main.go:138-140 | "a/b/c.wav" is saved as "c.wav" |

## Left out

- Flag parsing and the check for required flags (main.go:22-39): command-line handling, with no logic to model.
- The Postgres DSN, the gorm connection and the two catalog queries (main.go:41-66, 73-99): database I/O. `ResolveKeys` takes the rows each query returns as parameters. The query's error exit is not modelled.
- The AWS session, the `s3manager` downloader and the download call (main.go:119-128, 147-156): network I/O through a library that is not part of this model. The `err` check at main.go:126 tests a stale error and is dead code.
- The download loop: one goroutine per key, at most 400 goroutines between `guard <- 1` and `<-guard`, and the final `wg.Wait()` (main.go:130-162). It only serves to run a bounded number of downloads in parallel, and this sequential model has no notion of parallel execution. Only the path each goroutine computes is modelled (`LocalFileName`, `LocalPath`). The code keeps no success or failure counts.
- `os.Mkdir`, `os.Create`, `file.Close`, and the process exit when a file cannot be created (main.go:139-144, 166-169): filesystem I/O and process control.
- Elapsed-time printing in float seconds and all other output (main.go:23, 133, 153, 156, 163).
- Time zones: `Format` and `Hour()` read the timestamp in its location, and the model takes the fields as already read that way. Nanoseconds are not modelled, since the key does not use them. The constant `layout2 = "16"` (main.go:101) is declared but never used.
- Strings.ToLower: models ASCII case mapping only and leaves other characters unchanged. Go maps Unicode case, so the two can differ only on bucket names with non-ASCII characters.
- Strings are sequences of characters, one character per byte. Multi-byte UTF-8 text in links or keys, where Go's byte offsets and character positions differ, is not modelled.
