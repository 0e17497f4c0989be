/**
 * The per-item eligibility decision: the year filter on the creation timestamp, the
 * sanitised file-name stem, and the first download link.
 */
module Eligibility {
  import opened Types

  /** The smallest and largest year the `datetime` type accepts. */
  const MinYear := 1
  const MaxYear := 9999

  /** The stem used when a video has no `name` key. */
  const Unnamed := "unnamed"

  predicate IsDigit(c: char)
  {
    '0' <= c <= '9'
  }

  function DigitValue(c: char): nat
    requires IsDigit(c)
  {
    (c as int) - ('0' as int)
  }

  function Digit(d: nat): (c: char)
    requires d < 10
    ensures IsDigit(c) && DigitValue(c) == d
  {
    (('0' as int) + d) as char
  }

  /** The timestamp starts with a four-digit year followed by '-'. */
  predicate HasYearField(ts: string)
  {
    |ts| >= 5 && IsDigit(ts[0]) && IsDigit(ts[1]) && IsDigit(ts[2]) && IsDigit(ts[3]) && ts[4] == '-'
  }

  function YearField(ts: string): nat
    requires HasYearField(ts)
  {
    1000 * DigitValue(ts[0]) + 100 * DigitValue(ts[1]) + 10 * DigitValue(ts[2]) + DigitValue(ts[3])
  }

  /**
   * The year of an ISO-8601 creation timestamp: its leading `YYYY-` field. None stands for
   * the exception `datetime.fromisoformat` raises on a malformed field or on year 0.
   */
  function ParseYear(ts: string): (r: Option<int>)
    ensures r.Some? ==> HasYearField(ts) && MinYear <= r.value <= MaxYear
    ensures !HasYearField(ts) ==> r.None?
  {
    if HasYearField(ts) && YearField(ts) >= MinYear then Some(YearField(ts)) else None
  }

  /** The four-digit year field of a timestamp; the chained divisions by ten keep the arithmetic linear for the solver. */
  function FormatYear(y: nat): (s: string)
    requires y <= MaxYear
    ensures |s| == 4
  {
    [Digit(y / 10 / 10 / 10 % 10), Digit(y / 10 / 10 % 10), Digit(y / 10 % 10), Digit(y % 10)]
  }

  /** Parsing reads back the year that was written in front of the rest of a timestamp. */
  lemma ParseFormatYear(y: int, rest: string)
    requires MinYear <= y <= MaxYear
    requires |rest| > 0 && rest[0] == '-'
    ensures ParseYear(FormatYear(y) + rest) == Some(y)
  {
  }

  /** Appending a decimal digit and dividing by ten undo each other. */
  lemma ShiftDigit(a: nat, d: nat)
    requires d < 10
    ensures (10 * a + d) / 10 == a && (10 * a + d) % 10 == d
  {
  }

  /** A digit character is the digit of its value. */
  lemma DigitOfValue(c: char)
    requires IsDigit(c)
    ensures Digit(DigitValue(c)) == c
  {
  }

  /** Conversely, a timestamp that parses starts with its year written out. */
  lemma FormatParseYear(ts: string)
    requires ParseYear(ts).Some?
    ensures ts[..4] == FormatYear(ParseYear(ts).value)
  {
    var d0, d1, d2, d3 := DigitValue(ts[0]), DigitValue(ts[1]), DigitValue(ts[2]), DigitValue(ts[3]);
    var y := ParseYear(ts).value;
    assert y == 10 * (10 * (10 * d0 + d1) + d2) + d3;
    ShiftDigit(10 * (10 * d0 + d1) + d2, d3);
    ShiftDigit(10 * d0 + d1, d2);
    ShiftDigit(d0, d1);
    assert d0 < 10;
    assert FormatYear(y) == [Digit(d0), Digit(d1), Digit(d2), Digit(d3)];
    DigitOfValue(ts[0]);
    DigitOfValue(ts[1]);
    DigitOfValue(ts[2]);
    DigitOfValue(ts[3]);
    assert ts[..4] == [ts[0], ts[1], ts[2], ts[3]];
  }

  /** `s.replace('/', '_')`: every '/' becomes '_', every other character stays. */
  function ReplaceSlashes(s: string): (r: string)
    ensures |r| == |s|
    ensures forall i :: 0 <= i < |s| ==> r[i] == (if s[i] == '/' then '_' else s[i])
    ensures '/' !in r
  {
    if s == [] then [] else [if s[0] == '/' then '_' else s[0]] + ReplaceSlashes(s[1..])
  }

  /** The file-name stem of a video: its `name` with slashes replaced, "unnamed" when the key is absent. */
  function SanitizeName(name: Option<string>): (r: string)
    ensures '/' !in r
    ensures name.None? ==> r == Unnamed
    ensures name.Some? ==> |r| == |name.value|
    ensures name.Some? ==> forall i :: 0 <= i < |r| ==> r[i] == (if name.value[i] == '/' then '_' else name.value[i])
  {
    match name
    case None => Unnamed
    case Some(s) => ReplaceSlashes(s)
  }

  /** Sanitisation maps "a/b" to "a_b", and so does not tell "a/b" from "a_b". */
  lemma SanitizeExample()
    ensures SanitizeName(Some("a/b")) == "a_b"
    ensures SanitizeName(Some("a/b")) == SanitizeName(Some("a_b"))
    ensures SanitizeName(Some("")) == ""
  {
  }

  /**
   * `video['download'][0]['link']`, with None for the KeyError or IndexError the lookup
   * raises when the key is absent, the array is empty, or its first entry has no link.
   */
  function GetDownloadLink(v: Video): (r: Option<string>)
    ensures r.Some? <==> v.download.Some? && |v.download.value| > 0 && v.download.value[0].link.Some?
    ensures r.Some? ==> r == v.download.value[0].link
  {
    match v.download
    case None => None
    case Some(entries) => if |entries| == 0 then None else entries[0].link
  }

  /** Why an item of the target year is not migrated. */
  datatype Reason = MalformedTimestamp | MissingUri | MissingLink

  /** What the pipeline does with one listed item before any download. */
  datatype Decision =
    | Skip                                         // created in another year: no counter changes
    | Reject(reason: Reason)                       // counted as an error, nothing downloaded
    | Migrate(uri: string, name: string, link: string)

  /** The item was created in `year`, by its timestamp's own year field. */
  predicate InYear(v: Video, year: int)
  {
    v.createdTime.Some? && ParseYear(v.createdTime.value) == Some(year)
  }

  /**
   * The checks the processing loop makes of one item, in the order it makes them: the
   * timestamp, the year, the `uri` key, then the link, which must be present and non-empty.
   */
  function Classify(v: Video, year: int): (d: Decision)
    ensures d.Skip? <==> v.createdTime.Some? && ParseYear(v.createdTime.value).Some? && !InYear(v, year)
    ensures d == Reject(MalformedTimestamp) <==> v.createdTime.None? || ParseYear(v.createdTime.value).None?
    ensures d == Reject(MissingUri) <==> InYear(v, year) && v.uri.None?
    ensures d == Reject(MissingLink) <==>
              InYear(v, year) && v.uri.Some? && (GetDownloadLink(v).None? || GetDownloadLink(v).value == "")
    ensures d.Migrate? ==> InYear(v, year) && v.uri == Some(d.uri) && d.name == SanitizeName(v.name)
                           && GetDownloadLink(v) == Some(d.link) && d.link != ""
  {
    if v.createdTime.None? then Reject(MalformedTimestamp)
    else
      match ParseYear(v.createdTime.value)
      case None => Reject(MalformedTimestamp)
      case Some(created) =>
        if created != year then Skip
        else if v.uri.None? then Reject(MissingUri)
        else
          var name := SanitizeName(v.name);
          var link := GetDownloadLink(v);
          if link.None? || link.value == "" then Reject(MissingLink)
          else Migrate(v.uri.value, name, link.value)
  }

  /** The year boundary: the last second of 2022 is in 2022, the first second of 2023 is not. */
  lemma YearBoundary(v: Video, w: Video)
    requires v.createdTime == Some("2022-12-31T23:59:59Z")
    requires w.createdTime == Some("2023-01-01T00:00:00Z")
    ensures InYear(v, 2022) && !Classify(v, 2022).Skip?
    ensures Classify(w, 2022).Skip?
  {
  }
}
