/**
 * The names a capture run produces: the Buenos Aires timestamp, the node
 * name, the 8-character unique ids, the file and folder names, the object
 * keys, and local paths as lists of segments.
 */
module Naming {
  import opened Wrappers
  import opened Numerals

  // ---------------------------------------------------------------------
  // Timestamp

  /** Wall-clock fields of the current time in America/Argentina/Buenos_Aires. */
  datatype Clock = Clock(year: nat, month: nat, day: nat, hour: nat, minute: nat, second: nat)

  /**
   * The ranges `datetime` keeps its fields in, for a wall clock after the
   * year 999 (where `%Y` is four digits on every platform).
   */
  predicate IsValidClock(t: Clock)
  {
    1000 <= t.year <= 9999 && 1 <= t.month <= 12 && 1 <= t.day <= 31 &&
    t.hour < 24 && t.minute < 60 && t.second < 60
  }

  const TimezoneSuffix: string := "-GMT-03"

  /** `strftime("%Y-%m-%d-%H-%M-%S-GMT-03")`: zero-padded fields and a literal suffix. */
  function Timestamp(t: Clock): string
  {
    FormatInt(t.year, 4) + ("-" + (FormatInt(t.month, 2) + ("-" + (FormatInt(t.day, 2) + ("-" +
    (FormatInt(t.hour, 2) + ("-" + (FormatInt(t.minute, 2) + ("-" + (FormatInt(t.second, 2) +
    TimezoneSuffix))))))))))
  }

  /** Reads a timestamp back into its fields; `None` for any string not of that shape. */
  function ParseTimestamp(s: string): Option<Clock>
  {
    if |s| == 26 && s[4] == '-' && s[7] == '-' && s[10] == '-' && s[13] == '-' && s[16] == '-' &&
       s[19..] == TimezoneSuffix &&
       IsNumeral(s[0..4]) && IsNumeral(s[5..7]) && IsNumeral(s[8..10]) &&
       IsNumeral(s[11..13]) && IsNumeral(s[14..16]) && IsNumeral(s[17..19])
    then
      Some(Clock(Value(s[0..4], 10), Value(s[5..7], 10), Value(s[8..10], 10),
                 Value(s[11..13], 10), Value(s[14..16], 10), Value(s[17..19], 10)))
    else None
  }

  // ---------------------------------------------------------------------
  // Node name and unique ids

  const NodePrefix: string := "orus-data-node-"

  /** `f"orus-data-node-{node_number:02d}"`. */
  function NodeName(nodeNumber: int): string
  {
    NodePrefix + FormatInt(nodeNumber, 2)
  }

  /** The number of distinct 128-bit values `uuid.uuid4()` draws from. */
  const UuidBound: nat := 0x1_0000_0000_0000_0000_0000_0000_0000_0000

  /** 2^128 is 16^32: a uuid is at most 32 hexadecimal digits. */
  lemma UuidBoundIsPow()
    ensures UuidBound == Pow(16, 32)
  {
    assert Pow(16, 8) == 0x1_0000_0000;
    assert Pow(16, 16) == Pow(16, 8) * Pow(16, 8) by { PowAdd(16, 8, 8); }
    assert Pow(16, 32) == Pow(16, 16) * Pow(16, 16) by { PowAdd(16, 16, 16); }
  }

  /** `uuid.hex`: the 128-bit value as 32 lowercase hexadecimal digits. */
  function UuidHex(u: nat): string
  {
    ZeroPad(Digits(u, 16), 32)
  }

  predicate IsLowerHex(c: char)
  {
    '0' <= c <= '9' || 'a' <= c <= 'f'
  }

  /** What the pipeline embeds in file names to tell apart files of one timestamp. */
  predicate IsUniqueId(id: string)
  {
    |id| == 8 && forall k | 0 <= k < 8 :: IsLowerHex(id[k])
  }

  /** `uuid.uuid4().hex[:8]`, with the random 128-bit value `u` given. */
  function GenerateUniqueId(u: nat): (id: string)
    requires u < UuidBound
    ensures IsUniqueId(id)
    ensures id == UuidHex(u)[..8]
  {
    UuidBoundIsPow();
    DigitsLength(u, 16, 32);
    ZeroPadValue(Digits(u, 16), 32, 16);
    var hex := UuidHex(u);
    assert forall k | 0 <= k < 8 :: DigitValue(hex[k]) < 16;
    hex[..8]
  }

  // ---------------------------------------------------------------------
  // File names, folders and keys

  /** `f"{node_name}_{timestamp}_{unique_id}.png"`. */
  function MainFileName(nodeName: string, timestamp: string, id: string): string
  {
    nodeName + "_" + timestamp + "_" + id + ".png"
  }

  /** `f"stream_{i:03d}"`. */
  function StreamFolder(i: int): string
  {
    "stream_" + FormatInt(i, 3)
  }

  /** `f"stream_{i:03d}_{timestamp}_{stream_id}.png"`. */
  function StreamFileName(i: int, timestamp: string, id: string): string
  {
    StreamFolder(i) + "_" + timestamp + "_" + id + ".png"
  }

  /** `f"{node_name}/{timestamp}/main/{main_filename}"`. */
  function MainKey(nodeName: string, timestamp: string, fileName: string): string
  {
    nodeName + "/" + timestamp + "/main/" + fileName
  }

  /** `f"{node_name}/{timestamp}/stream_{i:03d}/{stream_filename}"`. */
  function StreamKey(nodeName: string, timestamp: string, i: int, fileName: string): string
  {
    nodeName + "/" + timestamp + "/" + StreamFolder(i) + "/" + fileName
  }

  /** A local path as the list of segments `os.path.join` was given. */
  type Path = seq<string>

  /** The segments joined with "/", the separator object keys use. */
  function JoinPath(p: Path): string
  {
    if |p| == 0 then "" else if |p| == 1 then p[0] else p[0] + "/" + JoinPath(p[1..])
  }

  // ---------------------------------------------------------------------
  // Lemmas

  lemma FieldOf(n: nat, width: nat)
    requires width >= 1 && n < Pow(10, width)
    ensures |FormatInt(n, width)| == width && IsNumeral(FormatInt(n, width))
    ensures Value(FormatInt(n, width), 10) == n
  {
    FormatIntLength(n, width);
    ZeroPadValue(Digits(n, 10), width, 10);
  }

  /** A field followed by a dash and the rest splits back into the three. */
  lemma SplitField(s: string, field: string, rest: string)
    requires s == field + ("-" + rest)
    ensures s[..|field|] == field && s[|field|] == '-' && s[|field| + 1..] == rest
  {
    assert s[|field| + 1..] == ("-" + rest)[1..];
  }

  /** Where each field of a timestamp sits, given that each field has its width. */
  lemma TimestampLayout(year: string, month: string, day: string, hour: string, minute: string, second: string)
    requires |year| == 4 && |month| == 2 && |day| == 2 && |hour| == 2 && |minute| == 2 && |second| == 2
    ensures var s := year + ("-" + (month + ("-" + (day + ("-" + (hour + ("-" + (minute + ("-" +
        (second + TimezoneSuffix))))))))));
      |s| == 26 && s[4] == '-' && s[7] == '-' && s[10] == '-' && s[13] == '-' && s[16] == '-' &&
      s[0..4] == year && s[5..7] == month && s[8..10] == day && s[11..13] == hour &&
      s[14..16] == minute && s[17..19] == second && s[19..] == TimezoneSuffix
  {
    var r5 := second + TimezoneSuffix;
    var r4 := minute + ("-" + r5);
    var r3 := hour + ("-" + r4);
    var r2 := day + ("-" + r3);
    var r1 := month + ("-" + r2);
    var s := year + ("-" + r1);
    SplitField(s, year, r1);
    SplitField(r1, month, r2);
    SplitField(r2, day, r3);
    SplitField(r3, hour, r4);
    SplitField(r4, minute, r5);
    assert s[5..] == r1 && s[8..] == r2 && s[11..] == r3 && s[14..] == r4 && s[17..] == r5;
    assert s[5..7] == r1[..2];
    assert s[8..10] == r2[..2];
    assert s[11..13] == r3[..2];
    assert s[14..16] == r4[..2];
    assert s[17..19] == r5[..2];
    assert s[19..] == r5[2..];
  }

  /** A timestamp is 26 characters, ends in "-GMT-03" and gives back the clock fields it was made from. */
  lemma TimestampRoundTrip(t: Clock)
    requires IsValidClock(t)
    ensures |Timestamp(t)| == 26
    ensures Timestamp(t)[19..] == TimezoneSuffix
    ensures ParseTimestamp(Timestamp(t)) == Some(t)
  {
    FieldOf(t.year, 4);
    FieldOf(t.month, 2);
    FieldOf(t.day, 2);
    FieldOf(t.hour, 2);
    FieldOf(t.minute, 2);
    FieldOf(t.second, 2);
    TimestampLayout(FormatInt(t.year, 4), FormatInt(t.month, 2), FormatInt(t.day, 2),
                    FormatInt(t.hour, 2), FormatInt(t.minute, 2), FormatInt(t.second, 2));
  }

  /** Two clocks give the same timestamp only if they are the same clock. */
  lemma TimestampInjective(t1: Clock, t2: Clock)
    requires IsValidClock(t1) && IsValidClock(t2) && Timestamp(t1) == Timestamp(t2)
    ensures t1 == t2
  {
    TimestampRoundTrip(t1);
    TimestampRoundTrip(t2);
  }

  /**
   * For the node numbers 1..99 the node name is 17 characters; from 100 on
   * the number takes three or more digits; and the name always determines
   * the number (its part after the prefix reads back as the number).
   */
  lemma NodeNameShape(n: int)
    ensures NodeName(n)[..15] == NodePrefix
    ensures ParseInt(NodeName(n)[15..]) == Some(n)
    ensures 1 <= n <= 99 ==> |NodeName(n)| == 17
    ensures n >= 100 ==> |NodeName(n)| >= 18
  {
    assert NodeName(n)[15..] == FormatInt(n, 2);
    ParseFormatInt(n, 2);
    if n >= 0 {
      FormatIntLength(n, 2);
    }
  }

  lemma NodeNameInjective(a: int, b: int)
    requires NodeName(a) == NodeName(b)
    ensures a == b
  {
    NodeNameShape(a);
    NodeNameShape(b);
  }

  /** The folders "stream_001" .. "stream_009" are 10 characters each and pairwise distinct. */
  lemma StreamFolderShape(i: int, j: int)
    requires 1 <= i <= 9 && 1 <= j <= 9
    ensures |StreamFolder(i)| == 10
    ensures StreamFolder(i) == StreamFolder(j) ==> i == j
  {
    FormatIntLength(i, 3);
    if StreamFolder(i) == StreamFolder(j) {
      assert StreamFolder(i)[7..] == FormatInt(i, 3);
      assert StreamFolder(j)[7..] == FormatInt(j, 3);
      FormatIntInjective(i, j, 3);
    }
  }

  /** `uuid.hex` is 32 digits that read back as the 128-bit value. */
  lemma UuidHexRoundTrip(u: nat)
    requires u < UuidBound
    ensures |UuidHex(u)| == 32 && AllDigits(UuidHex(u), 16)
    ensures Value(UuidHex(u), 16) == u
  {
    UuidBoundIsPow();
    DigitsLength(u, 16, 32);
    ZeroPadValue(Digits(u, 16), 32, 16);
  }

  /** A file name "{prefix}_{timestamp}_{id}.png" starts with the prefix, then the timestamp. */
  lemma FileNameLayout(prefix: string, timestamp: string, id: string)
    ensures var f := prefix + "_" + timestamp + "_" + id + ".png";
      f[..|prefix|] == prefix && f[|prefix|] == '_' && f[|prefix| + 1..|prefix| + 1 + |timestamp|] == timestamp
  {
    var f := prefix + "_" + timestamp + "_" + id + ".png";
    assert f == prefix + ("_" + (timestamp + ("_" + id + ".png")));
  }

  /** The id sits right before ".png" at the end of "{prefix}_{timestamp}_{id}.png". */
  lemma IdInFileName(prefix: string, timestamp: string, id: string)
    ensures var f := prefix + "_" + timestamp + "_" + id + ".png";
      |f| == |prefix| + |timestamp| + |id| + 6 &&
      f[|prefix| + |timestamp| + 2..|prefix| + |timestamp| + 2 + |id|] == id &&
      f[|f| - 4..] == ".png"
  {
    var f := prefix + "_" + timestamp + "_" + id + ".png";
    assert f == (prefix + "_" + timestamp + "_") + (id + ".png");
  }

  /** File names of one prefix and timestamp differ whenever their 8-character ids differ. */
  lemma FileNameDistinctIds(prefix: string, timestamp: string, id1: string, id2: string)
    requires IsUniqueId(id1) && IsUniqueId(id2) && id1 != id2
    ensures prefix + "_" + timestamp + "_" + id1 + ".png" != prefix + "_" + timestamp + "_" + id2 + ".png"
  {
    IdInFileName(prefix, timestamp, id1);
    IdInFileName(prefix, timestamp, id2);
  }

  /** The object key of the main capture is its path below the save folder, "/"-joined. */
  lemma MainKeyIsPath(nodeName: string, timestamp: string, fileName: string)
    ensures MainKey(nodeName, timestamp, fileName) == JoinPath([nodeName, timestamp, "main", fileName])
  {
    PathOfFour(nodeName, timestamp, "main", fileName);
    assert "/main/" == "/" + "main" + "/";
  }

  lemma PathOfThree(a: string, b: string, c: string)
    ensures JoinPath([a, b, c]) == a + "/" + b + "/" + c
  {
    assert JoinPath([c]) == c;
    assert [a, b, c][1..] == [b, c];
    assert [b, c][1..] == [c];
    assert JoinPath([b, c]) == b + "/" + c;
  }

  lemma PathOfFour(a: string, b: string, c: string, d: string)
    ensures JoinPath([a, b, c, d]) == a + "/" + b + "/" + c + "/" + d
  {
    assert JoinPath([d]) == d;
    assert [a, b, c, d][1..] == [b, c, d];
    assert [b, c, d][1..] == [c, d];
    assert [c, d][1..] == [d];
    assert JoinPath([c, d]) == c + "/" + d;
    assert JoinPath([b, c, d]) == b + "/" + (c + "/" + d);
  }

  /** The object key of a tile is its path below the save folder, "/"-joined. */
  lemma StreamKeyIsPath(nodeName: string, timestamp: string, i: int, fileName: string)
    ensures StreamKey(nodeName, timestamp, i, fileName) ==
            JoinPath([nodeName, timestamp, StreamFolder(i), fileName])
  {
    PathOfFour(nodeName, timestamp, StreamFolder(i), fileName);
  }
}
