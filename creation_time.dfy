/** The creation timestamp of a OneDrive item, as the async transfer tool
    reads it with strptime("%Y-%m-%dT%H:%M:%S.%fZ") and writes it back with
    strftime("%Y:%m:%d %H:%M:%S") into the EXIF DateTimeOriginal tag. */
module CreationTime {
  import opened Wrappers
  import opened Text

  datatype DateTime = DateTime(year: nat, month: nat, day: nat,
                               hour: nat, minute: nat, second: nat, micro: nat)

  predicate IsLeap(y: nat) { y % 4 == 0 && (y % 100 != 0 || y % 400 == 0) }

  function DaysInMonth(y: nat, m: nat): (d: nat)
    requires 1 <= m <= 12
    ensures 28 <= d <= 31
  {
    if m == 2 then (if IsLeap(y) then 29 else 28)
    else if m == 4 || m == 6 || m == 9 || m == 11 then 30
    else 31
  }

  /** The values a Python datetime accepts. */
  predicate Valid(dt: DateTime) {
    && 1 <= dt.year <= 9999
    && 1 <= dt.month <= 12
    && 1 <= dt.day <= DaysInMonth(dt.year, dt.month)
    && dt.hour < 24 && dt.minute < 60 && dt.second < 60
    && dt.micro < 1000000
  }

  // The texts strptime's field patterns accept. A field is delimited by the
  // literal that follows it in the format, which its pattern never matches,
  // so a field's text is everything up to that literal.

  predicate ShortNumber(t: string) { 1 <= |t| <= 2 && AllDigits(t) }

  /** %m: 1[0-2]|0[1-9]|[1-9] */
  predicate MonthText(t: string) { ShortNumber(t) && 1 <= DecimalValue(t) <= 12 }

  /** %d: 3[01]|[12]\d|0[1-9]|[1-9]| [1-9] */
  predicate DayText(t: string) {
    (ShortNumber(t) && 1 <= DecimalValue(t) <= 31) || (|t| == 2 && t[0] == ' ' && '1' <= t[1] <= '9')
  }

  function DayValue(t: string): nat
    requires DayText(t)
  {
    if t[0] == ' ' then DecimalValue(t[1..]) else DecimalValue(t)
  }

  /** %H: 2[0-3]|[0-1]\d|\d */
  predicate HourText(t: string) { ShortNumber(t) && DecimalValue(t) <= 23 }

  /** %M: [0-5]\d|\d */
  predicate MinuteText(t: string) { ShortNumber(t) && DecimalValue(t) <= 59 }

  /** %S: 6[0-1]|[0-5]\d|\d; 60 and 61 pass the pattern and are then refused
      by the datetime constructor. */
  predicate SecondText(t: string) { ShortNumber(t) && DecimalValue(t) <= 61 }

  /** %f: [0-9]{1,6} */
  predicate FractionText(t: string) { 1 <= |t| <= 6 && AllDigits(t) }

  /** %f's value: the digits padded on the right with zeros to six places. */
  function FractionValue(t: string): nat
    requires FractionText(t)
  {
    var padded := t + seq(6 - |t|, _ => '0');
    assert AllDigits(padded);
    DecimalValue(padded)
  }

  /** Splits s at its first character in `seps`. */
  function SplitAt(s: string, seps: set<char>): (r: Option<(string, string)>)
    ensures r.Some? ==> exists c :: c in seps && s == r.value.0 + [c] + r.value.1
    ensures r.Some? ==> forall i :: 0 <= i < |r.value.0| ==> r.value.0[i] !in seps
    ensures r.None? ==> forall i :: 0 <= i < |s| ==> s[i] !in seps
  {
    if s == [] then None
    else if s[0] in seps then Some(([], s[1..]))
    else
      match SplitAt(s[1..], seps)
      case None => None
      case Some(p) =>
        assert s == [s[0]] + s[1..];
        Some(([s[0]] + p.0, p.1))
  }

  /** The seven field texts of a timestamp, before their values are checked. */
  datatype Fields = Fields(year: string, month: string, day: string,
                           hour: string, minute: string, second: string, fraction: string)

  /** The format's literals are matched case-insensitively: the 'T' and the
      'Z' may be written in either case. */
  const TSeps: set<char> := {'T', 't'}
  const ZSeps: set<char> := {'Z', 'z'}

  /** "%H:%M:%S.%fZ" written from field texts, with `z` for the final 'Z'. */
  function TimeText(h: string, mi: string, se: string, fr: string, z: char): string {
    h + (":" + (mi + (":" + (se + ("." + (fr + [z]))))))
  }

  /** The text "%Y-%m-%dT%H:%M:%S.%fZ" spelt with the given field texts, `t`
      for the 'T' and `z` for the 'Z'. */
  function Join(f: Fields, t: char, z: char): string {
    f.year + ("-" + (f.month + ("-" + (f.day + ([t] + TimeText(f.hour, f.minute, f.second, f.fraction, z))))))
  }

  /** The time part after the 'T': "%H:%M:%S.%fZ". */
  function SplitTime(s: string): Option<(string, string, string, string)> {
    var (ht, r3) :- SplitAt(s, {':'});
    var (it, r4) :- SplitAt(r3, {':'});
    var (st, r5) :- SplitAt(r4, {'.'});
    var (ft, r6) :- SplitAt(r5, ZSeps);
    if r6 != [] then None else Some((ht, it, st, ft))
  }

  /** Cuts s at the literals of the format; nothing may follow the final Z. */
  function SplitFields(s: string): Option<Fields> {
    if |s| < 5 || !AllDigits(s[..4]) || s[4] != '-' then None
    else
      var (mt, r1) :- SplitAt(s[5..], {'-'});
      var (dt, r2) :- SplitAt(r1, TSeps);
      var (ht, it, st, ft) :- SplitTime(r2);
      Some(Fields(s[..4], mt, dt, ht, it, st, ft))
  }

  predicate FieldsMatch(f: Fields) {
    && |f.year| == 4 && AllDigits(f.year)
    && MonthText(f.month) && DayText(f.day) && HourText(f.hour)
    && MinuteText(f.minute) && SecondText(f.second) && FractionText(f.fraction)
  }

  /** The values of matched fields, before the datetime constructor checks
      them. */
  function Values(f: Fields): DateTime
    requires FieldsMatch(f)
  {
    DateTime(DecimalValue(f.year), DecimalValue(f.month), DayValue(f.day),
             DecimalValue(f.hour), DecimalValue(f.minute), DecimalValue(f.second),
             FractionValue(f.fraction))
  }

  /** datetime.strptime(s, "%Y-%m-%dT%H:%M:%S.%fZ"): the text must match the
      format, and the field values must form a valid datetime (year 0, a day
      past the month's end, second 60 or 61 raise ValueError). */
  function Parse(s: string): (r: Option<DateTime>)
    ensures r.Some? ==> Valid(r.value)
    ensures r.Some? ==> SplitFields(s).Some? && FieldsMatch(SplitFields(s).value)
  {
    var f :- SplitFields(s);
    if FieldsMatch(f) && Valid(Values(f)) then Some(Values(f)) else None
  }

  /** s spells the fields f, with t and z for the two letters. */
  predicate Spells(s: string, f: Fields, t: char, z: char) {
    t in TSeps && z in ZSeps && s == Join(f, t, z)
  }

  lemma {:induction false} SplitAtFirst(a: string, c: char, b: string, seps: set<char>)
    requires c in seps
    requires forall i :: 0 <= i < |a| ==> a[i] !in seps
    ensures SplitAt(a + ([c] + b), seps) == Some((a, b))
  {
    if a != [] {
      assert (a + ([c] + b))[0] == a[0];
      assert (a + ([c] + b))[1..] == a[1..] + ([c] + b);
      SplitAtFirst(a[1..], c, b, seps);
      assert [a[0]] + a[1..] == a;
    } else {
      assert a + ([c] + b) == [c] + b;
    }
  }

  lemma SplitTimeOf(h: string, mi: string, se: string, fr: string, z: char)
    requires AllDigits(h) && AllDigits(mi) && AllDigits(se) && AllDigits(fr) && z in ZSeps
    ensures SplitTime(TimeText(h, mi, se, fr, z)) == Some((h, mi, se, fr))
  {
    var r5 := fr + [z];
    var r4 := se + ("." + r5);
    var r3 := mi + (":" + r4);
    SplitAtFirst(h, ':', r3, {':'});
    SplitAtFirst(mi, ':', r4, {':'});
    SplitAtFirst(se, '.', r5, {'.'});
    assert r5 == fr + ([z] + []);
    SplitAtFirst(fr, z, [], ZSeps);
  }

  /** SplitFields in terms of its three cuts. */
  lemma SplitFieldsCut(s: string, mo: string, r1: string, d: string, time: string, t: (string, string, string, string))
    requires |s| >= 5 && AllDigits(s[..4]) && s[4] == '-'
    requires SplitAt(s[5..], {'-'}) == Some((mo, r1))
    requires SplitAt(r1, TSeps) == Some((d, time))
    requires SplitTime(time) == Some(t)
    ensures SplitFields(s) == Some(Fields(s[..4], mo, d, t.0, t.1, t.2, t.3))
  {
  }

  /** Cutting a spelling of matched fields gives the fields back. */
  lemma SplitJoin(f: Fields, t: char, z: char)
    requires FieldsMatch(f) && t in TSeps && z in ZSeps
    ensures SplitFields(Join(f, t, z)) == Some(f)
  {
    var time := TimeText(f.hour, f.minute, f.second, f.fraction, z);
    var r1 := f.day + ([t] + time);
    var s := Join(f, t, z);
    assert s[..4] == f.year && s[4] == '-' && s[5..] == f.month + ("-" + r1);
    assert forall i :: 0 <= i < |f.day| ==> f.day[i] == ' ' || IsDigit(f.day[i]);
    SplitAtFirst(f.month, '-', r1, {'-'});
    SplitAtFirst(f.day, t, time, TSeps);
    SplitTimeOf(f.hour, f.minute, f.second, f.fraction, z);
    SplitFieldsCut(s, f.month, r1, f.day, time, (f.hour, f.minute, f.second, f.fraction));
  }

  /** The separator SplitAt cut s at. */
  function CutChar(s: string, seps: set<char>): char
    requires SplitAt(s, seps).Some?
  {
    SplitAtLength(s, seps);
    s[|SplitAt(s, seps).value.0|]
  }

  lemma SplitAtLength(s: string, seps: set<char>)
    requires SplitAt(s, seps).Some?
    ensures |SplitAt(s, seps).value.0| < |s|
    ensures s == SplitAt(s, seps).value.0 + ([s[|SplitAt(s, seps).value.0|]] + SplitAt(s, seps).value.1)
    ensures s[|SplitAt(s, seps).value.0|] in seps
  {
    var r := SplitAt(s, seps).value;
    var c :| c in seps && s == r.0 + [c] + r.1;
    assert s[|r.0|] == c;
  }

  /** Every time part the cuts accept is a spelling of its four fields. */
  lemma SplitTimeJoined(r2: string)
    requires SplitTime(r2).Some?
    ensures CutChar(r2, {':'}) == ':'
    ensures var x := SplitTime(r2).value;
            var r5 := SplitAt(SplitAt(SplitAt(r2, {':'}).value.1, {':'}).value.1, {'.'}).value.1;
            CutChar(r5, ZSeps) in ZSeps && r2 == TimeText(x.0, x.1, x.2, x.3, CutChar(r5, ZSeps))
  {
    var (ht, r3) := SplitAt(r2, {':'}).value;
    var (it, r4) := SplitAt(r3, {':'}).value;
    var (st, r5) := SplitAt(r4, {'.'}).value;
    var (ft, r6) := SplitAt(r5, ZSeps).value;
    var z := CutChar(r5, ZSeps);
    SplitAtLength(r5, ZSeps);
    assert r6 == [];
    assert r5 == ft + [z];
    SplitAtLength(r4, {'.'});
    assert r4[|st|] == '.';
    assert r4 == st + ("." + r5);
    SplitAtLength(r3, {':'});
    assert r3[|it|] == ':';
    assert r3 == it + (":" + r4);
    SplitAtLength(r2, {':'});
    assert r2[|ht|] == ':';
    assert r2 == ht + (":" + r3);
  }

  /** Every text the cuts accept is a spelling of the fields they give. */
  lemma SplitFieldsJoined(s: string)
    requires SplitFields(s).Some?
    ensures exists t, z :: Spells(s, SplitFields(s).value, t, z)
  {
    var (mt, r1) := SplitAt(s[5..], {'-'}).value;
    var (dt, r2) := SplitAt(r1, TSeps).value;
    var x := SplitTime(r2).value;
    SplitTimeJoined(r2);
    var r5 := SplitAt(SplitAt(SplitAt(r2, {':'}).value.1, {':'}).value.1, {'.'}).value.1;
    var z := CutChar(r5, ZSeps);
    SplitAtLength(s[5..], {'-'});
    SplitAtLength(r1, TSeps);
    var t := CutChar(r1, TSeps);
    var f := Fields(s[..4], mt, dt, x.0, x.1, x.2, x.3);
    assert s == s[..4] + ("-" + s[5..]);
    assert Spells(s, f, t, z);
  }

  /** Every text strptime accepts spells matched fields whose values form a
      valid datetime, and the parse gives those values. */
  lemma ParseAccepted(s: string)
    requires Parse(s).Some?
    ensures exists f, t, z :: Spells(s, f, t, z) && FieldsMatch(f) && Valid(Values(f)) && Parse(s) == Some(Values(f))
  {
    SplitFieldsJoined(s);
    var f := SplitFields(s).value;
    var t, z :| Spells(s, f, t, z);
    assert Spells(s, f, t, z) && FieldsMatch(f) && Valid(Values(f)) && Parse(s) == Some(Values(f));
  }

  /** Every spelling of matched fields, in either case of 'T' and 'Z', with
      short fields and a fraction of one to six digits, parses to the fields'
      values when they form a valid datetime and is refused otherwise. */
  lemma ParseJoined(f: Fields, t: char, z: char)
    requires FieldsMatch(f) && t in TSeps && z in ZSeps
    ensures Parse(Join(f, t, z)) == if Valid(Values(f)) then Some(Values(f)) else None
  {
    SplitJoin(f, t, z);
  }

  /** A text without the '.' before the fraction is refused. */
  lemma ParseNeedsFraction(s: string)
    ensures '.' !in s ==> Parse(s).None?
  {
    if Parse(s).Some? {
      ParseAccepted(s);
      var f, t, z :| Spells(s, f, t, z);
      assert '.' in TimeText(f.hour, f.minute, f.second, f.fraction, z);
    }
  }

  function Pad2(n: nat): string { PadDecimal(n, 2) }

  /** The field texts of the canonical spelling of dt: two-digit fields and a
      six-digit fraction. */
  function RenderedFields(dt: DateTime): Fields {
    Fields(PadDecimal(dt.year, 4), Pad2(dt.month), Pad2(dt.day), Pad2(dt.hour),
           Pad2(dt.minute), Pad2(dt.second), PadDecimal(dt.micro, 6))
  }

  /** The canonical text of a timestamp in the listing's format. */
  function Render(dt: DateTime): string {
    Join(RenderedFields(dt), 'T', 'Z')
  }

  /** strftime("%Y:%m:%d %H:%M:%S"), with the year written in four digits. */
  function ExifTime(dt: DateTime): string {
    PadDecimal(dt.year, 4) + ":" + Pad2(dt.month) + ":" + Pad2(dt.day) + " " +
    Pad2(dt.hour) + ":" + Pad2(dt.minute) + ":" + Pad2(dt.second)
  }

  lemma PadLengths(dt: DateTime)
    requires Valid(dt)
    ensures |PadDecimal(dt.year, 4)| == 4 && |PadDecimal(dt.micro, 6)| == 6
    ensures |Pad2(dt.month)| == 2 && |Pad2(dt.day)| == 2 && |Pad2(dt.hour)| == 2
    ensures |Pad2(dt.minute)| == 2 && |Pad2(dt.second)| == 2
  {
    assert Pow10(2) == 100;
    assert Pow10(4) == 10000;
    assert Pow10(6) == 1000000;
  }

  lemma FractionOfSixDigits(t: string)
    requires |t| == 6 && AllDigits(t)
    ensures FractionText(t) && FractionValue(t) == DecimalValue(t)
  {
    assert t + seq(0, _ => '0') == t;
  }

  /** Parsing the canonical text of a valid timestamp gives it back. */
  lemma ParseRender(dt: DateTime)
    requires Valid(dt)
    ensures Parse(Render(dt)) == Some(dt)
  {
    PadLengths(dt);
    var fs := RenderedFields(dt);
    FractionOfSixDigits(fs.fraction);
    assert FieldsMatch(fs);
    ParseJoined(fs, 'T', 'Z');
  }

  /** The EXIF text is the listing's date and time, 19 characters long, with
      the date separators turned into ':', the 'T' into a space, and the
      fraction and 'Z' dropped. */
  lemma ExifTimeOfRender(dt: DateTime)
    requires Valid(dt)
    ensures |ExifTime(dt)| == 19
    ensures forall i :: 0 <= i < 19 ==>
              ExifTime(dt)[i] == if i == 4 || i == 7 then ':' else if i == 10 then ' ' else Render(dt)[i]
  {
    PadLengths(dt);
    ExifPieces(PadDecimal(dt.year, 4), Pad2(dt.month), Pad2(dt.day), Pad2(dt.hour), Pad2(dt.minute), Pad2(dt.second),
               "." + (PadDecimal(dt.micro, 6) + "Z"));
  }

  /** The EXIF layout against the listing layout, on the field texts. */
  lemma ExifPieces(y: string, mo: string, d: string, h: string, mi: string, se: string, rest: string)
    requires |y| == 4 && |mo| == 2 && |d| == 2 && |h| == 2 && |mi| == 2 && |se| == 2
    ensures var e := y + ":" + mo + ":" + d + " " + h + ":" + mi + ":" + se;
            var r := y + ("-" + (mo + ("-" + (d + ("T" + (h + (":" + (mi + (":" + (se + rest))))))))));
            |e| == 19 && |r| >= 19 &&
            forall i :: 0 <= i < 19 ==> e[i] == if i == 4 || i == 7 then ':' else if i == 10 then ' ' else r[i]
  {
    var date := y + ":" + mo + ":" + d;
    var time := h + ":" + mi + ":" + se;
    var dateR := y + ("-" + (mo + ("-" + d)));
    var timeR := h + (":" + (mi + (":" + se)));
    assert y + ":" + mo + ":" + d + " " + h + ":" + mi + ":" + se == date + " " + time;
    assert y + ("-" + (mo + ("-" + (d + ("T" + (h + (":" + (mi + (":" + (se + rest)))))))))) == dateR + "T" + timeR + rest;
    assert forall i :: 0 <= i < 8 ==> time[i] == timeR[i];
    assert forall i :: 0 <= i < 10 ==> date[i] == if i == 4 || i == 7 then ':' else dateR[i];
  }

  /** piexif.ExifIFD.DateTimeOriginal */
  const DateTimeOriginal: int := 0x9003

  /** An EXIF dictionary as piexif.load returns it: IFD name to tag to value. */
  type ExifData = map<string, map<int, string>>

  /** What the saved PNG carries in img.info['exif']. */
  datatype ExifBlob = NoExif | Loaded(data: ExifData) | Unreadable

  /** add_creation_time_to_png: the new EXIF dictionary written into the PNG,
      or None when the step raised (an unreadable blob, or a dictionary
      without an Exif IFD); the caller swallows that error and leaves the
      file as it was. */
  function AddCreationTime(blob: ExifBlob, dt: DateTime): (r: Option<ExifData>)
    ensures blob.NoExif? ==> r == Some(map["0th" := map[], "Exif" := map[DateTimeOriginal := ExifTime(dt)]])
    ensures blob.Unreadable? ==> r.None?
    ensures blob.Loaded? ==> (r.Some? <==> "Exif" in blob.data)
    ensures r.Some? && blob.Loaded? ==>
              && r.value.Keys == blob.data.Keys
              && r.value["Exif"].Keys == blob.data["Exif"].Keys + {DateTimeOriginal}
              && r.value["Exif"][DateTimeOriginal] == ExifTime(dt)
              && (forall ifd :: ifd in blob.data && ifd != "Exif" ==> r.value[ifd] == blob.data[ifd])
              && (forall tag :: tag in blob.data["Exif"] && tag != DateTimeOriginal ==>
                    r.value["Exif"][tag] == blob.data["Exif"][tag])
  {
    match blob
    case Unreadable => None
    case NoExif => Some(map["0th" := map[], "Exif" := map[DateTimeOriginal := ExifTime(dt)]])
    case Loaded(d) =>
      if "Exif" !in d then None
      else Some(d["Exif" := d["Exif"][DateTimeOriginal := ExifTime(dt)]])
  }
}
