/** The timestamp encoding of file_storage.py: `datetime.strftime` and
    `datetime.strptime` with the format `%Y-%m-%dT%H:%M:%S.%f`. */
module Timestamps {
  import opened Results
  import opened Decimal

  datatype DateTime = DateTime(year: int, month: int, day: int,
                               hour: int, minute: int, second: int, microsecond: int)

  predicate IsLeapYear(y: int) {
    y % 4 == 0 && (y % 100 != 0 || y % 400 == 0)
  }

  function DaysInMonth(y: int, m: int): int
    requires 1 <= m <= 12
  {
    if m == 2 then (if IsLeapYear(y) then 29 else 28)
    else if m == 4 || m == 6 || m == 9 || m == 11 then 30
    else 31
  }

  /** The field ranges Python's `datetime` constructor enforces. */
  predicate Valid(t: DateTime) {
    && 1 <= t.year <= 9999
    && 1 <= t.month <= 12
    && 1 <= t.day <= DaysInMonth(t.year, t.month)
    && 0 <= t.hour < 24
    && 0 <= t.minute < 60
    && 0 <= t.second < 60
    && 0 <= t.microsecond < 1000000
  }

  /** A `datetime` value: no invalid one can be constructed. */
  type Timestamp = t: DateTime | Valid(t) witness DateTime(1, 1, 1, 0, 0, 0, 0)

  /** The shape `YYYY-MM-DDTHH:MM:SS.ffffff`: 26 characters, the six separators
      in place and decimal digits everywhere else. */
  predicate FixedShape(s: string) {
    && |s| == 26
    && s[4] == '-' && s[7] == '-' && s[10] == 'T'
    && s[13] == ':' && s[16] == ':' && s[19] == '.'
    && AllDigits(s[0..4]) && AllDigits(s[5..7]) && AllDigits(s[8..10])
    && AllDigits(s[11..13]) && AllDigits(s[14..16]) && AllDigits(s[17..19])
    && AllDigits(s[20..26])
  }

  /** `strftime("%Y-%m-%dT%H:%M:%S.%f")`. */
  function Format(t: Timestamp): (s: string)
    ensures FixedShape(s)
  {
    Padded(t.year, 4) + "-" + Padded(t.month, 2) + "-" + Padded(t.day, 2)
    + "T" + Padded(t.hour, 2) + ":" + Padded(t.minute, 2) + ":" + Padded(t.second, 2)
    + "." + Padded(t.microsecond, 6)
  }

  // ---- strptime --------------------------------------------------------------

  /** No character of `s` is one of `seps`. */
  predicate Avoids(s: string, seps: set<char>) {
    forall i :: 0 <= i < |s| ==> s[i] !in seps
  }

  /** The text before the first character of `seps`, and the text after it. */
  function Cut(s: string, seps: set<char>): (r: Option<(string, string)>)
    ensures r.None? <==> Avoids(s, seps)
    ensures r.Some? ==>
      var (field, rest) := r.value;
      && |field| < |s|
      && field == s[..|field|]
      && s[|field|] in seps
      && Avoids(field, seps)
      && rest == s[|field| + 1..]
  {
    if s == [] then None
    else if s[0] in seps then Some(([], s[1..]))
    else
      var (field, rest) :- Cut(s[1..], seps);
      Some(([s[0]] + field, rest))
  }

  /** Fields separated by separators, the way `Format` lays them out. */
  function Join(fields: seq<string>, seps: string): string
    requires |fields| == |seps| + 1
    decreases |seps|
  {
    if seps == [] then fields[0]
    else fields[0] + ([seps[0]] + Join(fields[1..], seps[1..]))
  }

  /** Cuts `s` at the first character of `seps[0]`, then of `seps[1]`, and so on. */
  function Split(s: string, seps: seq<set<char>>): (r: Option<seq<string>>)
    ensures r.Some? ==> |r.value| == |seps| + 1
    decreases |seps|
  {
    if seps == [] then Some([s])
    else
      var cut :- Cut(s, seps[0]);
      var fields :- Split(cut.1, seps[1..]);
      Some([cut.0] + fields)
  }

  /** The separators `Format` writes, and those `strptime` accepts in their places:
      the pattern is matched ignoring case, so a lower-case `t` is accepted too. */
  const Separators: string := "--T::."
  const Accepted: seq<set<char>> := [{'-'}, {'-'}, {'T', 't'}, {':'}, {':'}, {'.'}]

  /* The field grammar of CPython's `_strptime`: each directive is a regular
     expression, and since a field is always followed by a separator that is
     neither a digit nor a space, the field is exactly the text before it. */

  /** `%Y`: `\d\d\d\d`. */
  predicate YearField(f: string) {
    |f| == 4 && AllDigits(f)
  }

  /** `%m`: `1[0-2]|0[1-9]|[1-9]`. */
  predicate MonthField(f: string) {
    AllDigits(f) && ((|f| == 1 && Value(f) >= 1) || (|f| == 2 && 1 <= Value(f) <= 12))
  }

  /** `%d`: `3[01]|[12]\d|0[1-9]|[1-9]| [1-9]`. */
  predicate DayField(f: string) {
    || (AllDigits(f) && |f| == 1 && Value(f) >= 1)
    || (AllDigits(f) && |f| == 2 && 1 <= Value(f) <= 31)
    || (|f| == 2 && f[0] == ' ' && IsDigit(f[1]) && f[1] != '0')
  }

  /** `int()` of a day field, which ignores the leading blank. */
  function DayValue(f: string): nat
    requires DayField(f)
  {
    if f[0] == ' ' then Value(f[1..]) else Value(f)
  }

  /** `%H`: `2[0-3]|[0-1]\d|\d`; `%M`: `[0-5]\d|\d`; `%S`: `6[0-1]|[0-5]\d|\d`. */
  predicate ClockField(f: string, max: nat) {
    AllDigits(f) && (|f| == 1 || (|f| == 2 && Value(f) <= max))
  }

  /** `%f`: `[0-9]{1,6}`, the rest of the input. */
  predicate FractionField(f: string) {
    AllDigits(f) && 1 <= |f| <= 6
  }

  predicate WellFormedFields(fs: seq<string>)
    requires |fs| == 7
  {
    && YearField(fs[0]) && MonthField(fs[1]) && DayField(fs[2])
    && ClockField(fs[3], 23) && ClockField(fs[4], 59) && ClockField(fs[5], 61)
    && FractionField(fs[6])
  }

  /** The first field `Split` returns is the text before the first separator. */
  lemma SplitFirst(s: string, seps: seq<set<char>>)
    requires Split(s, seps).Some? && seps != []
    ensures var first := Split(s, seps).value[0];
      |first| < |s| && first == s[..|first|] && s[|first|] in seps[0]
  {
  }

  /** `datetime.strptime(s, "%Y-%m-%dT%H:%M:%S.%f")`: `None` stands for the
      ValueError raised on text that does not match, or on a date the
      `datetime` constructor rejects (year 0, 30 February, second 60 or 61).
      A short fraction is padded on the right: `.5` is 500000 microseconds. */
  function Parse(s: string): (r: Option<Timestamp>)
    ensures r.Some? ==> |s| > 4 && YearField(s[..4]) && s[4] == '-' && r.value.year == Value(s[..4])
  {
    var fs :- Split(s, Accepted);
    SplitFirst(s, Accepted);
    if !WellFormedFields(fs) then None
    else
      var t := DateTime(Value(fs[0]), Value(fs[1]), DayValue(fs[2]),
                        Value(fs[3]), Value(fs[4]), Value(fs[5]),
                        Value(fs[6]) * Pow10(6 - |fs[6]|));
      if Valid(t) then Some(t) else None
  }

  // ---- round trip ------------------------------------------------------------

  lemma {:induction false} CutAtSeparator(field: string, c: char, rest: string, seps: set<char>)
    requires c in seps
    requires Avoids(field, seps)
    ensures Cut(field + ([c] + rest), seps) == Some((field, rest))
  {
    var s := field + ([c] + rest);
    if field == [] {
      assert s == [c] + rest;
      assert s[1..] == rest;
    } else {
      assert s[0] == field[0];
      assert s[1..] == field[1..] + ([c] + rest);
      CutAtSeparator(field[1..], c, rest, seps);
      assert [field[0]] + field[1..] == field;
    }
  }

  /** One step of `Split`: a successful cut followed by a successful split of the rest. */
  lemma SplitStep(s: string, accepts: seq<set<char>>, field: string, rest: string, fs: seq<string>)
    requires accepts != []
    requires Cut(s, accepts[0]) == Some((field, rest))
    requires Split(rest, accepts[1..]) == Some(fs)
    ensures Split(s, accepts) == Some([field] + fs)
  {
  }

  /** The conditions of `SplitJoin`, for everything after the first field. */
  lemma ShiftConditions(fields: seq<string>, seps: string, accepts: seq<set<char>>)
    requires |fields| == |seps| + 1 && |accepts| == |seps| && seps != []
    requires forall i :: 0 <= i < |seps| ==> seps[i] in accepts[i]
    requires forall i :: 0 <= i < |seps| ==> Avoids(fields[i], accepts[i])
    ensures forall i :: 0 <= i < |seps[1..]| ==> seps[1..][i] in accepts[1..][i]
    ensures forall i :: 0 <= i < |seps[1..]| ==> Avoids(fields[1..][i], accepts[1..][i])
  {
    forall i | 0 <= i < |seps[1..]|
      ensures seps[1..][i] in accepts[1..][i]
    {
      assert seps[1..][i] == seps[i + 1];
    }
    forall i | 0 <= i < |seps[1..]|
      ensures Avoids(fields[1..][i], accepts[1..][i])
    {
      assert fields[1..][i] == fields[i + 1];
      assert accepts[1..][i] == accepts[i + 1];
    }
  }

  /** Splitting joined fields at their separators gives the fields back, provided
      no field contains a character its separator position accepts. */
  lemma {:induction false} SplitJoin(fields: seq<string>, seps: string, accepts: seq<set<char>>)
    requires |fields| == |seps| + 1 && |accepts| == |seps|
    requires forall i :: 0 <= i < |seps| ==> seps[i] in accepts[i]
    requires forall i :: 0 <= i < |seps| ==> Avoids(fields[i], accepts[i])
    ensures Split(Join(fields, seps), accepts) == Some(fields)
    decreases |seps|
  {
    if seps != [] {
      var rest := Join(fields[1..], seps[1..]);
      var s := Join(fields, seps);
      assert Cut(s, accepts[0]) == Some((fields[0], rest)) by {
        assert s == fields[0] + ([seps[0]] + rest);
        CutAtSeparator(fields[0], seps[0], rest, accepts[0]);
      }
      assert Split(rest, accepts[1..]) == Some(fields[1..]) by {
        ShiftConditions(fields, seps, accepts);
        SplitJoin(fields[1..], seps[1..], accepts[1..]);
      }
      SplitStep(s, accepts, fields[0], rest, fields[1..]);
      assert [fields[0]] + fields[1..] == fields;
    } else {
      assert fields == [fields[0]];
    }
  }

  function FieldsOf(t: Timestamp): seq<string> {
    [Padded(t.year, 4), Padded(t.month, 2), Padded(t.day, 2),
     Padded(t.hour, 2), Padded(t.minute, 2), Padded(t.second, 2),
     Padded(t.microsecond, 6)]
  }

  /** `Join` with the timestamp separators, written out. */
  function Layout(fs: seq<string>): string
    requires |fs| == 7
  {
    fs[0] + "-" + fs[1] + "-" + fs[2] + "T" + fs[3] + ":" + fs[4] + ":" + fs[5] + "." + fs[6]
  }

  lemma JoinUnfolded(fs: seq<string>)
    requires |fs| == 7
    ensures Join(fs, Separators) ==
      fs[0] + ("-" + (fs[1] + ("-" + (fs[2] + ("T" + (fs[3] + (":" + (fs[4] + (":" + (fs[5] + ("." + fs[6])))))))))))
  {
    var j6 := Join(fs[6..], Separators[6..]);
    assert j6 == fs[6];
    var j5 := Join(fs[5..], Separators[5..]);
    assert fs[5..][1..] == fs[6..] && Separators[5..][1..] == Separators[6..];
    assert j5 == fs[5] + ("." + j6);
    var j4 := Join(fs[4..], Separators[4..]);
    assert fs[4..][1..] == fs[5..] && Separators[4..][1..] == Separators[5..];
    assert j4 == fs[4] + (":" + j5);
    var j3 := Join(fs[3..], Separators[3..]);
    assert fs[3..][1..] == fs[4..] && Separators[3..][1..] == Separators[4..];
    assert j3 == fs[3] + (":" + j4);
    var j2 := Join(fs[2..], Separators[2..]);
    assert fs[2..][1..] == fs[3..] && Separators[2..][1..] == Separators[3..];
    assert j2 == fs[2] + ("T" + j3);
    var j1 := Join(fs[1..], Separators[1..]);
    assert fs[1..][1..] == fs[2..] && Separators[1..][1..] == Separators[2..];
    assert j1 == fs[1] + ("-" + j2);
  }

  lemma Reassociate(a: string, b: string, c: string, d: string, e: string, f: string, g: string)
    ensures a + ("-" + (b + ("-" + (c + ("T" + (d + (":" + (e + (":" + (f + ("." + g)))))))))))
         == a + "-" + b + "-" + c + "T" + d + ":" + e + ":" + f + "." + g
  {
  }

  lemma JoinIsLayout(fs: seq<string>)
    requires |fs| == 7
    ensures Join(fs, Separators) == Layout(fs)
  {
    JoinUnfolded(fs);
    Reassociate(fs[0], fs[1], fs[2], fs[3], fs[4], fs[5], fs[6]);
  }

  lemma FormatIsJoin(t: Timestamp)
    ensures Format(t) == Join(FieldsOf(t), Separators)
  {
    JoinIsLayout(FieldsOf(t));
  }

  lemma SplitFormat(t: Timestamp)
    ensures Split(Format(t), Accepted) == Some(FieldsOf(t))
  {
    var fs := FieldsOf(t);
    FormatIsJoin(t);
    forall i | 0 <= i < 6
      ensures Avoids(fs[i], Accepted[i])
    {
      forall j | 0 <= j < |fs[i]|
        ensures fs[i][j] !in Accepted[i]
      {
        assert IsDigit(fs[i][j]);
      }
    }
    SplitJoin(fs, Separators, Accepted);
  }

  lemma PaddedField(n: nat, w: nat)
    requires n < Pow10(w)
    ensures AllDigits(Padded(n, w)) && |Padded(n, w)| == w && Value(Padded(n, w)) == n
  {
    ValueOfPadded(n, w);
  }

  lemma FieldsOfWellFormed(t: Timestamp)
    ensures WellFormedFields(FieldsOf(t))
    ensures Value(FieldsOf(t)[0]) == t.year && Value(FieldsOf(t)[1]) == t.month
    ensures DayValue(FieldsOf(t)[2]) == t.day && Value(FieldsOf(t)[3]) == t.hour
    ensures Value(FieldsOf(t)[4]) == t.minute && Value(FieldsOf(t)[5]) == t.second
    ensures Value(FieldsOf(t)[6]) == t.microsecond
  {
    var fs := FieldsOf(t);
    PaddedField(t.year, 4);
    assert YearField(fs[0]);
    PaddedField(t.month, 2);
    assert MonthField(fs[1]);
    PaddedField(t.day, 2);
    assert DayField(fs[2]) && fs[2][0] != ' ';
    PaddedField(t.hour, 2);
    assert ClockField(fs[3], 23);
    PaddedField(t.minute, 2);
    assert ClockField(fs[4], 59);
    PaddedField(t.second, 2);
    assert ClockField(fs[5], 61);
    PaddedField(t.microsecond, 6);
    assert FractionField(fs[6]);
  }

  /** Formatting a timestamp and parsing it back yields the same timestamp. */
  lemma ParseFormat(t: Timestamp)
    ensures Parse(Format(t)) == Some(t)
  {
    var fs := FieldsOf(t);
    SplitFormat(t);
    FieldsOfWellFormed(t);
    assert Pow10(6 - |fs[6]|) == 1;
    var u := DateTime(Value(fs[0]), Value(fs[1]), DayValue(fs[2]),
                      Value(fs[3]), Value(fs[4]), Value(fs[5]),
                      Value(fs[6]) * Pow10(6 - |fs[6]|));
    assert u == t;
  }

  /** The fields of a string of the fixed shape, in order. */
  function ShapeFields(s: string): seq<string>
    requires FixedShape(s)
  {
    [s[0..4], s[5..7], s[8..10], s[11..13], s[14..16], s[17..19], s[20..26]]
  }

  lemma ShapeIsLayout(s: string)
    requires FixedShape(s)
    ensures Layout(ShapeFields(s)) == s
  {
    var l := Layout(ShapeFields(s));
    assert |l| == 26;
    assert forall i :: 0 <= i < 26 ==> l[i] == s[i];
  }

  lemma ShapeIsJoin(s: string)
    requires FixedShape(s)
    ensures Split(s, Accepted) == Some(ShapeFields(s))
  {
    var fs := ShapeFields(s);
    JoinIsLayout(fs);
    ShapeIsLayout(s);
    forall i | 0 <= i < 6
      ensures Avoids(fs[i], Accepted[i])
    {
      forall j | 0 <= j < |fs[i]|
        ensures fs[i][j] !in Accepted[i]
      {
        assert IsDigit(fs[i][j]);
      }
    }
    SplitJoin(fs, Separators, Accepted);
  }

  /** On strings of the fixed shape, formatting undoes parsing: a string that
      parses is exactly the text `Format` writes for its timestamp. */
  lemma FormatParse(s: string)
    requires FixedShape(s) && Parse(s).Some?
    ensures Format(Parse(s).value) == s
  {
    var fs := ShapeFields(s);
    ShapeIsJoin(s);
    var t := Parse(s).value;
    assert fs[2][0] != ' ';
    assert t.year == Value(fs[0]) && t.month == Value(fs[1]) && t.day == Value(fs[2]);
    assert t.hour == Value(fs[3]) && t.minute == Value(fs[4]) && t.second == Value(fs[5]);
    assert Pow10(6 - |fs[6]|) == 1;
    assert t.microsecond == Value(fs[6]);
    PaddedOfValue(fs[0]);
    PaddedOfValue(fs[1]);
    PaddedOfValue(fs[2]);
    PaddedOfValue(fs[3]);
    PaddedOfValue(fs[4]);
    PaddedOfValue(fs[5]);
    PaddedOfValue(fs[6]);
    assert FieldsOf(t) == fs;
    JoinIsLayout(fs);
    ShapeIsLayout(s);
  }
}
