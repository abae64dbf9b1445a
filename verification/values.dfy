/** Attribute values as the store holds them, and as the JSON snapshot holds them. */
module Values {
  import opened Decimal
  import opened Timestamps

  /** An attribute value in memory: a string, an integer, a boolean, `None`, or a
      `datetime`. */
  datatype Value = VStr(s: string) | VInt(i: int) | VBool(b: bool) | VNone | VTime(t: Timestamp)

  /** A JSON scalar in the snapshot file. */
  datatype Json = JStr(s: string) | JInt(i: int) | JBool(b: bool) | JNull

  /** The value `json.load` gives back for a JSON scalar. */
  function Decode(j: Json): (v: Value)
    ensures !v.VTime?
  {
    match j
    case JStr(s) => VStr(s)
    case JInt(i) => VInt(i)
    case JBool(b) => VBool(b)
    case JNull => VNone
  }

  /** How `json.dump` writes a value; a `datetime` is not JSON serializable. */
  function Encode(v: Value): (j: Json)
    requires !v.VTime?
    ensures Decode(j) == v
  {
    match v
    case VStr(s) => JStr(s)
    case VInt(i) => JInt(i)
    case VBool(b) => JBool(b)
    case VNone => JNull
  }

  /** Two renderings that share the date, the clock and the fraction, but
      differ in the character between date and clock and in whether the
      fraction is present, agree position by position on the shared parts. */
  lemma SameFields(date: string, clock: string, fraction: string, s: string, f: string)
    requires |date| == 10 && |clock| == 8 && |fraction| == 7
    requires f == date + "T" + clock + fraction
    requires s == date + " " + clock || s == date + " " + clock + fraction
    ensures s[..10] == f[..10] && s[10] == ' ' && s[11..19] == f[11..19]
    ensures |s| == 26 ==> s[19..] == f[19..]
  {
    assert f[..10] == date && f[11..19] == clock && f[19..] == fraction;
    assert s[..10] == date && s[11..19] == clock;
    if |s| == 26 {
      assert s[19..] == fraction;
    }
  }

  /** `YYYY-MM-DD`, the date both renderings of a datetime begin with. */
  function DateText(t: Timestamp): string {
    Padded(t.year, 4) + "-" + Padded(t.month, 2) + "-" + Padded(t.day, 2)
  }

  /** `HH:MM:SS`, the clock both renderings of a datetime share. */
  function ClockText(t: Timestamp): string {
    Padded(t.hour, 2) + ":" + Padded(t.minute, 2) + ":" + Padded(t.second, 2)
  }

  lemma FormatParts(t: Timestamp)
    ensures Format(t) == DateText(t) + "T" + ClockText(t) + ("." + Padded(t.microsecond, 6))
  {
  }

  /** `str(datetime)`, that is `isoformat(' ')`: the `strftime` rendering `save`
      writes, with a blank in place of the 'T', and without the fraction when
      the microseconds are zero. */
  function TimeToString(t: Timestamp): (s: string)
    ensures |s| == (if t.microsecond == 0 then 19 else 26)
    ensures s[..10] == Format(t)[..10] && s[10] == ' ' && s[11..19] == Format(t)[11..19]
    ensures t.microsecond != 0 ==> s[19..] == Format(t)[19..]
  {
    var fraction := "." + Padded(t.microsecond, 6);
    var s := DateText(t) + " " + ClockText(t) + (if t.microsecond == 0 then "" else fraction);
    assert t.microsecond == 0 ==> s == DateText(t) + " " + ClockText(t);
    FormatParts(t);
    SameFields(DateText(t), ClockText(t), fraction, s, Format(t));
    s
  }



  /** Python's `str()`, which `new` applies to the `id` attribute: a string is
      itself, an integer, boolean or `None` gives non-empty text without a
      '.', so a key built from it splits back at its class name, and a
      `datetime` gives its `isoformat(' ')`. */
  function Str(v: Value): (s: string)
    ensures v.VStr? ==> s == v.s
    ensures v.VInt? ==> s == IntToString(v.i)
    ensures v.VBool? ==> s == (if v.b then "True" else "False")
    ensures v.VNone? ==> s == "None"
    ensures v.VTime? ==> s == TimeToString(v.t)
    ensures v.VInt? || v.VBool? || v.VNone? ==> |s| > 0 && '.' !in s
  {
    match v
    case VStr(s) => s
    case VInt(i) => IntHasNoDot(i); IntToString(i)
    case VBool(b) => if b then "True" else "False"
    case VNone => "None"
    case VTime(t) => TimeToString(t)
  }

  lemma IntHasNoDot(i: int)
    ensures '.' !in IntToString(i)
  {
    var s := IntToString(i);
    var digits := if i < 0 then s[1..] else s;
    forall j | 0 <= j < |s|
      ensures s[j] != '.'
    {
      if i < 0 && j == 0 {
        assert s[j] == '-';
      } else {
        assert s[j] == digits[if i < 0 then j - 1 else j];
      }
    }
  }

  /** Different integers print differently, so integer ids give different keys. */
  lemma StrIntInjective(a: int, b: int)
    requires Str(VInt(a)) == Str(VInt(b))
    ensures a == b
  {
    var s := IntToString(a);
    assert s == IntToString(b);
  }
}
