/** Durations in the notation of section 3.2.6 of XML Schema Part 2. */
module Duration {
  import opened Decimal

  /** `timedelta`: the days may be negative, the rest counts forward from there. */
  datatype Delta = Delta(days: int, seconds: nat, micros: nat)

  predicate Normal(d: Delta) {
    d.seconds < 86400 && d.micros < 1000000
  }

  function Total(d: Delta): int {
    (d.days * 86400 + d.seconds) * 1000000 + d.micros
  }

  function FromTotal(t: int): (d: Delta)
    ensures Normal(d)
  {
    Delta(t / 1000000 / 86400, t / 1000000 % 86400, t % 1000000)
  }

  lemma TotalBack(t: int)
    ensures Total(FromTotal(t)) == t
  {
    var s := t / 1000000;
    assert s == s / 86400 * 86400 + s % 86400;
  }

  lemma DeltaBack(d: Delta)
    requires Normal(d)
    ensures FromTotal(Total(d)) == d
  {
    var s := d.days * 86400 + d.seconds;
    assert Total(d) / 1000000 == s && Total(d) % 1000000 == d.micros;
    assert s / 86400 == d.days && s % 86400 == d.seconds;
  }

  function Negated(d: Delta): Delta {
    FromTotal(-Total(d))
  }

  // ---------- Printing ----------

  function Field(n: nat, unit: char): string {
    if n > 0 then Show(n) + [unit] else ""
  }

  /** Whole seconds, and microseconds without leading zeros. */
  function Seconds(s: nat, us: nat): string {
    if us > 0 then Show(s) + "." + Show(us) + "S" else Field(s, 'S')
  }

  function Time(seconds: nat, us: nat): string {
    Field(seconds / 3600, 'H') + (Field(seconds / 60 % 60, 'M') + Seconds(seconds % 60, us))
  }

  /** A duration that is not negative. */
  function Unsigned(d: Delta): string
    requires d.days >= 0
  {
    if d.seconds == 0 && d.micros == 0 then (if d.days > 0 then Field(d.days, 'D') else "T0S")
    else Field(d.days, 'D') + ("T" + Time(d.seconds, d.micros))
  }

  function Printed(d: Delta): string
    requires Normal(d)
  {
    if d.days < 0 then
      NegatedIsPositive(d);
      "-P" + Unsigned(Negated(d))
    else "P" + Unsigned(d)
  }

  lemma NegatedIsPositive(d: Delta)
    requires Normal(d) && d.days < 0
    ensures Negated(d).days >= 0 && Total(Negated(d)) == -Total(d) > 0
    ensures d.micros == 0 ==> Negated(d).micros == 0
  {
    TotalBack(-Total(d));
    MicrosNegated(d.days * 86400 + d.seconds, d.micros);
    PositiveDays(-Total(d));
  }

  lemma PositiveDays(t: int)
    requires t > 0
    ensures t / 1000000 / 86400 >= 0
  {
  }

  /** Whole seconds stay whole. */
  lemma MicrosNegated(s: int, us: nat)
    requires us < 1000000
    ensures -(s * 1000000 + us) % 1000000 == 0 <==> us == 0
  {
    var t := -(s * 1000000 + us);
    if us == 0 {
      assert t == (-s) * 1000000;
      Remainder(-s, 0);
    } else {
      assert t == (-s - 1) * 1000000 + (1000000 - us);
      Remainder(-s - 1, 1000000 - us);
    }
  }

  lemma Remainder(q: int, r: nat)
    requires r < 1000000
    ensures (q * 1000000 + r) % 1000000 == r
  {
  }

  function Joined(parts: seq<string>): string {
    if parts == [] then "" else Joined(parts[..|parts| - 1]) + parts[|parts| - 1]
  }

  lemma JoinedOne(s: string)
    ensures Joined([s]) == s
  {
    assert [s][..0] == [];
  }

  lemma JoinedSnoc(parts: seq<string>, s: string)
    ensures Joined(parts + [s]) == Joined(parts) + s
  {
    assert (parts + [s])[..|parts|] == parts;
  }

  lemma ClockParts(d: Delta)
    requires Normal(d) && d.days >= 0
    ensures d.seconds / 60 / 60 == d.seconds / 3600
    ensures
      var totSec := Total(d) / 1000000;
      (totSec != 0 && totSec % 86400 == 0 <==> d.seconds == 0 && d.days > 0)
  {
    assert Total(d) / 1000000 == d.days * 86400 + d.seconds;
    assert (d.days * 86400 + d.seconds) % 86400 == d.seconds;
  }

  lemma NoTime()
    ensures Time(0, 0) == ""
  {
  }

  /** `duration_to_unicode` */
  method DurationToUnicode(value_: Delta) returns (r: string)
    requires Normal(value_)
    ensures r == Printed(value_)
  {
    hide Show, Joined, Time, Total;
    var value, negative := value_, false;
    if value.days < 0 {
      NegatedIsPositive(value);
      value, negative := Negated(value), true;
    }
    ClockParts(value);
    var totSec := Total(value) / 1000000;
    var retval := [if negative then "-P" else "P"];
    JoinedOne(retval[0]);
    if value.days != 0 {
      JoinedSnoc(retval, Show(value.days) + "D");
      retval := retval + [Show(value.days) + "D"];
    }
    assert Joined(retval) == (if negative then "-P" else "P") + Field(value.days, 'D');
    if totSec != 0 && totSec % 86400 == 0 && value.micros == 0 {
      return Joined(retval);
    }
    JoinedSnoc(retval, "T");
    retval := retval + ["T"];
    ghost var sign := if negative then "-P" else "P";
    var clock := AppendTime(retval, value);
    assert Joined(clock) == sign + (Field(value.days, 'D') + ("T" + Time(value.seconds, value.micros)));
    if |clock| == 2 {
      NoTime();
      JoinedSnoc(clock, "0S");
      clock := clock + ["0S"];
      assert Joined(clock) == sign + "T0S";
    }
    return Joined(clock);
  }

  /** Hours, minutes and seconds, as far as they are not zero. */
  method AppendTime(parts: seq<string>, value: Delta) returns (retval: seq<string>)
    requires Normal(value) && value.days >= 0
    ensures Joined(retval) == Joined(parts) + Time(value.seconds, value.micros)
    ensures |retval| >= |parts| && (|retval| == |parts| <==> value.seconds == 0 && value.micros == 0)
  {
    hide Show, Joined, Total;
    retval := parts;
    var seconds := value.seconds % 60;
    var minutes := value.seconds / 60;
    var hours := minutes / 60;
    minutes := minutes % 60;
    ClockParts(value);
    if hours > 0 {
      JoinedSnoc(retval, Show(hours) + "H");
      retval := retval + [Show(hours) + "H"];
    }
    assert Joined(retval) == Joined(parts) + Field(hours, 'H');
    ghost var withHours := retval;
    if minutes > 0 {
      JoinedSnoc(retval, Show(minutes) + "M");
      retval := retval + [Show(minutes) + "M"];
    }
    assert Joined(retval) == Joined(withHours) + Field(minutes, 'M');
    ghost var withMinutes := retval;
    if seconds > 0 || value.micros > 0 {
      JoinedSnoc(retval, Show(seconds));
      retval := retval + [Show(seconds)];
      if value.micros > 0 {
        JoinedSnoc(retval, "." + Show(value.micros));
        retval := retval + ["." + Show(value.micros)];
      }
      JoinedSnoc(retval, "S");
      retval := retval + ["S"];
    }
    assert Joined(retval) == Joined(withMinutes) + Seconds(seconds, value.micros);
  }

  // ---------- Parsing ----------

  /** The number of digits that `s` starts with. */
  function Digits(s: string): (k: nat)
    ensures k <= |s| && (forall i | 0 <= i < k :: IsDigit(s[i])) && (k < |s| ==> !IsDigit(s[k]))
  {
    if s == "" || !IsDigit(s[0]) then 0 else 1 + Digits(s[1..])
  }

  /** `(?:(\d+)U)?`: the number, if there is one, and what follows. */
  function Unit(s: string, unit: char): (nat, string) {
    var k := Digits(s);
    if 0 < k < |s| && s[k] == unit then (Read(s[..k]), s[k + 1..]) else (0, s)
  }

  /** A fraction goes through floating point numbers: the parts as they are matched, `point` being any
      character. */
  datatype Parsed =
    | Whole(d: Delta)
    | Fractional(negative: bool, minutes: nat, seconds: string, point: char, fraction: string)
    | NoMatch

  datatype Clock = Sec(n: nat) | Fraction(seconds: string, point: char, fraction: string)

  /** `(?:(\d+(.\d+)?)S)?`, the fraction being tried first. */
  function ReadSeconds(s: string): Clock {
    var k := Digits(s);
    if 0 < k < |s| && s[k] != '\n' && FractionEnds(s[k + 1..]) then
      Fraction(s[..k], s[k], s[k + 1..][..Digits(s[k + 1..])])
    else Sec(Unit(s, 'S').0)
  }

  predicate FractionEnds(s: string) {
    var k := Digits(s);
    0 < k < |s| && s[k] == 'S'
  }

  /** `duration_from_unicode`: whatever follows the longest match is ignored. */
  function Parse(s: string): Parsed {
    var negative := s != "" && s[0] == '-';
    var t := if negative then s[1..] else s;
    if t == "" || t[0] != 'P' then NoMatch
    else
      var (years, t1) := Unit(t[1..], 'Y');
      var (months, t2) := Unit(t1, 'M');
      var (days, t3) := Unit(t2, 'D');
      var allDays := days + months * 30 + years * 365;
      if t3 == "" || t3[0] != 'T' then Whole(Made(negative, allDays, 0, 0, 0))
      else
        var (hours, t4) := Unit(t3[1..], 'H');
        var (minutes, t5) := Unit(t4, 'M');
        match ReadSeconds(t5)
        case Sec(n) => Whole(Made(negative, allDays, hours, minutes, n))
        case Fraction(sec, point, f) => Fractional(negative, allDays * 1440 + hours * 60 + minutes, sec, point, f)
  }

  /** `timedelta(days=…, hours=…, minutes=…, seconds=…)`, times -1 when negative */
  function Made(negative: bool, days: nat, hours: nat, minutes: nat, seconds: nat): Delta {
    var t := (days * 86400 + hours * 3600 + minutes * 60 + seconds) * 1000000;
    FromTotal(if negative then -t else t)
  }

  // ---------- Round trip ----------

  lemma {:induction false} DigitsOf(s: string, rest: string)
    requires forall i | 0 <= i < |s| :: IsDigit(s[i])
    requires rest == "" || !IsDigit(rest[0])
    ensures Digits(s + rest) == |s|
  {
    if s == "" {
      assert s + rest == rest;
    } else {
      assert (s + rest)[1..] == s[1..] + rest;
      DigitsOf(s[1..], rest);
    }
  }

  /** Nothing to read for `unit` in front of `s`. */
  predicate Lacks(s: string, unit: char) {
    Unit(s, unit) == (0, s)
  }

  lemma ReadsField(n: nat, c: char, rest: string)
    requires !IsDigit(c) && (n == 0 ==> Lacks(rest, c))
    ensures Unit(Field(n, c) + rest, c) == (n, rest)
  {
    hide Show;
    if n > 0 {
      var s := Show(n);
      assert Field(n, c) + rest == s + ([c] + rest);
      DigitsOf(s, [c] + rest);
      assert (s + ([c] + rest))[..|s|] == s;
      assert (s + ([c] + rest))[|s| + 1..] == rest;
      ReadShow(n);
    } else {
      assert Field(n, c) + rest == rest;
    }
  }

  lemma SkipsField(n: nat, c: char, rest: string, unit: char)
    requires !IsDigit(c) && c != unit && (n == 0 ==> Lacks(rest, unit))
    ensures Lacks(Field(n, c) + rest, unit)
  {
    hide Show;
    if n > 0 {
      var s := Show(n);
      assert Field(n, c) + rest == s + ([c] + rest);
      DigitsOf(s, [c] + rest);
    } else {
      assert Field(n, c) + rest == rest;
    }
  }

  lemma ReadsTime(seconds: nat)
    requires seconds < 86400
    ensures
      var (hours, t4) := Unit(Time(seconds, 0), 'H');
      var (minutes, t5) := Unit(t4, 'M');
      ReadSeconds(t5) == Sec(seconds % 60) && hours == seconds / 3600 && minutes == seconds / 60 % 60
  {
    hide Show, Field, ReadSeconds;
    var h, m, s := seconds / 3600, seconds / 60 % 60, seconds % 60;
    var last := Field(s, 'S');
    assert last + "" == last;
    NoDigits("", 'H');
    NoDigits("", 'M');
    SkipsField(s, 'S', "", 'H');
    SkipsField(s, 'S', "", 'M');
    SkipsField(m, 'M', last, 'H');
    ReadsField(h, 'H', Field(m, 'M') + last);
    ReadsField(m, 'M', last);
    ReadsLast(s);
  }

  lemma ReadsLast(s: nat)
    ensures ReadSeconds(Field(s, 'S')) == Sec(s)
  {
    hide Show;
    NoDigits("", 'S');
    ReadsField(s, 'S', "");
    assert Field(s, 'S') + "" == Field(s, 'S');
    if s > 0 {
      DigitsOf(Show(s), "S");
      assert Field(s, 'S')[|Show(s)| + 1..] == "";
    }
  }

  lemma SecondsAdd(seconds: nat)
    ensures seconds / 3600 * 3600 + seconds / 60 % 60 * 60 + seconds % 60 == seconds
  {
    assert seconds / 60 / 60 == seconds / 3600;
    var m := seconds / 60;
    assert m == m / 60 * 60 + m % 60;
  }

  lemma ReadsUnsigned(d: Delta, negative: bool)
    requires Normal(d) && d.days >= 0 && d.micros == 0
    ensures Parse((if negative then "-P" else "P") + Unsigned(d)) == Whole(Made(negative, d.days, 0, 0, d.seconds))
  {
    hide Show, Time, Unit, ReadSeconds;
    var u := Unsigned(d);
    var text := (if negative then "-P" else "P") + u;
    assert (if negative then text[1..] else text) == "P" + u;
    assert ("P" + u)[1..] == u;
    var tail := if d.seconds > 0 then "T" + Time(d.seconds, 0) else if d.days > 0 then "" else "T0S";
    assert u == Field(d.days, 'D') + tail;
    NoDigits(tail, 'Y');
    NoDigits(tail, 'M');
    NoDigits(tail, 'D');
    SkipsField(d.days, 'D', tail, 'Y');
    SkipsField(d.days, 'D', tail, 'M');
    ReadsField(d.days, 'D', tail);
    if d.seconds > 0 {
      assert tail[1..] == Time(d.seconds, 0);
      ReadsTime(d.seconds);
      SecondsAdd(d.seconds);
    } else if d.days == 0 {
      assert tail[1..] == "0S";
      ReadsZero();
    }
  }

  lemma NoDigits(s: string, unit: char)
    requires s == "" || !IsDigit(s[0])
    ensures Lacks(s, unit)
  {
  }

  lemma ReadsZero()
    ensures Unit("0S", 'H') == (0, "0S") && Unit("0S", 'M') == (0, "0S") && ReadSeconds("0S") == Sec(0)
  {
    assert "0S"[..1] == "0" && "0S"[2..] == "" && "0"[..0] == "";
    DigitsOf("0", "S");
    assert "0" + "S" == "0S";
  }

  /** Every whole number of seconds, positive, negative or zero, comes back. */
  lemma DurationBack(d: Delta)
    requires Normal(d) && d.micros == 0
    ensures Parse(Printed(d)) == Whole(d)
  {
    hide Parse, Unsigned;
    if d.days < 0 {
      NegatedIsPositive(d);
      ReadsUnsigned(Negated(d), true);
    } else {
      ReadsUnsigned(d, false);
    }
    DeltaBack(d);
  }

  // ---------- All units ----------

  /** Years, months, days, and the clock where there is one; what is zero is left out. */
  function Notation(negative: bool, years: nat, months: nat, days: nat, clock: ClockPart): string {
    (if negative then "-P" else "P")
    + (Field(years, 'Y') + (Field(months, 'M') + (Field(days, 'D') + ClockText(clock))))
  }

  datatype ClockPart = NoClock | At(hours: nat, minutes: nat, seconds: nat)

  function ClockText(clock: ClockPart): string {
    match clock
    case NoClock => ""
    case At(h, m, s) => "T" + (Field(h, 'H') + (Field(m, 'M') + Field(s, 'S')))
  }

  lemma ReadsDate(years: nat, months: nat, days: nat, rest: string)
    requires rest == "" || rest[0] == 'T'
    ensures
      var (y, t1) := Unit(Field(years, 'Y') + (Field(months, 'M') + (Field(days, 'D') + rest)), 'Y');
      var (m, t2) := Unit(t1, 'M');
      (y, m) == (years, months) && Unit(t2, 'D') == (days, rest)
  {
    hide Unit, Field;
    NoDigits(rest, 'Y');
    NoDigits(rest, 'M');
    NoDigits(rest, 'D');
    SkipsField(days, 'D', rest, 'M');
    SkipsField(days, 'D', rest, 'Y');
    SkipsField(months, 'M', Field(days, 'D') + rest, 'Y');
    ReadsField(years, 'Y', Field(months, 'M') + (Field(days, 'D') + rest));
    ReadsField(months, 'M', Field(days, 'D') + rest);
    ReadsField(days, 'D', rest);
  }

  lemma ReadsClock(h: nat, m: nat, s: nat)
    ensures
      var (hours, t4) := Unit(Field(h, 'H') + (Field(m, 'M') + Field(s, 'S')), 'H');
      var (minutes, t5) := Unit(t4, 'M');
      (hours, minutes) == (h, m) && ReadSeconds(t5) == Sec(s)
  {
    hide Unit, Field, ReadSeconds;
    var last := Field(s, 'S');
    assert last + "" == last;
    NoDigits("", 'H');
    NoDigits("", 'M');
    SkipsField(s, 'S', "", 'H');
    SkipsField(s, 'S', "", 'M');
    SkipsField(m, 'M', last, 'H');
    ReadsField(h, 'H', Field(m, 'M') + last);
    ReadsField(m, 'M', last);
    ReadsLast(s);
  }

  /** What a notation means: a year is 365 days, and a month 30. */
  lemma ReadsAll(negative: bool, years: nat, months: nat, days: nat, clock: ClockPart)
    ensures
      var read := Parse(Notation(negative, years, months, days, clock));
      var seconds := (years * 365 + months * 30 + days) * 86400
        + if clock.At? then clock.hours * 3600 + clock.minutes * 60 + clock.seconds else 0;
      && read.Whole? && 0 <= read.d.seconds < 86400 && read.d.micros == 0
      && read.d.days * 86400 + read.d.seconds == if negative then -seconds else seconds
  {
    hide Unit, Field, ReadSeconds, Made;
    var tail := ClockText(clock);
    var u := Field(years, 'Y') + (Field(months, 'M') + (Field(days, 'D') + tail));
    var text := Notation(negative, years, months, days, clock);
    assert (if negative then text[1..] else text) == "P" + u;
    assert ("P" + u)[1..] == u;
    ReadsDate(years, months, days, tail);
    if clock.At? {
      assert tail[1..] == Field(clock.hours, 'H') + (Field(clock.minutes, 'M') + Field(clock.seconds, 'S'));
      ReadsClock(clock.hours, clock.minutes, clock.seconds);
      MadeMeans(negative, days + months * 30 + years * 365, clock.hours, clock.minutes, clock.seconds);
    } else {
      MadeMeans(negative, days + months * 30 + years * 365, 0, 0, 0);
    }
  }

  lemma MadeMeans(negative: bool, days: nat, hours: nat, minutes: nat, seconds: nat)
    ensures
      var d := Made(negative, days, hours, minutes, seconds);
      var t := days * 86400 + (hours * 3600 + minutes * 60 + seconds);
      d.seconds < 86400 && d.micros == 0 && d.days * 86400 + d.seconds == if negative then -t else t
  {
    var t := days * 86400 + hours * 3600 + minutes * 60 + seconds;
    var u := if negative then -t else t;
    assert FromTotal(u * 1000000) == Made(negative, days, hours, minutes, seconds);
    Remainder(u, 0);
    Quotient(u);
    assert u == u / 86400 * 86400 + u % 86400;
  }

  lemma Quotient(q: int)
    ensures q * 1000000 / 1000000 == q
  {
  }

  /** The text of a duration is this notation of its absolute value, without years and months; what is zero is
      left out, and a duration of nothing is `PT0S`. */
  lemma PrintedSpelled(d: Delta, days: nat, hours: nat, minutes: nat, seconds: nat)
    requires Normal(d) && d.micros == 0 && hours < 24 && minutes < 60 && seconds < 60
    requires
      var t := days * 86400 + hours * 3600 + minutes * 60 + seconds;
      d.days * 86400 + d.seconds == if d.days < 0 then -t else t
    ensures Printed(d) ==
      if d.days == 0 && d.seconds == 0 then "PT0S"
      else Notation(d.days < 0, 0, 0, days,
        if hours == 0 && minutes == 0 && seconds == 0 then NoClock else At(hours, minutes, seconds))
  {
    hide Show, Unsigned, Notation;
    var a := if d.days < 0 then Negated(d) else d;
    if d.days < 0 { NegatedIsPositive(d); }
    assert a.days * 86400 + a.seconds == days * 86400 + (hours * 3600 + minutes * 60 + seconds);
    assert a.days == days && a.seconds == hours * 3600 + minutes * 60 + seconds;
    UnsignedSpelled(a, hours, minutes, seconds);
    NotationParts(d.days < 0, days,
      if hours == 0 && minutes == 0 && seconds == 0 then NoClock else At(hours, minutes, seconds));
  }

  lemma NotationParts(negative: bool, days: nat, clock: ClockPart)
    ensures Notation(negative, 0, 0, days, clock) ==
      (if negative then "-P" else "P") + (Field(days, 'D') + ClockText(clock))
  {
    hide ClockText;
    assert Field(0, 'Y') == "" && Field(0, 'M') == "";
    assert "" + ("" + (Field(days, 'D') + ClockText(clock))) == Field(days, 'D') + ClockText(clock);
  }

  lemma UnsignedSpelled(a: Delta, hours: nat, minutes: nat, seconds: nat)
    requires Normal(a) && a.days >= 0 && a.micros == 0 && hours < 24 && minutes < 60 && seconds < 60
    requires a.seconds == hours * 3600 + minutes * 60 + seconds
    ensures Unsigned(a) ==
      if a.days == 0 && a.seconds == 0 then "T0S"
      else if hours == 0 && minutes == 0 && seconds == 0 then Field(a.days, 'D') + ClockText(NoClock)
      else Field(a.days, 'D') + ClockText(At(hours, minutes, seconds))
  {
    hide Field;
    ClockIs(hours, minutes, seconds);
    assert Field(a.days, 'D') + "" == Field(a.days, 'D');
  }

  lemma ClockIs(hours: nat, minutes: nat, seconds: nat)
    requires hours < 24 && minutes < 60 && seconds < 60
    ensures
      var t := hours * 3600 + minutes * 60 + seconds;
      t / 3600 == hours && t / 60 % 60 == minutes && t % 60 == seconds
  {
    var t := hours * 3600 + minutes * 60 + seconds;
    assert t / 60 == hours * 60 + minutes;
  }

  lemma FieldSpelled(n: nat, unit: char)
    ensures Field(0, unit) == "" && (n > 0 ==> Field(n, unit) == Show(n) + [unit])
  {
  }

  // ---------- Fractions ----------

  function Zeros(n: nat): string {
    if n == 0 then "" else Zeros(n - 1) + "0"
  }

  /** The digits after a decimal point as microseconds; what is beyond the sixth digit does not count. */
  function Micros(f: string): nat
    requires AllDigits(f)
  {
    if |f| >= 6 then Read(f[..6]) else ZerosAreDigits(f, 6 - |f|); Read(f + Zeros(6 - |f|))
  }

  predicate AllDigits(s: string) {
    forall i | 0 <= i < |s| :: IsDigit(s[i])
  }

  lemma {:induction false} ZerosAreDigits(f: string, n: nat)
    requires AllDigits(f)
    ensures AllDigits(f + Zeros(n)) && |Zeros(n)| == n
  {
    if n > 0 {
      ZerosAreDigits(f, n - 1);
      assert f + Zeros(n) == f + Zeros(n - 1) + "0";
    }
  }

  /** The microseconds that a text denotes, whole or with a decimal fraction, exactly. */
  function Denoted(s: string): int {
    match Parse(s)
    case Whole(d) => Total(d)
    case Fractional(negative, minutes, sec, point, f) =>
      if AllDigits(sec) && AllDigits(f) && point == '.' then
        var t := (minutes * 60 + Read(sec)) * 1000000 + Micros(f);
        if negative then -t else t
      else 0
    case NoMatch => 0
  }

  function Pow10(n: nat): (p: nat)
    ensures p >= 1
  {
    if n == 0 then 1 else 10 * Pow10(n - 1)
  }

  lemma {:induction false} ReadZeros(f: string, n: nat)
    requires AllDigits(f)
    ensures AllDigits(f + Zeros(n)) && Read(f + Zeros(n)) == Read(f) * Pow10(n)
  {
    if n == 0 {
      assert f + Zeros(0) == f;
    } else {
      ReadZeros(f, n - 1);
      ZerosAreDigits(f, n);
      var s := f + Zeros(n);
      assert s[..|s| - 1] == f + Zeros(n - 1) && s[|s| - 1] == '0';
      Shift(Read(f), Pow10(n - 1));
    }
  }

  lemma Shift(a: int, b: int)
    ensures 10 * (a * b) == a * (10 * b)
  {
  }

  lemma {:induction false} ShowLength(n: nat, k: nat)
    requires k >= 1
    ensures |Show(n)| <= k <==> n < Pow10(k)
  {
    if n >= 10 {
      assert |Show(n)| == |Show(n / 10)| + 1;
      if k > 1 {
        ShowLength(n / 10, k - 1);
      } else {
        assert Pow10(k) == 10 * Pow10(0);
      }
    }
  }

  lemma Million()
    ensures Pow10(5) == 100000 && Pow10(6) == 1000000
  {
    assert Pow10(1) == 10 && Pow10(2) == 100 && Pow10(3) == 1000 && Pow10(4) == 10000;
  }

  lemma MoreThanOnce(us: nat, n: nat)
    requires us > 0 && n > 0
    ensures us * Pow10(n) > us
  {
    assert Pow10(n) == 10 * Pow10(n - 1);
    Product(us, Pow10(n));
  }

  lemma Product(a: int, b: int)
    requires a > 0 && b >= 2
    ensures a * b > a
  {
  }

  /** Microseconds without leading zeros mean what they should exactly when there are six digits. */
  lemma MicrosBack(us: nat)
    requires 0 < us < 1000000
    ensures Micros(Show(us)) == us <==> us >= 100000
  {
    hide Show, Read, Pow10;
    ReadShow(us);
    Million();
    ShowLength(us, 6);
    ShowLength(us, 5);
    var s := Show(us);
    if |s| == 6 {
      assert s[..6] == s;
    } else {
      ReadZeros(s, 6 - |s|);
      MoreThanOnce(us, 6 - |s|);
    }
  }

  lemma ReadsPointed(a: string, b: string)
    requires a != "" && AllDigits(a) && b != "" && AllDigits(b)
    ensures
      var t := a + ("." + (b + "S"));
      ReadSeconds(t) == Fraction(a, '.', b) && Lacks(t, 'H') && Lacks(t, 'M')
  {
    hide Digits, Read, IsDigit;
    var tail := b + "S";
    var t := a + ("." + tail);
    NotDigits();
    DigitsOf(a, "." + tail);
    DigitsOf(b, "S");
    assert t[..|a|] == a && t[|a|] == '.' && t[|a| + 1..] == tail && tail[..|b|] == b && tail[|b|] == 'S';
    assert FractionEnds(tail);
  }

  lemma NotDigits()
    ensures !IsDigit('.') && !IsDigit('S')
  {
  }

  lemma ReadsFractionLast(s: nat, us: nat)
    requires us > 0
    ensures ReadSeconds(Seconds(s, us)) == Fraction(Show(s), '.', Show(us))
    ensures Lacks(Seconds(s, us), 'H') && Lacks(Seconds(s, us), 'M')
  {
    hide Show, ReadSeconds, Lacks;
    ReadsPointed(Show(s), Show(us));
    assert Seconds(s, us) == Show(s) + ("." + (Show(us) + "S"));
  }

  lemma ReadsFractionTime(seconds: nat, us: nat)
    requires seconds < 86400 && us > 0
    ensures
      var (hours, t4) := Unit(Time(seconds, us), 'H');
      var (minutes, t5) := Unit(t4, 'M');
      && ReadSeconds(t5) == Fraction(Show(seconds % 60), '.', Show(us))
      && hours == seconds / 3600 && minutes == seconds / 60 % 60
  {
    hide Show, Field, Seconds, ReadSeconds;
    var h, m, s := seconds / 3600, seconds / 60 % 60, seconds % 60;
    var last := Seconds(s, us);
    ReadsFractionLast(s, us);
    SkipsField(m, 'M', last, 'H');
    ReadsField(h, 'H', Field(m, 'M') + last);
    ReadsField(m, 'M', last);
  }

  lemma ReadsFraction(d: Delta, negative: bool)
    requires Normal(d) && d.days >= 0 && d.micros > 0
    ensures Parse((if negative then "-P" else "P") + Unsigned(d)) ==
      Fractional(negative, d.days * 1440 + d.seconds / 3600 * 60 + d.seconds / 60 % 60, Show(d.seconds % 60), '.',
        Show(d.micros))
  {
    hide Show, Time, Unit, ReadSeconds;
    var u := Unsigned(d);
    var text := (if negative then "-P" else "P") + u;
    assert (if negative then text[1..] else text) == "P" + u;
    assert ("P" + u)[1..] == u;
    var tail := "T" + Time(d.seconds, d.micros);
    NoDigits(tail, 'Y');
    NoDigits(tail, 'M');
    NoDigits(tail, 'D');
    SkipsField(d.days, 'D', tail, 'Y');
    SkipsField(d.days, 'D', tail, 'M');
    ReadsField(d.days, 'D', tail);
    assert tail[1..] == Time(d.seconds, d.micros);
    ReadsFractionTime(d.seconds, d.micros);
  }

  /** A duration's absolute value. */
  function Absolute(d: Delta): Delta {
    if d.days < 0 then Negated(d) else d
  }

  /** The printed text denotes the duration exactly when its absolute value has no fraction of a second, or
      one of at least 100 milliseconds: 50 milliseconds are printed as `.50000`. */
  lemma PrintedDenotes(d: Delta)
    requires Normal(d)
    ensures Denoted(Printed(d)) == Total(d) <==> Absolute(d).micros == 0 || Absolute(d).micros >= 100000
  {
    hide Parse, Unsigned, Show, Read, Micros;
    var a := Absolute(d);
    if d.days < 0 { NegatedIsPositive(d); }
    if a.micros == 0 {
      AbsoluteWhole(d);
      DurationBack(d);
    } else {
      ReadsFraction(a, d.days < 0);
      MicrosBack(a.micros);
      ReadShow(a.seconds % 60);
      SecondsAdd(a.seconds);
      assert ((a.days * 1440 + a.seconds / 3600 * 60 + a.seconds / 60 % 60) * 60 + a.seconds % 60) * 1000000 + a.micros
          == Total(a);
    }
  }

  lemma AbsoluteWhole(d: Delta)
    requires Normal(d)
    ensures Absolute(d).micros == 0 <==> d.micros == 0
  {
    MicrosNegated(d.days * 86400 + d.seconds, d.micros);
  }
}
