/** The client's formatting and validation helpers (wwwroot/js/utils.js): the uptime
    text and the dotted-quad IPv4 check. */
module ClientUtils {
  import opened Common
  import opened Discovery

  const SecondsPerDay: int := 86400
  const SecondsPerHour: int := 3600
  const SecondsPerMinute: int := 60

  /** JavaScript's `%`: the remainder takes the sign of the dividend. */
  function JsRem(a: int, d: int): int
    requires d > 0
  {
    if a >= 0 then a % d else -((-a) % d)
  }

  datatype UptimeParts = UptimeParts(days: int, hours: int, minutes: int)

  /** The whole days, hours and minutes formatUptime derives (Math.floor of each quotient). */
  function Breakdown(seconds: int): UptimeParts
  {
    UptimeParts(seconds / SecondsPerDay,
                JsRem(seconds, SecondsPerDay) / SecondsPerHour,
                JsRem(seconds, SecondsPerHour) / SecondsPerMinute)
  }

  /** For a non-negative count the parts are a days/hours/minutes reading of it: hours
      below 24, minutes below 60, and together they make up the whole minutes. */
  lemma BreakdownBounds(seconds: int)
    requires seconds >= 0
    ensures var p := Breakdown(seconds);
      0 <= p.hours < 24 && 0 <= p.minutes < 60 && p.days >= 0
      && p.days * SecondsPerDay + p.hours * SecondsPerHour + p.minutes * SecondsPerMinute <= seconds
      && seconds < p.days * SecondsPerDay + p.hours * SecondsPerHour + p.minutes * SecondsPerMinute + SecondsPerMinute
  {
    var d := seconds / 86400;
    var rd := seconds % 86400;
    var h := rd / 3600;
    var x := rd % 3600;
    assert seconds == (d * 24 + h) * 3600 + x;
    RemainderUnique(seconds, d * 24 + h, x);
    assert seconds % 3600 == x;
  }

  /** The remainder by an hour is the one left after whole hours. */
  lemma RemainderUnique(s: int, q: int, x: int)
    requires s == q * 3600 + x && 0 <= x < 3600
    ensures s % 3600 == x && s / 3600 == q
  {
  }

  /** formatUptime: "Dd Hh Mm" with days, else "Hh Mm" with hours, else "Mm". */
  function FormatUptime(seconds: int): string
  {
    var p := Breakdown(seconds);
    if p.days > 0 then IntToString(p.days) + "d " + IntToString(p.hours) + "h " + IntToString(p.minutes) + "m"
    else if p.hours > 0 then IntToString(p.hours) + "h " + IntToString(p.minutes) + "m"
    else IntToString(p.minutes) + "m"
  }

  /** Which form the text takes depends only on the thresholds of a day and an hour. */
  lemma FormatUptimeForms(seconds: int)
    requires seconds >= 0
    ensures var p := Breakdown(seconds);
      (seconds >= SecondsPerDay ==>
         FormatUptime(seconds) == NatToString(p.days) + "d " + NatToString(p.hours) + "h " + NatToString(p.minutes) + "m")
      && (SecondsPerHour <= seconds < SecondsPerDay ==>
         p.days == 0 && FormatUptime(seconds) == NatToString(p.hours) + "h " + NatToString(p.minutes) + "m")
      && (seconds < SecondsPerHour ==>
         p.days == 0 && p.hours == 0 && FormatUptime(seconds) == NatToString(seconds / SecondsPerMinute) + "m")
  {
    BreakdownBounds(seconds);
    var p := Breakdown(seconds);
    assert seconds >= SecondsPerDay <==> p.days > 0;
    if seconds < SecondsPerDay {
      assert JsRem(seconds, SecondsPerDay) == seconds;
      assert SecondsPerHour <= seconds <==> p.hours > 0;
      if seconds < SecondsPerHour {
        assert JsRem(seconds, SecondsPerHour) == seconds;
      }
    }
  }

  // ---------------------------------------------------------------------------
  // isValidIP

  predicate IsZeroOrOne(c: char) { c == '0' || c == '1' }

  /** One field of the isValidIP pattern, alternative by alternative:
      `25[0-5]`, `2[0-4][0-9]`, and `[01]?[0-9][0-9]?` with either optional part present
      or absent. */
  predicate OctetPattern(f: string)
  {
    (|f| == 3 && f[0] == '2' && f[1] == '5' && '0' <= f[2] <= '5')
    || (|f| == 3 && f[0] == '2' && '0' <= f[1] <= '4' && IsDigit(f[2]))
    || (|f| == 1 && IsDigit(f[0]))
    || (|f| == 2 && IsZeroOrOne(f[0]) && IsDigit(f[1]))
    || (|f| == 2 && IsDigit(f[0]) && IsDigit(f[1]))
    || (|f| == 3 && IsZeroOrOne(f[0]) && IsDigit(f[1]) && IsDigit(f[2]))
  }

  /** isValidIP: the anchored pattern of three "field." groups and a last field. No field
      alternative matches a dot, so the dots of a matching text are exactly its three
      separators and the fields are the text split at dots. */
  predicate IsValidIp(ip: string)
  {
    var fields := Split(ip, '.');
    |fields| == 4 && forall i :: 0 <= i < 4 ==> OctetPattern(fields[i])
  }

  /** What the field pattern accepts: one to three decimal digits of value at most 255,
      leading zeros allowed. */
  predicate DecimalOctet(f: string)
  {
    1 <= |f| <= 3 && AllDigits(f) && DecimalValue(f) <= 255
  }

  function Digit(c: char): int { c as int - '0' as int }

  lemma DecimalValueShort(f: string)
    requires 1 <= |f| <= 3 && AllDigits(f)
    ensures |f| == 1 ==> DecimalValue(f) == Digit(f[0])
    ensures |f| == 2 ==> DecimalValue(f) == 10 * Digit(f[0]) + Digit(f[1])
    ensures |f| == 3 ==> DecimalValue(f) == 100 * Digit(f[0]) + 10 * Digit(f[1]) + Digit(f[2])
  {
    assert f[..|f| - 1][..0] == [];
    if |f| >= 2 {
      assert f[..|f| - 1][..|f| - 2] == f[..|f| - 2];
    }
    if |f| == 3 {
      assert f[..1][..0] == [];
    }
  }

  /** The field pattern accepts exactly the decimal octets. */
  lemma OctetPatternMeaning(f: string)
    ensures OctetPattern(f) <==> DecimalOctet(f)
  {
    if 1 <= |f| <= 3 && AllDigits(f) {
      DecimalValueShort(f);
    }
  }

  /** isValidIP accepts exactly four dot-separated decimal octets. */
  lemma IsValidIpMeaning(ip: string)
    ensures IsValidIp(ip) <==> |Split(ip, '.')| == 4 && forall i :: 0 <= i < 4 ==> DecimalOctet(Split(ip, '.')[i])
  {
    var fields := Split(ip, '.');
    forall i | 0 <= i < |fields| {
      OctetPatternMeaning(fields[i]);
    }
  }

  /** Leading zeros are accepted; values from 256 and empty fields are not. */
  lemma FieldExamples()
    ensures DecimalOctet("010") && DecimalOctet("0") && DecimalOctet("255")
    ensures !DecimalOctet("256") && !DecimalOctet("") && !DecimalOctet("1000")
  {
    OctetPatternMeaning("010");
    OctetPatternMeaning("0");
    OctetPatternMeaning("255");
    OctetPatternMeaning("256");
    OctetPatternMeaning("");
    OctetPatternMeaning("1000");
  }

  /** Three fields are refused. */
  lemma RefusesThreeFields()
    ensures !IsValidIp("1.2.3")
  {
    SplitThreeFields("1", "2", "3");
    assert "1.2.3" == "1" + ['.'] + ("2" + ['.'] + "3");
  }

  /** A byte prints as one to three digits. */
  lemma PrintedByteIsOctet(n: nat)
    requires n <= 255
    ensures DecimalOctet(NatToString(n))
  {
    NatToStringRoundTrip(n);
    if n >= 10 {
      assert NatToString(n) == NatToString(n / 10) + [DigitChar(n % 10)];
      if n / 10 >= 10 {
        assert NatToString(n / 10) == NatToString(n / 100) + [DigitChar(n / 10 % 10)];
      }
    }
  }

  /** Four decimal octets joined by dots pass the check. */
  lemma JoinedOctetsValid(a: string, b: string, c: string, d: string)
    requires DecimalOctet(a) && DecimalOctet(b) && DecimalOctet(c) && DecimalOctet(d)
    ensures IsValidIp(a + "." + b + "." + c + "." + d)
  {
    DigitsHaveNoSeparators(a);
    DigitsHaveNoSeparators(b);
    DigitsHaveNoSeparators(c);
    DigitsHaveNoSeparators(d);
    SplitAtDots(a, b, c, d);
    OctetPatternMeaning(a);
    OctetPatternMeaning(b);
    OctetPatternMeaning(c);
    OctetPatternMeaning(d);
  }

  /** Every address the local-network scan probes (GetNetworkRangeRoundTrip) passes the
      client's check. */
  lemma LocalRangeAddressesValid(o: Octets, k: nat)
    requires k < 254
    ensures IsValidIp(HostRange(OctetBase(o), 1, 254)[k])
  {
    HostRangeAt(OctetBase(o), 1, 254, k);
    var a, b, c, d := NatToString(o.b0), NatToString(o.b1), NatToString(o.b2), NatToString(1 + k);
    PrintedByteIsOctet(o.b0);
    PrintedByteIsOctet(o.b1);
    PrintedByteIsOctet(o.b2);
    PrintedByteIsOctet(1 + k);
    JoinedOctetsValid(a, b, c, d);
  }
}
