/** UTC timestamps and the text `datetime.isoformat()` stores for them. The fraction is left out when the microseconds
    are zero, so two texts can differ in length; byte order still is time order. */
module IsoTime {
  import opened Common
  import opened TextOrder

  datatype Stamp = Stamp(year: nat, month: nat, day: nat, hour: nat, minute: nat, second: nat, micro: nat) {
    /** The ranges of a `datetime`; how many days a month has plays no part in what follows. */
    predicate Valid() {
      && 1 <= year <= 9999 && 1 <= month <= 12 && 1 <= day <= 31
      && hour < 24 && minute < 60 && second < 60 && micro < 1000000
    }
  }

  type Time = s: Stamp | s.Valid() witness Stamp(1970, 1, 1, 0, 0, 0, 0)

  /** The comparison of two UTC datetimes. */
  predicate NotAfter(a: Stamp, b: Stamp) {
    if a.year != b.year then a.year < b.year
    else if a.month != b.month then a.month < b.month
    else if a.day != b.day then a.day < b.day
    else if a.hour != b.hour then a.hour < b.hour
    else if a.minute != b.minute then a.minute < b.minute
    else if a.second != b.second then a.second < b.second
    else a.micro <= b.micro
  }

  // ---- Digits ----

  function Pow10(w: nat): nat { if w == 0 then 1 else 10 * Pow10(w - 1) }

  function Digit(d: nat): char
    requires d < 10
  {
    '0' + d as char
  }

  /** `n` in exactly `w` decimal digits. */
  function Digits(n: nat, w: nat): (s: string)
    ensures |s| == w
  {
    if w == 0 then "" else Digits(n / 10, w - 1) + [Digit(n % 10)]
  }

  lemma {:induction false} DigitsOrder(m: nat, n: nat, w: nat)
    requires m < Pow10(w) && n < Pow10(w)
    ensures Leq(Digits(m, w), Digits(n, w)) <==> m <= n
    ensures Digits(m, w) == Digits(n, w) <==> m == n
  {
    if w > 0 {
      var a, b := Digits(m / 10, w - 1), Digits(n / 10, w - 1);
      DigitsOrder(m / 10, n / 10, w - 1);
      var x, y := [Digit(m % 10)], [Digit(n % 10)];
      assert m == 10 * (m / 10) + m % 10 && n == 10 * (n / 10) + n % 10;
      assert (a + x)[..w - 1] == a && (b + y)[..w - 1] == b && (a + x)[w - 1] == x[0] && (b + y)[w - 1] == y[0];
      if a == b {
        LeqCommonPrefix(a, x, y);
      } else {
        LeqDecided(a, x, b, y);
      }
    }
  }

  /** A fixed-width number decides the order; a tie is left to what follows. */
  lemma FieldOrder(m: nat, n: nat, w: nat, x: string, y: string)
    requires m < Pow10(w) && n < Pow10(w)
    ensures Leq(Digits(m, w) + x, Digits(n, w) + y) <==> m < n || (m == n && Leq(x, y))
  {
    DigitsOrder(m, n, w);
    if m == n {
      LeqCommonPrefix(Digits(m, w), x, y);
    } else {
      LeqDecided(Digits(m, w), x, Digits(n, w), y);
    }
  }

  /** The same with a separator after the number. */
  lemma SeparatedOrder(m: nat, n: nat, w: nat, sep: char, x: string, y: string)
    requires m < Pow10(w) && n < Pow10(w)
    ensures Leq(Digits(m, w) + ([sep] + x), Digits(n, w) + ([sep] + y)) <==> m < n || (m == n && Leq(x, y))
  {
    FieldOrder(m, n, w, [sep] + x, [sep] + y);
    LeqCommonPrefix([sep], x, y);
  }

  // ---- isoformat ----

  const UTC: string := "+00:00"

  function Fraction(micro: nat): string { if micro == 0 then UTC else "." + (Digits(micro, 6) + UTC) }

  function Seconds(t: Time): string { Digits(t.second, 2) + Fraction(t.micro) }

  function Clock(t: Time): string { Digits(t.hour, 2) + ([':'] + (Digits(t.minute, 2) + ([':'] + Seconds(t)))) }

  function Iso(t: Time): string {
    Digits(t.year, 4) + (['-'] + (Digits(t.month, 2) + (['-'] + (Digits(t.day, 2) + (['T'] + Clock(t))))))
  }

  /** A number between two separators. */
  lemma At(n: nat, w: nat, sep: char, rest: string)
    ensures var s := Digits(n, w) + ([sep] + rest);
            |s| == w + 1 + |rest| && s[..w] == Digits(n, w) && s[w] == sep && s[w + 1..] == rest
  {
    var s := Digits(n, w) + ([sep] + rest);
    assert s[w] == ([sep] + rest)[0];
  }

  lemma FractionLayout(micro: nat)
    requires micro < 1000000
    ensures var s := Fraction(micro);
            && |s| == (if micro == 0 then 6 else 13) && s[|s| - 6..] == "+00:00"
            && s[0] == (if micro == 0 then '+' else '.')
  {
    if micro > 0 {
      assert Fraction(micro) == "." + Digits(micro, 6) + UTC;
    }
  }

  lemma ClockLayout(t: Time)
    ensures var s := Clock(t);
            s[2] == ':' && s[5] == ':' && |s| == 8 + |Fraction(t.micro)| && s[8..] == Fraction(t.micro)
  {
    At(t.hour, 2, ':', Digits(t.minute, 2) + ([':'] + Seconds(t)));
    At(t.minute, 2, ':', Seconds(t));
    assert Clock(t)[6..] == Clock(t)[3..][3..] == Seconds(t);
    assert Clock(t)[8..] == Clock(t)[6..][2..];
    assert Seconds(t)[2..] == Fraction(t.micro);
  }

  lemma DateLayout(t: Time)
    ensures var s := Iso(t);
            s[4] == '-' && s[7] == '-' && s[10] == 'T' && |s| == 11 + |Clock(t)| && s[11..] == Clock(t)
  {
    var day := Digits(t.day, 2) + (['T'] + Clock(t));
    var month := Digits(t.month, 2) + (['-'] + day);
    At(t.year, 4, '-', month);
    At(t.month, 2, '-', day);
    At(t.day, 2, 'T', Clock(t));
    assert Iso(t)[8..] == Iso(t)[5..][3..] == day;
    assert Iso(t)[11..] == Iso(t)[8..][3..];
  }

  /** Where things stand: date, 'T' and time with their separators at fixed places, then the zone, with a fraction in
      front of it exactly when there are microseconds. */
  lemma IsoLayout(t: Time)
    ensures var s := Iso(t);
            && |s| == (if t.micro == 0 then 25 else 32)
            && s[4] == '-' && s[7] == '-' && s[10] == 'T' && s[13] == ':' && s[16] == ':'
            && s[19] == (if t.micro == 0 then '+' else '.') && s[|s| - 6..] == "+00:00"
  {
    FractionLayout(t.micro);
    ClockLayout(t);
    DateLayout(t);
    assert Iso(t)[13] == Iso(t)[11..][2] && Iso(t)[16] == Iso(t)[11..][5];
    assert Iso(t)[19..] == Iso(t)[11..][8..];
    assert Iso(t)[|Iso(t)| - 6..] == Iso(t)[19..][|Fraction(t.micro)| - 6..];
  }

  lemma Widths()
    ensures Pow10(2) == 100 && Pow10(4) == 10000 && Pow10(6) == 1000000
  {
    assert Pow10(1) == 10 && Pow10(3) == 1000 && Pow10(5) == 100000;
  }

  /** A missing fraction sorts before every fraction: '+' comes before '.'. */
  lemma FractionOrder(m: nat, n: nat)
    requires m < 1000000 && n < 1000000
    ensures Leq(Fraction(m), Fraction(n)) <==> m <= n
  {
    Widths();
    if m > 0 && n > 0 {
      FieldOrder(m, n, 6, UTC, UTC);
      LeqTotal(UTC, UTC);
      LeqCommonPrefix(".", Digits(m, 6) + UTC, Digits(n, 6) + UTC);
    } else if m == n {
      LeqTotal(UTC, UTC);
    } else {
      assert Fraction(0)[0] == '+';
      assert m > 0 ==> Fraction(m)[0] == '.';
      assert n > 0 ==> Fraction(n)[0] == '.';
    }
  }

  lemma ClockOrder(a: Time, b: Time)
    ensures Leq(Clock(a), Clock(b)) <==>
            if a.hour != b.hour then a.hour < b.hour
            else if a.minute != b.minute then a.minute < b.minute
            else if a.second != b.second then a.second < b.second
            else a.micro <= b.micro
  {
    Widths();
    FractionOrder(a.micro, b.micro);
    FieldOrder(a.second, b.second, 2, Fraction(a.micro), Fraction(b.micro));
    SeparatedOrder(a.minute, b.minute, 2, ':', Seconds(a), Seconds(b));
    SeparatedOrder(a.hour, b.hour, 2, ':',
                   Digits(a.minute, 2) + ([':'] + Seconds(a)), Digits(b.minute, 2) + ([':'] + Seconds(b)));
  }

  /** Byte order on the stored text is time order, for all UTC timestamps. */
  lemma IsoOrder(a: Time, b: Time)
    ensures Leq(Iso(a), Iso(b)) <==> NotAfter(a, b)
  {
    Widths();
    ClockOrder(a, b);
    var ca, cb := ['T'] + Clock(a), ['T'] + Clock(b);
    SeparatedOrder(a.day, b.day, 2, 'T', Clock(a), Clock(b));
    SeparatedOrder(a.month, b.month, 2, '-', Digits(a.day, 2) + ca, Digits(b.day, 2) + cb);
    SeparatedOrder(a.year, b.year, 4, '-',
                   Digits(a.month, 2) + (['-'] + (Digits(a.day, 2) + ca)),
                   Digits(b.month, 2) + (['-'] + (Digits(b.day, 2) + cb)));
  }

  /** Different times have different texts. */
  lemma IsoInjective(a: Time, b: Time)
    ensures Iso(a) == Iso(b) <==> a == b
  {
    if Iso(a) == Iso(b) {
      LeqTotal(Iso(a), Iso(b));
      IsoOrder(a, b);
      IsoOrder(b, a);
    }
  }

  /** `timestamp > ?` on text is `>` on times. */
  lemma IsoLess(a: Time, b: Time)
    ensures Less(Iso(a), Iso(b)) <==> !NotAfter(b, a)
  {
    IsoOrder(a, b);
    IsoOrder(b, a);
    IsoInjective(a, b);
    LeqTotal(Iso(a), Iso(b));
    if Leq(Iso(b), Iso(a)) && Leq(Iso(a), Iso(b)) {
      LeqAntisymmetric(Iso(a), Iso(b));
    }
  }

  // ---- fromisoformat ----

  function Value(s: string): nat
    requires forall i :: 0 <= i < |s| ==> '0' <= s[i] <= '9'
  {
    if s == "" then 0 else 10 * Value(s[..|s| - 1]) + (s[|s| - 1] - '0') as nat
  }

  predicate AllDigits(s: string) { forall i :: 0 <= i < |s| ==> '0' <= s[i] <= '9' }

  /** Read `w` digits off the front. */
  function Read(s: string, w: nat): Option<(nat, string)> {
    if |s| < w || !AllDigits(s[..w]) then None else Some((Value(s[..w]), s[w..]))
  }

  /** Read `w` digits and a separator. */
  function ReadTo(s: string, w: nat, sep: char): Option<(nat, string)> {
    match Read(s, w)
    case None => None
    case Some((n, rest)) => if rest != "" && rest[0] == sep then Some((n, rest[1..])) else None
  }

  function ReadFraction(s: string): Option<nat> {
    if s == UTC then Some(0)
    else if s != "" && s[0] == '.' then
      match Read(s[1..], 6)
      case Some((micro, rest)) => if rest == UTC then Some(micro) else None
      case None => None
    else None
  }

  lemma {:induction false} ValueOfDigits(n: nat, w: nat)
    requires n < Pow10(w)
    ensures AllDigits(Digits(n, w)) && Value(Digits(n, w)) == n
  {
    if w > 0 {
      ValueOfDigits(n / 10, w - 1);
      var s := Digits(n, w);
      assert s[..w - 1] == Digits(n / 10, w - 1);
      assert n == 10 * (n / 10) + n % 10;
    }
  }

  lemma ReadDigits(n: nat, w: nat, rest: string)
    requires n < Pow10(w)
    ensures Read(Digits(n, w) + rest, w) == Some((n, rest))
  {
    ValueOfDigits(n, w);
    assert (Digits(n, w) + rest)[..w] == Digits(n, w) && (Digits(n, w) + rest)[w..] == rest;
  }

  lemma ReadToDigits(n: nat, w: nat, sep: char, rest: string)
    requires n < Pow10(w)
    ensures ReadTo(Digits(n, w) + ([sep] + rest), w, sep) == Some((n, rest))
  {
    ReadDigits(n, w, [sep] + rest);
    assert ([sep] + rest)[1..] == rest;
  }

  function ReadClock(s: string): Option<(nat, nat, nat, nat)> {
    match ReadTo(s, 2, ':')
    case None => None
    case Some((hour, s1)) =>
      match ReadTo(s1, 2, ':')
      case None => None
      case Some((minute, s2)) =>
        match Read(s2, 2)
        case None => None
        case Some((second, s3)) =>
          match ReadFraction(s3)
          case None => None
          case Some(micro) => Some((hour, minute, second, micro))
  }

  /** `datetime.fromisoformat` on this format. */
  function Parse(s: string): Option<Time> {
    match ReadTo(s, 4, '-')
    case None => None
    case Some((year, s1)) =>
      match ReadTo(s1, 2, '-')
      case None => None
      case Some((month, s2)) =>
        match ReadTo(s2, 2, 'T')
        case None => None
        case Some((day, s3)) =>
          match ReadClock(s3)
          case None => None
          case Some((hour, minute, second, micro)) =>
            var t := Stamp(year, month, day, hour, minute, second, micro);
            if t.Valid() then Some(t) else None
  }

  lemma ReadFractionOf(micro: nat)
    requires micro < 1000000
    ensures ReadFraction(Fraction(micro)) == Some(micro)
  {
    Widths();
    if micro > 0 {
      ReadDigits(micro, 6, UTC);
      assert Fraction(micro)[1..] == Digits(micro, 6) + UTC;
      assert Fraction(micro)[0] == '.' && UTC[0] == '+';
    }
  }

  lemma ReadClockOf(t: Time)
    ensures ReadClock(Clock(t)) == Some((t.hour, t.minute, t.second, t.micro))
  {
    Widths();
    ReadToDigits(t.hour, 2, ':', Digits(t.minute, 2) + ([':'] + Seconds(t)));
    ReadToDigits(t.minute, 2, ':', Seconds(t));
    ReadDigits(t.second, 2, Fraction(t.micro));
    ReadFractionOf(t.micro);
  }

  /** Reading a stored timestamp back gives the timestamp. */
  lemma ParseIso(t: Time)
    ensures Parse(Iso(t)) == Some(t)
  {
    Widths();
    var day := Digits(t.day, 2) + (['T'] + Clock(t));
    ReadToDigits(t.year, 4, '-', Digits(t.month, 2) + (['-'] + day));
    ReadToDigits(t.month, 2, '-', day);
    ReadToDigits(t.day, 2, 'T', Clock(t));
    ReadClockOf(t);
  }
}
