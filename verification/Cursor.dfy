/**
The page cursor of order lists: an RFC 3339 timestamp (section 5.6) with trailing zeros of the
fraction dropped, a bar, and a UUID in text form, all of it in base64url without padding.
Timestamps are civil times with an offset from UTC in minutes.
*/
module Cursor {
  import opened Wrappers
  import Base64

  const DEFAULT_ORDERS_LIMIT: int := 20
  const MAX_ORDERS_LIMIT: int := 100

  datatype Timestamp = Timestamp(
    year: nat, month: nat, day: nat, hour: nat, minute: nat, second: nat, nanos: nat, offset: int)

  datatype PageCursor = PageCursor(placedAt: Timestamp, id: seq<nat>)

  predicate Leap(year: nat) {
    year % 4 == 0 && (year % 100 != 0 || year % 400 == 0)
  }

  function DaysIn(year: nat, month: nat): nat {
    if month in {4, 6, 9, 11} then 30
    else if month == 2 then if Leap(year) then 29 else 28
    else 31
  }

  predicate ValidTime(t: Timestamp) {
    && t.year <= 9999 && 1 <= t.month <= 12 && 1 <= t.day <= DaysIn(t.year, t.month)
    && t.hour < 24 && t.minute < 60 && t.second < 60 && t.nanos < 1_000_000_000
    && -1440 < t.offset < 1440
  }

  predicate ValidId(id: seq<nat>) {
    |id| == 16 && Base64.Bytes(id)
  }

  predicate Valid(c: PageCursor) {
    ValidTime(c.placedAt) && ValidId(c.id)
  }

  function ClampLimit(limit: int): (r: int)
    ensures 1 <= r <= 100
    ensures 1 <= limit <= 100 ==> r == limit
    ensures limit <= 0 ==> r == 20
    ensures limit > 100 ==> r == 100
  {
    if limit <= 0 then DEFAULT_ORDERS_LIMIT
    else if limit > MAX_ORDERS_LIMIT then MAX_ORDERS_LIMIT
    else limit
  }

  // ---- decimal digits ----

  predicate Digit(c: char) {
    '0' <= c <= '9'
  }

  predicate Digits(s: string) {
    forall i :: 0 <= i < |s| ==> Digit(s[i])
  }

  function Value(s: string): nat
    requires Digits(s)
  {
    if s == "" then 0 else Value(s[..|s| - 1]) * 10 + (s[|s| - 1] as nat - '0' as nat)
  }

  function Pow10(n: nat): nat {
    if n == 0 then 1 else Pow10(n - 1) * 10
  }

  /** The last `width` decimal digits of n. */
  function Pad(n: nat, width: nat): (s: string)
    ensures |s| == width && Digits(s)
  {
    if width == 0 then "" else Pad(n / 10, width - 1) + ['0' + (n % 10) as char]
  }

  lemma {:induction false} PadValue(n: nat, width: nat)
    requires n < Pow10(width)
    ensures Value(Pad(n, width)) == n
  {
    if width > 0 {
      PadValue(n / 10, width - 1);
      assert Pad(n, width)[..width - 1] == Pad(n / 10, width - 1);
    }
  }

  lemma Powers()
    ensures Pow10(2) == 100 && Pow10(4) == 10_000 && Pow10(9) == 1_000_000_000
  {
    assert Pow10(1) == 10;
    assert Pow10(3) == 1000;
    assert Pow10(5) == 100_000;
    assert Pow10(6) == 1_000_000;
    assert Pow10(7) == 10_000_000;
    assert Pow10(8) == 100_000_000;
  }

  function Number(s: string): Option<nat> {
    if Digits(s) then Some(Value(s)) else None
  }

  // ---- the fraction of a second ----

  function TrimZeros(s: string): string {
    if s != "" && s[|s| - 1] == '0' then TrimZeros(s[..|s| - 1]) else s
  }

  function FormatFraction(nanos: nat): string {
    if nanos == 0 then "" else "." + TrimZeros(Pad(nanos, 9))
  }

  /** How many characters from the start are digits. */
  function LeadingDigits(s: string): (n: nat)
    ensures n <= |s| && Digits(s[..n])
  {
    if s == "" || !Digit(s[0]) then 0 else 1 + LeadingDigits(s[1..])
  }

  /** The digits at the start of the text as nanoseconds, and the rest; digits past the ninth are dropped. */
  function FractionDigits(s: string): Option<(nat, string)> {
    var n := LeadingDigits(s);
    if n == 0 then None
    else
      var kept := Min(n, 9);
      assert s[..kept] == s[..n][..kept];
      Some((Value(s[..kept]) * Pow10(9 - kept), s[n..]))
  }

  /** The fraction at the start of the text, if there is one, and the rest. */
  function ParseFraction(s: string): Option<(nat, string)> {
    if s == "" || s[0] != '.' then Some((0, s)) else FractionDigits(s[1..])
  }

  lemma {:induction false} TrimKeepsValue(s: string)
    requires Digits(s)
    ensures |TrimZeros(s)| <= |s| && Digits(TrimZeros(s))
    ensures Value(TrimZeros(s)) * Pow10(|s| - |TrimZeros(s)|) == Value(s)
  {
    if s != "" && s[|s| - 1] == '0' {
      var t := TrimZeros(s);
      TrimKeepsValue(s[..|s| - 1]);
      assert Value(s) == Value(s[..|s| - 1]) * 10;
      assert Pow10(|s| - |t|) == Pow10(|s| - 1 - |t|) * 10;
      TimesTen(Value(t), Pow10(|s| - 1 - |t|));
    }
  }

  lemma TimesTen(a: nat, b: nat)
    ensures a * (b * 10) == a * b * 10
  {
  }

  lemma {:induction false} LeadingDigitsOf(digits: string, rest: string)
    requires Digits(digits) && (rest != "" ==> !Digit(rest[0]))
    ensures LeadingDigits(digits + rest) == |digits|
  {
    if digits == "" {
      assert digits + rest == rest;
    } else {
      assert (digits + rest)[1..] == digits[1..] + rest;
      LeadingDigitsOf(digits[1..], rest);
    }
  }

  lemma FractionDigitsOf(digits: string, rest: string)
    requires Digits(digits) && 1 <= |digits| <= 9 && rest != "" && !Digit(rest[0])
    ensures FractionDigits(digits + rest) == Some((Value(digits) * Pow10(9 - |digits|), rest))
  {
    LeadingDigitsOf(digits, rest);
    assert (digits + rest)[..|digits|] == digits;
    assert (digits + rest)[|digits|..] == rest;
  }

  lemma TrimmedNanos(nanos: nat)
    requires 0 < nanos < 1_000_000_000
    ensures var digits := TrimZeros(Pad(nanos, 9));
            Digits(digits) && 1 <= |digits| <= 9 && Value(digits) * Pow10(9 - |digits|) == nanos
  {
    Powers();
    PadValue(nanos, 9);
    TrimKeepsValue(Pad(nanos, 9));
  }

  lemma FractionRoundTrip(nanos: nat, rest: string)
    requires nanos < 1_000_000_000 && rest != "" && !Digit(rest[0]) && rest[0] != '.'
    ensures ParseFraction(FormatFraction(nanos) + rest) == Some((nanos, rest))
  {
    if nanos == 0 {
      assert "" + rest == rest;
    } else {
      var digits := TrimZeros(Pad(nanos, 9));
      TrimmedNanos(nanos);
      FractionDigitsOf(digits, rest);
      assert ("." + digits + rest)[1..] == digits + rest;
    }
  }

  // ---- the offset ----

  function FormatZone(offset: int): string
    requires -1440 < offset < 1440
  {
    if offset == 0 then "Z"
    else if offset > 0 then "+" + Pad(offset / 60, 2) + ":" + Pad(offset % 60, 2)
    else "-" + Pad((-offset) / 60, 2) + ":" + Pad((-offset) % 60, 2)
  }

  function ParseZone(s: string): Option<int> {
    if s == "Z" then Some(0)
    else if |s| != 6 || (s[0] != '+' && s[0] != '-') || s[3] != ':' then None
    else
      var hours, minutes := Number(s[1..3]), Number(s[4..6]);
      if hours.None? || minutes.None? || hours.value > 23 || minutes.value > 59 then None
      else
        var magnitude := hours.value * 60 + minutes.value;
        Some(if s[0] == '+' then magnitude else -magnitude)
  }

  lemma ZoneRoundTrip(offset: int)
    requires -1440 < offset < 1440
    ensures ParseZone(FormatZone(offset)) == Some(offset)
  {
    if offset != 0 {
      var magnitude := if offset > 0 then offset else -offset;
      var s := FormatZone(offset);
      Powers();
      PadValue(magnitude / 60, 2);
      PadValue(magnitude % 60, 2);
      assert |s| == 6;
      assert s[1..3] == Pad(magnitude / 60, 2);
      assert s[4..6] == Pad(magnitude % 60, 2);
    }
  }

  // ---- timestamps ----

  function FormatSeconds(t: Timestamp): (s: string)
    ensures |s| == 19
  {
    Pad(t.year, 4) + "-" + Pad(t.month, 2) + "-" + Pad(t.day, 2) + "T"
    + Pad(t.hour, 2) + ":" + Pad(t.minute, 2) + ":" + Pad(t.second, 2)
  }

  function FormatTime(t: Timestamp): string
    requires ValidTime(t)
  {
    FormatSeconds(t) + FormatFraction(t.nanos) + FormatZone(t.offset)
  }

  /** The civil time up to the second, in UTC for the moment. */
  function ParseSeconds(s: string): Option<Timestamp>
    requires |s| == 19
  {
    if s[4] != '-' || s[7] != '-' || s[10] != 'T' || s[13] != ':' || s[16] != ':' then None
    else
      var year, month, day := Number(s[0..4]), Number(s[5..7]), Number(s[8..10]);
      var hour, minute, second := Number(s[11..13]), Number(s[14..16]), Number(s[17..19]);
      if year.None? || month.None? || day.None? || hour.None? || minute.None? || second.None? then None
      else Some(Timestamp(year.value, month.value, day.value, hour.value, minute.value, second.value, 0, 0))
  }

  function ParseTime(s: string): Option<Timestamp> {
    if |s| < 20 then None
    else
      var civil, fraction := ParseSeconds(s[..19]), ParseFraction(s[19..]);
      if civil.None? || fraction.None? then None
      else
        var offset := ParseZone(fraction.value.1);
        if offset.None? then None
        else
          var t := civil.value.(nanos := fraction.value.0, offset := offset.value);
          if ValidTime(t) then Some(t) else None
  }

  lemma FieldsOfText(a: string, b: string, c: string, d: string, e: string, f: string)
    requires |a| == 4 && |b| == |c| == |d| == |e| == |f| == 2
    ensures var s := a + "-" + b + "-" + c + "T" + d + ":" + e + ":" + f;
            && s[4] == s[7] == '-' && s[10] == 'T' && s[13] == s[16] == ':'
            && s[0..4] == a && s[5..7] == b && s[8..10] == c && s[11..13] == d && s[14..16] == e && s[17..19] == f
  {
  }

  lemma SecondsRoundTrip(t: Timestamp)
    requires ValidTime(t)
    ensures ParseSeconds(FormatSeconds(t)) == Some(t.(nanos := 0, offset := 0))
  {
    FieldsOfText(Pad(t.year, 4), Pad(t.month, 2), Pad(t.day, 2), Pad(t.hour, 2), Pad(t.minute, 2), Pad(t.second, 2));
    Powers();
    PadValue(t.year, 4);
    PadValue(t.month, 2);
    PadValue(t.day, 2);
    PadValue(t.hour, 2);
    PadValue(t.minute, 2);
    PadValue(t.second, 2);
  }

  lemma ParseParts(civil: string, fraction: string, zone: string, t: Timestamp)
    requires |civil| == 19 && ParseSeconds(civil) == Some(t.(nanos := 0, offset := 0))
    requires ParseFraction(fraction + zone) == Some((t.nanos, zone))
    requires zone != "" && ParseZone(zone) == Some(t.offset) && ValidTime(t)
    ensures ParseTime(civil + fraction + zone) == Some(t)
  {
    var s := civil + fraction + zone;
    assert s[..19] == civil;
    assert s[19..] == fraction + zone;
  }

  lemma TimeRoundTrip(t: Timestamp)
    requires ValidTime(t)
    ensures ParseTime(FormatTime(t)) == Some(t)
  {
    SecondsRoundTrip(t);
    FractionRoundTrip(t.nanos, FormatZone(t.offset));
    ZoneRoundTrip(t.offset);
    ParseParts(FormatSeconds(t), FormatFraction(t.nanos), FormatZone(t.offset), t);
  }

  lemma PadTwo(n: nat)
    requires n < 100
    ensures Pad(n, 2) == ['0' + (n / 10) as char, '0' + (n % 10) as char]
  {
    assert Pad(n / 10 / 10, 0) == "";
    assert Pad(n / 10, 1) == ['0' + (n / 10) as char];
  }

  /** A fraction is written without the zeros at its end. */
  lemma OneZeroMore(n: nat, width: nat, s: string)
    requires TrimZeros(Pad(n, width)) == s
    ensures TrimZeros(Pad(n * 10, width + 1)) == s
  {
    assert Pad(n * 10, width + 1)[..width] == Pad(n, width);
  }

  lemma KnownFraction()
    ensures TrimZeros(Pad(120_000_000, 9)) == "12"
  {
    PadTwo(12);
    OneZeroMore(12, 2, "12");
    OneZeroMore(120, 3, "12");
    OneZeroMore(1200, 4, "12");
    OneZeroMore(12_000, 5, "12");
    OneZeroMore(120_000, 6, "12");
    OneZeroMore(1_200_000, 7, "12");
    OneZeroMore(12_000_000, 8, "12");
  }

  lemma KnownYear()
    ensures Pad(2024, 4) == "2024"
  {
    PadTwo(20);
    assert Pad(202, 3) == Pad(20, 2) + "2";
  }

  lemma KnownPads()
    ensures Pad(2, 2) == "02" && Pad(29, 2) == "29"
    ensures Pad(7, 2) == "07" && Pad(5, 2) == "05" && Pad(9, 2) == "09"
  {
    PadTwo(2);
    PadTwo(29);
    PadTwo(7);
    PadTwo(5);
    PadTwo(9);
  }

  lemma KnownZone()
    ensures FormatZone(-330) == "-" + "05" + ":" + "30"
  {
    PadTwo(5);
    PadTwo(30);
  }

  /** A time five and a half hours behind UTC with a fraction of two digits. */
  lemma KnownTime(t: Timestamp)
    requires t == Timestamp(2024, 2, 29, 7, 5, 9, 120_000_000, -330)
    ensures FormatTime(t)
         == ("2024" + "-" + "02" + "-" + "29" + "T" + "07" + ":" + "05" + ":" + "09")
            + ("." + "12") + ("-" + "05" + ":" + "30")
  {
    KnownYear();
    KnownPads();
    KnownFraction();
    KnownZone();
  }

  // ---- UUIDs ----

  function HexDigit(v: nat): char
    requires v < 16
  {
    if v < 10 then '0' + v as char else 'a' + (v - 10) as char
  }

  function HexValue(c: char): Option<nat> {
    if '0' <= c <= '9' then Some(c as nat - '0' as nat)
    else if 'a' <= c <= 'f' then Some(c as nat - 'a' as nat + 10)
    else if 'A' <= c <= 'F' then Some(c as nat - 'A' as nat + 10)
    else None
  }

  function Hex(b: seq<nat>): (s: string)
    requires Base64.Bytes(b)
    ensures |s| == 2 * |b|
  {
    if b == [] then "" else [HexDigit(b[0] / 16), HexDigit(b[0] % 16)] + Hex(b[1..])
  }

  function Unhex(s: string): Option<seq<nat>>
    requires |s| % 2 == 0
  {
    if s == "" then Some([])
    else
      var high, low, rest := HexValue(s[0]), HexValue(s[1]), Unhex(s[2..]);
      if high.None? || low.None? || rest.None? then None
      else Some([high.value * 16 + low.value] + rest.value)
  }

  lemma HexPair(v: nat)
    requires v < 256
    ensures HexValue(HexDigit(v / 16)) == Some(v / 16) && HexValue(HexDigit(v % 16)) == Some(v % 16)
    ensures v / 16 * 16 + v % 16 == v
  {
  }

  lemma {:induction false} UnhexHex(b: seq<nat>)
    requires Base64.Bytes(b)
    ensures Unhex(Hex(b)) == Some(b)
  {
    if b != [] {
      HexPair(b[0]);
      UnhexHex(b[1..]);
      assert Hex(b)[2..] == Hex(b[1..]);
      assert b == [b[0]] + b[1..];
    }
  }

  function FormatId(id: seq<nat>): (s: string)
    requires ValidId(id)
    ensures |s| == 36
  {
    Hex(id[..4]) + "-" + Hex(id[4..6]) + "-" + Hex(id[6..8]) + "-" + Hex(id[8..10]) + "-" + Hex(id[10..])
  }

  function ParseId(s: string): Option<seq<nat>> {
    if |s| != 36 || s[8] != '-' || s[13] != '-' || s[18] != '-' || s[23] != '-' then None
    else
      var a, b, c, d, e := Unhex(s[..8]), Unhex(s[9..13]), Unhex(s[14..18]), Unhex(s[19..23]), Unhex(s[24..]);
      if a.None? || b.None? || c.None? || d.None? || e.None? then None
      else Some(a.value + b.value + c.value + d.value + e.value)
  }

  lemma GroupsOfText(a: string, b: string, c: string, d: string, e: string)
    requires |a| == 8 && |b| == |c| == |d| == 4 && |e| == 12
    ensures var s := a + "-" + b + "-" + c + "-" + d + "-" + e;
            && s[8] == s[13] == s[18] == s[23] == '-'
            && s[..8] == a && s[9..13] == b && s[14..18] == c && s[19..23] == d && s[24..] == e
  {
  }

  lemma ParseJoined(a: string, b: string, c: string, d: string, e: string, v: seq<nat>,
                    va: seq<nat>, vb: seq<nat>, vc: seq<nat>, vd: seq<nat>, ve: seq<nat>)
    requires |a| == 8 && |b| == |c| == |d| == 4 && |e| == 12
    requires Unhex(a) == Some(va) && Unhex(b) == Some(vb) && Unhex(c) == Some(vc)
    requires Unhex(d) == Some(vd) && Unhex(e) == Some(ve) && v == va + vb + vc + vd + ve
    ensures ParseId(a + "-" + b + "-" + c + "-" + d + "-" + e) == Some(v)
  {
    GroupsOfText(a, b, c, d, e);
  }

  lemma IdRoundTrip(id: seq<nat>)
    requires ValidId(id)
    ensures ParseId(FormatId(id)) == Some(id)
  {
    var a, b, c, d, e := id[..4], id[4..6], id[6..8], id[8..10], id[10..];
    assert id == a + b + c + d + e;
    UnhexHex(a);
    UnhexHex(b);
    UnhexHex(c);
    UnhexHex(d);
    UnhexHex(e);
    ParseJoined(Hex(a), Hex(b), Hex(c), Hex(d), Hex(e), id, a, b, c, d, e);
  }

  // ---- the cursor ----

  predicate Narrow(s: string) {
    forall i :: 0 <= i < |s| ==> s[i] as nat < 256
  }

  function ToBytes(s: string): (b: seq<nat>)
    requires Narrow(s)
    ensures Base64.Bytes(b)
  {
    seq(|s|, i requires 0 <= i < |s| => s[i] as nat)
  }

  function ToText(b: seq<nat>): string
    requires Base64.Bytes(b)
  {
    seq(|b|, i requires 0 <= i < |b| => b[i] as char)
  }

  /** The position of the first bar, or the length if there is none. */
  function FirstBar(s: string): (n: nat)
    ensures n <= |s| && (n < |s| ==> s[n] == '|')
  {
    if s == "" || s[0] == '|' then 0 else 1 + FirstBar(s[1..])
  }

  /** Characters a timestamp or a UUID is written with. */
  predicate Plain(s: string) {
    forall i :: 0 <= i < |s| ==> Digit(s[i]) || 'a' <= s[i] <= 'f' || s[i] in {'-', ':', 'T', 'Z', '+', '.'}
  }

  lemma {:induction false} HexIsPlain(b: seq<nat>)
    requires Base64.Bytes(b)
    ensures Plain(Hex(b))
  {
    if b != [] {
      HexIsPlain(b[1..]);
    }
  }

  lemma TimeIsPlain(t: Timestamp)
    requires ValidTime(t)
    ensures Plain(FormatTime(t))
  {
    TrimKeepsValue(Pad(t.nanos, 9));
  }

  lemma IdIsPlain(id: seq<nat>)
    requires ValidId(id)
    ensures Plain(FormatId(id))
  {
    HexIsPlain(id[..4]);
    HexIsPlain(id[4..6]);
    HexIsPlain(id[6..8]);
    HexIsPlain(id[8..10]);
    HexIsPlain(id[10..]);
  }

  function Raw(c: PageCursor): (s: string)
    requires Valid(c)
    ensures Narrow(s)
  {
    TimeIsPlain(c.placedAt);
    IdIsPlain(c.id);
    FormatTime(c.placedAt) + "|" + FormatId(c.id)
  }

  function EncodeCursor(c: PageCursor): string
    requires Valid(c)
  {
    Base64.Encode(ToBytes(Raw(c)))
  }

  datatype Malformed = Malformed

  function ParseRaw(raw: string): Result<PageCursor, Malformed> {
    var bar := FirstBar(raw);
    if bar == |raw| then Err(Malformed)
    else
      var placedAt, id := ParseTime(raw[..bar]), ParseId(raw[bar + 1..]);
      if placedAt.None? || id.None? then Err(Malformed) else Ok(PageCursor(placedAt.value, id.value))
  }

  /** No cursor for the empty string: the first page. */
  function DecodeCursor(s: string): Result<Option<PageCursor>, Malformed> {
    if s == "" then Ok(None)
    else
      var bytes := Base64.Decode(s);
      if bytes.None? then Err(Malformed)
      else
        DecodedAreBytes(s);
        var parsed := ParseRaw(ToText(bytes.value));
        if parsed.Err? then Err(Malformed) else Ok(Some(parsed.value))
  }

  lemma {:induction false} RegroupedAreBytes(v: seq<nat>)
    requires forall i :: 0 <= i < |v| ==> v[i] < 64
    ensures Base64.Regroup(v).Some? ==> Base64.Bytes(Base64.Regroup(v).value)
    decreases |v|
  {
    if |v| >= 4 {
      RegroupedAreBytes(v[4..]);
    }
  }

  lemma DecodedAreBytes(s: string)
    ensures Base64.Decode(s).Some? ==> Base64.Bytes(Base64.Decode(s).value)
  {
    Base64.SextetsInRange(s);
    if Base64.Sextets(s).Some? {
      RegroupedAreBytes(Base64.Sextets(s).value);
    }
  }

  lemma {:induction false} FirstBarAfter(before: string, after: string)
    requires forall i :: 0 <= i < |before| ==> before[i] != '|'
    ensures FirstBar(before + "|" + after) == |before|
  {
    var s := before + "|" + after;
    if before != "" {
      assert s[1..] == before[1..] + "|" + after;
      FirstBarAfter(before[1..], after);
    }
  }

  lemma ParseRawOf(c: PageCursor)
    requires Valid(c)
    ensures ParseRaw(Raw(c)) == Ok(c)
  {
    var time, id := FormatTime(c.placedAt), FormatId(c.id);
    TimeIsPlain(c.placedAt);
    IdIsPlain(c.id);
    FirstBarAfter(time, id);
    assert Raw(c)[..|time|] == time;
    assert Raw(c)[|time| + 1..] == id;
    TimeRoundTrip(c.placedAt);
    IdRoundTrip(c.id);
  }

  lemma TextOfBytes(s: string)
    requires Narrow(s)
    ensures ToText(ToBytes(s)) == s
  {
  }

  /** Decoding an encoded cursor gives the cursor back. */
  lemma CursorRoundTrip(c: PageCursor)
    requires Valid(c)
    ensures EncodeCursor(c) != ""
    ensures DecodeCursor(EncodeCursor(c)) == Ok(Some(c))
  {
    var b := ToBytes(Raw(c));
    Base64.RoundTrip(b);
    TextOfBytes(Raw(c));
    ParseRawOf(c);
    assert |Base64.Groups(b)| > 0;
  }
}
