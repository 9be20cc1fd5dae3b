/** Base64 with the URL-safe alphabet and no padding (section 5 of RFC 4648). */
module Base64 {
  import opened Wrappers

  predicate Bytes(b: seq<nat>) {
    forall i :: 0 <= i < |b| ==> b[i] < 256
  }

  function Letter(v: nat): char
    requires v < 64
  {
    if v < 26 then 'A' + v as char
    else if v < 52 then 'a' + (v - 26) as char
    else if v < 62 then '0' + (v - 52) as char
    else if v == 62 then '-'
    else '_'
  }

  function Sextet(c: char): Option<nat> {
    if 'A' <= c <= 'Z' then Some(c as nat - 'A' as nat)
    else if 'a' <= c <= 'z' then Some(c as nat - 'a' as nat + 26)
    else if '0' <= c <= '9' then Some(c as nat - '0' as nat + 52)
    else if c == '-' then Some(62)
    else if c == '_' then Some(63)
    else None
  }

  lemma SextetOfLetter(v: nat)
    requires v < 64
    ensures Sextet(Letter(v)) == Some(v)
  {
  }

  /** The six-bit groups: four for three bytes, two or three for what is left over. */
  function Groups(b: seq<nat>): (v: seq<nat>)
    requires Bytes(b)
    ensures forall i :: 0 <= i < |v| ==> v[i] < 64
    ensures |v| == (|b| * 4 + 2) / 3
  {
    if |b| == 0 then []
    else if |b| == 1 then [b[0] / 4, b[0] % 4 * 16]
    else if |b| == 2 then [b[0] / 4, b[0] % 4 * 16 + b[1] / 16, b[1] % 16 * 4]
    else Quad(b[0], b[1], b[2]) + Groups(b[3..])
  }

  function Quad(x: nat, y: nat, z: nat): (v: seq<nat>)
    requires x < 256 && y < 256 && z < 256
    ensures |v| == 4 && forall i :: 0 <= i < 4 ==> v[i] < 64
  {
    [x / 4, x % 4 * 16 + y / 16, y % 16 * 4 + z / 64, z % 64]
  }

  function Letters(v: seq<nat>): string
    requires forall i :: 0 <= i < |v| ==> v[i] < 64
  {
    seq(|v|, i requires 0 <= i < |v| => Letter(v[i]))
  }

  function Encode(b: seq<nat>): string
    requires Bytes(b)
  {
    Letters(Groups(b))
  }

  /** The values of the letters; line breaks are skipped, any other character is an error. */
  function Sextets(s: string): Option<seq<nat>> {
    if s == "" then Some([])
    else if s[0] == '\n' || s[0] == '\r' then Sextets(s[1..])
    else
      var first, rest := Sextet(s[0]), Sextets(s[1..]);
      if first.None? || rest.None? then None else Some([first.value] + rest.value)
  }

  /** The three bytes of four letter values. */
  function Triple(v: seq<nat>): seq<nat>
    requires |v| == 4
  {
    [v[0] * 4 + v[1] / 16, v[1] % 16 * 16 + v[2] / 4, v[2] % 4 * 64 + v[3]]
  }

  /** Bytes from letter values; the bits left over in the last letter are ignored. */
  function Regroup(v: seq<nat>): Option<seq<nat>>
    requires forall i :: 0 <= i < |v| ==> v[i] < 64
  {
    if |v| == 0 then Some([])
    else if |v| == 1 then None
    else if |v| == 2 then Some([v[0] * 4 + v[1] / 16])
    else if |v| == 3 then Some([v[0] * 4 + v[1] / 16, v[1] % 16 * 16 + v[2] / 4])
    else
      var rest := Regroup(v[4..]);
      if rest.None? then None
      else Some([v[0] * 4 + v[1] / 16, v[1] % 16 * 16 + v[2] / 4, v[2] % 4 * 64 + v[3]] + rest.value)
  }

  function Decode(s: string): Option<seq<nat>> {
    SextetsInRange(s);
    var v := Sextets(s);
    if v.None? then None else Regroup(v.value)
  }

  lemma {:induction false} SextetsInRange(s: string)
    ensures Sextets(s).Some? ==> forall i :: 0 <= i < |Sextets(s).value| ==> Sextets(s).value[i] < 64
  {
    if s != "" {
      SextetsInRange(s[1..]);
    }
  }

  lemma {:induction false} SextetsOfLetters(v: seq<nat>)
    requires forall i :: 0 <= i < |v| ==> v[i] < 64
    ensures Sextets(Letters(v)) == Some(v)
  {
    if v != [] {
      SextetOfLetter(v[0]);
      SextetsOfLetters(v[1..]);
      assert Letters(v)[1..] == Letters(v[1..]);
      assert v == [v[0]] + v[1..];
    }
  }

  lemma ThreeBytes(x: nat, y: nat, z: nat)
    requires x < 256 && y < 256 && z < 256
    ensures (x / 4) * 4 + (x % 4 * 16 + y / 16) / 16 == x
    ensures (x % 4 * 16 + y / 16) % 16 * 16 + (y % 16 * 4 + z / 64) / 4 == y
    ensures (y % 16 * 4 + z / 64) % 4 * 64 + z % 64 == z
  {
    assert (x % 4 * 16 + y / 16) / 16 == x % 4;
    assert (x % 4 * 16 + y / 16) % 16 == y / 16;
    assert (y % 16 * 4 + z / 64) / 4 == y % 16;
    assert (y % 16 * 4 + z / 64) % 4 == z / 64;
  }

  lemma RegroupFour(v: seq<nat>, rest: seq<nat>)
    requires |v| == 4 && (forall i :: 0 <= i < |v| ==> v[i] < 64) && forall i :: 0 <= i < |rest| ==> rest[i] < 64
    ensures forall i :: 0 <= i < |v + rest| ==> (v + rest)[i] < 64
    ensures Regroup(v + rest) == if Regroup(rest).Some? then Some(Triple(v) + Regroup(rest).value) else None
  {
    assert (v + rest)[4..] == rest;
  }

  lemma TripleOfQuad(x: nat, y: nat, z: nat)
    requires x < 256 && y < 256 && z < 256
    ensures Triple(Quad(x, y, z)) == [x, y, z]
  {
    ThreeBytes(x, y, z);
  }

  lemma FewBytes(x: nat, y: nat)
    requires x < 256 && y < 256
    ensures x / 4 * 4 + x % 4 * 16 / 16 == x && x / 4 * 4 + (x % 4 * 16 + y / 16) / 16 == x
    ensures (x % 4 * 16 + y / 16) % 16 * 16 + y % 16 * 4 / 4 == y
  {
    assert (x % 4 * 16 + y / 16) / 16 == x % 4;
    assert (x % 4 * 16 + y / 16) % 16 == y / 16;
  }

  lemma RegroupOne(x: nat, v: seq<nat>)
    requires x < 256 && v == [x / 4, x % 4 * 16]
    ensures Regroup(v) == Some([x])
  {
    FewBytes(x, 0);
  }

  lemma RegroupTwo(x: nat, y: nat, v: seq<nat>)
    requires x < 256 && y < 256 && v == [x / 4, x % 4 * 16 + y / 16, y % 16 * 4]
    ensures Regroup(v) == Some([x, y])
  {
    FewBytes(x, y);
  }

  lemma {:induction false} RegroupGroups(b: seq<nat>)
    requires Bytes(b)
    ensures Regroup(Groups(b)) == Some(b)
  {
    if |b| == 1 {
      RegroupOne(b[0], Groups(b));
      assert b == [b[0]];
    } else if |b| == 2 {
      RegroupTwo(b[0], b[1], Groups(b));
      assert b == [b[0], b[1]];
    } else if |b| >= 3 {
      RegroupGroups(b[3..]);
      RegroupFour(Quad(b[0], b[1], b[2]), Groups(b[3..]));
      TripleOfQuad(b[0], b[1], b[2]);
      assert b == [b[0], b[1], b[2]] + b[3..];
    }
  }

  lemma QuadBits(x: nat, y: nat, z: nat)
    requires x < 256 && y < 256 && z < 256
    ensures var q := Quad(x, y, z); (x * 256 + y) * 256 + z == ((q[0] * 64 + q[1]) * 64 + q[2]) * 64 + q[3]
  {
  }

  lemma LastBits(x: nat, y: nat)
    requires x < 256 && y < 256
    ensures x * 16 == x / 4 * 64 + x % 4 * 16
    ensures (x * 256 + y) * 4 == (x / 4 * 64 + (x % 4 * 16 + y / 16)) * 64 + y % 16 * 4
  {
  }

  /** Three bytes and their four letters are the same 24 bits, most significant first. */
  lemma {:induction false} SameBits(b: seq<nat>, k: nat)
    requires Bytes(b) && 3 * k + 2 < |b|
    ensures 4 * k + 3 < |Groups(b)|
    ensures (b[3 * k] * 256 + b[3 * k + 1]) * 256 + b[3 * k + 2]
         == ((Groups(b)[4 * k] * 64 + Groups(b)[4 * k + 1]) * 64 + Groups(b)[4 * k + 2]) * 64 + Groups(b)[4 * k + 3]
  {
    var v, w := Groups(b), Groups(b[3..]);
    assert v == Quad(b[0], b[1], b[2]) + w;
    if k > 0 {
      SameBits(b[3..], k - 1);
      var i := 4 * k;
      assert v[i] == w[i - 4] && v[i + 1] == w[i - 3] && v[i + 2] == w[i - 2] && v[i + 3] == w[i - 1];
    } else {
      QuadBits(b[0], b[1], b[2]);
    }
  }

  /** The last one or two bytes and their letters are the same bits; the missing low bits are zero. */
  ghost predicate EndBits(b: seq<nat>, v: seq<nat>)
    requires |v| == (|b| * 4 + 2) / 3
  {
    && (|b| % 3 == 1 ==> b[|b| - 1] * 16 == v[|v| - 2] * 64 + v[|v| - 1])
    && (|b| % 3 == 2 ==>
          (b[|b| - 2] * 256 + b[|b| - 1]) * 4 == (v[|v| - 3] * 64 + v[|v| - 2]) * 64 + v[|v| - 1])
  }

  lemma EndBitsAfter(b: seq<nat>, quad: seq<nat>, w: seq<nat>)
    requires |b| >= 3 && |quad| == 4 && |w| == (|b[3..]| * 4 + 2) / 3 && EndBits(b[3..], w)
    ensures EndBits(b, quad + w)
  {
  }

  /** One or two bytes left over. */
  lemma {:induction false} SameBitsAtEnd(b: seq<nat>)
    requires Bytes(b)
    ensures EndBits(b, Groups(b))
  {
    if |b| >= 3 {
      SameBitsAtEnd(b[3..]);
      EndBitsAfter(b, Quad(b[0], b[1], b[2]), Groups(b[3..]));
    } else if |b| > 0 {
      LastBits(b[0], if |b| == 2 then b[1] else 0);
    }
  }

  /** "foob" of section 10 of RFC 4648, without padding, and the letters of the URL-safe alphabet. */
  lemma KnownEncodings(foob: seq<nat>, high: seq<nat>)
    requires foob == [102, 111, 111, 98] && high == [248, 15, 191]
    ensures Encode(foob) == "Zm9vYg"
    ensures Encode(high) == "-A-_"
  {
    assert Groups(foob[3..]) == [24, 32];
    assert Groups(foob) == [25, 38, 61, 47, 24, 32];
    assert Groups(high[3..]) == [];
    assert Groups(high) == [62, 0, 62, 63];
  }

  /** Decoding an encoding gives the bytes back. */
  lemma RoundTrip(b: seq<nat>)
    requires Bytes(b)
    ensures Decode(Encode(b)) == Some(b)
  {
    SextetsOfLetters(Groups(b));
    RegroupGroups(b);
  }
}
