/**
The IBAN check of the payout form: the structure of ISO 13616 and the checksum of ISO 7064
MOD 97-10.  The remainder is computed digit by digit; here it is the remainder of the number.
*/
module Iban {

  predicate Digit(c: char) {
    '0' <= c <= '9'
  }

  predicate Letter(c: char) {
    'A' <= c <= 'Z'
  }

  predicate Alphanumeric(s: string) {
    forall i :: 0 <= i < |s| ==> Digit(s[i]) || Letter(s[i])
  }

  /**
  Upper case.  Besides a to z only dotless i and long s become ASCII letters; every other
  character outside ASCII stays outside and is refused later.
  */
  function Upper(c: char): char {
    if 'a' <= c <= 'z' then (c as nat - 'a' as nat + 'A' as nat) as char
    else if c == '\U{0131}' then 'I'
    else if c == '\U{017f}' then 'S'
    else c
  }

  /** Without spaces and in upper case. */
  function Normalised(s: string): string {
    if s == "" then ""
    else Normalised(s[..|s| - 1]) + if s[|s| - 1] == ' ' then "" else [Upper(s[|s| - 1])]
  }

  predicate WellFormed(s: string) {
    && 15 <= |s| <= 34
    && Alphanumeric(s) && Letter(s[0]) && Letter(s[1])
  }

  // ---- numbers ----

  function Value(c: char): nat
    requires Digit(c) || Letter(c)
  {
    if Digit(c) then c as nat - '0' as nat else c as nat - 'A' as nat + 10
  }

  function WeightOf(c: char): nat {
    if Letter(c) then 100 else 10
  }

  /** The integer a text stands for when each letter is written as its two digits. */
  function Number(s: string): nat
    requires Alphanumeric(s)
  {
    if s == "" then 0 else Number(s[..|s| - 1]) * WeightOf(s[|s| - 1]) + Value(s[|s| - 1])
  }

  function Rearranged(s: string): string
    requires |s| >= 4
  {
    s[4..] + s[..4]
  }

  /** What an IBAN is: well-formed, and its rearranged number is 1 modulo 97. */
  predicate Accepted(s: string) {
    WellFormed(s) && Number(Rearranged(s)) % 97 == 1
  }

  // ---- the code ----

  method Normalise(s: string) returns (n: string)
    ensures n == Normalised(s)
  {
    n := "";
    for i := 0 to |s|
      invariant n == Normalised(s[..i])
    {
      assert s[..i + 1][..i] == s[..i];
      if s[i] != ' ' {
        n := n + [Upper(s[i])];
      }
    }
    assert s[..|s|] == s;
  }

  predicate AllDigits(s: string) {
    forall i :: 0 <= i < |s| ==> Digit(s[i])
  }

  /** The digit loop equals the big integer modulo 97. */
  method Mod97(numeric: string) returns (remainder: nat)
    requires AllDigits(numeric)
    ensures AllDigits(numeric) && remainder == Number(numeric) % 97
  {
    remainder := 0;
    for i := 0 to |numeric|
      invariant remainder == Number(numeric[..i]) % 97
    {
      assert numeric[..i + 1][..i] == numeric[..i];
      StepMod(Number(numeric[..i]), Value(numeric[i]));
      remainder := (remainder * 10 + (numeric[i] as nat - '0' as nat)) % 97;
    }
    assert numeric[..|numeric|] == numeric;
  }

  lemma StepMod(n: nat, d: nat)
    ensures (n % 97 * 10 + d) % 97 == (n * 10 + d) % 97
  {
    assert n == n / 97 * 97 + n % 97;
    assert n * 10 + d == n / 97 * 10 * 97 + (n % 97 * 10 + d);
    AddMultiple(n / 97 * 10, n % 97 * 10 + d);
  }

  lemma AddMultiple(k: int, x: int)
    ensures (k * 97 + x) % 97 == x % 97
  {
  }

  /** Letters become two digits. */
  method Expand(s: string) returns (numeric: string)
    requires Alphanumeric(s)
    ensures AllDigits(numeric) && Number(numeric) == Number(s)
  {
    numeric := "";
    for i := 0 to |s|
      invariant AllDigits(numeric) && Number(numeric) == Number(s[..i])
    {
      assert s[..i + 1][..i] == s[..i];
      if Letter(s[i]) {
        var v := Value(s[i]);
        AppendDigits(numeric, '0' + (v / 10) as char, '0' + (v % 10) as char);
        numeric := numeric + ['0' + (v / 10) as char, '0' + (v % 10) as char];
      } else {
        AppendDigit(numeric, s[i]);
        numeric := numeric + [s[i]];
      }
    }
    assert s[..|s|] == s;
  }

  lemma AppendDigit(numeric: string, d: char)
    requires AllDigits(numeric) && Digit(d)
    ensures AllDigits(numeric + [d]) && Number(numeric + [d]) == Number(numeric) * 10 + Value(d)
  {
    assert (numeric + [d])[..|numeric|] == numeric;
  }

  lemma AppendDigits(numeric: string, d: char, e: char)
    requires AllDigits(numeric) && Digit(d) && Digit(e)
    ensures AllDigits(numeric + [d, e]) && Number(numeric + [d, e]) == Number(numeric) * 100 + Value(d) * 10 + Value(e)
  {
    AppendDigit(numeric, d);
    AppendDigit(numeric + [d], e);
    assert numeric + [d, e] == numeric + [d] + [e];
  }

  method HasStructure(iban: string) returns (ok: bool)
    ensures ok == WellFormed(iban)
  {
    if |iban| < 15 || |iban| > 34 {
      return false;
    }
    for i := 0 to |iban|
      invariant forall j :: 0 <= j < i ==> if j < 2 then Letter(iban[j]) else Digit(iban[j]) || Letter(iban[j])
    {
      if i < 2 {
        if iban[i] < 'A' || iban[i] > 'Z' {
          return false;
        }
        continue;
      }
      if (iban[i] < '0' || iban[i] > '9') && (iban[i] < 'A' || iban[i] > 'Z') {
        return false;
      }
    }
    return true;
  }

  /** The validator accepts exactly the texts that are IBANs once normalised. */
  method IsIban(s: string) returns (ok: bool)
    ensures ok == Accepted(Normalised(s))
  {
    var iban := Normalise(s);
    var structured := HasStructure(iban);
    if !structured {
      return false;
    }
    var rearranged := iban[4..] + iban[..4];
    var numeric := Expand(rearranged);
    var remainder := Mod97(numeric);
    return remainder == 1;
  }

  // ---- what the checksum detects ----

  lemma NumberNext(s: string, c: char)
    requires Alphanumeric(s) && (Digit(c) || Letter(c))
    ensures Alphanumeric(s + [c]) && Number(s + [c]) == Number(s) * WeightOf(c) + Value(c)
  {
    assert (s + [c])[..|s|] == s;
  }

  /** Multiplying by ten loses nothing modulo 97: 68 is an inverse of 10. */
  lemma TenIsInvertible(x: int)
    requires x * 10 % 97 == 0
    ensures x % 97 == 0
  {
    var m := x * 10 / 97;
    assert x * 10 == 97 * m;
    assert x == 97 * (68 * m - 7 * x);
    MultipleOf(68 * m - 7 * x);
  }

  lemma MultipleOf(k: int)
    ensures 97 * k % 97 == 0
  {
  }

  lemma EqualRemainders(a: int, b: int)
    ensures a % 97 == b % 97 <==> (a - b) % 97 == 0
  {
  }

  /** Different remainders stay different when the same digit, or the same letter, follows. */
  lemma StepDiffers(a: int, b: int, c: char)
    requires (Digit(c) || Letter(c)) && a % 97 != b % 97
    ensures (a * WeightOf(c) + Value(c)) % 97 != (b * WeightOf(c) + Value(c)) % 97
  {
    EqualRemainders(a, b);
    EqualRemainders(a * WeightOf(c) + Value(c), b * WeightOf(c) + Value(c));
    if (a * WeightOf(c) + Value(c)) % 97 == (b * WeightOf(c) + Value(c)) % 97 {
      if Letter(c) {
        TenIsInvertible((a - b) * 10);
      }
      TenIsInvertible(a - b);
    }
  }

  lemma {:induction false} SuffixKeepsDifference(u: string, v: string, after: string)
    requires Alphanumeric(u) && Alphanumeric(v) && Alphanumeric(after)
    requires Number(u) % 97 != Number(v) % 97
    ensures Alphanumeric(u + after) && Alphanumeric(v + after)
    ensures Number(u + after) % 97 != Number(v + after) % 97
  {
    if after == "" {
      assert u + after == u && v + after == v;
    } else {
      var n := |after| - 1;
      SuffixKeepsDifference(u, v, after[..n]);
      assert u + after == u + after[..n] + [after[n]];
      assert v + after == v + after[..n] + [after[n]];
      NumberNext(u + after[..n], after[n]);
      NumberNext(v + after[..n], after[n]);
      StepDiffers(Number(u + after[..n]), Number(v + after[..n]), after[n]);
    }
  }

  predicate SameClass(c: char, d: char) {
    (Digit(c) && Digit(d)) || (Letter(c) && Letter(d))
  }

  lemma OtherCharacter(before: string, c: char, d: char)
    requires Alphanumeric(before) && SameClass(c, d) && c != d
    ensures Alphanumeric(before + [c]) && Alphanumeric(before + [d])
    ensures Number(before + [c]) % 97 != Number(before + [d]) % 97
  {
    NumberNext(before, c);
    NumberNext(before, d);
    EqualRemainders(Number(before + [c]), Number(before + [d]));
  }

  lemma NumberNextTwo(before: string, c: char, d: char)
    requires Alphanumeric(before) && SameClass(c, d)
    ensures Alphanumeric(before + [c, d])
    ensures Number(before + [c, d]) == (Number(before) * WeightOf(c) + Value(c)) * WeightOf(c) + Value(d)
  {
    assert before + [c, d] == before + [c] + [d];
    NumberNext(before, c);
    NumberNext(before + [c], d);
  }

  lemma SmallMultiples(d: int)
    requires -36 < d < 36 && d != 0
    ensures 9 * d % 97 != 0 && 99 * d % 97 != 0
  {
  }

  lemma SwappedDigits(n: nat, a: nat, b: nat)
    requires a < 36 && b < 36 && a != b
    ensures ((n * 10 + a) * 10 + b) % 97 != ((n * 10 + b) * 10 + a) % 97
  {
    EqualRemainders((n * 10 + a) * 10 + b, (n * 10 + b) * 10 + a);
    SmallMultiples(a - b);
  }

  lemma SwappedLetters(n: nat, a: nat, b: nat)
    requires a < 36 && b < 36 && a != b
    ensures ((n * 100 + a) * 100 + b) % 97 != ((n * 100 + b) * 100 + a) % 97
  {
    EqualRemainders((n * 100 + a) * 100 + b, (n * 100 + b) * 100 + a);
    SmallMultiples(a - b);
  }

  lemma SwappedCharacters(before: string, c: char, d: char)
    requires Alphanumeric(before) && SameClass(c, d) && c != d
    ensures Alphanumeric(before + [c, d]) && Alphanumeric(before + [d, c])
    ensures Number(before + [c, d]) % 97 != Number(before + [d, c]) % 97
  {
    NumberNextTwo(before, c, d);
    NumberNextTwo(before, d, c);
    SwappedDigits(Number(before), Value(c), Value(d));
    SwappedLetters(Number(before), Value(c), Value(d));
  }

  /** The text before a block once rearranged, and the text after it. */
  function Before(s: string, i: nat): string
    requires 4 <= |s| && i <= |s|
  {
    if i >= 4 then s[4..i] else s[4..] + s[..i]
  }

  function After(s: string, i: nat, n: nat): string
    requires 4 <= |s| && i + n <= |s| && (i + n <= 4 || i >= 4)
  {
    if i >= 4 then s[i + n..] + s[..4] else s[i + n..4]
  }

  lemma BlockAfterFour(a: string, x: string, c: string)
    requires |a| >= 4
    ensures Rearranged(a + x + c) == a[4..] + x + (c + a[..4])
  {
    var t := a + x + c;
    assert t[4..] == a[4..] + x + c;
    assert t[..4] == a[..4];
  }

  lemma BlockWithinFour(a: string, x: string, c: string)
    requires |a| + |x| <= 4 <= |a| + |x| + |c|
    ensures Rearranged(a + x + c) == c[4 - |a| - |x|..] + a + x + c[..4 - |a| - |x|]
  {
    var t := a + x + c;
    assert t[4..] == c[4 - |a| - |x|..];
    assert t[..4] == a + x + c[..4 - |a| - |x|];
  }

  /** The same block at the same place of two rearranged texts. */
  lemma RearrangedBlock(s: string, i: nat, x: string)
    requires |s| >= 4 && i + |x| <= |s| && (i + |x| <= 4 || i >= 4)
    ensures |s[..i] + x + s[i + |x|..]| == |s|
    ensures Rearranged(s[..i] + x + s[i + |x|..])
         == Before(s, i) + x + After(s, i, |x|)
  {
    if i >= 4 {
      BlockAfterFour(s[..i], x, s[i + |x|..]);
      assert s[..i][4..] == s[4..i] && s[..i][..4] == s[..4];
    } else {
      BlockWithinFour(s[..i], x, s[i + |x|..]);
      assert s[i + |x|..][4 - i - |x|..] == s[4..] && s[i + |x|..][..4 - i - |x|] == s[i + |x|..4];
    }
  }

  lemma OwnBlock(s: string, i: nat, x: string)
    requires |s| >= 4 && i + |x| <= |s| && (i + |x| <= 4 || i >= 4) && Alphanumeric(s) && s[i..i + |x|] == x
    ensures Rearranged(s) == Before(s, i) + x + After(s, i, |x|)
    ensures Alphanumeric(After(s, i, |x|))
  {
    assert s == s[..i] + x + s[i + |x|..];
    RearrangedBlock(s, i, x);
  }

  lemma OtherMiddle(s: string, t: string, before: string, x: string, y: string, after: string)
    requires Accepted(s) && |t| >= 4
    requires Rearranged(s) == before + x + after && Rearranged(t) == before + y + after
    requires Alphanumeric(before + x) && Alphanumeric(before + y) && Alphanumeric(after)
    requires Number(before + x) % 97 != Number(before + y) % 97
    ensures !Accepted(t)
  {
    SuffixKeepsDifference(before + x, before + y, after);
  }

  /** A change of one block is detected if it changes the remainder of the text up to the block. */
  lemma BlockDetected(s: string, i: nat, x: string, y: string)
    requires Accepted(s) && |x| == |y| && i + |x| <= |s| && (i + |x| <= 4 || i >= 4)
    requires s[i..i + |x|] == x && Alphanumeric(x) && Alphanumeric(y)
    requires Alphanumeric(Before(s, i) + x) && Alphanumeric(Before(s, i) + y)
    requires Number(Before(s, i) + x) % 97 != Number(Before(s, i) + y) % 97
    ensures !Accepted(s[..i] + y + s[i + |x|..])
  {
    OwnBlock(s, i, x);
    RearrangedBlock(s, i, y);
    OtherMiddle(s, s[..i] + y + s[i + |x|..], Before(s, i), x, y, After(s, i, |x|));
  }

  /** Replacing one digit by another digit, or one letter by another letter, is always detected. */
  lemma OneCharacterDetected(s: string, i: nat, c: char)
    requires Accepted(s) && i < |s| && SameClass(s[i], c) && c != s[i]
    ensures !Accepted(s[i := c])
  {
    assert s[i := c] == s[..i] + [c] + s[i + 1..];
    OtherCharacter(Before(s, i), s[i], c);
    BlockDetected(s, i, [s[i]], [c]);
  }

  /**
  Swapping two unequal neighbours of the same kind, on the same side of the four-character
  split, is always detected.
  */
  lemma SwapDetected(s: string, i: nat)
    requires Accepted(s) && i + 1 < |s| && (i + 2 <= 4 || i >= 4)
    requires SameClass(s[i], s[i + 1]) && s[i] != s[i + 1]
    ensures !Accepted(s[i := s[i + 1]][i + 1 := s[i]])
  {
    var c, d := s[i], s[i + 1];
    assert s[i := d][i + 1 := c] == s[..i] + [d, c] + s[i + 2..];
    assert s[i..i + 2] == [c, d];
    SwappedCharacters(Before(s, i), c, d);
    BlockDetected(s, i, [c, d], [d, c]);
  }

  // ---- the same for texts as typed ----

  lemma {:induction false} NormalisedAppend(a: string, b: string)
    ensures Normalised(a + b) == Normalised(a) + Normalised(b)
  {
    if b == "" {
      assert a + b == a;
    } else {
      var n := |b| - 1;
      assert (a + b)[..|a| + n] == a + b[..n];
      NormalisedAppend(a, b[..n]);
    }
  }

  lemma NormalisedOne(c: char)
    ensures Normalised([c]) == if c == ' ' then "" else [Upper(c)]
  {
    assert [c][..0] == "";
    assert Normalised([c][..0]) == "";
  }

  lemma NormalisedThree(before: string, c: char, after: string)
    requires c != ' '
    ensures Normalised(before + [c] + after) == Normalised(before) + [Upper(c)] + Normalised(after)
  {
    NormalisedAppend(before + [c], after);
    NormalisedAppend(before, [c]);
    NormalisedOne(c);
  }

  /** Spaces anywhere do not matter, nor does writing a letter in lower case. */
  lemma SpacesAndCase(a: string, b: string, c: char)
    requires 'a' <= c <= 'z'
    ensures Normalised(a + " " + b) == Normalised(a + b)
    ensures Normalised(a + [c] + b) == Normalised(a + [c - ' '] + b)
  {
    NormalisedAppend(a + " ", b);
    NormalisedAppend(a, " ");
    NormalisedAppend(a, b);
    NormalisedOne(' ');
    NormalisedThree(a, c, b);
    NormalisedThree(a, c - ' ', b);
  }

  /** Mistyping one character of an accepted text, spaces and case aside, is detected. */
  lemma MistypedCharacterDetected(s: string, p: nat, c: char)
    requires Accepted(Normalised(s)) && p < |s| && s[p] != ' ' && c != ' '
    requires SameClass(Upper(s[p]), Upper(c)) && Upper(c) != Upper(s[p])
    ensures !Accepted(Normalised(s[p := c]))
  {
    var before, after := s[..p], s[p + 1..];
    assert s == before + [s[p]] + after && s[p := c] == before + [c] + after;
    NormalisedThree(before, s[p], after);
    NormalisedThree(before, c, after);
    ReplacedOne(Normalised(before), Upper(s[p]), Upper(c), Normalised(after));
  }

  lemma ReplacedOne(before: string, c: char, d: char, after: string)
    requires Accepted(before + [c] + after) && SameClass(c, d) && c != d
    ensures !Accepted(before + [d] + after)
  {
    assert before + [d] + after == (before + [c] + after)[|before| := d];
    OneCharacterDetected(before + [c] + after, |before|, d);
  }

  // ---- a known number ----

  lemma FourDigits(s: string, a: char, b: char, c: char, d: char)
    requires Alphanumeric(s) && Digit(a) && Digit(b) && Digit(c) && Digit(d)
    ensures Alphanumeric(s + [a, b, c, d])
    ensures Number(s + [a, b, c, d]) == Number(s) * 10_000 + Value(a) * 1000 + Value(b) * 100 + Value(c) * 10 + Value(d)
  {
    NumberNextTwo(s, a, b);
    NumberNextTwo(s + [a, b], c, d);
    assert s + [a, b, c, d] == s + [a, b] + [c, d];
  }

  lemma AccountDigits()
    ensures Alphanumeric("3704" + "0044" + "0532" + "0130")
    ensures Number("3704" + "0044" + "0532" + "0130") == 3704_0044_0532_0130
  {
    FourDigits("", '3', '7', '0', '4');
    assert "" + "3704" == "3704";
    FourDigits("3704", '0', '0', '4', '4');
    FourDigits("3704" + "0044", '0', '5', '3', '2');
    FourDigits("3704" + "0044" + "0532", '0', '1', '3', '0');
  }

  lemma CountryAndCheck(account: string)
    requires Alphanumeric(account) && Number(account) == 3704_0044_0532_0130
    ensures Alphanumeric(account + "00" + "DE" + "89")
    ensures Number(account + "00" + "DE" + "89") == 3704_0044_0532_0130_00_1314_89
  {
    NumberNextTwo(account, '0', '0');
    NumberNextTwo(account + "00", 'D', 'E');
    NumberNextTwo(account + "00" + "DE", '8', '9');
  }

  /** The number of DE89 3704 0044 0532 0130 00: its letters stand for 13 and 14. */
  lemma KnownIban(account: string)
    requires account == "3704" + "0044" + "0532" + "0130"
    ensures var s := "DE" + "89" + account + "00";
            && Alphanumeric(Rearranged(s))
            && Number(Rearranged(s)) == 3704_0044_0532_0130_00_1314_89
            && Accepted(s)
  {
    var s := "DE" + "89" + account + "00";
    AccountDigits();
    CountryAndCheck(account);
    assert Rearranged(s) == account + "00" + "DE" + "89";
  }
}
