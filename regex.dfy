/**
 * The fragment of JavaScript regular expressions the DTOs use, with anchored (`^…$`) matching,
 * and the Vietnamese mobile-number pattern written in it.
 */
module Regex {

  /** One entry of a bracket class: a single character or a range `lo-hi`. */
  datatype ClassItem = Single(c: char) | Range(lo: char, hi: char)

  datatype Regex =
    | Lit(text: string)              // literal characters (escaped ones included)
    | Class(items: seq<ClassItem>)   // `[…]`
    | Cat(left: Regex, right: Regex) // concatenation
    | Alt(left: Regex, right: Regex) // `a|b`
    | Count(body: Regex, n: nat)     // `r{n}`

  predicate ItemHas(item: ClassItem, c: char) {
    match item
    case Single(d) => c == d
    case Range(lo, hi) => lo <= c <= hi
  }

  predicate ClassHas(items: seq<ClassItem>, c: char) {
    |items| > 0 && (ItemHas(items[0], c) || ClassHas(items[1..], c))
  }

  /** `s` as a whole matches `r`. */
  predicate FullMatch(r: Regex, s: string)
    decreases r, 0
  {
    match r
    case Lit(t) => s == t
    case Class(items) => |s| == 1 && ClassHas(items, s[0])
    case Cat(a, b) => exists k :: 0 <= k <= |s| && FullMatch(a, s[..k]) && FullMatch(b, s[k..])
    case Alt(a, b) => FullMatch(a, s) || FullMatch(b, s)
    case Count(a, n) => FullMatchN(a, n, s)
  }

  /** `s` is `n` consecutive matches of `r`. */
  predicate FullMatchN(r: Regex, n: nat, s: string)
    decreases r, n + 1
  {
    if n == 0 then s == []
    else exists k :: 0 <= k <= |s| && FullMatch(r, s[..k]) && FullMatchN(r, n - 1, s[k..])
  }

  const Digit := Class([Range('0', '9')])

  /** `(3[2-9]|5[6|8|9]|7[0|6-9]|8[1-9]|9[0-9])`: inside brackets `|` is an ordinary character. */
  const Carrier :=
    Alt(Cat(Lit("3"), Class([Range('2', '9')])),
    Alt(Cat(Lit("5"), Class([Single('6'), Single('|'), Single('8'), Single('|'), Single('9')])),
    Alt(Cat(Lit("7"), Class([Single('0'), Single('|'), Range('6', '9')])),
    Alt(Cat(Lit("8"), Class([Range('1', '9')])),
        Cat(Lit("9"), Digit)))))

  /** `^(0|\+84)(3[2-9]|5[6|8|9]|7[0|6-9]|8[1-9]|9[0-9])[0-9]{7}$`. */
  const PhonePattern := Cat(Alt(Lit("0"), Lit("+84")), Cat(Carrier, Count(Digit, 7)))

  predicate IsDigit(c: char) {
    '0' <= c <= '9'
  }

  predicate AllDigits(s: string) {
    forall i :: 0 <= i < |s| ==> IsDigit(s[i])
  }

  /** The two-character carrier codes the pattern admits, the literal `|` included. */
  predicate IsCarrier(a: char, b: char) {
    || (a == '3' && '2' <= b <= '9')
    || (a == '5' && (b == '6' || b == '8' || b == '9' || b == '|'))
    || (a == '7' && (b == '0' || b == '|' || '6' <= b <= '9'))
    || (a == '8' && '1' <= b <= '9')
    || (a == '9' && IsDigit(b))
  }

  /** A mobile number: `0` or `+84`, a carrier code, then exactly seven digits, and nothing else. */
  predicate IsVnMobile(s: string) {
    || (|s| == 10 && s[0] == '0' && IsCarrier(s[1], s[2]) && AllDigits(s[3..]))
    || (|s| == 12 && s[..3] == "+84" && IsCarrier(s[3], s[4]) && AllDigits(s[5..]))
  }

  /** Membership in a bracket class, one item at a time. */
  lemma {:induction false} ClassHasIff(items: seq<ClassItem>, c: char)
    ensures ClassHas(items, c) <==> exists i :: 0 <= i < |items| && ItemHas(items[i], c)
  {
    if |items| > 0 {
      ClassHasIff(items[1..], c);
      if ClassHas(items[1..], c) {
        var i :| 0 <= i < |items[1..]| && ItemHas(items[1..][i], c);
        assert ItemHas(items[i + 1], c);
      }
      if exists i :: 0 <= i < |items| && ItemHas(items[i], c) {
        var i :| 0 <= i < |items| && ItemHas(items[i], c);
        if i > 0 { assert ItemHas(items[1..][i - 1], c); }
      }
    }
  }
  /** `[6|8|9]` holds 6, 8, 9 and the character `|`. */
  lemma FiveHas(c: char)
    ensures ClassHas([Single('6'), Single('|'), Single('8'), Single('|'), Single('9')], c) <==> c == '6' || c == '8' || c == '9' || c == '|'
  {
    var items := [Single('6'), Single('|'), Single('8'), Single('|'), Single('9')];
    ClassHasIff(items, c);
    if c == '6' { assert ItemHas(items[0], c); }
    if c == '|' { assert ItemHas(items[1], c); }
    if c == '8' { assert ItemHas(items[2], c); }
    if c == '9' { assert ItemHas(items[4], c); }
  }
  /** `[0|6-9]` holds 0, 6 to 9 and the character `|`. */
  lemma SevenHas(c: char)
    ensures ClassHas([Single('0'), Single('|'), Range('6', '9')], c) <==> c == '0' || c == '|' || '6' <= c <= '9'
  {
    var items := [Single('0'), Single('|'), Range('6', '9')];
    ClassHasIff(items, c);
    if c == '0' { assert ItemHas(items[0], c); }
    if c == '|' { assert ItemHas(items[1], c); }
    if '6' <= c <= '9' { assert ItemHas(items[2], c); }
  }
  /** A one-range class holds exactly the characters in the range. */
  lemma RangeHas(lo: char, hi: char, c: char)
    ensures ClassHas([Range(lo, hi)], c) <==> lo <= c <= hi
  {
    assert [Range(lo, hi)][1..] == [];
  }

  /** `[0-9]{n}` matches exactly the strings of `n` digits. */
  lemma {:induction false} DigitsIff(n: nat, s: string)
    ensures FullMatchN(Digit, n, s) <==> |s| == n && AllDigits(s)
  {
    if n > 0 {
      if FullMatchN(Digit, n, s) {
        var k :| 0 <= k <= |s| && FullMatch(Digit, s[..k]) && FullMatchN(Digit, n - 1, s[k..]);
        assert k == 1 && s[..k][0] == s[0];
        RangeHas('0', '9', s[0]);
        DigitsIff(n - 1, s[1..]);
        forall i | 0 <= i < |s| ensures IsDigit(s[i]) {
          if i > 0 { assert s[i] == s[1..][i - 1]; }
        }
      }
      if |s| == n && AllDigits(s) {
        DigitsIff(n - 1, s[1..]);
        assert s[..1] == [s[0]];
        RangeHas('0', '9', s[0]);
        assert FullMatch(Digit, s[..1]);
        assert FullMatchN(Digit, n - 1, s[1..]);
      }
    }
  }

  /** A one-character literal followed by a bracket class matches two characters. */
  lemma CodeIff(d: char, items: seq<ClassItem>, s: string)
    ensures FullMatch(Cat(Lit([d]), Class(items)), s) <==> |s| == 2 && s[0] == d && ClassHas(items, s[1])
  {
    if |s| == 2 && s[0] == d && ClassHas(items, s[1]) {
      assert s[..1] == [d] && s[1..][0] == s[1];
    }
  }

  /** The carrier group matches exactly the two-character carrier codes. */
  lemma CarrierIff(s: string)
    ensures FullMatch(Carrier, s) <==> |s| == 2 && IsCarrier(s[0], s[1])
  {
    CodeIff('3', [Range('2', '9')], s);
    CodeIff('5', [Single('6'), Single('|'), Single('8'), Single('|'), Single('9')], s);
    CodeIff('7', [Single('0'), Single('|'), Range('6', '9')], s);
    CodeIff('8', [Range('1', '9')], s);
    CodeIff('9', [Range('0', '9')], s);
    if |s| == 2 {
      RangeHas('2', '9', s[1]);
      RangeHas('1', '9', s[1]);
      RangeHas('0', '9', s[1]);
      FiveHas(s[1]);
      SevenHas(s[1]);
    }
  }

  /** After the prefix: a carrier code followed by seven digits. */
  lemma RestIff(t: string)
    ensures FullMatch(Cat(Carrier, Count(Digit, 7)), t) <==> |t| == 9 && IsCarrier(t[0], t[1]) && AllDigits(t[2..])
  {
    if FullMatch(Cat(Carrier, Count(Digit, 7)), t) {
      RestSound(t);
    }
    if |t| == 9 && IsCarrier(t[0], t[1]) && AllDigits(t[2..]) {
      RestComplete(t);
    }
  }

  lemma RestSound(t: string)
    requires FullMatch(Cat(Carrier, Count(Digit, 7)), t)
    ensures |t| == 9 && IsCarrier(t[0], t[1]) && AllDigits(t[2..])
  {
    var k :| 0 <= k <= |t| && FullMatch(Carrier, t[..k]) && FullMatch(Count(Digit, 7), t[k..]);
    CarrierIff(t[..k]);
    DigitsIff(7, t[k..]);
    assert k == 2 && t[..k][0] == t[0] && t[..k][1] == t[1];
  }

  lemma RestComplete(t: string)
    requires |t| == 9 && IsCarrier(t[0], t[1]) && AllDigits(t[2..])
    ensures FullMatch(Cat(Carrier, Count(Digit, 7)), t)
  {
    CarrierIff(t[..2]);
    DigitsIff(7, t[2..]);
    assert FullMatch(Carrier, t[..2]) && FullMatch(Count(Digit, 7), t[2..]);
  }

  const Prefix := Alt(Lit("0"), Lit("+84"))

  lemma PrefixIff(p: string)
    ensures FullMatch(Prefix, p) <==> p == "0" || p == "+84"
  {
  }

  /** A prefix followed by a carrier code and seven digits is a mobile number. */
  lemma Assemble(s: string, k: int)
    requires 0 <= k <= |s|
    requires s[..k] == "0" || s[..k] == "+84"
    requires |s[k..]| == 9 && IsCarrier(s[k..][0], s[k..][1]) && AllDigits(s[k..][2..])
    ensures IsVnMobile(s)
  {
    var t := s[k..];
    if s[..k] == "0" {
      assert k == 1;
      assert s[0] == '0' && t[0] == s[1] && t[1] == s[2];
      assert t[2..] == s[3..];
    } else {
      assert k == 3;
      assert t[0] == s[3] && t[1] == s[4];
      assert t[2..] == s[5..];
    }
  }
  /** One split of the string into the prefix group and the rest. */
  lemma SoundAt(s: string, k: int)
    requires 0 <= k <= |s| && FullMatch(Prefix, s[..k]) && FullMatch(Cat(Carrier, Count(Digit, 7)), s[k..])
    ensures IsVnMobile(s)
  {
    PrefixIff(s[..k]);
    RestIff(s[k..]);
    Assemble(s, k);
  }
  /** Every string the pattern matches is a mobile number. */
  lemma PhonePatternSound(s: string)
    requires FullMatch(PhonePattern, s)
    ensures IsVnMobile(s)
  {
    var k :| 0 <= k <= |s| && FullMatch(Prefix, s[..k]) && FullMatch(Cat(Carrier, Count(Digit, 7)), s[k..]);
    SoundAt(s, k);
  }

  /** Every mobile number matches the pattern. */
  lemma PhonePatternComplete(s: string)
    requires IsVnMobile(s)
    ensures FullMatch(PhonePattern, s)
  {
    var rest := Cat(Carrier, Count(Digit, 7));
    var k := if s[0] == '0' && |s| == 10 then 1 else 3;
    PrefixIff(s[..k]);
    RestIff(s[k..]);
    assert s[k..][2..] == s[k + 2..];
    if k == 1 {
      assert s[..1] == "0";
    }
    assert FullMatch(Prefix, s[..k]) && FullMatch(rest, s[k..]);
  }

  /** The phone pattern accepts a string exactly when it is a mobile number as described above. */
  lemma PhonePatternIff(s: string)
    ensures FullMatch(PhonePattern, s) <==> IsVnMobile(s)
  {
    if FullMatch(PhonePattern, s) {
      PhonePatternSound(s);
    }
    if IsVnMobile(s) {
      PhonePatternComplete(s);
    }
  }

  /** A mobile number has ten characters after `0` and twelve after `+84`. */
  lemma MobileLength(s: string)
    requires IsVnMobile(s)
    ensures |s| == 10 || |s| == 12
    ensures s[0] == '0' ==> |s| == 10
    ensures s[0] == '+' ==> |s| == 12 && s[..3] == "+84"
  {
    if |s| == 12 {
      assert s[0] == s[..3][0];
    }
  }

  /** Hence so does every number the pattern accepts. */
  lemma PhoneLength(s: string)
    requires FullMatch(PhonePattern, s)
    ensures |s| == 10 || |s| == 12
    ensures s[0] == '0' ==> |s| == 10
    ensures s[0] == '+' ==> |s| == 12 && s[..3] == "+84"
  {
    PhonePatternSound(s);
    MobileLength(s);
  }

  /** Accepted samples: an ordinary number, the `+84` form, and the literal `|` after 5 and after 7. */
  lemma PhoneAccepts(s: string)
    requires s == "0358624125" || s == "+84912345678" || s == "05|1234567" || s == "07|1234567"
    ensures FullMatch(PhonePattern, s)
  {
    assert IsVnMobile(s);
    PhonePatternComplete(s);
  }

  /** Rejected samples: carrier code 12, a number one digit short, and the bare prefix `84`. */
  lemma PhoneRejects()
    ensures !FullMatch(PhonePattern, "0123456789")
    ensures !FullMatch(PhonePattern, "035862412")
    ensures !FullMatch(PhonePattern, "84912345678")
  {
    if FullMatch(PhonePattern, "0123456789") {
      PhonePatternSound("0123456789");
    }
    if FullMatch(PhonePattern, "035862412") {
      PhonePatternSound("035862412");
    }
    if FullMatch(PhonePattern, "84912345678") {
      PhonePatternSound("84912345678");
    }
  }
}
