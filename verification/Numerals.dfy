/** Numerals as text: the base-b digits that csapp.c prints, and the decimal
    conversions std::to_string and std::stoi that the arithmetic handler uses. */
module Numerals {
  const LONG_MAX: int := 0x7fff_ffff_ffff_ffff
  const LONG_MIN: int := -0x8000_0000_0000_0000
  const INT_MAX: int := 0x7fff_ffff
  const INT_MIN: int := -0x8000_0000

  predicate InIntRange(v: int) {
    INT_MIN <= v <= INT_MAX
  }

  /** The character the printer stores for one digit: '0'..'9', then 'a'.. */
  function DigitChar(d: nat): (ch: char)
    requires d < 36
    ensures IsDigit(ch) && DigitValue(ch) == d
  {
    if d < 10 then '0' + d as char else 'a' + (d - 10) as char
  }

  predicate IsDigit(ch: char) {
    '0' <= ch <= '9' || 'a' <= ch <= 'z'
  }

  function DigitValue(ch: char): nat {
    if '0' <= ch <= '9' then (ch - '0') as nat
    else if 'a' <= ch <= 'z' then (ch - 'a') as nat + 10
    else 36
  }

  /** The digits of v in base b, most significant first. */
  function Digits(v: nat, b: nat): (s: string)
    requires 2 <= b <= 36
    ensures |s| > 0
    ensures forall i :: 0 <= i < |s| ==> IsDigit(s[i])
  {
    if v < b then [DigitChar(v)]
    else
      QuotientSmaller(v, b);
      Digits(v / b, b) + [DigitChar(v % b)]
  }

  lemma QuotientSmaller(v: nat, b: nat)
    requires 2 <= b <= v
    ensures 1 <= v / b < v
  {
    FactorBounds(v, b, v / b, v % b);
  }

  lemma FactorBounds(v: nat, b: nat, q: nat, r: nat)
    requires v == b * q + r && r < b && 2 <= b <= v
    ensures 1 <= q < v
  {
    assert b * q == 2 * q + (b - 2) * q;
  }

  /** The text of v in base b: a sign when negative, then the digits. */
  function Text(v: int, b: nat): string
    requires 2 <= b <= 36
  {
    if v < 0 then "-" + Digits(-v, b) else Digits(v, b)
  }

  /** Reads digits most significant first, with no check that they are digits. */
  function ParseDigits(s: string, b: nat): nat {
    if s == "" then 0 else ParseDigits(s[..|s| - 1], b) * b + DigitValue(s[|s| - 1])
  }

  function Parse(s: string, b: nat): int {
    if s != "" && s[0] == '-' then 0 - ParseDigits(s[1..], b) else ParseDigits(s, b)
  }

  lemma {:induction false} ParseDigitsInvertsDigits(v: nat, b: nat)
    requires 2 <= b <= 36
    ensures ParseDigits(Digits(v, b), b) == v
  {
    if v < b {
      assert Digits(v, b)[..0] == "";
    } else {
      QuotientSmaller(v, b);
      var q, d := v / b, v % b;
      ParseDigitsInvertsDigits(q, b);
      ParseDigitsAppend(Digits(q, b), DigitChar(d), b);
      Recompose(v, b);
    }
  }

  lemma Recompose(v: nat, b: nat)
    requires b > 0
    ensures (v / b) * b + v % b == v
  {
  }

  lemma ParseDigitsAppend(s: string, ch: char, b: nat)
    ensures ParseDigits(s + [ch], b) == ParseDigits(s, b) * b + DigitValue(ch)
  {
    assert (s + [ch])[..|s|] == s;
  }

  /** The characters for the digits. */
  lemma DigitCharacters(d: nat, b: nat)
    requires d < 36
    ensures DigitChar(d) == "0123456789abcdefghijklmnopqrstuvwxyz"[d] && ParseDigits([DigitChar(d)], b) == d
  {
    assert [DigitChar(d)][..0] == "" && ParseDigits("", b) == 0;
  }

  /** What a digit counts for goes up by the base with every digit after it. */
  lemma {:induction false} DigitsByPlace(front: string, back: string, b: nat)
    ensures ParseDigits(front + back, b) == ParseDigits(front, b) * Power(b, |back|) + ParseDigits(back, b)
  {
    if back == "" {
      assert front + back == front;
    } else {
      hide DigitValue;
      var less, last := back[..|back| - 1], back[|back| - 1];
      assert front + back == front + less + [last] && back == less + [last];
      ParseDigitsAppend(front + less, last, b);
      DigitsByPlace(front, less, b);
      Distribute(ParseDigits(front, b), Power(b, |less|), ParseDigits(less, b), b);
    }
  }

  function Power(b: nat, n: nat): nat {
    if n == 0 then 1 else Power(b, n - 1) * b
  }

  lemma Distribute(x: nat, p: nat, y: nat, b: nat)
    ensures (x * p + y) * b == x * (p * b) + y * b
  {
  }

  /** Parsing the printed text gives the number back, for every number. */
  lemma ParseInvertsText(v: int, b: nat)
    requires 2 <= b <= 36
    ensures Parse(Text(v, b), b) == v
  {
    if v < 0 {
      ParseDigitsInvertsDigits(-v, b);
      assert Text(v, b)[1..] == Digits(-v, b);
    } else {
      ParseDigitsInvertsDigits(v, b);
    }
  }

  /** Only zero starts with the digit 0, and then it is the whole text. */
  lemma {:induction false} NoLeadingZero(v: nat, b: nat)
    requires 2 <= b <= 36
    ensures Digits(v, b)[0] == '0' <==> v == 0
    ensures v == 0 ==> Digits(v, b) == "0"
  {
    if v >= b {
      QuotientSmaller(v, b);
      NoLeadingZero(v / b, b);
    }
  }

  function Pow2(n: nat): nat {
    if n == 0 then 1 else 2 * Pow2(n - 1)
  }

  /** A number below 2^n has at most n digits in every base. */
  lemma {:induction false} DigitsLength(v: nat, b: nat, n: nat)
    requires 2 <= b <= 36 && n >= 1 && v < Pow2(n)
    ensures |Digits(v, b)| <= n
  {
    if v >= b {
      QuotientSmaller(v, b);
      assert n >= 2;
      HalvingBound(v, b);
      DigitsLength(v / b, b, n - 1);
    }
  }

  lemma HalvingBound(v: nat, b: nat)
    requires 2 <= b
    ensures v / b <= v / 2
  {
    HalfBound(v, b, v / b, v % b);
  }

  lemma HalfBound(v: nat, b: nat, q: nat, r: nat)
    requires v == b * q + r && 2 <= b
    ensures q <= v / 2
  {
    assert b * q == 2 * q + (b - 2) * q;
  }

  /** A long above LONG_MIN prints in at most 64 characters, in every base. */
  lemma TextLength(v: int, b: nat)
    requires LONG_MIN < v <= LONG_MAX && 2 <= b <= 36
    ensures |Text(v, b)| <= 64
  {
    var m := if v < 0 then -v else v;
    Pow2Of63();
    DigitsLength(m, b, 63);
  }

  /** Printing, as a whole: the text reads back as the number, has no leading zero
      except for zero itself, and with its terminator needs at most 65 bytes. */
  lemma PrintedNumber(v: int, b: nat)
    requires LONG_MIN < v <= LONG_MAX && 2 <= b <= 36
    ensures Parse(Text(v, b), b) == v
    ensures v == 0 ==> Text(v, b) == "0"
    ensures v != 0 ==> |Text(v, b)| > (if v < 0 then 1 else 0) && Text(v, b)[if v < 0 then 1 else 0] != '0'
    ensures |Text(v, b)| + 1 <= 65
  {
    ParseInvertsText(v, b);
    TextLength(v, b);
    NoLeadingZero(if v < 0 then -v else v, b);
  }

  lemma Pow2Of63()
    ensures Pow2(63) == LONG_MAX + 1
  {
    Pow2Add(16, 16);
    Pow2Add(32, 31);
    Pow2Add(16, 15);
    assert Pow2(16) == 0x1_0000 by { Pow2Add(8, 8); assert Pow2(8) == 256; }
    assert Pow2(15) == 0x8000 by { Pow2Add(8, 7); assert Pow2(8) == 256; assert Pow2(7) == 128; }
  }

  lemma Pow2Add(m: nat, n: nat)
    ensures Pow2(m + n) == Pow2(m) * Pow2(n)
  {
    if m > 0 { Pow2Add(m - 1, n); }
  }

  // ----- std::to_string and std::stoi -----

  /** std::to_string on an int. */
  function ToString(v: int): string {
    Text(v, 10)
  }

  datatype StoiResult = Value(v: int) | InvalidArgument | OutOfRange

  predicate IsSpace(ch: char) {
    ch == ' ' || ch == '\t' || ch == '\n' || ch == '\r' || ch == 11 as char || ch == 12 as char
  }

  predicate IsDecimal(ch: char) {
    '0' <= ch <= '9'
  }

  function SkipSpaces(s: string): string {
    if s != "" && IsSpace(s[0]) then SkipSpaces(s[1..]) else s
  }

  function LeadingDecimals(s: string): string {
    if s != "" && IsDecimal(s[0]) then [s[0]] + LeadingDecimals(s[1..]) else ""
  }

  /** std::stoi in base 10: leading blanks and a sign are accepted, anything
      after the digits is ignored, no digit at all is std::invalid_argument and
      a value outside int is std::out_of_range. */
  function Stoi(s: string): StoiResult {
    var t := SkipSpaces(s);
    var signed := t != "" && (t[0] == '-' || t[0] == '+');
    var ds := LeadingDecimals(if signed then t[1..] else t);
    if ds == "" then InvalidArgument
    else
      var v := if signed && t[0] == '-' then 0 - ParseDigits(ds, 10) else ParseDigits(ds, 10);
      if InIntRange(v) then Value(v) else OutOfRange
  }

  // ----- The texts std::stoi accepts, by their characters -----

  /** The characters isspace accepts: blank, tab, newline, vertical tab, form feed and
      carriage return. */
  const BLANKS: string := [' ', '\t', '\n', 11 as char, 12 as char, '\r']

  predicate DigitAt(s: string, i: nat) {
    i < |s| && s[i] in "0123456789"
  }

  /** After p blanks comes a digit, or a sign and a digit. */
  predicate NumberAt(s: string, p: nat) {
    && p <= |s| && (forall i :: 0 <= i < p ==> s[i] in BLANKS)
    && (DigitAt(s, p) || (p < |s| && s[p] in "+-" && DigitAt(s, p + 1)))
  }

  ghost predicate NoNumber(s: string) {
    forall p: nat :: !NumberAt(s, p)
  }

  /** s is blanks, a sign or none, all the digits there are, and anything. */
  predicate Spells(s: string, blanks: string, sign: string, ds: string, rest: string) {
    && s == blanks + sign + ds + rest && sign in {"", "+", "-"} && ds != ""
    && (forall i :: 0 <= i < |blanks| ==> blanks[i] in BLANKS)
    && (forall i :: 0 <= i < |ds| ==> ds[i] in "0123456789") && !DigitAt(rest, 0)
  }

  function Signed(sign: string, v: nat): int {
    if sign == "-" then 0 - v else v
  }

  /** The text starts with the number x, in the integers. */
  ghost predicate Reads(s: string, x: int) {
    exists blanks, sign, ds, rest :: Spells(s, blanks, sign, ds, rest) && x == Signed(sign, ParseDigits(ds, 10))
  }

  lemma BlankIsSpace(ch: char)
    ensures ch in BLANKS <==> IsSpace(ch)
    ensures ch in "0123456789" <==> IsDecimal(ch)
  {
  }

  lemma {:induction false} SkipsAllBlanks(blanks: string, rest: string)
    requires forall i :: 0 <= i < |blanks| ==> blanks[i] in BLANKS
    requires rest == "" || rest[0] !in BLANKS
    ensures SkipSpaces(blanks + rest) == rest
  {
    if blanks == "" {
      assert blanks + rest == rest;
    } else {
      assert (blanks + rest)[1..] == blanks[1..] + rest;
      SkipsAllBlanks(blanks[1..], rest);
    }
  }

  lemma {:induction false} TakesAllDigits(ds: string, rest: string)
    requires (forall i :: 0 <= i < |ds| ==> ds[i] in "0123456789") && !DigitAt(rest, 0)
    ensures LeadingDecimals(ds + rest) == ds
  {
    if ds == "" {
      assert ds + rest == rest;
      assert rest != "" ==> !IsDecimal(rest[0]);
    } else {
      assert (ds + rest)[1..] == ds[1..] + rest;
      TakesAllDigits(ds[1..], rest);
    }
  }

  /** Every text is blanks and then one that starts with none; the same for digits. */
  lemma {:induction false} BlanksThenRest(s: string) returns (blanks: string)
    ensures s == blanks + SkipSpaces(s) && forall i :: 0 <= i < |blanks| ==> blanks[i] in BLANKS
    ensures SkipSpaces(s) == "" || SkipSpaces(s)[0] !in BLANKS
  {
    if s != "" && IsSpace(s[0]) {
      var more := BlanksThenRest(s[1..]);
      blanks := [s[0]] + more;
    } else {
      blanks := "";
    }
  }

  lemma {:induction false} DigitsThenRest(s: string) returns (rest: string)
    ensures s == LeadingDecimals(s) + rest && !DigitAt(rest, 0)
    ensures forall i :: 0 <= i < |LeadingDecimals(s)| ==> LeadingDecimals(s)[i] in "0123456789"
  {
    if s != "" && IsDecimal(s[0]) {
      rest := DigitsThenRest(s[1..]);
    } else {
      rest := s;
    }
  }

  lemma StoiOfParts(s: string, sign: string, ds: string, rest: string)
    requires sign in {"", "+", "-"} && ds != "" && SkipSpaces(s) == sign + (ds + rest)
    requires LeadingDecimals(ds + rest) == ds && ds[0] in "0123456789"
    ensures Stoi(s) == InInt(Signed(sign, ParseDigits(ds, 10)))
  {
    hide ParseDigits, LeadingDecimals, SkipSpaces;
    var t := SkipSpaces(s);
    if sign == "" {
      assert t == ds + rest;
    } else {
      assert t[1..] == ds + rest;
    }
  }

  /** std::stoi is determined by how the text is spelled. */
  lemma StoiOfSpelling(s: string, blanks: string, sign: string, ds: string, rest: string)
    requires Spells(s, blanks, sign, ds, rest)
    ensures Stoi(s) == InInt(Signed(sign, ParseDigits(ds, 10)))
    ensures NumberAt(s, |blanks|)
  {
    hide Stoi, ParseDigits, LeadingDecimals, SkipSpaces;
    var t := sign + (ds + rest);
    assert s == blanks + t && t[0] == if sign == "" then ds[0] else sign[0];
    SkipsAllBlanks(blanks, t);
    TakesAllDigits(ds, rest);
    StoiOfParts(s, sign, ds, rest);
    assert s[|blanks|] == t[0] && (sign != "" ==> s[|blanks| + 1] == ds[0]);
  }

  lemma Spelling(s: string, p: nat) returns (blanks: string, sign: string, ds: string, rest: string)
    requires NumberAt(s, p)
    ensures Spells(s, blanks, sign, ds, rest)
  {
    hide LeadingDecimals;
    blanks, sign := s[..p], if s[p] in "+-" then [s[p]] else "";
    var body := s[p + |sign|..];
    assert DigitAt(body, 0) && body[0] == s[p + |sign|];
    rest := DigitsThenRest(body);
    ds := LeadingDecimals(body);
    assert ds == "" ==> ds + rest == rest;
    Joined(s, p, sign, body, ds, rest);
  }

  lemma Joined(s: string, p: nat, sign: string, body: string, ds: string, rest: string)
    requires p <= p + |sign| <= |s| && s[p..p + |sign|] == sign && s[p + |sign|..] == body == ds + rest
    ensures s == s[..p] + sign + ds + rest
  {
  }

  /** Exactly: std::stoi refuses a text without a number after its leading blanks; gives
      the number the text starts with when that is an int, and fails out of range else. */
  lemma StoiReads(s: string)
    ensures Stoi(s) == InvalidArgument <==> NoNumber(s)
    ensures forall x :: Reads(s, x) ==> Stoi(s) == InInt(x)
    ensures NoNumber(s) || exists x :: Reads(s, x)
  {
    hide ParseDigits, Stoi, NumberAt, Spells;
    forall x | Reads(s, x) ensures Stoi(s) == InInt(x) && !NoNumber(s) {
      var blanks, sign, ds, rest :| Spells(s, blanks, sign, ds, rest) && x == Signed(sign, ParseDigits(ds, 10));
      StoiOfSpelling(s, blanks, sign, ds, rest);
    }
    if p: nat :| NumberAt(s, p) {
      var blanks, sign, ds, rest := Spelling(s, p);
      assert Reads(s, Signed(sign, ParseDigits(ds, 10)));
    } else {
      NothingRead(s);
    }
  }

  lemma NothingRead(s: string)
    requires NoNumber(s)
    ensures Stoi(s) == InvalidArgument
  {
    hide ParseDigits;
    var blanks := BlanksThenRest(s);
    var t := SkipSpaces(s);
    assert !NumberAt(s, |blanks|);
    assert t != "" ==> s[|blanks|] == t[0];
    assert |t| > 1 ==> s[|blanks| + 1] == t[1];
  }

  lemma {:induction false} LeadingDecimalsAll(s: string)
    requires forall i :: 0 <= i < |s| ==> IsDecimal(s[i])
    ensures LeadingDecimals(s) == s
  {
    if s != "" { LeadingDecimalsAll(s[1..]); }
  }

  function InInt(v: int): StoiResult {
    if InIntRange(v) then Value(v) else OutOfRange
  }

  lemma SpacesBefore(s: string)
    requires s == "" || !IsSpace(s[0])
    ensures SkipSpaces(s) == s
  {
  }

  /** An optional minus sign and then digits. */
  lemma StoiOfDigits(ds: string, negative: bool)
    requires ds != "" && forall i :: 0 <= i < |ds| ==> IsDecimal(ds[i])
    ensures Stoi(if negative then "-" + ds else ds) ==
            InInt(if negative then 0 - ParseDigits(ds, 10) else ParseDigits(ds, 10))
  {
    hide ParseDigits, LeadingDecimals, SkipSpaces;
    var t := if negative then "-" + ds else ds;
    LeadingDecimalsAll(ds);
    SpacesBefore(t);
    assert negative ==> t[1..] == ds;
  }

  /** std::stoi inverts std::to_string exactly on the int range. */
  lemma StoiInvertsToString(v: int)
    ensures Stoi(ToString(v)) == if InIntRange(v) then Value(v) else OutOfRange
  {
    var m := if v < 0 then -v else v;
    DecimalDigits(m);
    StoiOfDigits(Digits(m, 10), v < 0);
    ParseDigitsInvertsDigits(m, 10);
  }

  lemma {:induction false} DecimalDigits(v: nat)
    ensures forall i :: 0 <= i < |Digits(v, 10)| ==> IsDecimal(Digits(v, 10)[i])
  {
    if v >= 10 { DecimalDigits(v / 10); }
  }
}
