/** The signal-safe number printer of csapp.c, on character arrays in place. */
module Sio {
  import opened Numerals

  /** s[..n] is the C string in s: no NUL before n, a NUL at n. */
  ghost predicate IsCString(s: seq<char>, n: nat) {
    n < |s| && s[n] == '\0' && forall i :: 0 <= i < n ==> s[i] != '\0'
  }

  function Reversed(s: string): (r: string)
    ensures |r| == |s|
    ensures forall i :: 0 <= i < |s| ==> r[i] == s[|s| - 1 - i]
  {
    if s == "" then "" else Reversed(s[1..]) + [s[0]]
  }

  /** strlen: the index of the first NUL. */
  method Strlen(s: array<char>) returns (n: nat)
    requires exists k: nat :: IsCString(s[..], k)
    ensures IsCString(s[..], n)
  {
    ghost var k: nat :| IsCString(s[..], k);
    n := 0;
    while s[n] != '\0'
      invariant n <= k && n < s.Length
      invariant forall i :: 0 <= i < n ==> s[i] != '\0'
      decreases k - n
    {
      assert s[..][n] == s[n];
      n := n + 1;
    }
  }

  /** sio_reverse: reverses the C string in place and touches nothing from its
      terminator on. */
  method SioReverse(s: array<char>, ghost n: nat)
    requires IsCString(s[..], n)
    modifies s
    ensures s[..] == Reversed(old(s[..n])) + old(s[n..])
  {
    var len := Strlen(s);
    assert len == n by {
      assert s[..][len] == '\0' && s[..][n] == '\0';
    }
    var i, j := 0, len - 1;
    while i < j
      invariant 0 <= i <= len && j == len - 1 - i && i <= j + 1
      invariant forall k :: 0 <= k < i ==> s[k] == old(s[len - 1 - k]) && s[len - 1 - k] == old(s[k])
      invariant forall k :: i <= k <= j ==> s[k] == old(s[k])
      invariant forall k :: len <= k < s.Length ==> s[k] == old(s[k])
    {
      var c := s[i];
      s[i] := s[j];
      s[j] := c;
      i, j := i + 1, j - 1;
    }
    assert s[..] == Reversed(old(s[..n])) + old(s[n..]);
  }

  lemma ReversedAppend(s: string, ch: char)
    ensures Reversed(s + [ch]) == [ch] + Reversed(s)
  {
  }

  /** The digits the printing loop has still to store. */
  function Pending(w: nat, b: nat): string
    requires 2 <= b <= 36
  {
    if w > 0 then Digits(w, b) else ""
  }

  /** One round of the printing loop: the character it stores and what remains. */
  method LastDigit(w: nat, b: nat) returns (ch: char, rest: nat)
    requires 2 <= b <= 36
    ensures Digits(w, b) == Pending(rest, b) + [ch]
    ensures rest <= w && (w > 0 ==> rest < w)
    ensures ch != '\0'
  {
    hide Digits, Pending, DigitChar;
    Remainder(w, b);
    LastOfDigits(w, b);
    ch, rest := DigitChar(w % b), w / b;
  }

  lemma Remainder(w: nat, b: nat)
    requires b > 0
    ensures 0 <= w % b < b && 0 <= w / b
  {
  }

  lemma LastOfDigits(w: nat, b: nat)
    requires 2 <= b <= 36 && w % b < b && w / b >= 0
    ensures Digits(w, b) == Pending(w / b, b) + [DigitChar(w % b)]
    ensures w / b <= w && (w > 0 ==> w / b < w)
  {
    if w >= b {
      QuotientSmaller(w, b);
    } else {
      SmallQuotient(w, b);
    }
  }

  lemma SmallQuotient(w: nat, b: nat)
    requires w < b
    ensures w / b == 0 && w % b == w
  {
  }

  /** s[i++] = ch */
  method StoreChar(s: array<char>, i: nat, ch: char) returns (next: nat)
    requires i < s.Length
    modifies s
    ensures next == i + 1
    ensures s[..i] == old(s[..i]) && s[i] == ch && s[next..] == old(s[next..])
    ensures s[..next] == old(s[..i]) + [ch]
    ensures Reversed(s[..next]) == [ch] + Reversed(old(s[..i]))
  {
    s[i] := ch;
    next := i + 1;
    ReversedAppend(s[..i], ch);
    assert s[..next] == s[..i] + [ch];
  }

  /** The do-while loop of sio_ltoa, least significant digit first. */
  method StoreDigits(v: nat, s: array<char>, b: nat) returns (i: nat)
    requires 2 <= b <= 36 && |Digits(v, b)| <= s.Length
    modifies s
    ensures i == |Digits(v, b)|
    ensures Reversed(s[..i]) == Digits(v, b)
    ensures s[i..] == old(s[i..])
  {
    hide Digits;
    var w := v;
    i := 0;
    while w > 0 || i == 0
      invariant i <= |Digits(v, b)|
      invariant i == 0 ==> w == v
      invariant i > 0 ==> Digits(v, b) == Pending(w, b) + Reversed(s[..i])
      invariant s[i..] == old(s[i..])
      decreases w, if i == 0 then 1 else 0
    {
      var ch, rest := LastDigit(w, b);
      ghost var tail := s[i..];
      i := StoreChar(s, i, ch);
      assert s[i..] == tail[1..];
      w := rest;
    }
  }

  /** sio_ltoa: writes the base-b text of v and a NUL at the front of s, and
      leaves the rest of s alone. */
  method SioLtoa(v: int, s: array<char>, b: nat)
    requires LONG_MIN < v <= LONG_MAX && 2 <= b <= 36
    requires |Text(v, b)| < s.Length
    modifies s
    ensures s[..] == Text(v, b) + ['\0'] + old(s[|Text(v, b)| + 1..])
  {
    hide Text, Reversed;
    ghost var original := s[..];
    var i := StoreSigned(v, s, b);
    ReversedHasNoNul(s[..i], v, b);
    TerminateAndReverse(s, i);
    assert original[i..][1..] == original[i + 1..];
  }

  /** What sio_ltoa stores before the terminator: the digits, then the sign. */
  method StoreSigned(v: int, s: array<char>, b: nat) returns (i: nat)
    requires 2 <= b <= 36 && |Text(v, b)| <= s.Length
    modifies s
    ensures i == |Text(v, b)| && Reversed(s[..i]) == Text(v, b)
    ensures s[i..] == old(s[..])[i..]
  {
    hide Digits, Reversed;
    ghost var original := s[..];
    var neg := v < 0;
    i := StoreDigits(if neg then -v else v, s, b);
    assert s[i..] == original[i..];
    if neg {
      ghost var tail := s[i..];
      i := StoreChar(s, i, '-');
      assert s[i..] == tail[1..] == original[i..];
    }
  }

  /** The last two statements of sio_ltoa, once n characters are stored. */
  method TerminateAndReverse(s: array<char>, n: nat)
    requires n < s.Length && forall i :: 0 <= i < n ==> s[i] != '\0'
    modifies s
    ensures s[..] == Reversed(old(s[..n])) + ['\0'] + old(s[n..])[1..]
  {
    ghost var body, tail := s[..n], s[n..];
    s[n] := '\0';
    assert s[..n] == body && s[n..] == ['\0'] + tail[1..];
    SioReverse(s, n);
  }

  lemma ReversedHasNoNul(body: string, v: int, b: nat)
    requires 2 <= b <= 36 && Reversed(body) == Text(v, b)
    ensures forall i :: 0 <= i < |body| ==> body[i] != '\0'
  {
    forall i | 0 <= i < |body| ensures body[i] != '\0' {
      assert body[i] == Reversed(body)[|body| - 1 - i];
      TextHasNoNul(v, b);
    }
  }

  /** sio_putl's buffer of 128 always suffices, and the text it hands to write
      is the decimal numeral of v. */
  method SioPutl(v: int) returns (text: string)
    requires LONG_MIN < v <= LONG_MAX
    ensures text == ToString(v)
    ensures Parse(text, 10) == v
  {
    var s := new char[128];
    TextLength(v, 10);
    SioLtoa(v, s, 10);
    var t := Text(v, 10);
    assert IsCString(s[..], |t|) by {
      assert s[..][|t|] == '\0';
      TextHasNoNul(v, 10);
    }
    var n := Strlen(s);
    assert n == |t| by { assert s[..][n] == '\0'; TextHasNoNul(v, 10); }
    text := s[..n];
    ParseInvertsText(v, 10);
  }

  lemma TextHasNoNul(v: int, b: nat)
    requires 2 <= b <= 36
    ensures forall i :: 0 <= i < |Text(v, b)| ==> Text(v, b)[i] != '\0'
  {
  }
}
