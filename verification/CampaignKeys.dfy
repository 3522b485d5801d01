/** The text of an attempt's key: 64 lowercase hex digits, which are four words of 64 bits. */
module CampaignKeys {

  const WORD := 0x1_0000_0000_0000_0000

  predicate IsHex(c: char) {
    '0' <= c <= '9' || 'a' <= c <= 'f'
  }

  function HexDigit(d: nat): char
    requires d < 16
  {
    if d < 10 then '0' + d as char else 'a' + (d - 10) as char
  }

  function DigitOf(c: char): nat
    requires IsHex(c)
  {
    if c <= '9' then c as nat - '0' as nat else c as nat - 'a' as nat + 10
  }

  predicate AllHex(s: string) {
    forall i | 0 <= i < |s| :: IsHex(s[i])
  }

  /** The key texts that a caller may send. */
  predicate Accepts(s: string) {
    |s| == 64 && AllHex(s)
  }

  /** The last `digits` hex digits of the number, zeros in front. */
  function Hex(w: nat, digits: nat): string {
    if digits == 0 then "" else Hex(w / 16, digits - 1) + [HexDigit(w % 16)]
  }

  function Value(s: string): nat
    requires AllHex(s)
  {
    if |s| == 0 then 0 else Value(s[..|s| - 1]) * 16 + DigitOf(s[|s| - 1])
  }

  function Pow16(n: nat): nat {
    if n == 0 then 1 else 16 * Pow16(n - 1)
  }

  /** The key that the store mints from four words. */
  function KeyText(a: nat, b: nat, c: nat, d: nat): string {
    Hex(a, 16) + Hex(b, 16) + Hex(c, 16) + Hex(d, 16)
  }

  function Word(s: string, k: nat): nat
    requires Accepts(s) && k < 4
  {
    Value(s[16 * k..16 * (k + 1)])
  }

  lemma {:induction false} HexReadsBack(w: nat, n: nat)
    requires w < Pow16(n)
    ensures |Hex(w, n)| == n && AllHex(Hex(w, n)) && Value(Hex(w, n)) == w
  {
    if n > 0 {
      HexReadsBack(w / 16, n - 1);
      assert Hex(w, n)[..n - 1] == Hex(w / 16, n - 1);
    }
  }

  lemma {:induction false} ValueWritesBack(s: string)
    requires AllHex(s)
    ensures Value(s) < Pow16(|s|) && Hex(Value(s), |s|) == s
  {
    if |s| > 0 {
      var front, last := s[..|s| - 1], s[|s| - 1];
      ValueWritesBack(front);
      assert Value(s) / 16 == Value(front) && Value(s) % 16 == DigitOf(last);
      assert HexDigit(DigitOf(last)) == last;
      assert s == front + [last];
    }
  }

  lemma WordIsPow16()
    ensures Pow16(16) == WORD
  {
    assert Pow16(4) == 0x1_0000;
    assert Pow16(8) == 0x1_0000 * Pow16(4);
    assert Pow16(12) == 0x1_0000 * Pow16(8);
    assert Pow16(16) == 0x1_0000 * Pow16(12);
  }

  /** The digits in order of their values. */
  lemma DigitsAreListed(c: char)
    requires IsHex(c)
    ensures DigitOf(c) < 16 && "0123456789abcdef"[DigitOf(c)] == c
  {
  }

  /** The number that a text spells: each digit times its power of sixteen, the first digit the highest. */
  function Weighed(s: string): nat
    requires AllHex(s)
  {
    if |s| == 0 then 0 else DigitOf(s[0]) * Pow16(|s| - 1) + Weighed(s[1..])
  }

  lemma {:induction false} WeighedGrows(s: string, c: char)
    requires AllHex(s) && IsHex(c)
    ensures AllHex(s + [c]) && Weighed(s + [c]) == 16 * Weighed(s) + DigitOf(c)
  {
    if |s| == 0 {
      assert s + [c] == [c] && [c][1..] == "";
      assert Weighed([c]) == DigitOf(c) * Pow16(0);
    } else {
      assert (s + [c])[1..] == s[1..] + [c];
      WeighedGrows(s[1..], c);
      Sixteenfold(DigitOf(s[0]), |s|);
    }
  }

  lemma Sixteenfold(d: nat, n: nat)
    requires n > 0
    ensures d * Pow16(n) == 16 * (d * Pow16(n - 1))
  {
  }

  lemma {:induction false} ValueIsWeighed(s: string)
    requires AllHex(s)
    ensures Value(s) == Weighed(s)
  {
    if |s| > 0 {
      var front := s[..|s| - 1];
      ValueIsWeighed(front);
      WeighedGrows(front, s[|s| - 1]);
      assert s == front + [s[|s| - 1]];
    }
  }

  /** The words stand in the text in their order, sixteen digits each, the highest digit first. */
  lemma TextSpells(a: nat, b: nat, c: nat, d: nat)
    requires a < WORD && b < WORD && c < WORD && d < WORD
    ensures var s := KeyText(a, b, c, d);
      && Accepts(s)
      && Weighed(s[0..16]) == a && Weighed(s[16..32]) == b && Weighed(s[32..48]) == c && Weighed(s[48..64]) == d
  {
    hide Value, Hex, Weighed, Pow16;
    WordIsPow16();
    HexReadsBack(a, 16);
    HexReadsBack(b, 16);
    HexReadsBack(c, 16);
    HexReadsBack(d, 16);
    FourParts(Hex(a, 16), Hex(b, 16), Hex(c, 16), Hex(d, 16));
    var s := KeyText(a, b, c, d);
    ValueIsWeighed(s[0..16]);
    ValueIsWeighed(s[16..32]);
    ValueIsWeighed(s[32..48]);
    ValueIsWeighed(s[48..64]);
  }

  /** Every four words have their own text, and it is one that a caller may send. */
  lemma TextReadsBack(a: nat, b: nat, c: nat, d: nat)
    requires a < WORD && b < WORD && c < WORD && d < WORD
    ensures var s := KeyText(a, b, c, d);
      Accepts(s) && Word(s, 0) == a && Word(s, 1) == b && Word(s, 2) == c && Word(s, 3) == d
  {
    WordIsPow16();
    HexReadsBack(a, 16);
    HexReadsBack(b, 16);
    HexReadsBack(c, 16);
    HexReadsBack(d, 16);
    FourParts(Hex(a, 16), Hex(b, 16), Hex(c, 16), Hex(d, 16));
  }

  lemma FourParts(p: string, q: string, r: string, t: string)
    requires |p| == |q| == |r| == |t| == 16 && AllHex(p) && AllHex(q) && AllHex(r) && AllHex(t)
    ensures var s := p + q + r + t;
      Accepts(s) && s[0..16] == p && s[16..32] == q && s[32..48] == r && s[48..64] == t
  {
  }

  /** Every text that a caller may send is the text of four words, so a caller can send any key the store mints. */
  lemma AcceptedIsMintable(s: string)
    requires Accepts(s)
    ensures Word(s, 0) < WORD && Word(s, 1) < WORD && Word(s, 2) < WORD && Word(s, 3) < WORD
    ensures KeyText(Word(s, 0), Word(s, 1), Word(s, 2), Word(s, 3)) == s
  {
    WordIsPow16();
    PartsAreHex(s);
    ValueWritesBack(s[0..16]);
    ValueWritesBack(s[16..32]);
    ValueWritesBack(s[32..48]);
    ValueWritesBack(s[48..64]);
    hide Value, Hex, AllHex, Pow16;
    FourSlices(s);
  }

  lemma PartsAreHex(s: string)
    requires Accepts(s)
    ensures AllHex(s[0..16]) && AllHex(s[16..32]) && AllHex(s[32..48]) && AllHex(s[48..64])
  {
  }

  lemma FourSlices(s: string)
    requires |s| == 64
    ensures s == s[0..16] + s[16..32] + s[32..48] + s[48..64]
  {
  }
}
