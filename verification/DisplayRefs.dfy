/** How a listing names its tasks, and how a typed reference is read back. */
module DisplayRefs {
  import opened Outcomes
  import opened Collections

  type Id = nat

  const MAX_ROOTS := 1000
  const MAX_ID_DIGITS := 18
  const MAX_ORDINAL := 8
  const MAX_DEPTH := 6

  /** How many indices have at most four letters. */
  const FOUR_LETTERS := 26 + 26 * 26 + 26 * 26 * 26 + 26 * 26 * 26 * 26

  // ---- letters: bijective base 26 ----

  function LetterAt(d: nat): (c: char)
    requires d < 26
    ensures 'A' <= c <= 'Z' && c as int - 'A' as int == d
  {
    ('A' as int + d) as char
  }

  function LettersOf(idx: nat): (s: string)
    ensures |s| > 0 && forall i | 0 <= i < |s| :: 'A' <= s[i] <= 'Z'
  {
    if idx < 26 then [LetterAt(idx)] else LettersOf(idx / 26 - 1) + [LetterAt(idx % 26)]
  }

  /** The last letter of an index goes in front of the text that is there. */
  lemma LastLetterFirst(idx: nat, rest: string)
    ensures LettersOf(idx) + rest == (if idx / 26 == 0 then "" else LettersOf(idx / 26 - 1)) + ([LetterAt(idx % 26)] + rest)
  {
    assert idx / 26 == 0 <==> idx < 26;
  }

  /** The letters from the last to the first, and then turned round. */
  method LettersLoop(index: nat) returns (s: string)
    ensures s == LettersOf(index)
  {
    hide LettersOf, LetterAt;
    var idx := index;
    var buf := [LetterAt(idx % 26)];
    LastLetterFirst(idx, "");
    assert LettersOf(index) + "" == LettersOf(index) && buf + "" == Reverse(buf);
    idx := idx / 26;
    while idx != 0
      invariant LettersOf(index) == (if idx == 0 then "" else LettersOf(idx - 1)) + Reverse(buf)
    {
      idx := idx - 1;
      LastLetterFirst(idx, Reverse(buf));
      buf := buf + [LetterAt(idx % 26)];
      idx := idx / 26;
    }
    s := Reverse(buf);
  }

  predicate Uppercase(s: string) {
    forall i | 0 <= i < |s| :: 'A' <= s[i] <= 'Z'
  }

  /** The value of letters, counted from one; nothing is zero. */
  function Value(s: string): nat
    requires Uppercase(s)
  {
    if |s| == 0 then 0 else Value(s[..|s| - 1]) * 26 + (s[|s| - 1] as int - 'A' as int) + 1
  }

  function ParseLetterOf(s: string): Option<nat> {
    if 1 <= |s| <= 4 && Uppercase(s) && Value(s) > 0 then Some(Value(s) - 1) else None
  }

  method ParseLetter(s: string) returns (r: Option<nat>)
    ensures r == ParseLetterOf(s)
  {
    if s == "" || |s| > 4 || !Uppercase(s) {
      return None;
    }
    var idx := 0;
    for i := 0 to |s|
      invariant idx == Value(s[..i]) && (i > 0 ==> idx > 0)
    {
      assert s[..i + 1][..i] == s[..i];
      idx := idx * 26 + (s[i] as int - 'A' as int) + 1;
    }
    assert s[..|s|] == s;
    return Some(idx - 1);
  }

  lemma {:induction false} ValueOfLetters(idx: nat)
    ensures Value(LettersOf(idx)) == idx + 1
  {
    var s := LettersOf(idx);
    if idx >= 26 {
      ValueOfLetters(idx / 26 - 1);
      assert s[..|s| - 1] == LettersOf(idx / 26 - 1);
    } else {
      assert s[..|s| - 1] == "";
    }
  }

  lemma {:induction false} LettersOfValue(s: string)
    requires Uppercase(s) && |s| > 0
    ensures Value(s) > 0 && LettersOf(Value(s) - 1) == s
  {
    var front := s[..|s| - 1];
    var d := s[|s| - 1] as int - 'A' as int;
    assert s == front + [LetterAt(d)];
    if |front| > 0 {
      LettersOfValue(front);
      var v := Value(s) - 1;
      assert v == Value(front) * 26 + d && v / 26 == Value(front) && v % 26 == d;
    } else {
      assert Value(front) == 0;
    }
  }

  /** How many values have at most `n` letters, nothing included. */
  function Span(n: nat): nat {
    if n == 0 then 1 else 26 * Span(n - 1) + 1
  }

  lemma {:induction false} ValueByLength(s: string, n: nat)
    requires Uppercase(s)
    ensures |s| <= n <==> Value(s) < Span(n)
  {
    if |s| > 0 {
      var front := s[..|s| - 1];
      if n == 0 {
      } else {
        ValueByLength(front, n - 1);
        var d := s[|s| - 1] as int - 'A' as int;
        assert 0 <= d < 26;
        assert Value(s) == Value(front) * 26 + d + 1;
      }
    } else {
      SpanIsPositive(n);
    }
  }

  lemma {:induction false} SpanIsPositive(n: nat)
    ensures Span(n) >= 1
  {
    if n > 0 {
      SpanIsPositive(n - 1);
    }
  }

  /** Reading the letters of an index gives the index back exactly when they are at most four. */
  lemma ParseInvertsLetters(idx: nat)
    ensures ParseLetterOf(LettersOf(idx)) == if idx < FOUR_LETTERS then Some(idx) else None
  {
    ValueOfLetters(idx);
    ValueByLength(LettersOf(idx), 4);
    assert Span(1) == 26 * Span(0) + 1 && Span(2) == 26 * Span(1) + 1 && Span(3) == 26 * Span(2) + 1 && Span(4) == 26 * Span(3) + 1;
  }

  /** Whatever is accepted as letters is the letters of its index. */
  lemma LettersInvertParse(s: string)
    ensures ParseLetterOf(s).Some? ==> LettersOf(ParseLetterOf(s).value) == s && ParseLetterOf(s).value < FOUR_LETTERS
    ensures ParseLetterOf(s).Some? <==> 1 <= |s| <= 4 && Uppercase(s)
  {
    if 1 <= |s| <= 4 && Uppercase(s) {
      LettersOfValue(s);
      ParseInvertsLetters(Value(s) - 1);
    }
  }

  /** At the first place where the two differ, `a` has the earlier letter. */
  ghost predicate Alphabetic(a: string, b: string) {
    exists k :: 0 <= k < |a| && k < |b| && a[..k] == b[..k] && a[k] < b[k]
  }

  /** Shorter first, and among equally long ones in alphabetical order: A, B, ..., Z, AA, AB, ... */
  ghost predicate ListedBefore(a: string, b: string) {
    |a| < |b| || (|a| == |b| && Alphabetic(a, b))
  }

  lemma {:induction false} AlphabeticByValue(a: string, b: string)
    requires Uppercase(a) && Uppercase(b) && |a| == |b| && Value(a) < Value(b)
    ensures Alphabetic(a, b)
  {
    if |a| > 0 {
      var x, y := a[..|a| - 1], b[..|b| - 1];
      if Value(x) < Value(y) {
        AlphabeticByValue(x, y);
        var k :| 0 <= k < |x| && x[..k] == y[..k] && x[k] < y[k];
        assert a[..k] == x[..k] && b[..k] == y[..k];
      } else {
        assert Value(x) == Value(y);
        SameValue(x, y);
        assert a[..|a| - 1] == b[..|a| - 1];
      }
    }
  }

  lemma SameValue(a: string, b: string)
    requires Uppercase(a) && Uppercase(b) && |a| == |b| && Value(a) == Value(b)
    ensures a == b
  {
    if |a| > 0 {
      LettersOfValue(a);
      LettersOfValue(b);
    }
  }

  /**
   * The letters of the indices are all the texts of capital letters, each once, shorter ones first and equally
   * long ones in alphabetical order.
   */
  lemma LettersAreListed(i: nat, j: nat, s: string)
    ensures i < j ==> ListedBefore(LettersOf(i), LettersOf(j))
    ensures |s| > 0 && Uppercase(s) ==> exists k: nat :: LettersOf(k) == s
  {
    if i < j {
      var a, b := LettersOf(i), LettersOf(j);
      ValueOfLetters(i);
      ValueOfLetters(j);
      ValueByLength(b, |b|);
      ValueByLength(a, |b|);
      if |a| == |b| {
        AlphabeticByValue(a, b);
      }
    }
    if |s| > 0 && Uppercase(s) {
      LettersOfValue(s);
    }
  }

  // ---- decimal ids ----

  predicate IsDigit(c: char) {
    '0' <= c <= '9'
  }

  function DigitValue(c: char): nat {
    if IsDigit(c) then c as int - '0' as int else 0
  }

  function Digit(d: nat): (c: char)
    requires d < 10
    ensures IsDigit(c) && c as int - '0' as int == d
  {
    ('0' as int + d) as char
  }

  function Decimal(n: nat): (s: string)
    ensures |s| > 0 && forall i | 0 <= i < |s| :: IsDigit(s[i])
  {
    if n < 10 then [Digit(n)] else Decimal(n / 10) + [Digit(n % 10)]
  }

  function Number(s: string): nat
    requires forall i | 0 <= i < |s| :: IsDigit(s[i])
  {
    if |s| == 0 then 0 else Number(s[..|s| - 1]) * 10 + DigitValue(s[|s| - 1])
  }

  lemma {:induction false} NumberOfDecimal(n: nat)
    ensures Number(Decimal(n)) == n
    ensures n > 0 ==> Decimal(n)[0] != '0'
  {
    var s := Decimal(n);
    if n >= 10 {
      NumberOfDecimal(n / 10);
      assert s[..|s| - 1] == Decimal(n / 10);
    } else {
      assert s[..|s| - 1] == "";
    }
  }

  lemma {:induction false} DecimalOfNumber(s: string)
    requires |s| > 0 && (forall i | 0 <= i < |s| :: IsDigit(s[i])) && s[0] != '0'
    ensures Number(s) > 0 && Decimal(Number(s)) == s
  {
    var front := s[..|s| - 1];
    var d := DigitValue(s[|s| - 1]);
    assert s == front + [Digit(d)];
    if |front| > 0 {
      DecimalOfNumber(front);
      assert Number(s) / 10 == Number(front) && Number(s) % 10 == d;
    } else {
      assert Number(front) == 0;
    }
  }

  // ---- references ----

  datatype Ref = ById(id: Id) | ByLetter(idx: nat, ordinals: seq<nat>)

  /** The pieces between dots; there is always one. */
  function Split(s: string): (segs: seq<string>)
    ensures |segs| > 0
  {
    if |s| == 0 then [""]
    else if s[0] == '.' then [""] + Split(s[1..])
    else
      var rest := Split(s[1..]);
      [[s[0]] + rest[0]] + rest[1..]
  }

  function Join(segs: seq<string>): string
    requires |segs| > 0
  {
    if |segs| == 1 then segs[0] else segs[0] + "." + Join(segs[1..])
  }

  predicate NoDot(s: string) {
    forall i | 0 <= i < |s| :: s[i] != '.'
  }

  lemma {:induction false} SplitPiece(a: string)
    requires NoDot(a)
    ensures Split(a) == [a]
  {
    if |a| > 0 {
      SplitPiece(a[1..]);
      assert a == [a[0]] + a[1..];
    }
  }

  lemma {:induction false} SplitFirst(a: string, rest: string)
    requires NoDot(a)
    ensures Split(a + "." + rest) == [a] + Split(rest)
  {
    if |a| == 0 {
      assert a + "." + rest == "." + rest;
    } else {
      SplitFirst(a[1..], rest);
      assert (a + "." + rest)[1..] == a[1..] + "." + rest;
      assert a == [a[0]] + a[1..];
    }
  }

  lemma {:induction false} SplitJoin(segs: seq<string>)
    requires |segs| > 0 && forall i | 0 <= i < |segs| :: NoDot(segs[i])
    ensures Split(Join(segs)) == segs
  {
    if |segs| == 1 {
      SplitPiece(segs[0]);
    } else {
      SplitJoin(segs[1..]);
      SplitFirst(segs[0], Join(segs[1..]));
    }
  }

  lemma {:induction false} JoinSplit(s: string)
    ensures Join(Split(s)) == s
    ensures forall i | 0 <= i < |Split(s)| :: NoDot(Split(s)[i])
  {
    if |s| > 0 {
      JoinSplit(s[1..]);
      var rest := Split(s[1..]);
      assert s == [s[0]] + s[1..];
      if s[0] == '.' {
        assert ([""] + rest)[1..] == rest;
      } else if |rest| > 1 {
        assert ([[s[0]] + rest[0]] + rest[1..])[1..] == rest[1..];
      }
    }
  }

  predicate OrdinalSeg(seg: string) {
    |seg| == 1 && '1' <= seg[0] <= '8'
  }

  function OrdinalOf(seg: string): nat {
    if |seg| == 1 then DigitValue(seg[0]) else 0
  }

  function Ordinals(segs: seq<string>): (os: seq<nat>)
    ensures |os| == |segs| && forall i | 0 <= i < |segs| :: os[i] == OrdinalOf(segs[i])
  {
    seq(|segs|, i requires 0 <= i < |segs| => OrdinalOf(segs[i]))
  }

  predicate AllDigits(s: string) {
    |s| > 0 && forall i | 0 <= i < |s| :: IsDigit(s[i])
  }

  /** What a typed reference means. */
  function ParseRefOf(s: string): Option<Ref> {
    if AllDigits(s) then
      if |s| > MAX_ID_DIGITS || s[0] == '0' then None else Some(ById(Number(s)))
    else ParseSegs(Split(s))
  }

  function ParseSegs(segs: seq<string>): Option<Ref>
    requires |segs| > 0
  {
    var idx := ParseLetterOf(segs[0]);
    if idx.None? || |segs| - 1 > MAX_DEPTH || !(forall i | 1 <= i < |segs| :: OrdinalSeg(segs[i])) then None
    else Some(ByLetter(idx.value, Ordinals(segs[1..])))
  }

  method ParseRef(s: string) returns (r: Option<Ref>)
    ensures r == ParseRefOf(s)
  {
    if AllDigits(s) {
      if |s| > MAX_ID_DIGITS || s[0] == '0' {
        return None;
      }
      return Some(ById(Number(s)));
    }
    var segs := Split(s);
    var idx := ParseLetter(segs[0]);
    if idx.None? {
      return None;
    }
    var ordinals: seq<nat> := [];
    for i := 1 to |segs|
      invariant forall k | 1 <= k < i :: OrdinalSeg(segs[k])
      invariant |ordinals| == i - 1 <= MAX_DEPTH
      invariant forall k | 1 <= k < i :: ordinals[k - 1] == OrdinalOf(segs[k])
    {
      if |segs[i]| != 1 || !('1' <= segs[i][0] <= '8') {
        assert !OrdinalSeg(segs[i]);
        return None;
      }
      if |ordinals| >= MAX_DEPTH {
        return None;
      }
      ordinals := ordinals + [OrdinalOf(segs[i])];
    }
    assert ordinals == Ordinals(segs[1..]);
    return Some(ByLetter(idx.value, ordinals));
  }

  /** A reference as the user would type it. */
  function Segments(idx: nat, ordinals: seq<nat>): (segs: seq<string>)
    ensures |segs| == 1 + |ordinals| && segs[0] == LettersOf(idx)
    ensures forall i | 0 <= i < |ordinals| :: segs[i + 1] == Decimal(ordinals[i])
  {
    [LettersOf(idx)] + seq(|ordinals|, i requires 0 <= i < |ordinals| => Decimal(ordinals[i]))
  }

  function RefText(r: Ref): string {
    match r
    case ById(id) => Decimal(id)
    case ByLetter(idx, ordinals) => Join(Segments(idx, ordinals))
  }

  /** The references that have a text of their own. */
  predicate Typable(r: Ref) {
    match r
    case ById(id) => id > 0 && |Decimal(id)| <= MAX_ID_DIGITS
    case ByLetter(idx, ordinals) =>
      idx < FOUR_LETTERS && |ordinals| <= MAX_DEPTH && forall i | 0 <= i < |ordinals| :: 1 <= ordinals[i] <= MAX_ORDINAL
  }

  lemma SegmentsHaveNoDot(idx: nat, ordinals: seq<nat>)
    ensures forall i | 0 <= i < |Segments(idx, ordinals)| :: NoDot(Segments(idx, ordinals)[i])
  {
    var segs := Segments(idx, ordinals);
    forall i | 0 <= i < |segs|
      ensures NoDot(segs[i])
    {
      if i > 0 {
        assert segs[i] == Decimal(ordinals[i - 1]);
      }
    }
  }

  lemma OrdinalText(o: nat)
    ensures OrdinalSeg(Decimal(o)) <==> 1 <= o <= MAX_ORDINAL
    ensures 1 <= o <= MAX_ORDINAL ==> OrdinalOf(Decimal(o)) == o
  {
    if o >= 10 {
      assert |Decimal(o)| > 1;
    }
  }

  lemma LetterTextIsNotDigits(idx: nat, ordinals: seq<nat>)
    ensures !AllDigits(RefText(ByLetter(idx, ordinals)))
  {
    var segs := Segments(idx, ordinals);
    assert Join(segs)[0] == LettersOf(idx)[0];
  }

  /** Reading the text of a reference gives the reference back, exactly when it is typable. */
  lemma ParseInvertsText(r: Ref)
    ensures ParseRefOf(RefText(r)) == if Typable(r) then Some(r) else None
  {
    match r
    case ById(id) => NumberOfDecimal(id);
      if id == 0 {
        assert Decimal(0)[0] == '0';
      }
    case ByLetter(idx, ordinals) => LetterTextParses(idx, ordinals);
  }

  lemma LetterTextParses(idx: nat, ordinals: seq<nat>)
    ensures var r := ByLetter(idx, ordinals); ParseRefOf(RefText(r)) == if Typable(r) then Some(r) else None
  {
    var segs := Segments(idx, ordinals);
    LetterTextIsNotDigits(idx, ordinals);
    SegmentsHaveNoDot(idx, ordinals);
    SplitJoin(segs);
    SegmentsMean(idx, ordinals);
  }

  lemma SegmentsMean(idx: nat, ordinals: seq<nat>)
    ensures ParseSegs(Segments(idx, ordinals))
      == if Typable(ByLetter(idx, ordinals)) then Some(ByLetter(idx, ordinals)) else None
  {
    var segs := Segments(idx, ordinals);
    ParseInvertsLetters(idx);
    forall i | 1 <= i < |segs|
      ensures SegIs(segs[i], ordinals[i - 1])
    {
      assert segs[i - 1 + 1] == Decimal(ordinals[i - 1]);
      OrdinalText(ordinals[i - 1]);
    }
    SegmentsParse(segs, ordinals);
    SegsMean(segs, idx, ordinals);
  }

  lemma SegsMean(segs: seq<string>, idx: nat, ordinals: seq<nat>)
    requires |segs| == 1 + |ordinals| && ParseLetterOf(segs[0]) == if idx < FOUR_LETTERS then Some(idx) else None
    requires if forall i | 0 <= i < |ordinals| :: 1 <= ordinals[i] <= MAX_ORDINAL
      then (forall i | 1 <= i < |segs| :: OrdinalSeg(segs[i])) && Ordinals(segs[1..]) == ordinals
      else exists i | 1 <= i < |segs| :: !OrdinalSeg(segs[i])
    ensures ParseSegs(segs) == if Typable(ByLetter(idx, ordinals)) then Some(ByLetter(idx, ordinals)) else None
  {
  }

  /** A piece that is the ordinal's, if the grammar has that ordinal, and otherwise none. */
  predicate SegIs(seg: string, ordinal: nat) {
    if 1 <= ordinal <= MAX_ORDINAL then OrdinalSeg(seg) && OrdinalOf(seg) == ordinal else !OrdinalSeg(seg)
  }

  lemma SegmentsParse(segs: seq<string>, ordinals: seq<nat>)
    requires |segs| == 1 + |ordinals|
    requires forall i | 1 <= i < |segs| :: SegIs(segs[i], ordinals[i - 1])
    ensures if forall i | 0 <= i < |ordinals| :: 1 <= ordinals[i] <= MAX_ORDINAL
      then (forall i | 1 <= i < |segs| :: OrdinalSeg(segs[i])) && Ordinals(segs[1..]) == ordinals
      else exists i | 1 <= i < |segs| :: !OrdinalSeg(segs[i])
  {
    if forall i | 0 <= i < |ordinals| :: 1 <= ordinals[i] <= MAX_ORDINAL {
      forall i | 1 <= i < |segs|
        ensures OrdinalSeg(segs[i]) && Ordinals(segs[1..])[i - 1] == ordinals[i - 1]
      {
        assert SegIs(segs[i], ordinals[i - 1]);
      }
      assert Ordinals(segs[1..]) == ordinals;
    } else {
      var i :| 0 <= i < |ordinals| && !(1 <= ordinals[i] <= MAX_ORDINAL);
      assert SegIs(segs[i + 1], ordinals[i + 1 - 1]);
      assert !OrdinalSeg(segs[i + 1]);
    }
  }

  /** Whatever is accepted is the text of what it means, so no two texts mean the same reference. */
  lemma TextInvertsParse(s: string)
    requires ParseRefOf(s).Some?
    ensures RefText(ParseRefOf(s).value) == s && Typable(ParseRefOf(s).value)
  {
    var r := ParseRefOf(s).value;
    if AllDigits(s) {
      DecimalOfNumber(s);
    } else {
      var segs := Split(s);
      JoinSplit(s);
      LettersInvertParse(segs[0]);
      forall i | 0 <= i < |r.ordinals|
        ensures 1 <= r.ordinals[i] <= MAX_ORDINAL && segs[i + 1] == Decimal(r.ordinals[i])
      {
        assert OrdinalSeg(segs[i + 1]) && segs[1..][i] == segs[i + 1];
        OneDigit(segs[i + 1]);
      }
      assert Segments(r.idx, r.ordinals) == segs;
    }
  }

  lemma OneDigit(seg: string)
    requires OrdinalSeg(seg)
    ensures 1 <= OrdinalOf(seg) <= MAX_ORDINAL && Decimal(OrdinalOf(seg)) == seg
  {
  }

  /** The fallback label of a task outside the listing is not a reference. */
  lemma HashIsRefused(s: string)
    ensures ParseRefOf("#" + s).None?
  {
    var t := "#" + s;
    assert t[0] == '#' && t[1..] == s;
    var segs := Split(t);
    assert segs[0][0] == '#';
    assert !Uppercase(segs[0]);
    LettersInvertParse(segs[0]);
  }

  // ---- one listing's letters ----

  /** Roots in first-seen order; a root's letter is its place. */
  class Letters {
    var roots: seq<Id>

    constructor ()
      ensures Valid() && roots == []
    {
      roots := [];
    }

    ghost predicate Valid()
      reads this
    {
      |roots| <= MAX_ROOTS && forall i, j | 0 <= i < j < |roots| :: roots[i] != roots[j]
    }

    /** The root's place, a new one on first sight while there is room; known places never move. */
    method Place(root: Id) returns (at: Option<nat>)
      requires Valid()
      modifies this
      ensures Valid() && roots == if root in old(roots) || |old(roots)| == MAX_ROOTS then old(roots) else old(roots) + [root]
      ensures at.Some? ==> at.value < |roots| && roots[at.value] == root
      ensures at.None? ==> root !in roots
    {
      for i := 0 to |roots|
        invariant unchanged(this) && root !in roots[..i]
      {
        if roots[i] == root {
          return Some(i);
        }
        assert roots[..i + 1] == roots[..i] + [roots[i]];
      }
      assert roots[..|roots|] == roots;
      if |roots| >= MAX_ROOTS {
        return None;
      }
      roots := roots + [root];
      return Some(|roots| - 1);
    }

    /** `A` for a root, `A.1.3` for a descendant; nothing past the cap. */
    method Render(path: seq<nat>) returns (text: Option<string>)
      requires Valid() && |path| > 0
      modifies this
      ensures Valid()
      ensures roots == if path[0] in old(roots) || |old(roots)| == MAX_ROOTS then old(roots) else old(roots) + [path[0]]
      ensures match text
        case None => path[0] !in roots
        case Some(s) => exists i | 0 <= i < |roots| :: roots[i] == path[0] && s == RefText(ByLetter(i, path[1..]))
    {
      var at := Place(path[0]);
      if at.None? {
        return None;
      }
      var letters := LettersLoop(at.value);
      var out := WithOrdinals(letters, path);
      TextIsTail(at.value, path[1..]);
      text := Some(out);
    }

    static method WithOrdinals(letters: string, path: seq<nat>) returns (out: string)
      requires |path| > 0
      ensures out == letters + Tail(path[1..])
    {
      out := letters;
      for k := 1 to |path|
        invariant out + Tail(path[k..]) == letters + Tail(path[1..])
      {
        assert path[k..][1..] == path[k + 1..];
        TailStep(out, path, k);
        out := out + "." + Decimal(path[k]);
      }
      assert path[|path|..] == [];
    }
  }

  function Tail(ordinals: seq<nat>): string {
    if |ordinals| == 0 then "" else "." + Decimal(ordinals[0]) + Tail(ordinals[1..])
  }

  lemma TailStep(out: string, path: seq<nat>, k: nat)
    requires k < |path|
    ensures out + Tail(path[k..]) == out + "." + Decimal(path[k]) + Tail(path[k + 1..])
  {
    assert path[k..][1..] == path[k + 1..];
  }

  lemma {:induction false} JoinTail(first: string, ordinals: seq<nat>)
    decreases |ordinals|
    ensures Join([first] + seq(|ordinals|, i requires 0 <= i < |ordinals| => Decimal(ordinals[i]))) == first + Tail(ordinals)
  {
    var texts := seq(|ordinals|, i requires 0 <= i < |ordinals| => Decimal(ordinals[i]));
    assert ([first] + texts)[1..] == texts;
    if |ordinals| > 0 {
      JoinTail(Decimal(ordinals[0]), ordinals[1..]);
      var more := seq(|ordinals| - 1, i requires 0 <= i < |ordinals| - 1 => Decimal(ordinals[1..][i]));
      assert texts == [Decimal(ordinals[0])] + more;
    }
  }

  lemma TextIsTail(idx: nat, ordinals: seq<nat>)
    ensures RefText(ByLetter(idx, ordinals)) == LettersOf(idx) + Tail(ordinals)
  {
    JoinTail(LettersOf(idx), ordinals);
  }
}
