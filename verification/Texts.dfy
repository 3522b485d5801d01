/** The order of texts by code point, and the listing of a set of texts in that order. */
module Texts {
  import opened Collections

  predicate TextBefore(a: string, b: string) {
    if |b| == 0 then false
    else if |a| == 0 then true
    else a[0] < b[0] || (a[0] == b[0] && TextBefore(a[1..], b[1..]))
  }

  /** The two first differ at `k`, or the first ends there. */
  ghost predicate PartAt(a: string, b: string, k: nat) {
    k <= |a| && k < |b| && a[..k] == b[..k] && (k == |a| || a[k] < b[k])
  }

  lemma PartLater(a: string, b: string, k: nat)
    requires |a| > 0 && |b| > 0
    ensures PartAt(a, b, k + 1) <==> a[0] == b[0] && PartAt(a[1..], b[1..], k)
  {
    if k < |a| && k + 1 < |b| {
      assert a[..k + 1] == [a[0]] + a[1..][..k] && b[..k + 1] == [b[0]] + b[1..][..k];
    }
  }

  /** Where two texts part, the smaller character comes first; a text comes before those that it begins. */
  lemma {:induction false} TextBeforeMeans(a: string, b: string)
    ensures TextBefore(a, b) <==> exists k: nat :: PartAt(a, b, k)
  {
    if |a| > 0 && |b| > 0 {
      TextBeforeMeans(a[1..], b[1..]);
      PartsFirst(a, b);
      if a[0] == b[0] && TextBefore(a, b) {
        var k: nat :| PartAt(a[1..], b[1..], k);
        PartLater(a, b, k);
      }
      if k: nat :| PartAt(a, b, k) {
        if k > 0 {
          PartLater(a, b, k - 1);
        }
      }
    } else {
      PartsFirst(a, b);
    }
  }

  lemma PartsFirst(a: string, b: string)
    ensures PartAt(a, b, 0) <==> |b| > 0 && (|a| == 0 || a[0] < b[0])
  {
  }

  /** Each text once, in ascending order. */
  ghost predicate Ascending(texts: seq<string>) {
    forall i, j | 0 <= i < j < |texts| :: TextBefore(texts[i], texts[j])
  }

  lemma {:induction false} TextsChain(a: string, b: string, c: string)
    requires TextBefore(a, b) && TextBefore(b, c)
    ensures TextBefore(a, c)
  {
    if |a| > 0 && a[0] == b[0] == c[0] {
      TextsChain(a[1..], b[1..], c[1..]);
    }
  }

  lemma {:induction false} TextsCompare(a: string, b: string)
    ensures a == b || TextBefore(a, b) || TextBefore(b, a)
  {
    if |a| > 0 && |b| > 0 && a[0] == b[0] {
      TextsCompare(a[1..], b[1..]);
      assert a == [a[0]] + a[1..] && b == [b[0]] + b[1..];
    }
  }

  /** A set has one ascending listing. */
  lemma {:induction false} OneListing(a: seq<string>, b: seq<string>)
    requires Ascending(a) && Ascending(b) && ToSet(a) == ToSet(b)
    ensures a == b
    decreases |a|
  {
    assert |a| > 0 ==> a[0] in ToSet(a);
    assert |b| > 0 ==> b[0] in ToSet(b);
    if |a| > 0 && |b| > 0 {
      FirstIsLeast(a, b);
      RestIsLess(a);
      RestIsLess(b);
      OneListing(a[1..], b[1..]);
    }
  }

  lemma {:induction false} NotBeforeItself(a: string)
    ensures !TextBefore(a, a)
  {
    if |a| > 0 {
      NotBeforeItself(a[1..]);
    }
  }

  lemma RestIsLess(a: seq<string>)
    requires Ascending(a) && |a| > 0
    ensures ToSet(a[1..]) == ToSet(a) - {a[0]}
  {
    NotBeforeItself(a[0]);
    assert forall x :: x in a <==> x == a[0] || x in a[1..];
  }

  lemma FirstIsLeast(a: seq<string>, b: seq<string>)
    requires Ascending(a) && Ascending(b) && ToSet(a) == ToSet(b) && |a| > 0 && |b| > 0
    ensures a[0] == b[0]
  {
    assert a[0] in ToSet(b) && b[0] in ToSet(a);
    var i :| 0 <= i < |b| && b[i] == a[0];
    var j :| 0 <= j < |a| && a[j] == b[0];
    if i > 0 && j > 0 {
      TextsChain(a[0], b[0], a[0]);
      NotBeforeItself(a[0]);
    }
  }

  /** The texts of a set, each once, in ascending order. */
  method Listed(texts: set<string>) returns (r: seq<string>)
    ensures Ascending(r) && ToSet(r) == texts
  {
    r := [];
    var left := texts;
    while left != {}
      invariant left <= texts && Ascending(r) && ToSet(r) == texts - left
      decreases |left|
    {
      var t :| t in left;
      left := left - {t};
      r := Inserted(r, t);
    }
  }

  method Inserted(sorted: seq<string>, t: string) returns (r: seq<string>)
    requires Ascending(sorted) && t !in sorted
    ensures Ascending(r) && ToSet(r) == ToSet(sorted) + {t}
  {
    var at := 0;
    while at < |sorted| && TextBefore(sorted[at], t)
      invariant at <= |sorted|
      invariant forall i | 0 <= i < at :: TextBefore(sorted[i], t)
    {
      at := at + 1;
    }
    r := sorted[..at] + [t] + sorted[at..];
    InsertedIsAscending(sorted, t, at, r);
    assert sorted == sorted[..at] + sorted[at..];
    assert forall x :: x in r <==> x == t || x in sorted;
  }

  lemma InsertedIsAscending(sorted: seq<string>, t: string, at: nat, r: seq<string>)
    requires Ascending(sorted) && t !in sorted && at <= |sorted| && r == sorted[..at] + [t] + sorted[at..]
    requires forall i | 0 <= i < at :: TextBefore(sorted[i], t)
    requires at < |sorted| ==> !TextBefore(sorted[at], t)
    ensures Ascending(r)
  {
    forall j | at <= j < |sorted|
      ensures TextBefore(t, sorted[j])
    {
      TextsCompare(t, sorted[at]);
      if j > at {
        TextsChain(t, sorted[at], sorted[j]);
      }
    }
    forall i, j | 0 <= i < j < |r|
      ensures TextBefore(r[i], r[j])
    {
      assert i < at ==> r[i] == sorted[i];
      assert j > at ==> r[j] == sorted[j - 1];
      assert i > at ==> r[i] == sorted[i - 1];
      assert j < at ==> r[j] == sorted[j];
    }
  }
}
