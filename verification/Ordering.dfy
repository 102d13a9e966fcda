/** Bytewise string order, `sort.Strings`, and the deduplicating sorts that the
    repository builds on top of it.  Each `char` stands for one byte of a Go string. */
module Ordering {

  function Elements<T(!new)>(s: seq<T>): (r: set<T>)
    ensures forall x :: x in r <==> x in s
  {
    set x | x in s
  }

  lemma ElementsOfEmpty<T(!new)>(s: seq<T>)
    ensures Elements(s) == {} <==> s == []
  {
    if s != [] {
      assert s[0] in Elements(s);
    }
  }

  /** Go's `<` on strings. */
  predicate Less(a: string, b: string) {
    |b| > 0 && (|a| == 0 || a[0] < b[0] || (a[0] == b[0] && Less(a[1..], b[1..])))
  }

  /** The order of two strings is decided where they first differ. */
  lemma {:induction false} LessAtFirstDifference(a: string, b: string)
    ensures Less(a, b) <==> exists k :: 0 <= k <= |a| && k < |b| && a[..k] == b[..k] && (k == |a| || a[k] < b[k])
  {
    if Less(a, b) {
      var k := DiffersAt(a, b);
    }
    if k :| 0 <= k <= |a| && k < |b| && a[..k] == b[..k] && (k == |a| || a[k] < b[k]) {
      LessFrom(a, b, k);
    }
  }

  lemma {:induction false} DiffersAt(a: string, b: string) returns (k: nat)
    requires Less(a, b)
    ensures k <= |a| && k < |b| && a[..k] == b[..k] && (k == |a| || a[k] < b[k])
  {
    k := 0;
    if |a| > 0 && a[0] == b[0] {
      var j := DiffersAt(a[1..], b[1..]);
      k := j + 1;
      assert a[..k] == [a[0]] + a[1..][..j] && b[..k] == [b[0]] + b[1..][..j];
    }
  }

  lemma {:induction false} LessFrom(a: string, b: string, k: nat)
    requires k <= |a| && k < |b| && a[..k] == b[..k] && (k == |a| || a[k] < b[k])
    ensures Less(a, b)
  {
    if k > 0 {
      assert a[0] == a[..k][0] == b[..k][0] == b[0];
      assert a[1..][..k - 1] == a[..k][1..] == b[..k][1..] == b[1..][..k - 1];
      LessFrom(a[1..], b[1..], k - 1);
    }
  }

  predicate AtMost(a: string, b: string) {
    a == b || Less(a, b)
  }

  lemma {:induction false} LessIsStrict(a: string, b: string)
    ensures !(Less(a, b) && Less(b, a))
    ensures !Less(a, a)
    ensures a != b ==> Less(a, b) || Less(b, a)
  {
    if |a| > 0 && |b| > 0 {
      LessIsStrict(a[1..], b[1..]);
      assert a == [a[0]] + a[1..] && b == [b[0]] + b[1..];
    }
    if |a| > 0 {
      LessIsStrict(a[1..], a[1..]);
    }
  }

  lemma {:induction false} LessIsTransitive(a: string, b: string, c: string)
    requires Less(a, b) && Less(b, c)
    ensures Less(a, c)
  {
    if |a| > 0 && a[0] == b[0] == c[0] {
      LessIsTransitive(a[1..], b[1..], c[1..]);
    }
  }

  predicate Sorted(s: seq<string>) {
    forall i, j :: 0 <= i < j < |s| ==> AtMost(s[i], s[j])
  }

  /** Sorted without duplicates. */
  predicate Ascending(s: seq<string>) {
    forall i, j :: 0 <= i < j < |s| ==> Less(s[i], s[j])
  }

  function Insert(x: string, s: seq<string>): (r: seq<string>)
    ensures multiset(r) == multiset(s) + multiset{x}
  {
    if s == [] then [x]
    else if AtMost(x, s[0]) then [x] + s
    else
      assert s == [s[0]] + s[1..];
      [s[0]] + Insert(x, s[1..])
  }

  lemma {:induction false} InsertKeepsSorted(x: string, s: seq<string>)
    requires Sorted(s)
    ensures Sorted(Insert(x, s))
  {
    if s == [] {
    } else if AtMost(x, s[0]) {
      forall j | 0 < j < |s| ensures AtMost(x, s[j]) {
        if x != s[0] && s[0] != s[j] {
          LessIsTransitive(x, s[0], s[j]);
        }
      }
    } else {
      InsertKeepsSorted(x, s[1..]);
      LessIsStrict(x, s[0]);
      var rest := Insert(x, s[1..]);
      forall j | 0 <= j < |rest| ensures AtMost(s[0], rest[j]) {
        assert rest[j] in multiset(s[1..]) + multiset{x};
      }
    }
  }

  /** `sort.Strings`. */
  function SortStrings(s: seq<string>): (r: seq<string>)
    ensures multiset(r) == multiset(s)
  {
    if s == [] then []
    else
      assert s == [s[0]] + s[1..];
      Insert(s[0], SortStrings(s[1..]))
  }

  lemma {:induction false} SortStringsSorts(s: seq<string>)
    ensures Sorted(SortStrings(s))
    ensures forall x :: x in SortStrings(s) <==> x in s
  {
    if s != [] {
      SortStringsSorts(s[1..]);
      InsertKeepsSorted(s[0], SortStrings(s[1..]));
    }
    forall x ensures x in SortStrings(s) <==> x in s {
      assert x in s <==> x in multiset(s);
      assert x in SortStrings(s) <==> x in multiset(SortStrings(s));
    }
  }

  predicate Distinct<T(==)>(s: seq<T>) {
    forall i, j :: 0 <= i < j < |s| ==> s[i] != s[j]
  }

  lemma {:induction false} DistinctByCount<T>(s: seq<T>)
    ensures Distinct(s) <==> forall x :: x in s ==> multiset(s)[x] == 1
  {
    if s != [] {
      var t := s[1..];
      assert s == [s[0]] + t;
      assert multiset(s) == multiset{s[0]} + multiset(t);
      DistinctByCount(t);
      if Distinct(s) {
        forall i, j | 0 <= i < j < |t| ensures t[i] != t[j] {
          assert s[i + 1] != s[j + 1];
        }
        assert s[0] !in t;
        forall x | x in s ensures multiset(s)[x] == 1 {
          if x in t { assert multiset(t)[x] == 1; } else { assert x !in multiset(t); }
        }
      } else {
        var i, j :| 0 <= i < j < |s| && s[i] == s[j];
        assert s[j] == t[j - 1] && s[j] in multiset(t);
        if i > 0 {
          assert !(t[i - 1] != t[j - 1]);
          assert !Distinct(t);
          var x :| x in t && multiset(t)[x] != 1;
          assert x in multiset(t);
          assert x in s && multiset(s)[x] != 1;
        } else {
          assert multiset(s)[s[0]] >= 2;
        }
      }
    }
  }

  /** Sorting a duplicate-free list gives a strictly ascending one with the same elements. */
  lemma SortDistinct(s: seq<string>)
    requires Distinct(s)
    ensures Ascending(SortStrings(s)) && Elements(SortStrings(s)) == Elements(s)
  {
    SortStringsSorts(s);
    DistinctByCount(s);
    var r := SortStrings(s);
    DistinctByCount(r);
    assert forall x :: x in r ==> multiset(r)[x] == 1;
  }

  lemma AscendingIsDistinct(s: seq<string>)
    requires Ascending(s)
    ensures Distinct(s)
  {
    forall i, j | 0 <= i < j < |s| ensures s[i] != s[j] {
      LessIsStrict(s[i], s[j]);
    }
  }

  /** An ascending list is determined by its elements. */
  lemma {:induction false} AscendingIsUnique(s: seq<string>, t: seq<string>)
    requires Ascending(s) && Ascending(t)
    requires Elements(s) == Elements(t)
    ensures s == t
  {
    if s == [] || t == [] {
      ElementsOfEmpty(s);
      ElementsOfEmpty(t);
    } else {
      assert s[0] in Elements(t) && t[0] in Elements(s);
      LessIsStrict(s[0], t[0]);
      assert s[0] == t[0];
      AscendingIsDistinct(s);
      AscendingIsDistinct(t);
      assert Elements(s[1..]) == Elements(s) - {s[0]};
      assert Elements(t[1..]) == Elements(t) - {t[0]};
      AscendingIsUnique(s[1..], t[1..]);
      assert s == [s[0]] + s[1..] && t == [t[0]] + t[1..];
    }
  }

  ghost function AnyList(keys: set<string>): (r: seq<string>)
    ensures Distinct(r) && Elements(r) == keys
  {
    if keys == {} then []
    else
      var k :| k in keys;
      assert k !in AnyList(keys - {k});
      AnyList(keys - {k}) + [k]
  }

  /** The one ascending list of a finite set. */
  ghost function SortedList(keys: set<string>): (r: seq<string>)
    ensures Ascending(r) && Elements(r) == keys
  {
    SortDistinct(AnyList(keys));
    SortStrings(AnyList(keys))
  }

  /** The sorted key list of a set or map (`sortedSetKeys`, internal/backend/state_engine.go:1259). */
  method SortedSetKeys(keys: set<string>) returns (r: seq<string>)
    ensures Ascending(r) && Elements(r) == keys
  {
    var todo, list := keys, [];
    while todo != {}
      invariant Elements(list) + todo == keys && Elements(list) !! todo
      invariant Distinct(list)
    {
      var k :| k in todo;
      assert k !in list;
      todo, list := todo - {k}, list + [k];
    }
    SortDistinct(list);
    r := SortStrings(list);
  }

  /** The first `i` strings are where they belong. */
  predicate Settled(s: seq<string>, i: int) {
    forall k, l :: 0 <= k < i && k < l < |s| ==> AtMost(s[k], s[l])
  }

  /** Position `i` holds the least of the strings from there up to `j`. */
  predicate LeastUpTo(s: seq<string>, i: nat, j: int)
    requires i < |s|
  {
    forall l :: i < l < j && l < |s| ==> AtMost(s[i], s[l])
  }

  lemma Exchange(s: seq<string>, i: nat, j: nat)
    requires i < j < |s| && Settled(s, i) && LeastUpTo(s, i, j) && Less(s[j], s[i])
    ensures var t := s[i := s[j]][j := s[i]];
            Settled(t, i) && LeastUpTo(t, i, j + 1) && multiset(t) == multiset(s)
  {
    var t := s[i := s[j]][j := s[i]];
    forall l | i < l < j ensures AtMost(t[i], t[l]) {
      if s[i] != s[l] { LessIsTransitive(s[j], s[i], s[l]); }
    }
    forall k, l | 0 <= k < i && k < l < |t| ensures AtMost(t[k], t[l]) {
      assert AtMost(s[k], s[i]) && AtMost(s[k], s[j]) && AtMost(s[k], s[l]);
    }
  }

  /** The exchange sort written out in internal/configscope/discovery.go:326-334. */
  method ExchangeSort(xs: seq<string>) returns (out: seq<string>)
    ensures Sorted(out) && multiset(out) == multiset(xs)
  {
    out := xs;
    var i := 0;
    while i < |out| - 1
      invariant 0 <= i && |out| == |xs| && (i <= |out| - 1 || |out| == 0)
      invariant multiset(out) == multiset(xs) && Settled(out, i)
    {
      var j := i + 1;
      while j < |out|
        invariant i < j <= |out| == |xs|
        invariant multiset(out) == multiset(xs) && Settled(out, i) && LeastUpTo(out, i, j)
      {
        if Less(out[j], out[i]) {
          Exchange(out, i, j);
          out := out[i := out[j]][j := out[i]];
        } else {
          LessIsStrict(out[i], out[j]);
        }
        j := j + 1;
      }
      i := i + 1;
    }
  }

  /** `dedupeSortedStrings` (internal/configscope/discovery.go:309, internal/backend/state_engine.go:1268):
      empty strings dropped, first occurrences kept, then sorted. */
  method DedupeSortedStrings(xs: seq<string>) returns (out: seq<string>)
    ensures Ascending(out)
    ensures Elements(out) == Elements(xs) - {""}
  {
    var seen: set<string>, list: seq<string> := {}, [];
    for i := 0 to |xs|
      invariant seen == Elements(list) == Elements(xs[..i]) - {""}
      invariant Distinct(list)
    {
      assert xs[..i + 1] == xs[..i] + [xs[i]];
      if xs[i] != "" && xs[i] !in seen {
        seen := seen + {xs[i]};
        list := list + [xs[i]];
      }
    }
    assert xs[..|xs|] == xs;
    out := ExchangeSort(list);
    DistinctByCount(list);
    DistinctByCount(out);
    forall x ensures x in out <==> x in list {
      assert x in out <==> x in multiset(out);
      assert x in list <==> x in multiset(list);
    }
  }
}
