/** The total order in which portable histories are replayed, blank-string tests,
    and facts about sorting and permuting sequences. */
module Ordering {

  // ----- strings

  /** Go's unicode.IsSpace. */
  predicate IsSpace(c: char) {
    || '\U{0009}' <= c <= '\U{000D}' || c == ' ' || c == '\U{0085}' || c == '\U{00A0}' || c == '\U{1680}'
    || '\U{2000}' <= c <= '\U{200A}' || c == '\U{2028}' || c == '\U{2029}' || c == '\U{202F}'
    || c == '\U{205F}' || c == '\U{3000}'
  }

  /** strings.TrimSpace leaves nothing. */
  predicate Blank(s: string) {
    forall i :: 0 <= i < |s| ==> IsSpace(s[i])
  }

  /** Lexicographic order on strings. */
  predicate StringLess(a: string, b: string) {
    b != [] && (a == [] || a[0] < b[0] || (a[0] == b[0] && StringLess(a[1..], b[1..])))
  }

  lemma {:induction false} StringTotal(a: string, b: string)
    ensures StringLess(a, b) || StringLess(b, a) || a == b
    ensures !(StringLess(a, b) && StringLess(b, a))
    ensures StringLess(a, b) ==> a != b
  {
    if a != [] && b != [] {
      StringTotal(a[1..], b[1..]);
      if a[0] == b[0] && a[1..] == b[1..] {
        assert a == [a[0]] + a[1..] && b == [b[0]] + b[1..];
      }
    }
  }

  predicate FirstDifference(a: string, b: string, k: int) {
    0 <= k < |a| && k < |b| && a[..k] == b[..k] && a[k] < b[k]
  }

  lemma HeadsAgree(a: string, b: string)
    requires a != [] && b != []
    ensures a <= b ==> a[0] == b[0]
    ensures forall k :: FirstDifference(a, b, k) ==> a[0] == b[0] || (k == 0 && a[0] < b[0])
  {
    forall k | FirstDifference(a, b, k) ensures a[0] == b[0] || (k == 0 && a[0] < b[0]) {
      if k > 0 {
        assert a[..k][0] == a[0] && b[..k][0] == b[0];
      }
    }
  }

  lemma DifferenceShifts(a: string, b: string, k: int)
    requires a != [] && b != [] && a[0] == b[0]
    ensures FirstDifference(a, b, k + 1) <==> FirstDifference(a[1..], b[1..], k)
  {
    if 0 <= k < |a| - 1 && k < |b| - 1 {
      assert a[..k + 1] == [a[0]] + a[1..][..k] && b[..k + 1] == [b[0]] + b[1..][..k];
      assert a[..k + 1][1..] == a[1..][..k] && b[..k + 1][1..] == b[1..][..k];
    }
  }

  /** a comes first exactly when it is a proper beginning of b, or the first place where they
      differ has a smaller character in a. */
  lemma {:induction false} StringLessExactlyWhen(a: string, b: string)
    ensures StringLess(a, b) <==> a < b || exists k :: FirstDifference(a, b, k)
  {
    if a != [] && b != [] {
      HeadsAgree(a, b);
      if a[0] < b[0] {
        assert FirstDifference(a, b, 0);
      } else if a[0] == b[0] {
        var a', b' := a[1..], b[1..];
        StringLessExactlyWhen(a', b');
        assert a == [a[0]] + a' && b == [b[0]] + b';
        assert a < b <==> a' < b';
        if k :| FirstDifference(a', b', k) {
          DifferenceShifts(a, b, k);
          assert FirstDifference(a, b, k + 1);
        }
        if k :| FirstDifference(a, b, k) {
          DifferenceShifts(a, b, k - 1);
          assert FirstDifference(a', b', k - 1);
        }
      }
    }
  }

  lemma {:induction false} StringTransitive(a: string, b: string, c: string)
    requires StringLess(a, b) && StringLess(b, c)
    ensures StringLess(a, c)
  {
    if a != [] && a[0] == b[0] == c[0] {
      StringTransitive(a[1..], b[1..], c[1..]);
    }
  }

  // ----- replay order

  /** Issue time, then tie breaker, then identifier. */
  datatype Key = Key(at: int, tieBreaker: string, id: string)

  predicate Before(a: Key, b: Key) {
    || a.at < b.at
    || (a.at == b.at && (|| StringLess(a.tieBreaker, b.tieBreaker)
                         || (a.tieBreaker == b.tieBreaker && StringLess(a.id, b.id))))
  }

  lemma BeforeTotal(a: Key, b: Key)
    ensures Before(a, b) || Before(b, a) || a == b
    ensures !(Before(a, b) && Before(b, a))
    ensures Before(a, b) ==> a != b
  {
    StringTotal(a.tieBreaker, b.tieBreaker);
    StringTotal(a.id, b.id);
  }

  lemma BeforeTransitive(a: Key, b: Key, c: Key)
    requires Before(a, b) && Before(b, c)
    ensures Before(a, c)
  {
    if StringLess(a.tieBreaker, b.tieBreaker) && StringLess(b.tieBreaker, c.tieBreaker) {
      StringTransitive(a.tieBreaker, b.tieBreaker, c.tieBreaker);
    }
    if StringLess(a.id, b.id) && StringLess(b.id, c.id) {
      StringTransitive(a.id, b.id, c.id);
    }
  }

  ghost predicate Sorted<T>(s: seq<T>, key: T -> Key) {
    forall i, j :: 0 <= i < j < |s| ==> !Before(key(s[j]), key(s[i]))
  }

  /** !Before(b, a) is transitive as well. */
  lemma NotBeforeTransitive(a: Key, b: Key, c: Key)
    requires !Before(b, a) && !Before(c, b)
    ensures !Before(c, a)
  {
    BeforeTotal(a, b);
    BeforeTotal(b, c);
    BeforeTotal(c, a);
    if Before(a, b) && Before(b, c) {
      BeforeTransitive(a, b, c);
    }
  }

  /** What sort.Slice does to a copy of its input. */
  method Sort<T>(s: seq<T>, key: T -> Key) returns (r: seq<T>)
    ensures Arranges(r, s, key)
  {
    r := [];
    for n := 0 to |s|
      invariant Sorted(r, key) && multiset(r) == multiset(s[..n])
    {
      assert s[..n + 1] == s[..n] + [s[n]];
      r := Insert(r, s[n], key);
    }
    assert s[..|s|] == s;
  }

  method Insert<T>(s: seq<T>, x: T, key: T -> Key) returns (r: seq<T>)
    requires Sorted(s, key)
    ensures Sorted(r, key) && multiset(r) == multiset(s) + multiset{x}
  {
    var p := |s|;
    while p > 0 && Before(key(x), key(s[p - 1]))
      invariant 0 <= p <= |s|
      invariant forall i :: p <= i < |s| ==> Before(key(x), key(s[i]))
    {
      p := p - 1;
    }
    InsertSorted(s, x, p, key);
    r := s[..p] + [x] + s[p..];
  }

  lemma InsertSorted<T>(s: seq<T>, x: T, p: nat, key: T -> Key)
    requires Sorted(s, key) && p <= |s|
    requires forall i :: p <= i < |s| ==> Before(key(x), key(s[i]))
    requires p > 0 ==> !Before(key(x), key(s[p - 1]))
    ensures Sorted(s[..p] + [x] + s[p..], key)
    ensures multiset(s[..p] + [x] + s[p..]) == multiset(s) + multiset{x}
  {
    assert s == s[..p] + s[p..];
    var r := s[..p] + [x] + s[p..];
    forall i, j | 0 <= i < j < |r| ensures !Before(key(r[j]), key(r[i])) {
      if i == p {
        BeforeTotal(key(x), key(s[j - 1]));
      } else if j == p && i < p - 1 {
        NotBeforeTransitive(key(s[i]), key(s[p - 1]), key(x));
      }
    }
  }

  /** r is a copy of s in replay order; ties may fall either way. */
  ghost predicate Arranges<T>(r: seq<T>, s: seq<T>, key: T -> Key) {
    Sorted(r, key) && multiset(r) == multiset(s)
  }

  lemma {:induction false} ArrangementExists<T>(s: seq<T>, key: T -> Key)
    ensures exists r :: Arranges(r, s, key)
  {
    if s == [] {
      assert Arranges(s, s, key);
    } else {
      var n := |s| - 1;
      assert s == s[..n] + [s[n]];
      ArrangementExists(s[..n], key);
      var r :| Arranges(r, s[..n], key);
      var p := |r|;
      while p > 0 && Before(key(s[n]), key(r[p - 1]))
        invariant 0 <= p <= |r|
        invariant forall i :: p <= i < |r| ==> Before(key(s[n]), key(r[i]))
      {
        p := p - 1;
      }
      InsertSorted(r, s[n], p, key);
      assert Arranges(r[..p] + [s[n]] + r[p..], s, key);
    }
  }

  /** The head of a sorted sequence comes before nothing that precedes it. */
  lemma HeadIsLeast<T>(s: seq<T>, key: T -> Key, x: T)
    requires Sorted(s, key) && s != [] && x in multiset(s)
    ensures !Before(key(x), key(s[0]))
  {
    var i :| 0 <= i < |s| && s[i] == x;
    if i == 0 {
      BeforeTotal(key(x), key(x));
    }
  }

  predicate KeysIdentify<T(==)>(s: seq<T>, key: T -> Key) {
    forall x, y :: x in s && y in s && key(x) == key(y) ==> x == y
  }

  lemma SortedTail<T>(s: seq<T>, key: T -> Key)
    requires s != [] && Sorted(s, key) && KeysIdentify(s, key)
    ensures Sorted(s[1..], key) && KeysIdentify(s[1..], key)
    ensures multiset(s[1..]) == multiset(s) - multiset{s[0]}
  {
    assert s == [s[0]] + s[1..];
    assert forall x :: x in s[1..] ==> x in s;
  }

  lemma SameHead<T>(a: seq<T>, b: seq<T>, key: T -> Key)
    requires Sorted(a, key) && Sorted(b, key) && multiset(a) == multiset(b) && a != [] && b != []
    requires KeysIdentify(a, key)
    ensures a[0] == b[0]
  {
    assert b[0] in multiset(a) && a[0] in multiset(b);
    HeadIsLeast(a, key, b[0]);
    HeadIsLeast(b, key, a[0]);
    BeforeTotal(key(a[0]), key(b[0]));
    assert b[0] in a;
  }

  lemma SameTails<T>(a: seq<T>, b: seq<T>)
    requires multiset(a) == multiset(b) && a != [] && b != [] && a[0] == b[0]
    ensures multiset(a[1..]) == multiset(b[1..])
  {
    assert a == [a[0]] + a[1..] && b == [b[0]] + b[1..];
    assert multiset(a[1..]) == multiset(a) - multiset{a[0]};
    assert multiset(b[1..]) == multiset(b) - multiset{b[0]};
  }

  /** Sorting leaves nothing to chance when equal keys mean equal elements. */
  lemma {:induction false} SortedUnique<T>(a: seq<T>, b: seq<T>, key: T -> Key)
    requires Sorted(a, key) && Sorted(b, key) && multiset(a) == multiset(b)
    requires KeysIdentify(a, key) && KeysIdentify(b, key)
    ensures a == b
  {
    assert |multiset(a)| == |multiset(b)|;
    if a != [] {
      SameHead(a, b, key);
      SameTails(a, b);
      SortedTail(a, key);
      SortedTail(b, key);
      SortedUnique(a[1..], b[1..], key);
      assert a == [a[0]] + a[1..] && b == [b[0]] + b[1..];
    }
  }

  // ----- distinct identifiers

  predicate Distinct<T>(s: seq<T>, id: T -> string) {
    forall i, j :: 0 <= i < j < |s| ==> id(s[i]) != id(s[j])
  }

  function Ids<T>(s: seq<T>, id: T -> string): set<string> {
    set i | 0 <= i < |s| :: id(s[i])
  }

  lemma IdsSnoc<T>(s: seq<T>, x: T, id: T -> string)
    ensures Ids(s + [x], id) == Ids(s, id) + {id(x)}
  {
    var t := s + [x];
    forall k | k in Ids(t, id) ensures k in Ids(s, id) + {id(x)} {
      var i :| 0 <= i < |t| && id(t[i]) == k;
      if i < |s| { assert id(s[i]) == k; }
    }
    forall k | k in Ids(s, id) ensures k in Ids(t, id) {
      var i :| 0 <= i < |s| && id(s[i]) == k;
      assert id(t[i]) == k;
    }
    assert id(t[|s|]) == id(x);
  }

  lemma DistinctSnoc<T>(s: seq<T>, x: T, id: T -> string)
    ensures Distinct(s + [x], id) <==> Distinct(s, id) && id(x) !in Ids(s, id)
  {
    var t := s + [x];
    assert forall i :: 0 <= i < |s| ==> t[i] == s[i];
    if Distinct(t, id) {
      forall i | 0 <= i < |s| ensures id(s[i]) != id(x) {
        assert id(t[i]) != id(t[|s|]);
      }
    }
    if Distinct(s, id) && id(x) !in Ids(s, id) {
      forall i, j | 0 <= i < j < |t| ensures id(t[i]) != id(t[j]) {
        assert id(s[i]) in Ids(s, id);
      }
    }
  }

  lemma {:induction false} DistinctCount<T>(s: seq<T>, id: T -> string)
    ensures |Ids(s, id)| <= |s|
    ensures Distinct(s, id) <==> |Ids(s, id)| == |s|
  {
    if s != [] {
      var init, x := s[..|s| - 1], s[|s| - 1];
      assert s == init + [x];
      DistinctCount(init, id);
      IdsSnoc(init, x, id);
      DistinctSnoc(init, x, id);
      assert id(x) in Ids(init, id) ==> Ids(s, id) == Ids(init, id);
    }
  }

  lemma PermutedIds<T>(a: seq<T>, b: seq<T>, id: T -> string)
    requires multiset(a) == multiset(b)
    ensures Ids(a, id) == Ids(b, id) && |a| == |b|
    ensures Distinct(a, id) <==> Distinct(b, id)
  {
    assert |multiset(a)| == |multiset(b)|;
    forall i | 0 <= i < |a| ensures id(a[i]) in Ids(b, id) {
      assert a[i] in multiset(b);
    }
    forall i | 0 <= i < |b| ensures id(b[i]) in Ids(a, id) {
      assert b[i] in multiset(a);
    }
    DistinctCount(a, id);
    DistinctCount(b, id);
  }
}
