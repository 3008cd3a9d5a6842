/** Go's string order, and sorting of lists with distinct keys. */
module Ordering {

  /** a < b: lexicographic by code point, which is the order of the UTF-8 bytes. */
  predicate Less(a: string, b: string) {
    if b == "" then false
    else if a == "" then true
    else a[0] < b[0] || (a[0] == b[0] && Less(a[1..], b[1..]))
  }

  /** Go's string order: a common prefix, after which a ends or has the smaller character. */
  lemma {:induction false} LessExactly(a: string, b: string)
    ensures Less(a, b) <==> exists k: nat :: k <= |a| && k < |b| && a[..k] == b[..k] && (k == |a| || a[k] < b[k])
  {
    if a != "" && b != "" && a[0] == b[0] {
      LessExactly(a[1..], b[1..]);
      if k: nat :| k < |a| && k < |b| - 1 && a[1..][..k] == b[1..][..k] && (k == |a| - 1 || a[1..][k] < b[1..][k]) {
        assert a[..k + 1] == [a[0]] + a[1..][..k] && b[..k + 1] == [b[0]] + b[1..][..k];
        assert a[..k + 1] == b[..k + 1];
      }
      if k: nat :| k <= |a| && k < |b| && a[..k] == b[..k] && (k == |a| || a[k] < b[k]) {
        assert k > 0;
        assert a[1..][..k - 1] == a[..k][1..] && b[1..][..k - 1] == b[..k][1..];
      }
    } else if b != "" && (a == "" || a[0] < b[0]) {
      assert a[..0] == b[..0];
    } else {
      SamePrefix(a, b);
    }
  }

  lemma SamePrefix(a: string, b: string)
    ensures forall k | 0 < k <= |a| && k <= |b| :: a[..k] == b[..k] ==> a[0] == b[0]
  {
    forall k | 0 < k <= |a| && k <= |b| && a[..k] == b[..k] ensures a[0] == b[0] {
      assert a[..k][0] == a[0] && b[..k][0] == b[0];
    }
  }

  lemma {:induction false} LessTotal(a: string, b: string)
    ensures a == b || Less(a, b) || Less(b, a)
  {
    if a != "" && b != "" && a[0] == b[0] {
      LessTotal(a[1..], b[1..]);
      assert a == [a[0]] + a[1..] && b == [b[0]] + b[1..];
    }
  }

  lemma {:induction false} LessTransitive(a: string, b: string, c: string)
    requires Less(a, b) && Less(b, c)
    ensures Less(a, c)
  {
    if a != "" && a[0] == b[0] == c[0] { LessTransitive(a[1..], b[1..], c[1..]); }
  }

  lemma {:induction false} LessIrreflexive(a: string)
    ensures !Less(a, a)
  {
    if a != "" { LessIrreflexive(a[1..]); }
  }

  predicate Increasing(ks: seq<string>) {
    forall i, j | 0 <= i < j < |ks| :: Less(ks[i], ks[j])
  }

  predicate Above(ks: seq<string>, k: string) { forall i | 0 <= i < |ks| :: Less(k, ks[i]) }

  lemma IncreasingTail(ks: seq<string>)
    requires Increasing(ks) && ks != []
    ensures Increasing(ks[1..]) && Above(ks[1..], ks[0])
  {
  }

  lemma IncreasingCons(k: string, ks: seq<string>)
    requires Increasing(ks) && Above(ks, k)
    ensures Increasing([k] + ks)
  {
  }

  lemma {:induction false} AboveExcludes(ks: seq<string>, k: string)
    requires Above(ks, k)
    ensures k !in ks
  {
    LessIrreflexive(k);
  }

  lemma {:induction false} SameHead(a: seq<string>, b: seq<string>)
    requires Increasing(a) && Increasing(b) && a != [] && b != []
    requires a[0] in b && b[0] in a
    ensures a[0] == b[0]
  {
    IncreasingTail(a);
    IncreasingTail(b);
    assert a == [a[0]] + a[1..] && b == [b[0]] + b[1..];
    if a[0] != b[0] {
      LessTransitive(a[0], b[0], a[0]);
      LessIrreflexive(a[0]);
    }
  }

  /** An increasing list is determined by its elements. */
  lemma {:induction false} IncreasingUnique(a: seq<string>, b: seq<string>)
    requires Increasing(a) && Increasing(b)
    requires forall k :: k in a <==> k in b
    ensures a == b
  {
    assert b != [] ==> b[0] in b;
    if a != [] {
      assert a[0] in a;
      SameHead(a, b);
      IncreasingTail(a);
      IncreasingTail(b);
      AboveExcludes(a[1..], a[0]);
      AboveExcludes(b[1..], b[0]);
      assert a == [a[0]] + a[1..] && b == [b[0]] + b[1..];
      forall k ensures k in a[1..] <==> k in b[1..] {
        assert k in a[1..] <==> k in a && k != a[0];
        assert k in b[1..] <==> k in b && k != b[0];
      }
      IncreasingUnique(a[1..], b[1..]);
    }
  }

  // ---------- Insertion ----------

  function Keys<T>(xs: seq<T>, key: T -> string): seq<string> {
    seq(|xs|, i requires 0 <= i < |xs| => key(xs[i]))
  }

  function InsertBy<T>(xs: seq<T>, x: T, key: T -> string): seq<T> {
    if xs == [] || Less(key(x), key(xs[0])) then [x] + xs else [xs[0]] + InsertBy(xs[1..], x, key)
  }

  lemma {:induction false} InsertByMembers<T>(xs: seq<T>, x: T, key: T -> string)
    ensures forall y :: y in InsertBy(xs, x, key) <==> y == x || y in xs
  {
    if xs != [] && !Less(key(x), key(xs[0])) {
      InsertByMembers(xs[1..], x, key);
      assert xs == [xs[0]] + xs[1..];
    }
  }

  lemma {:induction false} AboveChain(ks: seq<string>, k: string, low: string)
    requires Above(ks, k) && Less(low, k)
    ensures Above(ks, low)
  {
    forall i | 0 <= i < |ks| ensures Less(low, ks[i]) { LessTransitive(low, k, ks[i]); }
  }

  lemma {:induction false} InsertByAbove<T>(xs: seq<T>, x: T, key: T -> string, low: string)
    requires Above(Keys(xs, key), low) && Less(low, key(x))
    ensures Above(Keys(InsertBy(xs, x, key), key), low)
  {
    if xs != [] && !Less(key(x), key(xs[0])) {
      var ks := Keys(xs, key);
      assert Keys(xs[1..], key) == ks[1..];
      forall i | 0 <= i < |ks| - 1 ensures Less(low, ks[1..][i]) { assert ks[1..][i] == ks[i + 1]; }
      InsertByAbove(xs[1..], x, key, low);
      var rest := InsertBy(xs[1..], x, key);
      assert Keys([xs[0]] + rest, key) == [ks[0]] + Keys(rest, key);
    } else {
      assert Keys([x] + xs, key) == [key(x)] + Keys(xs, key);
    }
  }

  lemma {:induction false} InsertByIncreasing<T>(xs: seq<T>, x: T, key: T -> string)
    requires Increasing(Keys(xs, key)) && key(x) !in Keys(xs, key)
    ensures Increasing(Keys(InsertBy(xs, x, key), key))
  {
    var ks := Keys(xs, key);
    if xs == [] || Less(key(x), key(xs[0])) {
      assert Keys([x] + xs, key) == [key(x)] + ks;
      if xs != [] {
        IncreasingTail(ks);
        AboveChain(ks[1..], ks[0], key(x));
        assert ks == [ks[0]] + ks[1..];
      }
      IncreasingCons(key(x), ks);
    } else {
      IncreasingTail(ks);
      assert Keys(xs[1..], key) == ks[1..];
      InsertByIncreasing(xs[1..], x, key);
      assert ks[0] in ks;
      LessTotal(ks[0], key(x));
      InsertByAbove(xs[1..], x, key, ks[0]);
      var rest := InsertBy(xs[1..], x, key);
      IncreasingCons(ks[0], Keys(rest, key));
      assert Keys([xs[0]] + rest, key) == [ks[0]] + Keys(rest, key);
    }
  }

  /** sort.Slice by a key that differs between any two elements. */
  method SortBy<T>(xs: seq<T>, key: T -> string) returns (r: seq<T>)
    requires forall i, j | 0 <= i < j < |xs| :: key(xs[i]) != key(xs[j])
    ensures Increasing(Keys(r, key))
    ensures forall x :: x in r <==> x in xs
  {
    r := [];
    for n := 0 to |xs|
      invariant Increasing(Keys(r, key))
      invariant forall x :: x in r <==> x in xs[..n]
    {
      forall i | 0 <= i < |r| ensures Keys(r, key)[i] != key(xs[n]) {
        assert r[i] in r;
        var j :| 0 <= j < n && xs[..n][j] == r[i];
      }
      InsertByIncreasing(r, xs[n], key);
      InsertByMembers(r, xs[n], key);
      assert xs[..n + 1] == xs[..n] + [xs[n]];
      r := InsertBy(r, xs[n], key);
    }
    assert xs[..|xs|] == xs;
  }

  // ---------- The sorted list of a set ----------

  /** The elements of s in increasing order. */
  ghost function Listing(s: set<string>): (ks: seq<string>)
    ensures Increasing(ks) && forall k :: k in ks <==> k in s
  {
    if s == {} then []
    else
      var k :| k in s;
      var rest := Listing(s - {k});
      InsertByMembers(rest, k, (x: string) => x);
      assert Keys(rest, (x: string) => x) == rest;
      InsertByIncreasing(rest, k, (x: string) => x);
      var r := InsertBy(rest, k, (x: string) => x);
      assert Keys(r, (x: string) => x) == r;
      r
  }

  lemma {:induction false} ListingIs(ks: seq<string>, s: set<string>)
    requires Increasing(ks) && forall k :: k in ks <==> k in s
    ensures ks == Listing(s)
  {
    IncreasingUnique(ks, Listing(s));
  }

  /** The elements of ks that lie in s, in order. */
  function Only(ks: seq<string>, s: set<string>): seq<string> {
    if ks == [] then [] else if ks[0] in s then [ks[0]] + Only(ks[1..], s) else Only(ks[1..], s)
  }

  lemma {:induction false} OnlyMembers(ks: seq<string>, s: set<string>)
    ensures forall k :: k in Only(ks, s) <==> k in ks && k in s
  {
    if ks != [] {
      OnlyMembers(ks[1..], s);
      assert ks == [ks[0]] + ks[1..];
    }
  }

  lemma {:induction false} OnlyIncreasing(ks: seq<string>, s: set<string>)
    requires Increasing(ks)
    ensures Increasing(Only(ks, s))
  {
    if ks != [] {
      IncreasingTail(ks);
      OnlyIncreasing(ks[1..], s);
      OnlyMembers(ks[1..], s);
      if ks[0] in s {
        var rest := Only(ks[1..], s);
        forall i | 0 <= i < |rest| ensures Less(ks[0], rest[i]) {
          assert rest[i] in rest;
          var j :| 0 <= j < |ks[1..]| && ks[1..][j] == rest[i];
        }
        IncreasingCons(ks[0], rest);
      }
    }
  }

  /** Listing a part of a set is the same part of the listing. */
  lemma {:induction false} ListingOnly(s: set<string>, t: set<string>)
    ensures Listing(s * t) == Only(Listing(s), t)
  {
    OnlyMembers(Listing(s), t);
    OnlyIncreasing(Listing(s), t);
    ListingIs(Only(Listing(s), t), s * t);
  }

  lemma {:induction false} ListingLength(s: set<string>)
    ensures |Listing(s)| == |s|
  {
    IncreasingLength(Listing(s), s);
  }

  lemma {:induction false} IncreasingLength(ks: seq<string>, s: set<string>)
    requires Increasing(ks) && forall k :: k in ks <==> k in s
    ensures |ks| == |s|
  {
    if ks == [] {
      assert s == {};
    } else {
      IncreasingTail(ks);
      AboveExcludes(ks[1..], ks[0]);
      assert ks == [ks[0]] + ks[1..];
      assert ks[0] in s;
      IncreasingLength(ks[1..], s - {ks[0]});
    }
  }
}
