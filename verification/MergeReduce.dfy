/** The word count of the COMPSs example (examples/compss/python/wordcount_merge.py): partial counts are
    combined pairwise through a rotating first-in first-out queue. */
module MergeReduce {
  import opened Options

  // ---------- The queue as a value ----------

  /** What the queue q reduces to: the two front values are combined and go to the back. */
  function Reduce<T>(f: (T, T) -> T, q: seq<T>): T
    requires q != []
    decreases |q|
  {
    if |q| == 1 then q[0] else Reduce(f, q[2..] + [f(q[0], q[1])])
  }

  /** The same rotation on segments of the input, combined by concatenation. */
  function Rotate<T>(q: seq<seq<T>>): seq<T>
    requires q != []
    decreases |q|
  {
    if |q| == 1 then q[0] else Rotate(q[2..] + [q[0] + q[1]])
  }

  function Flatten<T>(q: seq<seq<T>>): seq<T> {
    if q == [] then [] else q[0] + Flatten(q[1..])
  }

  function Pairs<T>(q: seq<seq<T>>): (r: seq<seq<T>>)
    requires |q| % 2 == 0
    ensures |r| == |q| / 2
  {
    if q == [] then [] else [q[0] + q[1]] + Pairs(q[2..])
  }

  /** Left-to-right combination. */
  function Fold<T>(f: (T, T) -> T, s: seq<T>): T
    requires s != []
  {
    if |s| == 1 then s[0] else f(Fold(f, s[..|s| - 1]), s[|s| - 1])
  }

  ghost predicate Associative<T(!new)>(f: (T, T) -> T) {
    forall x, y, z :: f(f(x, y), z) == f(x, f(y, z))
  }

  ghost predicate Commutative<T(!new)>(f: (T, T) -> T) {
    forall x, y :: f(x, y) == f(y, x)
  }

  function Pow2(p: nat): (n: nat)
    ensures n >= 1
  {
    if p == 0 then 1 else 2 * Pow2(p - 1)
  }

  ghost predicate IsPowerOfTwo(n: nat) { exists p: nat :: n == Pow2(p) }

  /** The largest power of two not above n. */
  function LeadingPower(n: nat): (r: nat)
    requires n >= 1
    ensures r <= n < 2 * r
  {
    if n == 1 then 1 else 2 * LeadingPower(n / 2)
  }

  lemma {:induction false} LeadingPowerIsPower(n: nat) returns (p: nat)
    requires n >= 1
    ensures LeadingPower(n) == Pow2(p)
  {
    if n == 1 {
      p := 0;
    } else {
      var h := LeadingPowerIsPower(n / 2);
      p := h + 1;
    }
  }

  /** How many leading inputs end up behind the others. */
  function Shift(n: nat): nat
    requires n >= 1
  {
    2 * (n - LeadingPower(n))
  }

  // ---------- Rotation ----------

  lemma {:induction false} FlattenAppend<T>(a: seq<seq<T>>, b: seq<seq<T>>)
    ensures Flatten(a + b) == Flatten(a) + Flatten(b)
  {
    if a == [] {
      assert a + b == b;
    } else {
      var s, rest := a + b, Flatten(a[1..]);
      assert s[0] == a[0] && s[1..] == a[1..] + b;
      FlattenAppend(a[1..], b);
      assert Flatten(s) == a[0] + (rest + Flatten(b));
      assert Flatten(a) == a[0] + rest;
    }
  }

  lemma {:induction false} FlattenPairs<T>(q: seq<seq<T>>)
    requires |q| % 2 == 0
    ensures Flatten(Pairs(q)) == Flatten(q)
  {
    if q != [] {
      FlattenPairs(q[2..]);
      assert Pairs(q)[1..] == Pairs(q[2..]);
      assert q[1..][1..] == q[2..];
    }
  }

  /** An even number of leading segments moves to the back, paired up. */
  lemma {:induction false} PairUp<T>(front: seq<seq<T>>, back: seq<seq<T>>)
    requires |front| % 2 == 0 && front + back != []
    ensures Rotate(front + back) == Rotate(back + Pairs(front))
    decreases |front|
  {
    if front == [] {
      assert front + back == back == back + Pairs(front);
    } else {
      var pair, q := front[0] + front[1], front + back;
      assert q[0] == front[0] && q[1] == front[1] && q[2..] == front[2..] + back;
      assert q[2..] + [pair] == front[2..] + (back + [pair]);
      PairUp(front[2..], back + [pair]);
      assert Pairs(front) == [pair] + Pairs(front[2..]);
      assert back + [pair] + Pairs(front[2..]) == back + ([pair] + Pairs(front[2..]));
    }
  }

  /** A queue whose size is a power of two is combined in its original order. */
  lemma {:induction false} PowerKeepsOrder<T>(q: seq<seq<T>>, p: nat)
    requires |q| == Pow2(p)
    ensures Rotate(q) == Flatten(q)
    decreases p
  {
    if p == 0 {
      assert Flatten(q[1..]) == [];
    } else {
      assert q + [] == q && [] + Pairs(q) == Pairs(q);
      PairUp(q, []);
      PowerKeepsOrder(Pairs(q), p - 1);
      FlattenPairs(q);
    }
  }

  lemma {:induction false} ShiftBounds(n: nat) returns (p: nat)
    requires n >= 1
    ensures Shift(n) < n && Shift(n) % 2 == 0 && n - Shift(n) + Shift(n) / 2 == Pow2(p)
  {
    p := LeadingPowerIsPower(n);
  }

  /** When pairing up the first s segments leaves a power of two, they end up behind the others. */
  lemma {:induction false} RotateShifts<T>(q: seq<seq<T>>, s: nat, p: nat)
    requires s < |q| && s % 2 == 0 && |q| - s + s / 2 == Pow2(p)
    ensures Rotate(q) == Flatten(q[s..]) + Flatten(q[..s])
  {
    assert q[..s] + q[s..] == q;
    PairUp(q[..s], q[s..]);
    PowerKeepsOrder(q[s..] + Pairs(q[..s]), p);
    FlattenAppend(q[s..], Pairs(q[..s]));
    FlattenPairs(q[..s]);
  }

  // ---------- Associative combination ----------

  lemma {:induction false} FoldAppend<T(!new)>(f: (T, T) -> T, a: seq<T>, b: seq<T>)
    requires Associative(f) && a != [] && b != []
    ensures Fold(f, a + b) == f(Fold(f, a), Fold(f, b))
  {
    var s := a + b;
    var last := b[|b| - 1];
    assert s[..|s| - 1] == a + b[..|b| - 1] && s[|s| - 1] == last;
    if |b| == 1 {
      assert a + b[..0] == a;
    } else {
      FoldAppend(f, a, b[..|b| - 1]);
      var x, y := Fold(f, a), Fold(f, b[..|b| - 1]);
      assert f(f(x, y), last) == f(x, f(y, last));
    }
  }

  /** Reducing values that are folds of segments gives the fold of the rotated segments. */
  lemma {:induction false} ReduceSegments<T(!new)>(f: (T, T) -> T, q: seq<T>, segments: seq<seq<T>>)
    requires Associative(f) && q != [] && |q| == |segments|
    requires forall i | 0 <= i < |q| :: segments[i] != [] && q[i] == Fold(f, segments[i])
    ensures Rotate(segments) != [] && Reduce(f, q) == Fold(f, Rotate(segments))
    decreases |q|
  {
    if |q| > 1 {
      FoldAppend(f, segments[0], segments[1]);
      ReduceSegments(f, q[2..] + [f(q[0], q[1])], segments[2..] + [segments[0] + segments[1]]);
    }
  }

  function Singletons<T>(s: seq<T>): seq<seq<T>> { seq(|s|, i requires 0 <= i < |s| => [s[i]]) }

  lemma {:induction false} FlattenSingletons<T>(s: seq<T>)
    ensures Flatten(Singletons(s)) == s
  {
    if s != [] {
      FlattenSingletons(s[1..]);
      assert Singletons(s)[1..] == Singletons(s[1..]);
    }
  }

  lemma {:induction false} ReduceShifted<T(!new)>(f: (T, T) -> T, data: seq<T>, s: nat, p: nat)
    requires Associative(f) && s < |data| && s % 2 == 0 && |data| - s + s / 2 == Pow2(p)
    ensures Reduce(f, data) == Fold(f, data[s..] + data[..s])
  {
    var q := Singletons(data);
    ReduceSegments(f, data, q);
    RotateShifts(q, s, p);
    assert q[s..] == Singletons(data[s..]) && q[..s] == Singletons(data[..s]);
    FlattenSingletons(data[s..]);
    FlattenSingletons(data[..s]);
  }

  /** For an associative function the queue computes the left-to-right combination of a rotation of
      the inputs: the first Shift(n) come last. */
  lemma {:induction false} ReduceIsRotatedFold<T(!new)>(f: (T, T) -> T, data: seq<T>)
    requires Associative(f) && data != []
    ensures Shift(|data|) < |data|
    ensures Reduce(f, data) == Fold(f, data[Shift(|data|)..] + data[..Shift(|data|)])
  {
    var p := ShiftBounds(|data|);
    ReduceShifted(f, data, Shift(|data|), p);
  }

  lemma ShiftZeroExactly(n: nat)
    requires n >= 1
    ensures Shift(n) == 0 <==> IsPowerOfTwo(n)
  {
    var p := LeadingPowerIsPower(n);
    if Shift(n) == 0 { assert n == Pow2(p); }
    if q: nat :| n == Pow2(q) { LeadingPowerOfPower(q); }
  }

  lemma {:induction false} LeadingPowerOfPower(p: nat)
    ensures LeadingPower(Pow2(p)) == Pow2(p)
  {
    if p > 0 { LeadingPowerOfPower(p - 1); }
  }

  function Concat(a: seq<int>, b: seq<int>): seq<int> { a + b }

  /** The documented result: on every n inputs every associative function is applied from left to right. */
  ghost predicate DocumentedOrder(n: nat)
    requires n >= 1
  {
    forall f: (seq<int>, seq<int>) -> seq<int>, data: seq<seq<int>> ::
      Associative(f) && |data| == n ==> Reduce(f, data) == Fold(f, data)
  }

  lemma ConcatAssociative()
    ensures Associative(Concat)
  {
    forall x: seq<int>, y: seq<int>, z: seq<int> ensures Concat(Concat(x, y), z) == Concat(x, Concat(y, z)) {
      assert (x + y) + z == x + (y + z);
    }
  }

  lemma {:induction false} FoldConcat(s: seq<int>)
    requires s != []
    ensures Fold(Concat, Singletons(s)) == s
  {
    if |s| > 1 {
      FoldConcat(s[..|s| - 1]);
      assert Singletons(s)[..|s| - 1] == Singletons(s[..|s| - 1]);
      assert s == s[..|s| - 1] + [s[|s| - 1]];
    }
  }

  /** Concatenating distinct singletons shows the rotation: the result starts with number Shift(n). */
  lemma RotationShows(n: nat)
    requires n >= 1 && Shift(n) > 0
    ensures var data := Singletons(seq(n, i => i)); Reduce(Concat, data) != Fold(Concat, data)
  {
    var s: seq<int> := seq(n, i => i);
    var data, k := Singletons(s), Shift(n);
    ConcatAssociative();
    ReduceIsRotatedFold(Concat, data);
    assert data[k..] + data[..k] == Singletons(s[k..] + s[..k]);
    FoldConcat(s[k..] + s[..k]);
    FoldConcat(s);
    assert (s[k..] + s[..k])[0] == k && s[0] == 0;
  }

  /** A power of two inputs are combined from left to right by every associative function, of any type. */
  lemma PowerReducesInOrder<T(!new)>(f: (T, T) -> T, data: seq<T>, p: nat)
    requires Associative(f) && |data| == Pow2(p)
    ensures Reduce(f, data) == Fold(f, data)
  {
    ShiftZeroExactly(|data|);
    ReduceIsRotatedFold(f, data);
    assert data[0..] + data[..0] == data;
  }

  lemma PowerIsDocumented(p: nat)
    ensures DocumentedOrder(Pow2(p))
  {
    forall f: (seq<int>, seq<int>) -> seq<int>, data: seq<seq<int>> | Associative(f) && |data| == Pow2(p)
      ensures Reduce(f, data) == Fold(f, data)
    {
      PowerReducesInOrder(f, data, p);
    }
  }

  /** The documented left-to-right result is what mergeReduce computes on n inputs, for every associative
      function and all data, if and only if n is a power of two. */
  lemma OrderKeptExactly(n: nat)
    requires n >= 1
    ensures DocumentedOrder(n) <==> IsPowerOfTwo(n)
  {
    ShiftZeroExactly(n);
    if IsPowerOfTwo(n) {
      var p: nat :| n == Pow2(p);
      PowerIsDocumented(p);
    } else {
      RotationShows(n);
      ConcatAssociative();
      assert |Singletons(seq(n, i => i))| == n;
    }
  }

  /** The documented left-to-right order is not kept for three inputs: the third comes first. */
  lemma {:induction false} ThreeInputsRotate<T(!new)>(f: (T, T) -> T, x: T, y: T, z: T)
    ensures Reduce(f, [x, y, z]) == f(z, f(x, y))
  {
    var q := [x, y, z];
    assert q[2..] + [f(q[0], q[1])] == [z, f(x, y)];
    var r := [z, f(x, y)];
    assert r[2..] + [f(r[0], r[1])] == [f(z, f(x, y))];
    assert Reduce(f, q) == Reduce(f, r) == Reduce(f, [f(z, f(x, y))]);
  }

  lemma {:induction false} RotatedFold<T(!new)>(f: (T, T) -> T, a: seq<T>, b: seq<T>)
    requires Associative(f) && Commutative(f) && a + b != []
    ensures b + a != [] && Fold(f, a + b) == Fold(f, b + a)
  {
    if a == [] || b == [] {
      assert a + b == b + a;
    } else {
      FoldAppend(f, a, b);
      FoldAppend(f, b, a);
    }
  }

  /** A commutative function does not see the rotation. */
  lemma {:induction false} ReduceIsFold<T(!new)>(f: (T, T) -> T, data: seq<T>)
    requires Associative(f) && Commutative(f) && data != []
    ensures Reduce(f, data) == Fold(f, data)
  {
    ReduceIsRotatedFold(f, data);
    var s := Shift(|data|);
    RotatedFold(f, data[..s], data[s..]);
    assert data[..s] + data[s..] == data;
  }

  // ---------- Word counts ----------

  type Counts = map<string, nat>

  function Get(d: Counts, w: string): nat { if w in d then d[w] else 0 }

  /** Word by word sum of two dictionaries. */
  function Merged(a: Counts, b: Counts): Counts {
    map w | w in a.Keys + b.Keys :: Get(a, w) + Get(b, w)
  }

  /** The dictionary of a text: every word of it with its number of occurrences. */
  function CountsOf(words: seq<string>): Counts { map w | w in words :: multiset(words)[w] }

  lemma {:induction false} MergedLaws()
    ensures Associative(Merged) && Commutative(Merged)
  {
    forall x, y, z ensures Merged(Merged(x, y), z) == Merged(x, Merged(y, z)) {
      assert Merged(Merged(x, y), z).Keys == Merged(x, Merged(y, z)).Keys;
    }
    forall x, y ensures Merged(x, y) == Merged(y, x) {
      assert Merged(x, y).Keys == Merged(y, x).Keys;
    }
  }

  lemma CountsOfAppend(a: seq<string>, b: seq<string>)
    ensures CountsOf(a + b) == Merged(CountsOf(a), CountsOf(b))
  {
  }

  /** The dictionaries of the texts, in order. */
  function CountsOfAll(texts: seq<seq<string>>): seq<Counts> {
    seq(|texts|, i requires 0 <= i < |texts| => CountsOf(texts[i]))
  }

  lemma FlattenSnoc<T>(q: seq<seq<T>>, last: seq<T>)
    ensures Flatten(q + [last]) == Flatten(q) + last
  {
    FlattenAppend(q, [last]);
    assert Flatten([last]) == last + Flatten([last][1..]);
  }

  lemma CountsOfAllSnoc(texts: seq<seq<string>>, last: seq<string>)
    ensures CountsOfAll(texts + [last]) == CountsOfAll(texts) + [CountsOf(last)]
  {
  }

  lemma FoldSnoc<T>(f: (T, T) -> T, s: seq<T>, x: T)
    ensures Fold(f, s + [x]) == if s == [] then x else f(Fold(f, s), x)
  {
    assert (s + [x])[..|s|] == s;
  }

  lemma {:induction false} FoldCounts(texts: seq<seq<string>>)
    requires texts != []
    ensures Fold(Merged, CountsOfAll(texts)) == CountsOf(Flatten(texts))
  {
    var init, last := texts[..|texts| - 1], texts[|texts| - 1];
    assert texts == init + [last];
    FlattenSnoc(init, last);
    CountsOfAllSnoc(init, last);
    FoldSnoc(Merged, CountsOfAll(init), CountsOf(last));
    if init != [] {
      FoldCounts(init);
      CountsOfAppend(Flatten(init), last);
    }
  }

  /** Whatever the pairing, the reduced dictionary holds for every word its occurrences in all texts. */
  lemma {:induction false} ReducedCounts(texts: seq<seq<string>>)
    requires texts != []
    ensures Reduce(Merged, CountsOfAll(texts)) == CountsOf(Flatten(texts))
  {
    MergedLaws();
    ReduceIsFold(Merged, CountsOfAll(texts));
    FoldCounts(texts);
  }

  function Within(words: seq<string>, ws: set<string>): seq<string> {
    if words == [] then []
    else if words[0] in ws then [words[0]] + Within(words[1..], ws)
    else Within(words[1..], ws)
  }

  lemma {:induction false} WithinStep(words: seq<string>, ws: set<string>, w: string)
    requires w !in ws
    ensures |Within(words, ws + {w})| == |Within(words, ws)| + multiset(words)[w]
  {
    if words != [] {
      WithinStep(words[1..], ws, w);
      assert words == [words[0]] + words[1..];
    }
  }

  lemma {:induction false} WithinAll(words: seq<string>, ws: set<string>)
    requires forall w | w in words :: w in ws
    ensures Within(words, ws) == words
  {
    if words != [] { WithinAll(words[1..], ws); }
  }

  lemma {:induction false} WithinNone(words: seq<string>)
    ensures Within(words, {}) == []
  {
    if words != [] { WithinNone(words[1..]); }
  }

  // ---------- The code ----------

  lemma {:induction false} CountsOfStep(words: seq<string>, w: string)
    ensures CountsOf(words + [w]) == CountsOf(words)[w := Get(CountsOf(words), w) + 1]
  {
    var l, r := CountsOf(words + [w]), CountsOf(words)[w := Get(CountsOf(words), w) + 1];
    assert l.Keys == r.Keys;
    assert multiset(words + [w]) == multiset(words) + multiset{w};
    forall x | x in l ensures l[x] == r[x] {
      assert x in words <==> multiset(words)[x] > 0;
    }
  }

  method WordCount(data: seq<string>) returns (partialResult: Counts)
    ensures partialResult == CountsOf(data)
  {
    partialResult := map[];
    for i := 0 to |data|
      invariant partialResult == CountsOf(data[..i])
    {
      var entry := data[i];
      assert data[..i + 1] == data[..i] + [entry];
      CountsOfStep(data[..i], entry);
      if entry in partialResult {
        partialResult := partialResult[entry := partialResult[entry] + 1];
      } else {
        partialResult := partialResult[entry := 1];
      }
    }
    assert data[..|data|] == data;
  }

  function Part(d: Counts, ws: set<string>): Counts { map w | w in d && w in ws :: d[w] }

  /** `if k in d: d[k] += n else: d[k] = n` */
  function Bumped(d: Counts, k: string, n: nat): Counts { if k in d then d[k := d[k] + n] else d[k := n] }

  /** One round of merge_two_dicts. */
  lemma {:induction false} MergedRound(a: Counts, b: Counts, done: set<string>, k: string, r: Counts)
    requires k in b && k !in done && r == Merged(a, Part(b, done))
    ensures Merged(a, Part(b, done + {k})) == Bumped(r, k, b[k])
  {
    assert Get(r, k) == Get(a, k);
  }

  lemma MergedNothing(a: Counts, b: Counts)
    ensures Merged(a, Part(b, {})) == a
  {
  }

  /** A dictionary object. */
  class Dict {
    var counts: Counts

    constructor (counts: Counts)
      ensures this.counts == counts
    {
      this.counts := counts;
    }
  }

  /** merge_two_dicts: adds the second dictionary to the first, in place, and returns the first. The two may
      be the same object. */
  method MergeTwoDicts(dic1: Dict, dic2: Dict) returns (r: Dict)
    modifies dic1
    ensures r == dic1 && dic1.counts == Merged(old(dic1.counts), old(dic2.counts))
  {
    ghost var a, b := dic1.counts, dic2.counts;
    var todo := dic2.counts.Keys;
    ghost var done: set<string> := {};
    MergedNothing(a, b);
    while todo != {}
      invariant done !! todo && done + todo == b.Keys
      invariant dic1.counts == Merged(a, Part(b, done))
      invariant forall k | k in todo :: k in dic2.counts && dic2.counts[k] == b[k]
      decreases |todo|
    {
      var k :| k in todo;
      MergedRound(a, b, done, k, dic1.counts);
      todo, done := todo - {k}, done + {k};
      dic1.counts := Bumped(dic1.counts, k, dic2.counts[k]);
    }
    assert Part(b, done) == b;
    r := dic1;
  }

  /** The values of the queued positions. */
  ghost function Queued<T>(data: seq<T>, q: seq<nat>): seq<T>
    requires forall i | 0 <= i < |q| :: q[i] < |data|
  {
    seq(|q|, i requires 0 <= i < |q| => data[q[i]])
  }

  ghost predicate Distinct(q: seq<nat>) { forall i, j | 0 <= i < j < |q| :: q[i] != q[j] }

  lemma {:induction false} DistinctRotation(x: nat, y: nat, rest: seq<nat>)
    requires Distinct([x, y] + rest)
    ensures x !in rest && Distinct(rest + [x])
  {
    var was, q := [x, y] + rest, rest + [x];
    forall i | 0 <= i < |rest| ensures rest[i] != x { assert was[0] == x && was[i + 2] == rest[i]; }
    forall i, j | 0 <= i < j < |q| ensures q[i] != q[j] {
      assert q[i] == was[i + 2];
      if j < |rest| { assert q[j] == was[j + 2]; }
    }
  }

  /** The queue holds distinct positions of cs whose values reduce to r. */
  ghost predicate Reduces<T(!new)>(f: (T, T) -> T, cs: seq<T>, q: seq<nat>, r: T) {
    q != [] && Distinct(q) && (forall i | 0 <= i < |q| :: q[i] < |cs|) && Reduce(f, Queued(cs, q)) == r
  }

  /** One round of the queue. */
  lemma QueueRound<T(!new)>(f: (T, T) -> T, cs: seq<T>, q: seq<nat>, r: T)
    requires Reduces(f, cs, q, r) && |q| >= 2
    ensures Reduces(f, cs[q[0] := f(cs[q[0]], cs[q[1]])], q[2..] + [q[0]], r)
  {
    var x, y, rest := q[0], q[1], q[2..];
    assert q == [x, y] + rest;
    DistinctRotation(x, y, rest);
    var values := Queued(cs, q);
    assert values[2..] + [f(values[0], values[1])] == Queued(cs[x := f(cs[x], cs[y])], rest + [x]);
  }

  lemma WholeQueue<T(!new)>(f: (T, T) -> T, cs: seq<T>, q: seq<nat>)
    requires cs != [] && |q| == |cs| && forall i | 0 <= i < |q| :: q[i] == i
    ensures Reduces(f, cs, q, Reduce(f, cs))
  {
    assert Queued(cs, q) == cs;
  }

  /** mergeReduce: terminates because the queue shrinks, and returns what the queue of all inputs
      reduces to; nothing for an empty list. */
  method MergeQueue<T(!new)>(f: (T, T) -> T, data: array<T>) returns (result: Option<T>)
    modifies data
    ensures result == if data.Length == 0 then None else Some(Reduce(f, old(data[..])))
  {
    var q: seq<nat> := seq(data.Length, i requires 0 <= i => i);
    if data.Length > 0 { WholeQueue(f, data[..], q); }
    while q != []
      invariant q == [] ==> data.Length == 0
      invariant q != [] ==> data.Length > 0 && Reduces(f, data[..], q, Reduce(f, old(data[..])))
      decreases |q|
    {
      ghost var was, prior := q, data[..];
      var x := q[0];
      q := q[1..];
      if q != [] {
        var y := q[0];
        q := q[1..];
        QueueRound(f, prior, was, Reduce(f, old(data[..])));
        data[x] := f(data[x], data[y]);
        assert data[..] == prior[x := f(prior[x], prior[y])];
        q := q + [x];
        assert q == was[2..] + [was[0]];
      } else {
        return Some(data[x]);
      }
    }
    return None;
  }

  ghost function CountsIn(ds: seq<Dict>): seq<Counts>
    reads set i | 0 <= i < |ds| :: ds[i]
  {
    seq(|ds|, i requires 0 <= i < |ds| reads set k | 0 <= k < |ds| :: ds[k] => ds[i].counts)
  }

  /** data[x] = merge_two_dicts(data[x], data[y]), where the dictionaries hold cs. */
  method MergePair(data: array<Dict>, x: nat, y: nat, ghost cs: seq<Counts>)
    requires x < data.Length && y < data.Length == |cs|
    requires forall i, j | 0 <= i < j < data.Length :: data[i] != data[j]
    requires forall i | 0 <= i < data.Length :: data[i].counts == cs[i]
    modifies data, data[x]
    ensures forall i | 0 <= i < data.Length :: data[i] == old(data[i])
    ensures forall i | 0 <= i < data.Length :: data[i].counts == cs[x := Merged(cs[x], cs[y])][i]
  {
    var merged := MergeTwoDicts(data[x], data[y]);
    data[x] := merged;
  }

  /** mergeReduce(merge_two_dicts, data) on distinct dictionary objects, which are changed in place. */
  method MergeDicts(data: array<Dict>) returns (result: Option<Dict>)
    requires forall i, j | 0 <= i < j < data.Length :: data[i] != data[j]
    modifies data, set i | 0 <= i < data.Length :: data[i]
    ensures result.None? <==> data.Length == 0
    ensures result.Some? ==> result.value.counts == Reduce(Merged, old(CountsIn(data[..])))
  {
    ghost var cs := CountsIn(data[..]);
    ghost var all := cs;
    var q: seq<nat> := seq(data.Length, i requires 0 <= i => i);
    if data.Length > 0 { WholeQueue(Merged, cs, q); }
    while q != []
      invariant |cs| == data.Length && forall i | 0 <= i < |cs| :: data[i] == old(data[i]) && data[i].counts == cs[i]
      invariant q == [] ==> |cs| == 0
      invariant q != [] ==> |cs| > 0 && Reduces(Merged, cs, q, Reduce(Merged, all))
      decreases |q|
    {
      ghost var was := q;
      var x := q[0];
      q := q[1..];
      if q != [] {
        var y := q[0];
        q := q[1..];
        QueueRound(Merged, cs, was, Reduce(Merged, all));
        MergePair(data, x, y, cs);
        cs := cs[x := Merged(cs[x], cs[y])];
        q := q + [x];
        assert q == was[2..] + [was[0]];
      } else {
        return Some(data[x]);
      }
    }
    return None;
  }

  /** The program: counts of each file, reduced; per word the total over all files. */
  method CountFiles(files: seq<seq<string>>) returns (result: Option<Counts>)
    ensures result == if files == [] then None else Some(CountsOf(Flatten(files)))
  {
    var partialResult: seq<Dict> := [];
    for i := 0 to |files|
      invariant |partialResult| == i && fresh(partialResult)
      invariant forall j, k | 0 <= j < k < i :: partialResult[j] != partialResult[k]
      invariant forall k | 0 <= k < i :: partialResult[k].counts == CountsOf(files[k])
    {
      var counts := WordCount(files[i]);
      var d := new Dict(counts);
      partialResult := partialResult + [d];
    }
    var data := new Dict[|files|](i requires 0 <= i < |partialResult| => partialResult[i]);
    assert data[..] == partialResult && CountsIn(data[..]) == CountsOfAll(files);
    if files != [] { ReducedCounts(files); }
    var merged := MergeDicts(data);
    result := if merged.None? then None else Some(merged.value.counts);
  }

  lemma SumStep(words: seq<string>, result: Counts, done: set<string>, w: string)
    requires result == CountsOf(words) && w in result && w !in done
    ensures |Within(words, done + {w})| == |Within(words, done)| + result[w]
  {
    WithinStep(words, done, w);
  }

  lemma SumAll(words: seq<string>, result: Counts, done: set<string>)
    requires result == CountsOf(words) && result.Keys <= done
    ensures Within(words, done) == words
  {
    forall w | w in words ensures w in done { assert w in result; }
    WithinAll(words, done);
  }

  /** The reported number of words, sum(result.values()), is the number of words read. */
  method SumValues(words: seq<string>, result: Counts) returns (total: nat)
    requires result == CountsOf(words)
    ensures total == |words|
  {
    total := 0;
    var todo := result.Keys;
    ghost var done: set<string> := {};
    WithinNone(words);
    while todo != {}
      invariant done !! todo && done + todo == result.Keys
      invariant total == |Within(words, done)|
      decreases |todo|
    {
      var w :| w in todo;
      SumStep(words, result, done, w);
      total := total + result[w];
      todo, done := todo - {w}, done + {w};
    }
    SumAll(words, result, done);
  }
}
