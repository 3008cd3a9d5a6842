/** Ordering the alternatives by preference and shuffling those near the best
    (pkg/resourcemanager/delegate.go, from sortAlternatives to sortbyThreshold). Preferences are the numbers
    or NaNs that topsisMethod returns. */
module Ranking {
  import opened PriorityMap
  import opened Topsis

  /** index is the 1-based position of the replica. */
  datatype Alternative = Alternative(index: nat, preference: Float)

  function AlternativesOf(preferences: seq<Float>): seq<Alternative> {
    seq(|preferences|, i requires 0 <= i < |preferences| => Alternative(i + 1, preferences[i]))
  }

  predicate AllNumbers(s: seq<Alternative>) { forall i | 0 <= i < |s| :: s[i].preference.Num? }

  predicate Descending(s: seq<Alternative>) {
    AllNumbers(s) && forall i, j | 0 <= i < j < |s| :: s[i].preference.value >= s[j].preference.value
  }

  /** math.Abs of a difference. */
  function Gap(x: Float, y: Float): Float {
    var d := Sub(x, y);
    if d.Num? && d.value < 0.0 then Num(-d.value) else d
  }

  // ---------- sort.Slice and rand.Shuffle, through what they promise ----------

  /** sort.Slice with the descending comparison. Callers only know that the result is a rearrangement, and a
      descending one if all preferences are numbers: ties, and with NaN everything, may come in any order. */
  method SortSlice(alternatives: seq<Alternative>) returns (s: seq<Alternative>)
    ensures multiset(s) == multiset(alternatives)
    ensures AllNumbers(alternatives) ==> Descending(s)
  {
    s := [];
    for n := 0 to |alternatives|
      invariant multiset(s) == multiset(alternatives[..n])
      invariant AllNumbers(alternatives) ==> Descending(s)
    {
      assert alternatives[..n + 1] == alternatives[..n] + [alternatives[n]];
      var x := alternatives[n];
      InsertedSame(x, s);
      if AllNumbers(alternatives) {
        InsertedDescending(x, s, if s == [] || Lt(s[0].preference, x.preference) then x.preference.value
                                 else s[0].preference.value);
      }
      s := Inserted(x, s);
    }
    assert alternatives[..|alternatives|] == alternatives;
  }

  function Inserted(x: Alternative, s: seq<Alternative>): seq<Alternative> {
    if s == [] || Lt(s[0].preference, x.preference) then [x] + s else [s[0]] + Inserted(x, s[1..])
  }

  lemma {:induction false} InsertedSame(x: Alternative, s: seq<Alternative>)
    ensures multiset(Inserted(x, s)) == multiset(s) + multiset{x}
  {
    if s != [] && !Lt(s[0].preference, x.preference) {
      InsertedSame(x, s[1..]);
      assert s == [s[0]] + s[1..];
    }
  }

  predicate AtMost(s: seq<Alternative>, bound: real) {
    forall i | 0 <= i < |s| :: s[i].preference.Num? && s[i].preference.value <= bound
  }

  lemma {:induction false} DescendingCons(a: Alternative, s: seq<Alternative>)
    requires a.preference.Num? && Descending(s) && AtMost(s, a.preference.value)
    ensures Descending([a] + s)
  {
    var r := [a] + s;
    assert forall i | 1 <= i < |r| :: r[i] == s[i - 1];
  }

  lemma {:induction false} InsertedDescending(x: Alternative, s: seq<Alternative>, bound: real)
    requires Descending(s) && x.preference.Num? && x.preference.value <= bound && AtMost(s, bound)
    ensures Descending(Inserted(x, s)) && AtMost(Inserted(x, s), bound)
  {
    if s != [] && !Lt(s[0].preference, x.preference) {
      InsertedDescending(x, s[1..], s[0].preference.value);
      DescendingCons(s[0], Inserted(x, s[1..]));
    } else {
      assert forall i | 0 < i < |s| :: s[0].preference.value >= s[i].preference.value;
      DescendingCons(x, s);
    }
  }

  /** rand.Shuffle: every swap index is an arbitrary draw. Callers only know that the result is a
      rearrangement, so what they establish holds for every outcome. */
  method Shuffle(nearby: seq<Alternative>, draw: nat -> nat) returns (s: seq<Alternative>)
    ensures multiset(s) == multiset(nearby) && |s| == |nearby|
  {
    s := nearby;
    var i := |nearby| - 1;
    while i > 0
      invariant -1 <= i < |nearby| == |s|
      invariant multiset(s) == multiset(nearby)
    {
      var j := draw(i) % (i + 1);
      s := s[i := s[j]][j := s[i]];
      i := i - 1;
    }
  }

  // ---------- The code ----------

  /** sortAlternatives. */
  method SortAlternatives(preferences: seq<Float>) returns (alternatives: seq<Alternative>)
    ensures multiset(alternatives) == multiset(AlternativesOf(preferences)) && |alternatives| == |preferences|
    ensures Numeric(preferences) ==> Descending(alternatives)
    ensures Numeric(preferences) && |preferences| > 0 ==> IsBest(preferences, alternatives[0].preference.value)
  {
    alternatives := [];
    for i := 0 to |preferences|
      invariant alternatives == AlternativesOf(preferences)[..i]
    {
      alternatives := alternatives + [Alternative(i + 1, preferences[i])];
    }
    assert alternatives == AlternativesOf(preferences);
    alternatives := SortSlice(alternatives);
    assert |multiset(alternatives)| == |multiset(AlternativesOf(preferences))|;
    if Numeric(preferences) && |preferences| > 0 { FirstIsBest(preferences, alternatives); }
  }

  /** distancesFromBetter. */
  method DistancesFromBetter(alternatives: seq<Alternative>) returns (distances: seq<Float>)
    requires |alternatives| > 0
    ensures AreGaps(alternatives, distances)
  {
    distances := [];
    for i := 1 to |alternatives|
      invariant |distances| == i - 1
      invariant forall k | 0 <= k < |distances| ::
                  distances[k] == Gap(alternatives[0].preference, alternatives[k + 1].preference)
    {
      distances := distances + [Gap(alternatives[0].preference, alternatives[i].preference)];
    }
  }

  /** The distance of every other alternative from the first. */
  predicate AreGaps(s: seq<Alternative>, distances: seq<Float>) {
    0 < |s| == |distances| + 1 &&
    forall i | 0 <= i < |distances| :: distances[i] == Gap(s[0].preference, s[i + 1].preference)
  }

  /** Position i is near the best: it is the first, or its distance is below the threshold. */
  predicate Near(distances: seq<Float>, threshold: Float, i: nat)
    requires i <= |distances|
  {
    i == 0 || Lt(distances[i - 1], threshold)
  }

  /** The number of near positions before n. */
  function NearNumber(distances: seq<Float>, threshold: Float, n: nat): (c: nat)
    requires n <= |distances| + 1
    ensures c <= n
  {
    if n == 0 then 0 else NearNumber(distances, threshold, n - 1) + if Near(distances, threshold, n - 1) then 1 else 0
  }

  /** If position k is near, its alternative is in nearby, after those of the near positions before it. */
  predicate NearAt(s: seq<Alternative>, distances: seq<Float>, threshold: Float, nearby: seq<Alternative>, k: nat)
    requires k < |s| == |distances| + 1
  {
    Near(distances, threshold, k) ==>
      NearNumber(distances, threshold, k) < |nearby| && nearby[NearNumber(distances, threshold, k)] == s[k]
  }

  /** nearby lists the alternatives at near positions before n, in order. */
  predicate AreNear(s: seq<Alternative>, distances: seq<Float>, threshold: Float, n: nat, nearby: seq<Alternative>)
    requires |s| == |distances| + 1 && n <= |s|
  {
    |nearby| == NearNumber(distances, threshold, n) &&
    forall k: nat | k < n :: NearAt(s, distances, threshold, nearby, k)
  }

  lemma {:induction false} NearStep(s: seq<Alternative>, distances: seq<Float>, threshold: Float, n: nat,
                                    nearby: seq<Alternative>)
    requires |s| == |distances| + 1 && n < |s| && AreNear(s, distances, threshold, n, nearby)
    ensures AreNear(s, distances, threshold, n + 1, if Near(distances, threshold, n) then nearby + [s[n]] else nearby)
  {
    var more := if Near(distances, threshold, n) then nearby + [s[n]] else nearby;
    forall k: nat | k < n + 1 ensures NearAt(s, distances, threshold, more, k) {
      assert k < n ==> NearAt(s, distances, threshold, nearby, k);
    }
  }

  /** The first loop of reorganizeIfNearby. */
  method CollectNearby(alternatives: seq<Alternative>, distances: seq<Float>, threshold: Float)
    returns (nearby: seq<Alternative>)
    requires |alternatives| == |distances| + 1
    ensures AreNear(alternatives, distances, threshold, |alternatives|, nearby)
  {
    nearby := [alternatives[0]];
    NearStep(alternatives, distances, threshold, 0, []);
    assert [] + [alternatives[0]] == nearby;
    for i := 0 to |distances|
      invariant AreNear(alternatives, distances, threshold, i + 1, nearby)
    {
      NearStep(alternatives, distances, threshold, i + 1, nearby);
      if Lt(distances[i], threshold) {
        nearby := nearby + [alternatives[i + 1]];
      }
    }
  }

  predicate KeptAt(s: seq<Alternative>, distances: seq<Float>, threshold: Float, r: seq<Alternative>, k: nat)
    requires k < |r| <= |s| <= |distances| + 1
  {
    Near(distances, threshold, k) || r[k] == s[k]
  }

  /** Each far alternative that has been placed is at its place in r. */
  predicate FarKept(s: seq<Alternative>, distances: seq<Float>, threshold: Float, r: seq<Alternative>) {
    |r| <= |s| <= |distances| + 1 && forall k: nat | k < |r| :: KeptAt(s, distances, threshold, r, k)
  }

  lemma FarKeptStep(s: seq<Alternative>, distances: seq<Float>, threshold: Float, r: seq<Alternative>, x: Alternative)
    requires FarKept(s, distances, threshold, r) && |r| < |s|
    requires Near(distances, threshold, |r|) || x == s[|r|]
    ensures FarKept(s, distances, threshold, r + [x])
  {
    forall k: nat | k < |r| + 1 ensures KeptAt(s, distances, threshold, r + [x], k) {
      assert k < |r| ==> KeptAt(s, distances, threshold, r, k);
    }
  }

  lemma Replaced(whole: seq<Alternative>, i: nat, x: Alternative, out: seq<Alternative>, inn: seq<Alternative>,
                 all: multiset<Alternative>)
    requires i < |whole| && multiset(whole) + multiset(out) == all + multiset(inn)
    ensures multiset(whole[i := x]) + multiset(out + [whole[i]]) == all + multiset(inn + [x])
  {
    var w, y := multiset(whole), whole[i];
    assert y in w && multiset(whole[i := x]) == w - multiset{y} + multiset{x};
    forall z ensures (w - multiset{y} + multiset{x} + (multiset(out) + multiset{y}))[z] ==
                     (all + (multiset(inn) + multiset{x}))[z]
    {
      assert (w + multiset(out))[z] == (all + multiset(inn))[z];
    }
  }

  /** The first i places are filled, j of them from nearby in exchange for the first j of collected. */
  ghost predicate Filled(s: seq<Alternative>, distances: seq<Float>, threshold: Float, collected: seq<Alternative>,
                         nearby: seq<Alternative>, i: nat, j: nat, r: seq<Alternative>)
  {
    && |r| == i <= |s| == |distances| + 1 && j == NearNumber(distances, threshold, i)
    && j <= |nearby| == |collected|
    && multiset(r + s[i..]) + multiset(collected[..j]) == multiset(s) + multiset(nearby[..j])
  }

  lemma {:induction false} FillNear(s: seq<Alternative>, distances: seq<Float>, threshold: Float,
                                    collected: seq<Alternative>, nearby: seq<Alternative>, i: nat, j: nat,
                                    r: seq<Alternative>)
    requires Filled(s, distances, threshold, collected, nearby, i, j, r) && i < |s| && Near(distances, threshold, i)
    requires AreNear(s, distances, threshold, |s|, collected)
    ensures j < |nearby| && Filled(s, distances, threshold, collected, nearby, i + 1, j + 1, r + [nearby[j]])
  {
    assert NearAt(s, distances, threshold, collected, i);
    var whole, x := r + s[i..], nearby[j];
    Replaced(whole, i, x, collected[..j], nearby[..j], multiset(s));
    assert whole[i := x] == r + [x] + s[i + 1..] && whole[i] == collected[j];
    assert collected[..j + 1] == collected[..j] + [collected[j]] && nearby[..j + 1] == nearby[..j] + [x];
  }

  lemma {:induction false} FillFar(s: seq<Alternative>, distances: seq<Float>, threshold: Float,
                                   collected: seq<Alternative>, nearby: seq<Alternative>, i: nat, j: nat,
                                   r: seq<Alternative>)
    requires Filled(s, distances, threshold, collected, nearby, i, j, r) && i < |s| && !Near(distances, threshold, i)
    ensures Filled(s, distances, threshold, collected, nearby, i + 1, j, r + [s[i]])
  {
    assert r + s[i..] == r + [s[i]] + s[i + 1..];
  }

  /** Nothing is filled at first; in the end all of collected has been exchanged for all of nearby. */
  lemma FillEnds(s: seq<Alternative>, distances: seq<Float>, threshold: Float, collected: seq<Alternative>,
                 nearby: seq<Alternative>, j: nat, r: seq<Alternative>)
    requires |s| == |distances| + 1 && |nearby| == |collected| == NearNumber(distances, threshold, |s|)
    ensures Filled(s, distances, threshold, collected, nearby, 0, 0, [])
    ensures Filled(s, distances, threshold, collected, nearby, |s|, j, r) ==>
              multiset(r) + multiset(collected) == multiset(s) + multiset(nearby)
  {
    assert [] + s[0..] == s && r + s[|s|..] == r;
    assert collected[..|collected|] == collected && nearby[..|nearby|] == nearby;
  }

  /** The second loop of reorganizeIfNearby: nearby, a list as long as what was collected, takes its place. */
  method Rearrange(alternatives: seq<Alternative>, distances: seq<Float>, threshold: Float, nearby: seq<Alternative>,
                   ghost collected: seq<Alternative>)
    returns (newAlternatives: seq<Alternative>)
    requires |alternatives| == |distances| + 1 && |nearby| == |collected|
    requires AreNear(alternatives, distances, threshold, |alternatives|, collected)
    ensures |newAlternatives| == |alternatives| && FarKept(alternatives, distances, threshold, newAlternatives)
    ensures multiset(newAlternatives) + multiset(collected) == multiset(alternatives) + multiset(nearby)
  {
    newAlternatives := [];
    var j := 0;
    FillEnds(alternatives, distances, threshold, collected, nearby, j, newAlternatives);
    for i := 0 to |alternatives|
      invariant Filled(alternatives, distances, threshold, collected, nearby, i, j, newAlternatives)
      invariant FarKept(alternatives, distances, threshold, newAlternatives)
    {
      if i == 0 || Lt(distances[i - 1], threshold) {
        FillNear(alternatives, distances, threshold, collected, nearby, i, j, newAlternatives);
        FarKeptStep(alternatives, distances, threshold, newAlternatives, nearby[j]);
        newAlternatives := newAlternatives + [nearby[j]];
        j := j + 1;
      } else {
        FillFar(alternatives, distances, threshold, collected, nearby, i, j, newAlternatives);
        FarKeptStep(alternatives, distances, threshold, newAlternatives, alternatives[i]);
        newAlternatives := newAlternatives + [alternatives[i]];
      }
    }
    FillEnds(alternatives, distances, threshold, collected, nearby, j, newAlternatives);
  }

  /** reorganizeIfNearby: the alternatives at near positions are shuffled among those positions, all others
      keep their place. */
  method ReorganizeIfNearby(alternatives: seq<Alternative>, distances: seq<Float>, threshold: Float, draw: nat -> nat)
    returns (newAlternatives: seq<Alternative>)
    requires |alternatives| == |distances| + 1
    ensures Reorganized(alternatives, distances, threshold, newAlternatives)
  {
    var collected := CollectNearby(alternatives, distances, threshold);
    var nearby := Shuffle(collected, draw);
    newAlternatives := Rearrange(alternatives, distances, threshold, nearby, collected);
    Cancel(multiset(newAlternatives), multiset(alternatives), multiset(collected));
  }

  /** The same alternatives, each far one at its place. */
  ghost predicate Reorganized(s: seq<Alternative>, distances: seq<Float>, threshold: Float, r: seq<Alternative>) {
    |r| == |s| == |distances| + 1 && multiset(r) == multiset(s) && FarKept(s, distances, threshold, r)
  }

  // ---------- What the ranking means ----------

  predicate IsBest(preferences: seq<Float>, p: real) {
    Num(p) in preferences && forall i | 0 <= i < |preferences| :: preferences[i].Num? && preferences[i].value <= p
  }

  /** A leading block of k alternatives at most `threshold` below the best, then everybody else,
      further from the best and in descending order. */
  predicate BestBlockFirst(s: seq<Alternative>, best: real, threshold: real, k: nat) {
    && 1 <= k <= |s| && AllNumbers(s)
    && (forall i | 0 <= i < k :: s[i].preference.value == best || s[i].preference.value > best - threshold)
    && (forall i | k <= i < |s| :: s[i].preference.value <= best - threshold)
    && (forall i, j | 0 <= i < j < |s| && k <= j :: s[i].preference.value >= s[j].preference.value)
  }

  /** Every replica exactly once, with the preference it came with. */
  predicate EachOnce(preferences: seq<Float>, s: seq<Alternative>) {
    && |s| == |preferences|
    && (forall p | 0 <= p < |preferences| :: Alternative(p + 1, preferences[p]) in s)
    && (forall i | 0 <= i < |s| :: 1 <= s[i].index <= |preferences| && s[i].preference == preferences[s[i].index - 1])
    && (forall i, j | 0 <= i < j < |s| :: s[i].index != s[j].index)
  }

  /** The priority of a preference; nan is the integer that the conversion of NaN happens to give. */
  function PriorityOf(preference: Float, nan: int): (p: nat)
    ensures p <= 100
  {
    if preference.Num? then PreferencePriority(preference.value) else MapToRange(nan, 0, 100, 100, 0)
  }

  /** The alternatives with each preference turned into a priority. */
  function Prioritised(s: seq<Alternative>, nan: int): (r: seq<Alternative>)
    ensures |r| == |s|
    ensures forall i | 0 <= i < |r| :: r[i].preference.Num? && 0.0 <= r[i].preference.value <= 100.0
  {
    seq(|s|, i requires 0 <= i < |s| => Alternative(s[i].index, Num(PriorityOf(s[i].preference, nan) as real)))
  }

  /** A rearrangement of the numbered alternatives numbers every replica exactly once and gives it its
      own preference. */
  lemma {:induction false} RearrangedOnce(preferences: seq<Float>, s: seq<Alternative>)
    requires multiset(s) == multiset(AlternativesOf(preferences))
    ensures EachOnce(preferences, s)
  {
    var a := AlternativesOf(preferences);
    assert |multiset(s)| == |multiset(a)|;
    SameMembers(preferences, s);
    forall i, j | 0 <= i < j < |s| ensures s[i].index != s[j].index {
      if s[i].index == s[j].index {
        Repeated(s, i, j);
        Repeats(a, s[i]);
      }
    }
  }

  lemma {:induction false} SameMembers(preferences: seq<Float>, s: seq<Alternative>)
    requires multiset(s) == multiset(AlternativesOf(preferences))
    ensures forall i | 0 <= i < |s| ::
              1 <= s[i].index <= |preferences| && s[i].preference == preferences[s[i].index - 1]
    ensures forall p | 0 <= p < |preferences| :: Alternative(p + 1, preferences[p]) in s
  {
    var a := AlternativesOf(preferences);
    forall p | 0 <= p < |preferences| ensures Alternative(p + 1, preferences[p]) in s {
      assert a[p] in multiset(a);
    }
    forall i | 0 <= i < |s| ensures 1 <= s[i].index <= |preferences| && s[i].preference == preferences[s[i].index - 1] {
      assert s[i] in multiset(s);
      assert s[i] in a;
    }
  }

  lemma {:induction false} Repeated(s: seq<Alternative>, i: nat, j: nat)
    requires i < j < |s| && s[i] == s[j]
    ensures multiset(s)[s[i]] >= 2
  {
    assert s == s[..i + 1] + s[i + 1..];
    assert s[i] in s[..i + 1] && s[i + 1..][j - i - 1] == s[i];
    assert multiset(s) == multiset(s[..i + 1]) + multiset(s[i + 1..]);
  }

  lemma {:induction false} Repeats(s: seq<Alternative>, x: Alternative)
    requires multiset(s)[x] >= 2
    ensures exists p, q :: 0 <= p < q < |s| && s[p] == x && s[q] == x
  {
    var last := |s| - 1;
    assert s == s[..last] + [s[last]];
    if s[last] == x {
      assert x in multiset(s[..last]);
      var p :| 0 <= p < last && s[..last][p] == x;
      assert s[p] == x && s[last] == x;
    } else {
      assert multiset(s[..last])[x] >= 2;
      Repeats(s[..last], x);
      var p, q :| 0 <= p < q < last && s[..last][p] == x && s[..last][q] == x;
      assert s[p] == x && s[q] == x;
    }
  }

  /** A descending rearrangement starts with the best preference. */
  lemma {:induction false} FirstIsBest(preferences: seq<Float>, s: seq<Alternative>)
    requires |preferences| > 0 && multiset(s) == multiset(AlternativesOf(preferences)) && Descending(s)
    ensures |s| > 0 && IsBest(preferences, s[0].preference.value)
  {
    RearrangedOnce(preferences, s);
    forall i | 0 <= i < |preferences| ensures preferences[i].Num? && preferences[i].value <= s[0].preference.value {
      assert Alternative(i + 1, preferences[i]) in s;
    }
    assert s[0].preference == preferences[s[0].index - 1];
  }

  predicate InUnit(p: Float) { p.Num? && 0.0 <= p.value <= 1.0 }

  /** The final loop of sortbyThreshold: a preference between 0 and 1 becomes 100 minus its whole percentage. */
  method ReplaceByPriority(shuffled: seq<Alternative>, nan: int) returns (s: seq<Alternative>)
    ensures s == Prioritised(shuffled, nan)
    ensures forall i | 0 <= i < |s| && InUnit(shuffled[i].preference) ::
              s[i] == Alternative(shuffled[i].index, Num((100 - (shuffled[i].preference.value * 100.0).Floor) as real))
  {
    s := shuffled;
    for id := 0 to |s|
      invariant s == Prioritised(shuffled, nan)[..id] + shuffled[id..]
    {
      s := s[id := s[id].(preference := Num(PriorityOf(s[id].preference, nan) as real))];
    }
    PrioritisedPercents(shuffled, nan);
  }

  lemma PrioritisedPercents(ranked: seq<Alternative>, nan: int)
    ensures forall i | 0 <= i < |ranked| && InUnit(ranked[i].preference) :: Prioritised(ranked, nan)[i] ==
              Alternative(ranked[i].index, Num((100 - (ranked[i].preference.value * 100.0).Floor) as real))
  {
    forall i | 0 <= i < |ranked| && InUnit(ranked[i].preference)
      ensures PriorityOf(ranked[i].preference, nan) == 100 - (ranked[i].preference.value * 100.0).Floor
    {
      PercentAt(ranked[i].preference, nan);
    }
  }

  function Percent(n: int, x: real): real { x * (n as real / 100.0) }

  function PercentFloat(n: int, x: Float): Float { if x.Num? then Num(Percent(n, x.value)) else NaN }

  /** A block within the threshold of the best precedes the rest in descending order. */
  ghost predicate NearBestFirst(preferences: seq<Float>, umbral: int, ranked: seq<Alternative>) {
    exists best: real, k: nat :: IsBest(preferences, best) && BestBlockFirst(ranked, best, Percent(umbral, best), k)
  }

  /** The list carries the priorities of an order in which each replica appears exactly once and, if the
      preferences are numbers, a block within the threshold of the best precedes the rest. */
  ghost predicate RankedBy(preferences: seq<Float>, umbral: int, nan: int, s: seq<Alternative>) {
    exists ranked: seq<Alternative> ::
      s == Prioritised(ranked, nan) && EachOnce(preferences, ranked) &&
      (Numeric(preferences) ==> NearBestFirst(preferences, umbral, ranked))
  }

  /** Each preference between 0 and 1 has become 100 minus its whole percentage. */
  predicate Percentages(preferences: seq<Float>, s: seq<Alternative>) {
    forall i | 0 <= i < |s| :: 1 <= s[i].index <= |preferences| &&
      (InUnit(preferences[s[i].index - 1]) ==>
         s[i].preference == Num((100 - (preferences[s[i].index - 1].value * 100.0).Floor) as real))
  }

  /** sortbyThreshold, for every order of ties and every shuffle. */
  method SortByThreshold(preferences: seq<Float>, umbral: int, draw: nat -> nat, nan: int)
    returns (newAlternatives: seq<Alternative>)
    requires |preferences| > 0
    ensures RankedBy(preferences, umbral, nan, newAlternatives)
    ensures forall i | 0 <= i < |newAlternatives| ::
              newAlternatives[i].preference.Num? && 0.0 <= newAlternatives[i].preference.value <= 100.0
    ensures Percentages(preferences, newAlternatives)
  {
    var alternativesSort := SortAlternatives(preferences);
    var threshold := PercentFloat(umbral, alternativesSort[0].preference);
    newAlternatives := ReorganizeSorted(preferences, alternativesSort, threshold, draw);
    ghost var ranked := newAlternatives;
    newAlternatives := ReplaceByPriority(newAlternatives, nan);
    if Numeric(preferences) {
      ghost var k: nat :| BestBlockFirst(ranked, alternativesSort[0].preference.value, threshold.value, k);
      assert NearBestFirst(preferences, umbral, ranked);
    }
    RankedPercentages(preferences, umbral, nan, newAlternatives);
  }

  lemma PercentAt(p: Float, nan: int)
    requires InUnit(p)
    ensures PriorityOf(p, nan) == 100 - (p.value * 100.0).Floor
  {
    PreferencePriorityExact(p.value);
  }

  lemma {:induction false} RankedPercentages(preferences: seq<Float>, umbral: int, nan: int, s: seq<Alternative>)
    requires RankedBy(preferences, umbral, nan, s)
    ensures Percentages(preferences, s)
  {
    RankedGives(preferences, umbral, nan, s);
    GivenPercentages(preferences, PrioritiesOf(preferences, nan), nan, s);
  }

  lemma {:induction false} GivenPercentages(preferences: seq<Float>, priorities: seq<nat>, nan: int,
                                            s: seq<Alternative>)
    requires Gives(priorities, s) && priorities == PrioritiesOf(preferences, nan)
    ensures Percentages(preferences, s)
  {
    forall i | 0 <= i < |preferences| && InUnit(preferences[i])
      ensures priorities[i] == 100 - (preferences[i].value * 100.0).Floor
    {
      PercentAt(preferences[i], nan);
    }
  }

  /** distancesFromBetter and reorganizeIfNearby on a sorted list. */
  method ReorganizeSorted(preferences: seq<Float>, sorted: seq<Alternative>, threshold: Float, draw: nat -> nat)
    returns (shuffled: seq<Alternative>)
    requires |sorted| > 0 && multiset(sorted) == multiset(AlternativesOf(preferences))
    ensures EachOnce(preferences, shuffled)
    ensures Descending(sorted) && threshold.Num? ==>
              exists k: nat :: BestBlockFirst(shuffled, sorted[0].preference.value, threshold.value, k)
  {
    var distances := DistancesFromBetter(sorted);
    shuffled := ReorganizeIfNearby(sorted, distances, threshold, draw);
    RearrangedOnce(preferences, shuffled);
    if Descending(sorted) && threshold.Num? { BlockThenRest(sorted, distances, threshold.value, shuffled); }
  }

  // ---------- The leading block ----------

  /** How many leading positions are near the best, the first always included. */
  function NearCount(distances: seq<Float>, threshold: Float): (k: nat)
    ensures 1 <= k <= |distances| + 1
    ensures forall i: nat | i < k :: Near(distances, threshold, i)
    ensures k <= |distances| ==> !Near(distances, threshold, k)
  {
    NearFrom(distances, threshold, 1)
  }

  function NearFrom(distances: seq<Float>, threshold: Float, from: nat): (k: nat)
    requires 1 <= from <= |distances| + 1
    ensures from <= k <= |distances| + 1
    ensures forall i: nat | from <= i < k :: Near(distances, threshold, i)
    ensures k <= |distances| ==> !Near(distances, threshold, k)
    decreases |distances| - from + 1
  {
    if from > |distances| || !Near(distances, threshold, from) then from
    else NearFrom(distances, threshold, from + 1)
  }

  /** Along a descending list distances grow, so exactly the leading positions are near. */
  lemma {:induction false} NearIsPrefix(sorted: seq<Alternative>, distances: seq<Float>, threshold: real, i: nat)
    requires Descending(sorted) && AreGaps(sorted, distances) && i < |sorted|
    ensures Near(distances, Num(threshold), i) <==> i < NearCount(distances, Num(threshold))
    ensures Near(distances, Num(threshold), i) <==>
            i == 0 || sorted[i].preference.value > sorted[0].preference.value - threshold
  {
    var k := NearCount(distances, Num(threshold));
    if k <= i {
      assert k == i || sorted[k].preference.value >= sorted[i].preference.value;
    }
  }

  lemma {:induction false} SameFront(s: seq<Alternative>, r: seq<Alternative>, k: nat)
    requires multiset(r) == multiset(s) && k <= |r| == |s| && r[k..] == s[k..]
    ensures multiset(r[..k]) == multiset(s[..k])
  {
    assert r == r[..k] + r[k..] && s == s[..k] + s[k..];
    Cancel(multiset(r[..k]), multiset(s[..k]), multiset(s[k..]));
  }

  lemma Cancel(a: multiset<Alternative>, b: multiset<Alternative>, c: multiset<Alternative>)
    requires a + c == b + c
    ensures a == b
  {
    forall x ensures a[x] == b[x] { assert (a + c)[x] == a[x] + c[x] && (b + c)[x] == b[x] + c[x]; }
  }

  /** Exactly the alternatives within the threshold form the leading block, for every shuffle. */
  lemma {:induction false} BlockThenRest(sorted: seq<Alternative>, distances: seq<Float>, threshold: real,
                                         shuffled: seq<Alternative>)
    requires Descending(sorted) && AreGaps(sorted, distances)
    requires Reorganized(sorted, distances, Num(threshold), shuffled)
    ensures BestBlockFirst(shuffled, sorted[0].preference.value, threshold, NearCount(distances, Num(threshold)))
  {
    var k, best := NearCount(distances, Num(threshold)), sorted[0].preference.value;
    forall i: nat | k <= i < |sorted|
      ensures shuffled[i] == sorted[i] && sorted[i].preference.value <= best - threshold
    {
      NearIsPrefix(sorted, distances, threshold, i);
      assert KeptAt(sorted, distances, Num(threshold), shuffled, i);
    }
    assert shuffled[k..] == sorted[k..];
    SameFront(sorted, shuffled, k);
    forall i | 0 <= i < k ensures FromFront(sorted, shuffled[i], k, best - threshold) {
      assert shuffled[..k][i] in multiset(shuffled[..k]);
      assert shuffled[i] in sorted[..k];
      var p: nat :| p < k && sorted[p] == shuffled[i];
      NearIsPrefix(sorted, distances, threshold, p);
    }
  }

  /** A member of the leading block: near the best, and no lower than anything behind the block. */
  predicate FromFront(sorted: seq<Alternative>, a: Alternative, k: nat, limit: real)
    requires Descending(sorted) && k <= |sorted| && |sorted| > 0
  {
    a.preference.Num? && (a.preference == sorted[0].preference || a.preference.value > limit) &&
    forall j | k <= j < |sorted| :: a.preference.value >= sorted[j].preference.value
  }

  // ---------- Consequences for DelegateJob ----------

  /** With the threshold of 20 percent the first replica is a best one or scores above 80 percent of the
      best, and the leading block holds exactly those replicas above 80 percent and possibly best ones. */
  lemma HeadNearBest(ranked: seq<Alternative>, best: real, k: nat)
    requires BestBlockFirst(ranked, best, Percent(20, best), k)
    ensures ranked[0].preference.value == best || ranked[0].preference.value > 0.8 * best
    ensures forall i | 0 <= i < |ranked| :: ranked[i].preference.value > 0.8 * best ==> i < k
    ensures forall i | 0 <= i < k :: ranked[i].preference.value == best || ranked[i].preference.value > 0.8 * best
  {
    assert best - Percent(20, best) == 0.8 * best;
  }

  /** A best replica is always in the leading block, whatever the shuffle. */
  lemma {:induction false} BestInBlock(preferences: seq<Float>, ranked: seq<Alternative>, best: real, threshold: real,
                                       k: nat)
    requires IsBest(preferences, best) && EachOnce(preferences, ranked) && BestBlockFirst(ranked, best, threshold, k)
    ensures exists i :: 0 <= i < k && ranked[i].preference == Num(best)
  {
    var p :| 0 <= p < |preferences| && preferences[p] == Num(best);
    assert Alternative(p + 1, Num(best)) in ranked;
    var i :| 0 <= i < |ranked| && ranked[i] == Alternative(p + 1, Num(best));
    if i >= k {
      assert ranked[0].preference.value >= ranked[i].preference.value;
      assert ranked[0].preference == preferences[ranked[0].index - 1];
    }
  }

  /** Dominance survives the mapping to priorities: a replica no worse than another on every criterion
      never gets the worse (larger) priority. */
  lemma {:induction false} DominancePriority(sqrt: real -> real, m: Matrix, a: nat, b: nat)
    requires WellPosed(sqrt, m, WEIGHTS) && a < |m| && b < |m|
    requires NoWorse(m[a], m[b])
    ensures PreferencePriority(Preference(sqrt, m, WEIGHTS, a)) <=
            PreferencePriority(Preference(sqrt, m, WEIGHTS, b))
  {
    var p, q := Preference(sqrt, m, WEIGHTS, a), Preference(sqrt, m, WEIGHTS, b);
    DominanceRespected(sqrt, m, WEIGHTS, a, b);
    PreferenceInUnitInterval(sqrt, m, WEIGHTS, a);
    PreferenceInUnitInterval(sqrt, m, WEIGHTS, b);
  }

  /** Every ranking, of numbers or NaNs, holds the number |preferences|, which is no position of a list of
      that many replicas: writing priorities back by number overruns the list whatever the preferences are. */
  lemma WriteBackOverruns(preferences: seq<Float>, umbral: int, nan: int, s: seq<Alternative>)
    requires |preferences| > 0 && RankedBy(preferences, umbral, nan, s)
    ensures exists i :: 0 <= i < |s| && s[i].index >= |preferences|
  {
    var n := |preferences|;
    var ranked :| s == Prioritised(ranked, nan) && EachOnce(preferences, ranked);
    assert Alternative(n, preferences[n - 1]) in ranked;
    var i :| 0 <= i < |ranked| && ranked[i] == Alternative(n, preferences[n - 1]);
    assert s[i].index == n;
  }

  function PrioritiesOf(preferences: seq<Float>, nan: int): seq<nat> {
    seq(|preferences|, i requires 0 <= i < |preferences| => PriorityOf(preferences[i], nan))
  }

  /** No replica has a worse priority than one it dominates. */
  predicate Respects(results: Matrix, priorities: seq<nat>)
    requires Rectangular(results) && |priorities| == |results|
  {
    forall a: nat, b: nat | a < |results| && b < |results| && NoWorse(results[a], results[b]) ::
      priorities[a] <= priorities[b]
  }

  lemma TopsisRespects(sqrt: real -> real, results: Matrix, preferences: seq<Float>, nan: int)
    requires WellPosed(sqrt, results, WEIGHTS) && |preferences| == |results|
    requires forall i: nat | i < |results| :: preferences[i] == Num(Preference(sqrt, results, WEIGHTS, i))
    ensures Respects(results, PrioritiesOf(preferences, nan))
  {
    var priorities := PrioritiesOf(preferences, nan);
    forall a: nat, b: nat | a < |results| && b < |results| && NoWorse(results[a], results[b])
      ensures priorities[a] <= priorities[b]
    {
      DominancePriority(sqrt, results, a, b);
    }
  }

  /** A list that numbers the n replicas, each once, with priorities in 0..100. */
  predicate Numbering(n: nat, s: seq<Alternative>) {
    && |s| == n
    && (forall i | 0 <= i < n :: s[i].preference.Num? && 0.0 <= s[i].preference.value <= 100.0)
    && (forall i | 0 <= i < n :: 1 <= s[i].index <= n)
    && (forall i, j | 0 <= i < j < n :: s[i].index != s[j].index)
  }

  /** No replica gets a worse priority than one it dominates. */
  predicate DominanceKept(results: Matrix, s: seq<Alternative>)
    requires Rectangular(results) && Numbering(|results|, s)
  {
    forall i, j | 0 <= i < |s| && 0 <= j < |s| && NoWorse(results[s[i].index - 1], results[s[j].index - 1]) ::
      s[i].preference.value <= s[j].preference.value
  }

  lemma RankedNumbers(preferences: seq<Float>, ranked: seq<Alternative>, nan: int)
    requires EachOnce(preferences, ranked)
    ensures Numbering(|preferences|, Prioritised(ranked, nan))
  {
  }

  /** The list gives every replica its priority. */
  predicate Gives(priorities: seq<nat>, s: seq<Alternative>) {
    Numbering(|priorities|, s) &&
    forall i | 0 <= i < |s| :: s[i].preference == Num(priorities[s[i].index - 1] as real)
  }

  lemma {:induction false} GivesAt(preferences: seq<Float>, ranked: seq<Alternative>, nan: int, i: nat)
    requires EachOnce(preferences, ranked) && i < |ranked|
    ensures var s := Prioritised(ranked, nan);
            s[i].index == ranked[i].index &&
            s[i].preference == Num(PrioritiesOf(preferences, nan)[ranked[i].index - 1] as real)
  {
    var p := ranked[i].preference;
    assert p == preferences[ranked[i].index - 1];
    assert PrioritiesOf(preferences, nan)[ranked[i].index - 1] == PriorityOf(p, nan);
  }

  lemma {:induction false} RankedGives(preferences: seq<Float>, umbral: int, nan: int, s: seq<Alternative>)
    requires RankedBy(preferences, umbral, nan, s)
    ensures Gives(PrioritiesOf(preferences, nan), s)
  {
    var ranked: seq<Alternative> :| s == Prioritised(ranked, nan) && EachOnce(preferences, ranked);
    RankedNumbers(preferences, ranked, nan);
    var priorities := PrioritiesOf(preferences, nan);
    forall i | 0 <= i < |s| ensures s[i].preference == Num(priorities[s[i].index - 1] as real) {
      GivesAt(preferences, ranked, nan, i);
    }
  }

  lemma GivenDominance(results: Matrix, priorities: seq<nat>, s: seq<Alternative>)
    requires Rectangular(results) && |priorities| == |results| && Respects(results, priorities) && Gives(priorities, s)
    ensures DominanceKept(results, s)
  {
    forall i, j | 0 <= i < |s| && 0 <= j < |s| && NoWorse(results[s[i].index - 1], results[s[j].index - 1])
      ensures s[i].preference.value <= s[j].preference.value
    {
      assert priorities[s[i].index - 1] <= priorities[s[j].index - 1];
    }
  }

  /** The preferences of the replicas. */
  ghost function PreferencesOf(sqrt: real -> real, results: Matrix): seq<real>
    requires WellPosed(sqrt, results, WEIGHTS)
  {
    seq(|results|, i requires 0 <= i < |results| => Preference(sqrt, results, WEIGHTS, i))
  }

  /** The preferences in the order of the list; ps holds them by number. */
  function InOrder(ps: seq<real>, s: seq<Alternative>): seq<real>
    requires forall i | 0 <= i < |s| :: 1 <= s[i].index <= |ps|
  {
    seq(|s|, i requires 0 <= i < |s| => ps[s[i].index - 1])
  }

  /** Preferences above 80 percent of the best, and possibly best ones, come first; the rest follows in
      descending order. */
  predicate FifthFirst(ps: seq<real>, best: real, k: nat) {
    && 1 <= k <= |ps|
    && (forall i | 0 <= i < k :: ps[i] == best || ps[i] > 0.8 * best)
    && (forall i | k <= i < |ps| :: ps[i] <= 0.8 * best)
    && (forall i, j | 0 <= i < j < |ps| && k <= j :: ps[i] >= ps[j])
  }

  ghost predicate BestFifthFirst(ps: seq<real>, s: seq<Alternative>) {
    (forall i | 0 <= i < |s| :: 1 <= s[i].index <= |ps|) &&
    exists best: real, k: nat :: best in ps && (forall p | p in ps :: p <= best) && FifthFirst(InOrder(ps, s), best, k)
  }

  lemma FifthOf(ps: seq<real>, ranked: seq<Alternative>, best: real, k: nat)
    requires forall i | 0 <= i < |ranked| ::
               1 <= ranked[i].index <= |ps| && ranked[i].preference == Num(ps[ranked[i].index - 1])
    requires BestBlockFirst(ranked, best, Percent(20, best), k)
    ensures FifthFirst(InOrder(ps, ranked), best, k)
  {
    HeadNearBest(ranked, best, k);
    assert forall i | 0 <= i < |ranked| :: InOrder(ps, ranked)[i] == ranked[i].preference.value;
  }

  lemma RankedFifth(ps: seq<real>, preferences: seq<Float>, nan: int, s: seq<Alternative>)
    requires RankedBy(preferences, 20, nan, s) && |ps| == |preferences|
    requires forall i | 0 <= i < |ps| :: preferences[i] == Num(ps[i])
    ensures BestFifthFirst(ps, s)
  {
    var ranked: seq<Alternative> :| s == Prioritised(ranked, nan) && EachOnce(preferences, ranked) &&
                                    (Numeric(preferences) ==> NearBestFirst(preferences, 20, ranked));
    NearBestFifth(ps, preferences, ranked);
    SameOrder(ps, ranked, nan);
  }

  lemma {:induction false} NearBestFifth(ps: seq<real>, preferences: seq<Float>, ranked: seq<Alternative>)
    requires NearBestFirst(preferences, 20, ranked) && EachOnce(preferences, ranked) && |ps| == |preferences|
    requires forall i | 0 <= i < |ps| :: preferences[i] == Num(ps[i])
    ensures BestFifthFirst(ps, ranked)
  {
    var best: real, k: nat :| IsBest(preferences, best) && BestBlockFirst(ranked, best, Percent(20, best), k);
    BestIn(ps, preferences, best);
    FifthOf(ps, ranked, best, k);
  }

  lemma BestIn(ps: seq<real>, preferences: seq<Float>, best: real)
    requires IsBest(preferences, best) && |ps| == |preferences|
    requires forall i | 0 <= i < |ps| :: preferences[i] == Num(ps[i])
    ensures best in ps && forall p | p in ps :: p <= best
  {
    forall p | p in ps ensures p <= best {
      var i :| 0 <= i < |ps| && ps[i] == p;
      assert preferences[i] == Num(p);
    }
  }

  lemma SameOrder(ps: seq<real>, ranked: seq<Alternative>, nan: int)
    requires forall i | 0 <= i < |ranked| :: 1 <= ranked[i].index <= |ps|
    ensures forall i | 0 <= i < |ranked| :: 1 <= Prioritised(ranked, nan)[i].index <= |ps|
    ensures InOrder(ps, Prioritised(ranked, nan)) == InOrder(ps, ranked)
  {
  }

  lemma PercentagesOf(ps: seq<real>, preferences: seq<Float>, s: seq<Alternative>)
    requires Percentages(preferences, s) && |ps| == |preferences|
    requires forall i | 0 <= i < |ps| :: preferences[i] == Num(ps[i]) && 0.0 <= ps[i] <= 1.0
    ensures forall i | 0 <= i < |s| :: 1 <= s[i].index <= |ps| &&
              s[i].preference == Num((100 - (ps[s[i].index - 1] * 100.0).Floor) as real)
  {
    forall i | 0 <= i < |s| ensures 1 <= s[i].index <= |ps| && InUnit(preferences[s[i].index - 1]) {}
  }

  /** What the ranking means on an informative matrix. */
  ghost predicate Meaningful(sqrt: real -> real, results: Matrix, s: seq<Alternative>)
    requires WellPosed(sqrt, results, WEIGHTS) && Numbering(|results|, s)
  {
    && (forall i | 0 <= i < |s| :: s[i].preference.value ==
          (100 - (Preference(sqrt, results, WEIGHTS, s[i].index - 1) * 100.0).Floor) as real)
    && DominanceKept(results, s)
    && BestFifthFirst(PreferencesOf(sqrt, results), s)
  }

  lemma {:induction false} RankingMeans(sqrt: real -> real, results: Matrix, ps: seq<real>, s: seq<Alternative>)
    requires WellPosed(sqrt, results, WEIGHTS) && Numbering(|results|, s) && ps == PreferencesOf(sqrt, results)
    requires forall i | 0 <= i < |s| :: s[i].preference == Num((100 - (ps[s[i].index - 1] * 100.0).Floor) as real)
    requires DominanceKept(results, s) && BestFifthFirst(ps, s)
    ensures Meaningful(sqrt, results, s)
  {
    forall i | 0 <= i < |s|
      ensures s[i].preference.value ==
              (100 - (Preference(sqrt, results, WEIGHTS, s[i].index - 1) * 100.0).Floor) as real
    {
      assert ps[s[i].index - 1] == Preference(sqrt, results, WEIGHTS, s[i].index - 1);
    }
  }

  /** The preferences topsisMethod returned are those of the replicas. */
  ghost predicate ArePreferences(sqrt: real -> real, results: Matrix, preferences: seq<Float>, ps: seq<real>)
    requires WellPosed(sqrt, results, WEIGHTS)
  {
    ps == PreferencesOf(sqrt, results) && |preferences| == |ps| &&
    forall i | 0 <= i < |ps| :: preferences[i] == Num(ps[i]) && 0.0 <= ps[i] <= 1.0
  }

  lemma {:induction false} PreferencesAre(sqrt: real -> real, results: Matrix, preferences: seq<Float>)
    returns (ps: seq<real>)
    requires WellPosed(sqrt, results, WEIGHTS) && |preferences| == |results|
    requires forall i: nat | i < |results| ::
               preferences[i] == Num(Preference(sqrt, results, WEIGHTS, i)) && 0.0 <= preferences[i].value <= 1.0
    ensures ArePreferences(sqrt, results, preferences, ps)
  {
    ps := PreferencesOf(sqrt, results);
    assert forall i: nat | i < |ps| :: ps[i] == Preference(sqrt, results, WEIGHTS, i);
  }

  lemma {:induction false} RankingSound(sqrt: real -> real, results: Matrix, preferences: seq<Float>, ps: seq<real>,
                                        nan: int, s: seq<Alternative>)
    requires WellPosed(sqrt, results, WEIGHTS) && ArePreferences(sqrt, results, preferences, ps)
    requires RankedBy(preferences, 20, nan, s) && Percentages(preferences, s)
    requires Gives(PrioritiesOf(preferences, nan), s) && Respects(results, PrioritiesOf(preferences, nan))
    ensures Numbering(|results|, s) && Meaningful(sqrt, results, s)
  {
    GivenDominance(results, PrioritiesOf(preferences, nan), s);
    RankedFifth(ps, preferences, nan, s);
    PercentagesOf(ps, preferences, s);
    RankingMeans(sqrt, results, ps, s);
  }

  /** The TOPSIS ranking of DelegateJob, for every matrix of measurements: every replica is numbered once with a
      priority in 0..100. On an informative matrix that priority is 100 minus the whole percentage of the
      replica's preference, it respects dominance, and the replicas within 20 percent of the best come first.
      Writing the priorities back by number always overruns the replica list. */
  method RankReplicas(sqrt: real -> real, results: Matrix, draw: nat -> nat, nan: int)
    returns (newAlternatives: seq<Alternative>)
    requires IsSqrt(sqrt) && Rectangular(results) && |results[0]| == |WEIGHTS|
    ensures Numbering(|results|, newAlternatives)
    ensures WellPosed(sqrt, results, WEIGHTS) <==> Informative(results)
    ensures Informative(results) ==> forall i | 0 <= i < |results| ::
              newAlternatives[i].preference.value ==
              (100 - (Preference(sqrt, results, [1.0, 8.0, 18.0, 65.0, 2.0, 6.0],
                                 newAlternatives[i].index - 1) * 100.0).Floor) as real
    ensures Informative(results) ==> DominanceKept(results, newAlternatives)
    ensures Informative(results) ==> BestFifthFirst(PreferencesOf(sqrt, results), newAlternatives)
    ensures exists i :: 0 <= i < |newAlternatives| && newAlternatives[i].index >= |results|
  {
    var preferences := TopsisMethod(sqrt, results, WEIGHTS);
    newAlternatives := SortByThreshold(preferences, 20, draw, nan);
    WriteBackOverruns(preferences, 20, nan, newAlternatives);
    RankedGives(preferences, 20, nan, newAlternatives);
    if Informative(results) {
      TopsisRespects(sqrt, results, preferences, nan);
      ghost var ps := PreferencesAre(sqrt, results, preferences);
      RankingSound(sqrt, results, preferences, ps, nan, newAlternatives);
    }
  }
}
