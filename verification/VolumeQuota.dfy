/** Volume quotas of a user namespace: the quota a user sees, the check before a volume is created and
    the quota update (pkg/utils/volume_limit.go, pkg/handlers/quotas.go, pkg/handlers/volumes.go,
    pkg/backends/resources/volume.go).

    A quantity is the integer number of its smallest unit, the nano; texts go through `Quantities`. */
module VolumeQuota {
  import opened Options
  import Text

  /** resource.ParseQuantity, Quantity.String and the %d format. */
  datatype Quantities = Quantities(parse: string -> Option<int>, show: int -> string, showInt: int -> string) {
    /** Printed quantities parse to themselves; a missing quantity prints as no quantity. */
    ghost predicate Exact() {
      && (forall x :: parse(show(x)) == Some(x))
      && (forall n: int :: parse(showInt(n)) == Some(n * UNIT))
      && parse("NotFound") == None && parse("") == None
    }
  }

  /** Nanos in a whole. */
  const UNIT: int := 1_000_000_000

  /** Quantity.Value: rounded up to a whole number. */
  function Value(x: int): int { -((-x) / UNIT) }

  /** It is the least whole number that is not below the quantity. */
  lemma ValueRoundsUp(x: int)
    ensures (Value(x) - 1) * UNIT < x <= Value(x) * UNIT
  {
  }

  /** There are exact codecs. */
  lemma CodecExists()
    ensures exists q: Quantities :: q.Exact()
  {
    var q := Quantities(Text.Untally, Text.Tally, (n: int) => Text.Tally(n * UNIT));
    forall x: int ensures q.parse(q.show(x)) == Some(x) { Text.TallyRoundTrip(x); }
    forall n: int ensures q.parse(q.showInt(n)) == Some(n * UNIT) { Text.TallyRoundTrip(n * UNIT); }
    assert q.Exact();
  }

  // ---------- The namespace ----------

  /** A persistent volume claim; managed claims carry the OSCAR label. */
  datatype Claim = Claim(name: string, managed: bool, storage: Option<int>)

  /** Hard limits of the ResourceQuota. */
  datatype Hard = Hard(disk: Option<int>, volumes: Option<int>)

  /** Bounds of the LimitRange. */
  datatype Bounds = Bounds(max: Option<int>, min: Option<int>)

  datatype State = State(quota: Option<Hard>, bounds: Option<Bounds>, claims: seq<Claim>)

  /** Configured or current limits as texts. */
  datatype VolumeLimits = VolumeLimits(disk: string, volumes: string, maxDisk: string, minDisk: string)

  predicate Readable(q: Quantities, l: VolumeLimits) {
    q.parse(l.disk).Some? && q.parse(l.volumes).Some? && q.parse(l.maxDisk).Some? && q.parse(l.minDisk).Some?
  }

  function HardOf(q: Quantities, l: VolumeLimits): Hard { Hard(q.parse(l.disk), q.parse(l.volumes)) }

  function BoundsOf(q: Quantities, l: VolumeLimits): Bounds { Bounds(q.parse(l.maxDisk), q.parse(l.minDisk)) }

  /** The namespace after EnsureVolumeLimits: missing objects created from the configuration. */
  function Ensured(q: Quantities, s: State, defaults: VolumeLimits): State {
    s.(quota := if s.quota.None? then Some(HardOf(q, defaults)) else s.quota,
       bounds := if s.bounds.None? then Some(BoundsOf(q, defaults)) else s.bounds)
  }

  // ---------- Usage ----------

  function Amount(o: Option<int>): int { if o.Some? then o.value else 0 }

  function Storage(claims: seq<Claim>, managed: bool): int {
    if claims == [] then 0 else
      var c := claims[|claims| - 1];
      Storage(claims[..|claims| - 1], managed) + if c.managed == managed then Amount(c.storage) else 0
  }

  function Count(claims: seq<Claim>, managed: bool): nat {
    if claims == [] then 0 else
      Count(claims[..|claims| - 1], managed) + if claims[|claims| - 1].managed == managed then 1 else 0
  }

  /** Storage claimed by everybody. */
  function Total(claims: seq<Claim>): int {
    if claims == [] then 0 else Total(claims[..|claims| - 1]) + Amount(claims[|claims| - 1].storage)
  }

  predicate NonNegative(claims: seq<Claim>) {
    forall i | 0 <= i < |claims| :: Amount(claims[i].storage) >= 0
  }

  // ---------- What the user sees ----------

  function EffectiveDisk(h: Hard, overhead: int): int {
    if Amount(h.disk) - overhead < 0 then 0 else Amount(h.disk) - overhead
  }

  function EffectiveVolumes(h: Hard, overhead: int): int {
    if Value(Amount(h.volumes)) - overhead < 0 then 0 else Value(Amount(h.volumes)) - overhead
  }

  datatype Quota = Quota(diskMax: string, diskUsed: string, volumesMax: string, volumesUsed: string,
                         maxDisk: string, minDisk: string)

  function TextOf(q: Quantities, o: Option<int>): string { if o.Some? then q.show(o.value) else "NotFound" }

  function Visible(q: Quantities, s: State): Quota
    requires s.quota.Some? && s.bounds.Some?
  {
    Quota(q.show(EffectiveDisk(s.quota.value, Storage(s.claims, false))), q.show(Storage(s.claims, true)),
          q.showInt(EffectiveVolumes(s.quota.value, Count(s.claims, false))), q.showInt(Count(s.claims, true)),
          TextOf(q, s.bounds.value.max), TextOf(q, s.bounds.value.min))
  }

  // ---------- The exact meaning of the check ----------

  /** One more claim of this size still fits the raw quota, whoever the existing claims belong to. */
  predicate FitsRawQuota(h: Hard, claims: seq<Claim>, size: int) {
    Total(claims) + size <= Amount(h.disk) && |claims| + 1 <= Value(Amount(h.volumes))
  }

  /** The comparison ValidateManagedVolumeQuota makes on the user-visible figures. */
  predicate FitsVisibleQuota(h: Hard, claims: seq<Claim>, size: int) {
    var disk := EffectiveDisk(h, Storage(claims, false)) - Storage(claims, true);
    var volumes := EffectiveVolumes(h, Count(claims, false)) - Count(claims, true);
    size <= (if disk < 0 then 0 else disk) && (if volumes < 0 then 0 else volumes) >= 1
  }

  lemma {:induction false} UsageSplits(claims: seq<Claim>)
    requires NonNegative(claims)
    ensures Storage(claims, true) + Storage(claims, false) == Total(claims)
    ensures Storage(claims, true) >= 0 && Storage(claims, false) >= 0
    ensures Count(claims, true) + Count(claims, false) == |claims|
  {
    if claims != [] { UsageSplits(claims[..|claims| - 1]); }
  }

  /** Claims of one kind count for that kind alone. */
  lemma {:induction false} UsageByKind(claims: seq<Claim>, managed: bool)
    requires forall i | 0 <= i < |claims| :: claims[i].managed == managed
    ensures (Storage(claims, managed), Count(claims, managed)) == (Total(claims), |claims|)
    ensures (Storage(claims, !managed), Count(claims, !managed)) == (0, 0)
  {
    if claims != [] { UsageByKind(claims[..|claims| - 1], managed); }
  }

  /** The user-visible check is exact: for a positive size it accepts if and only if the claims of the
      whole namespace plus the new one fit the raw quota. */
  lemma {:induction false} CheckIsExact(h: Hard, claims: seq<Claim>, size: int)
    requires NonNegative(claims) && size > 0
    ensures FitsVisibleQuota(h, claims, size) <==> FitsRawQuota(h, claims, size)
  {
    UsageSplits(claims);
  }

  /** For sizes of any sign the two agree unless the size is not positive, the count fits and the disk
      is over its quota: clamping at zero hides the excess. */
  lemma {:induction false} CheckAgreesExactly(h: Hard, claims: seq<Claim>, size: int)
    requires NonNegative(claims)
    ensures (FitsVisibleQuota(h, claims, size) <==> FitsRawQuota(h, claims, size)) <==>
            (size > 0 || Total(claims) + size <= Amount(h.disk) || |claims| >= Value(Amount(h.volumes)))
  {
    UsageSplits(claims);
  }

  /** A size of zero is the exception: it passes on disk even when the namespace is over quota. */
  lemma {:induction false} ZeroSizeSlipsThrough(claim: Claim)
    requires claim == Claim("data", true, Some(5))
    ensures FitsVisibleQuota(Hard(Some(3), Some(2 * UNIT)), [claim], 0)
    ensures !FitsRawQuota(Hard(Some(3), Some(2 * UNIT)), [claim], 0)
  {
    assert [claim][..0] == [];
    assert Storage([claim], true) == 5 && Storage([claim], false) == 0 && Total([claim]) == 5;
    assert Count([claim], true) == 1 && Count([claim], false) == 0;
  }

  // ---------- Runs of creations and deletions ----------

  /** create: the request of an ordinary user with a positive size (requests with another size are
      refused before the quota is looked at). delete: with the number of services still attached. */
  datatype Op = Create(name: string, size: int) | Delete(name: string, attachments: nat)

  predicate Named(claims: seq<Claim>, name: string) { exists i | 0 <= i < |claims| :: claims[i].name == name }

  function Without(claims: seq<Claim>, name: string): seq<Claim> {
    if claims == [] then [] else
      var rest := Without(claims[..|claims| - 1], name);
      if claims[|claims| - 1].name == name then rest else rest + [claims[|claims| - 1]]
  }

  function Apply(h: Hard, claims: seq<Claim>, op: Op): seq<Claim> {
    match op
    case Create(name, size) =>
      if size > 0 && FitsVisibleQuota(h, claims, size) && !Named(claims, name) then
        claims + [Claim(name, true, Some(size))]
      else claims
    case Delete(name, attachments) => if attachments > 0 then claims else Without(claims, name)
  }

  function ApplyAll(h: Hard, claims: seq<Claim>, ops: seq<Op>): seq<Claim> {
    if ops == [] then claims else Apply(h, ApplyAll(h, claims, ops[..|ops| - 1]), ops[|ops| - 1])
  }

  predicate WithinQuota(h: Hard, claims: seq<Claim>) {
    NonNegative(claims) && Total(claims) <= Amount(h.disk) && |claims| <= Value(Amount(h.volumes))
  }

  lemma TotalAppend(claims: seq<Claim>, c: Claim)
    ensures Total(claims + [c]) == Total(claims) + Amount(c.storage)
  {
  }

  lemma {:induction false} WithoutShrinks(claims: seq<Claim>, name: string)
    requires NonNegative(claims)
    ensures NonNegative(Without(claims, name))
    ensures Total(Without(claims, name)) <= Total(claims) && |Without(claims, name)| <= |claims|
    ensures !Named(Without(claims, name), name)
  {
    if claims != [] {
      var init, last := claims[..|claims| - 1], claims[|claims| - 1];
      WithoutShrinks(init, name);
      TotalAppend(Without(init, name), last);
    }
  }

  /** Exactly the claims of that name go. */
  lemma {:induction false} WithoutCounts(claims: seq<Claim>, name: string, c: Claim)
    ensures multiset(Without(claims, name))[c] == if c.name == name then 0 else multiset(claims)[c]
  {
    if claims != [] {
      WithoutCounts(claims[..|claims| - 1], name, c);
      assert claims == claims[..|claims| - 1] + [claims[|claims| - 1]];
    }
  }

  /** No run of creations and deletions leaves the quota. */
  lemma {:induction false} RunsStayWithinQuota(h: Hard, claims: seq<Claim>, ops: seq<Op>)
    requires WithinQuota(h, claims)
    ensures WithinQuota(h, ApplyAll(h, claims, ops))
  {
    if ops != [] {
      var before, op := ApplyAll(h, claims, ops[..|ops| - 1]), ops[|ops| - 1];
      RunsStayWithinQuota(h, claims, ops[..|ops| - 1]);
      StepStaysWithinQuota(h, before, op);
    }
  }

  lemma {:induction false} StepStaysWithinQuota(h: Hard, claims: seq<Claim>, op: Op)
    requires WithinQuota(h, claims)
    ensures WithinQuota(h, Apply(h, claims, op))
  {
    match op
    case Create(name, size) =>
      if size > 0 {
        CheckIsExact(h, claims, size);
        TotalAppend(claims, Claim(name, true, Some(size)));
      }
    case Delete(name, attachments) => WithoutShrinks(claims, name);
  }

  // ---------- Update and read ----------

  /** The fields of an update request; an empty text leaves the field alone. */
  datatype Update = Update(disk: string, volumes: string, maxDisk: string, minDisk: string)

  /** Every field of the merged limits is a quantity. */
  predicate Acceptable(q: Quantities, s: State, u: Update)
    requires s.quota.Some? && s.bounds.Some?
  {
    && (if u.disk != "" then q.parse(u.disk).Some? else s.quota.value.disk.Some?)
    && (if u.volumes != "" then q.parse(u.volumes).Some? else s.quota.value.volumes.Some?)
    && (if u.maxDisk != "" then q.parse(u.maxDisk).Some? else s.bounds.value.max.Some?)
    && (if u.minDisk != "" then q.parse(u.minDisk).Some? else s.bounds.value.min.Some?)
  }

  /** What an accepted update leaves behind: raw limits that include the claims OSCAR does not manage. */
  function Updated(q: Quantities, s: State, u: Update): State
    requires s.quota.Some? && s.bounds.Some? && Acceptable(q, s, u)
  {
    State(
      Some(Hard(
        if u.disk != "" then Some(q.parse(u.disk).value + Storage(s.claims, false)) else s.quota.value.disk,
        if u.volumes != "" then Some((Value(q.parse(u.volumes).value) + Count(s.claims, false)) * UNIT)
        else s.quota.value.volumes)),
      Some(Bounds(
        if u.maxDisk != "" then q.parse(u.maxDisk) else s.bounds.value.max,
        if u.minDisk != "" then q.parse(u.minDisk) else s.bounds.value.min)),
      s.claims)
  }

  lemma {:induction false} TextParses(q: Quantities, o: Option<int>)
    requires q.Exact()
    ensures q.parse(TextOf(q, o)) == o
  {
    if o.Some? {
      var x: int := o.value;
      assert q.parse(q.show(x)) == Some(x);
    }
  }

  /** Update and read undo each other: after setting a non-negative visible disk or count the next read
      shows exactly that value, and fields that were not named read as before. */
  lemma {:induction false} ReadAfterUpdate(q: Quantities, s: State, u: Update)
    requires q.Exact() && s.quota.Some? && s.bounds.Some? && Acceptable(q, s, u)
    ensures var before, after := Visible(q, s), Visible(q, Updated(q, s, u));
            && (u.disk == "" ==> after.diskMax == before.diskMax)
            && (u.disk != "" && q.parse(u.disk).value >= 0 ==> q.parse(after.diskMax) == q.parse(u.disk))
            && (u.volumes == "" ==> after.volumesMax == before.volumesMax)
            && (u.volumes != "" && q.parse(u.volumes).value >= 0 ==>
                  after.volumesMax == q.showInt(Value(q.parse(u.volumes).value)))
            && (u.maxDisk == "" ==> after.maxDisk == before.maxDisk)
            && (u.maxDisk != "" ==> q.parse(after.maxDisk) == q.parse(u.maxDisk))
            && (u.minDisk == "" ==> after.minDisk == before.minDisk)
            && (u.minDisk != "" ==> q.parse(after.minDisk) == q.parse(u.minDisk))
            && after.diskUsed == before.diskUsed && after.volumesUsed == before.volumesUsed
  {
    var after := Updated(q, s, u);
    if u.volumes != "" { ValueOfInt(Value(q.parse(u.volumes).value) + Count(s.claims, false)); }
    TextParses(q, after.bounds.value.max);
    TextParses(q, after.bounds.value.min);
    TextParses(q, Some(EffectiveDisk(after.quota.value, Storage(s.claims, false))));
  }

  /** Merged limits: named fields, disk and count with the overhead of other claims, current ones otherwise. */
  predicate Merges(q: Quantities, s: State, u: Update, otherCount: int, other: int, l: VolumeLimits) {
    && s.quota.Some? && s.bounds.Some?
    && (u.disk != "" ==> q.parse(u.disk).Some?) && (u.volumes != "" ==> q.parse(u.volumes).Some?)
    && q.parse(l.disk) == (if u.disk != "" then Some(q.parse(u.disk).value + other) else s.quota.value.disk)
    && q.parse(l.volumes) == (if u.volumes != "" then Some((Value(q.parse(u.volumes).value) + otherCount) * UNIT)
                              else s.quota.value.volumes)
    && q.parse(l.maxDisk) == (if u.maxDisk != "" then q.parse(u.maxDisk) else s.bounds.value.max)
    && q.parse(l.minDisk) == (if u.minDisk != "" then q.parse(u.minDisk) else s.bounds.value.min)
  }

  lemma MergedIsUpdated(q: Quantities, s: State, u: Update, l: VolumeLimits)
    requires Merges(q, s, u, Count(s.claims, false), Storage(s.claims, false), l)
    ensures Readable(q, l) <==> Acceptable(q, s, u)
    ensures Readable(q, l) ==> State(Some(HardOf(q, l)), Some(BoundsOf(q, l)), s.claims) == Updated(q, s, u)
  {
  }

  predicate UnnamedAsBefore(u: Update, before: Quota, after: Quota) {
    && (u.disk == "" ==> after.diskMax == before.diskMax)
    && (u.volumes == "" ==> after.volumesMax == before.volumesMax)
    && (u.maxDisk == "" ==> after.maxDisk == before.maxDisk)
    && (u.minDisk == "" ==> after.minDisk == before.minDisk)
    && after.diskUsed == before.diskUsed && after.volumesUsed == before.volumesUsed
  }

  lemma ValueOfInt(n: int)
    ensures Value(n * UNIT) == n
  {
  }

  // ---------- The code ----------

  class Namespace {
    const q: Quantities
    const defaults: VolumeLimits
    var quota: Option<Hard>
    var bounds: Option<Bounds>
    var claims: seq<Claim>

    constructor (q: Quantities, defaults: VolumeLimits, claims: seq<Claim>)
      ensures this.q == q && this.defaults == defaults && this.claims == claims && quota.None? && bounds.None?
    {
      this.q, this.defaults, this.claims, this.quota, this.bounds := q, defaults, claims, None, None;
    }

    function Now(): State
      reads this
    {
      State(quota, bounds, claims)
    }

    /** getVolumeUsage. */
    method GetVolumeUsage() returns (managedCount: nat, managed: int, otherCount: nat, other: int)
      ensures managedCount == Count(claims, true) && managed == Storage(claims, true)
      ensures otherCount == Count(claims, false) && other == Storage(claims, false)
    {
      managedCount, managed, otherCount, other := 0, 0, 0, 0;
      for i := 0 to |claims|
        invariant managedCount == Count(claims[..i], true) && managed == Storage(claims[..i], true)
        invariant otherCount == Count(claims[..i], false) && other == Storage(claims[..i], false)
      {
        assert claims[..i + 1][..i] == claims[..i];
        if claims[i].managed {
          managedCount := managedCount + 1;
          if claims[i].storage.Some? { managed := managed + claims[i].storage.value; }
        } else {
          otherCount := otherCount + 1;
          if claims[i].storage.Some? { other := other + claims[i].storage.value; }
        }
      }
      assert claims[..|claims|] == claims;
    }

    /** EnsureVolumeLimits. */
    method EnsureVolumeLimits()
      requires Readable(q, defaults)
      modifies this`quota, this`bounds
      ensures Now() == Ensured(q, old(Now()), defaults)
      ensures old(quota).Some? ==> quota == old(quota)
      ensures old(bounds).Some? ==> bounds == old(bounds)
      ensures old(quota).None? ==> quota == Some(Hard(q.parse(defaults.disk), q.parse(defaults.volumes)))
      ensures old(bounds).None? ==> bounds == Some(Bounds(q.parse(defaults.maxDisk), q.parse(defaults.minDisk)))
    {
      if quota.None? { quota := Some(HardOf(q, defaults)); }
      if bounds.None? { bounds := Some(BoundsOf(q, defaults)); }
    }

    /** GetVolumeQuotaInfo. */
    method GetVolumeQuotaInfo() returns (r: Quota)
      requires Readable(q, defaults)
      modifies this`quota, this`bounds
      ensures Now() == Ensured(q, old(Now()), defaults)
      ensures old(quota).Some? ==> quota == old(quota)
      ensures old(bounds).Some? ==> bounds == old(bounds)
      ensures quota.Some? && bounds.Some? && r == Visible(q, Now())
      ensures var disk := Amount(quota.value.disk) - Storage(claims, false);
              r.diskMax == q.show(if disk < 0 then 0 else disk) && r.diskUsed == q.show(Storage(claims, true))
      ensures var volumes := Value(Amount(quota.value.volumes)) - Count(claims, false);
              r.volumesMax == q.showInt(if volumes < 0 then 0 else volumes) &&
              r.volumesUsed == q.showInt(Count(claims, true))
      ensures r.maxDisk == (if bounds.value.max.Some? then q.show(bounds.value.max.value) else "NotFound")
      ensures r.minDisk == (if bounds.value.min.Some? then q.show(bounds.value.min.value) else "NotFound")
    {
      EnsureVolumeLimits();
      var managedCount, managed, otherCount, other := GetVolumeUsage();
      var disk := Amount(quota.value.disk) - other;
      if disk < 0 { disk := 0; }
      var volumes := Value(Amount(quota.value.volumes)) - otherCount;
      if volumes < 0 { volumes := 0; }
      r := Quota(q.show(disk), q.show(managed), q.showInt(volumes), q.showInt(managedCount),
                 TextOf(q, bounds.value.max), TextOf(q, bounds.value.min));
    }

    /** ValidateManagedVolumeQuota: accepts exactly the sizes that fit the raw quota. */
    method ValidateManagedVolumeQuota(size: string) returns (ok: bool)
      requires q.Exact() && Readable(q, defaults) && NonNegative(claims)
      modifies this`quota, this`bounds
      ensures Now() == Ensured(q, old(Now()), defaults)
      ensures ok ==> q.parse(size).Some?
      ensures q.parse(size).Some? ==> (ok <==> FitsVisibleQuota(quota.value, claims, q.parse(size).value))
      ensures q.parse(size).Some? && q.parse(size).value > 0 ==>
                (ok <==> FitsRawQuota(quota.value, claims, q.parse(size).value))
    {
      var info := GetVolumeQuotaInfo();
      if q.parse(size).None? { return false; }
      var requested := q.parse(size).value;
      if requested > 0 { CheckIsExact(quota.value, claims, requested); }
      var maxDisk, usedDisk := q.parse(info.diskMax), q.parse(info.diskUsed);
      if maxDisk.None? || usedDisk.None? { return false; }
      var availableDisk := maxDisk.value - usedDisk.value;
      if availableDisk < 0 { availableDisk := 0; }
      if requested > availableDisk { return false; }
      var maxVolumes, usedVolumes := q.parse(info.volumesMax), q.parse(info.volumesUsed);
      if maxVolumes.None? || usedVolumes.None? { return false; }
      ValueOfInt(EffectiveVolumes(quota.value, Count(claims, false)));
      ValueOfInt(Count(claims, true));
      var availableVolumes := Value(maxVolumes.value) - Value(usedVolumes.value);
      if availableVolumes < 0 { availableVolumes := 0; }
      return availableVolumes >= 1;
    }

    /** The creation of a volume by an ordinary user: validate the request and the quota, then create
        the claim unless the name is taken. */
    method CreateVolume(name: string, size: string) returns (created: bool)
      requires q.Exact() && Readable(q, defaults) && NonNegative(claims)
      modifies this
      ensures NonNegative(claims)
      ensures q.parse(size).None? || q.parse(size).value <= 0 ==> !created && Now() == old(Now())
      ensures q.parse(size).Some? && q.parse(size).value > 0 ==>
                quota.Some? && Now() == Ensured(q, old(Now()), defaults).(
                           claims := Apply(quota.value, old(claims), Create(name, q.parse(size).value)))
      ensures created <==> q.parse(size).Some? && q.parse(size).value > 0 && quota.Some? &&
                           Total(old(claims)) + q.parse(size).value <= Amount(quota.value.disk) &&
                           |old(claims)| + 1 <= Value(Amount(quota.value.volumes)) &&
                           forall i | 0 <= i < |old(claims)| :: old(claims)[i].name != name
      ensures claims == if created then old(claims) + [Claim(name, true, q.parse(size))] else old(claims)
    {
      if q.parse(size).None? || q.parse(size).value <= 0 { return false; }
      var ok := ValidateManagedVolumeQuota(size);
      if !ok { return false; }
      if Named(claims, name) { return false; }
      claims := claims + [Claim(name, true, Some(q.parse(size).value))];
      return true;
    }

    /** DeleteManagedVolume without force; attachments is the number of services using the volume. */
    method DeleteVolume(name: string, attachments: nat) returns (ok: bool)
      modifies this`claims
      ensures claims == if attachments > 0 then old(claims) else Without(old(claims), name)
      ensures ok <==> attachments == 0
      ensures forall c: Claim :: multiset(claims)[c] == if ok && c.name == name then 0 else multiset(old(claims))[c]
    {
      if attachments > 0 { return false; }
      var kept := [];
      for i := 0 to |claims|
        invariant claims == old(claims) && kept == Without(claims[..i], name)
      {

        assert claims[..i + 1][..i] == claims[..i];
        if claims[i].name != name { kept := kept + [claims[i]]; }
      }
      assert claims[..|claims|] == claims;
      forall c: Claim ensures multiset(kept)[c] == if c.name == name then 0 else multiset(claims)[c] {
        WithoutCounts(claims, name, c);
      }
      claims := kept;
      return true;
    }

    /** The merging part of updateVolumeQuota: None when a named disk or count is no quantity. */
    method MergeLimits(u: Update, otherCount: nat, other: int) returns (r: Option<VolumeLimits>)
      requires q.Exact() && quota.Some? && bounds.Some?
      ensures r.None? <==> (u.disk != "" && q.parse(u.disk).None?) || (u.volumes != "" && q.parse(u.volumes).None?)
      ensures r.Some? ==> Merges(q, Now(), u, otherCount, other, r.value)
    {
      var merged := VolumeLimits(TextOf(q, quota.value.disk), TextOf(q, quota.value.volumes),
                                 TextOf(q, bounds.value.max), TextOf(q, bounds.value.min));
      TextParses(q, quota.value.disk);
      TextParses(q, quota.value.volumes);
      TextParses(q, bounds.value.max);
      TextParses(q, bounds.value.min);
      if u.disk != "" {
        if q.parse(u.disk).None? { return None; }
        var visibleDisk: int := q.parse(u.disk).value + other;
        merged := merged.(disk := q.show(visibleDisk));
      }
      if u.volumes != "" {
        if q.parse(u.volumes).None? { return None; }
        merged := merged.(volumes := q.showInt(Value(q.parse(u.volumes).value) + otherCount));
      }
      if u.maxDisk != "" { merged := merged.(maxDisk := u.maxDisk); }
      if u.minDisk != "" { merged := merged.(minDisk := u.minDisk); }
      return Some(merged);
    }

    /** updateVolumeQuota from the current limits on. */
    method StoreMerged(u: Update) returns (ok: bool)
      requires q.Exact() && quota.Some? && bounds.Some?
      modifies this`quota, this`bounds
      ensures quota.Some? && bounds.Some?
      ensures ok <==> Acceptable(q, old(Now()), u)
      ensures Now() == if ok then Updated(q, old(Now()), u) else old(Now())
    {
      var _, _, otherCount, other := GetVolumeUsage();
      var merged := MergeLimits(u, otherCount, other);
      if merged.Some? { MergedIsUpdated(q, Now(), u, merged.value); }
      if merged.None? || !Readable(q, merged.value) { return false; }
      quota, bounds := Some(HardOf(q, merged.value)), Some(BoundsOf(q, merged.value));
      return true;
    }

    /** updateVolumeQuota: an update with a field that is no quantity writes nothing (beyond creating
        missing objects); an accepted one is stored as Updated says. */
    method UpdateVolumeQuota(u: Update) returns (ok: bool)
      requires q.Exact() && Readable(q, defaults)
      modifies this`quota, this`bounds
      ensures ok <==> Acceptable(q, Ensured(q, old(Now()), defaults), u)
      ensures Now() == (var s := Ensured(q, old(Now()), defaults); if ok then Updated(q, s, u) else s)
    {
      if quota.None? || bounds.None? { EnsureVolumeLimits(); }
      ok := StoreMerged(u);
    }

    /** The quota update handler for volumes: update if a field is named, then read. The read shows exactly a
        non-negative disk or count that was set, and fields that were not named as they read before. A
        refused update changes no existing limit. */
    method UpdateAndRead(u: Update) returns (r: Option<Quota>)
      requires q.Exact() && Readable(q, defaults)
      modifies this`quota, this`bounds
      ensures r.Some? && u.disk != "" && q.parse(u.disk).Some? && q.parse(u.disk).value >= 0 ==>
                q.parse(r.value.diskMax) == q.parse(u.disk)
      ensures r.Some? && u.volumes != "" && q.parse(u.volumes).Some? && q.parse(u.volumes).value >= 0 ==>
                r.value.volumesMax == q.showInt(Value(q.parse(u.volumes).value))
      ensures r.Some? && u.maxDisk != "" ==> q.parse(r.value.maxDisk) == q.parse(u.maxDisk)
      ensures r.Some? && u.minDisk != "" ==> q.parse(r.value.minDisk) == q.parse(u.minDisk)
      ensures r.Some? && old(quota).Some? && old(bounds).Some? ==>
                UnnamedAsBefore(u, Visible(q, old(Now())), r.value)
      ensures r.None? && old(quota).Some? && old(bounds).Some? ==> Now() == old(Now())
    {
      ghost var s := Ensured(q, Now(), defaults);
      if u.disk != "" || u.volumes != "" || u.maxDisk != "" || u.minDisk != "" {
        var ok := UpdateVolumeQuota(u);
        if !ok { return None; }
        ReadAfterUpdate(q, s, u);
      }
      var info := GetVolumeQuotaInfo();
      return Some(info);
    }
  }
}
