/** Bucket visibility (pkg/utils/minio.go, pkg/handlers/buckets/update_bucket.go). Visibility is stored
    nowhere: it is read back from per-user, per-bucket and all-users policies that are edited in place.
    The reference is a registry from bucket to owner, visibility and members. */
module BucketPolicies {
  import opened Options
  import opened Text

  const ALL_USERS := "all_users_group"
  const PRIVATE := "private"
  const RESTRICTED := "restricted"
  const PUBLIC := "public"
  const ALL_ACTIONS: seq<string> := ["s3:*"]
  const RESTRICTED_ACTIONS: seq<string> := ["s3:ListBucket", "s3:GetObject", "s3:PutObject", "s3:DeleteObject"]

  datatype Effect = Allow | Deny

  datatype Policy = Policy(effect: Effect, actions: seq<string>, resources: seq<string>)

  type Policies = map<string, Policy>
  type Groups = map<string, set<string>>

  datatype Bucket = Bucket(name: string, visibility: string, owner: string, allowedUsers: seq<string>)

  /** The resource name of a bucket's contents. */
  function Arn(bucket: string): string { "arn:aws:s3:::" + bucket + "/*" }

  const NOT_VALID := "notValid"

  predicate EndsNotValid(s: string) { |s| >= 8 && s[|s| - 8..] == NOT_VALID }

  // ---------- Edits of the policy store, as values ----------

  predicate InPolicy(ps: Policies, p: string, bucket: string) { p in ps && Arn(bucket) in ps[p].resources }

  function Added(ps: Policies, bucket: string, p: string, actions: seq<string>): Policies {
    if p !in ps || ps[p].effect.Deny? then ps[p := Policy(Allow, actions, [Arn(bucket)])]
    else ps[p := ps[p].(resources := ps[p].resources + [Arn(bucket)])]
  }

  function RemoveFirst(rs: seq<string>, r: string): seq<string> {
    if rs == [] then [] else if rs[0] == r then rs[1..] else [rs[0]] + RemoveFirst(rs[1..], r)
  }

  function Removed(ps: Policies, bucket: string, p: string): Policies
    requires p in ps
  {
    if |ps[p].resources| == 1 then ps[p := Policy(Deny, ps[p].actions, [Arn(bucket + NOT_VALID)])]
    else ps[p := ps[p].(resources := RemoveFirst(ps[p].resources, Arn(bucket)))]
  }

  /** GetCurrentResourceVisibility. */
  function Current(ps: Policies, owner: string, bucket: string): string {
    if InPolicy(ps, owner, bucket) then
      if InPolicy(ps, bucket, bucket) then RESTRICTED else PRIVATE
    else if InPolicy(ps, bucket, bucket) then RESTRICTED
    else if InPolicy(ps, ALL_USERS, bucket) then PUBLIC
    else ""
  }

  function Members(gs: Groups, g: string): set<string> { if g in gs then gs[g] else {} }

  function WithMembers(gs: Groups, g: string, users: seq<string>): Groups {
    gs[g := Members(gs, g) + set u | u in users]
  }

  /** UpdateGroupMembers as the MinIO server applies it. Adding creates the group; removing nobody removes an
      empty group. None is an error: there is no such group, or a group to be removed has members. */
  function GroupUpdated(gs: Groups, g: string, users: seq<string>, remove: bool): Option<Groups> {
    if !remove then Some(WithMembers(gs, g, users))
    else if g !in gs then None
    else if users == [] then (if gs[g] == {} then Some(gs - {g}) else None)
    else Some(gs[g := gs[g] - set u | u in users])
  }

  datatype Store = Store(policies: Policies, groups: Groups)

  function AfterSet(s: Store, b: Bucket): Store {
    if b.visibility == RESTRICTED || b.visibility == PRIVATE then
      var ps := Added(s.policies, b.name, b.owner, ALL_ACTIONS);
      if b.visibility == RESTRICTED then
        Store(Added(ps, b.name, b.name, RESTRICTED_ACTIONS), WithMembers(s.groups, b.name, b.allowedUsers))
      else s.(policies := ps)
    else s.(policies := Added(s.policies, b.name, ALL_USERS, ALL_ACTIONS))
  }

  /** False when the source returns an error; the store then holds what had been changed so far. The group
      of a restricted bucket without members is removed by the call that should empty it, and the call that
      should remove it fails. */
  function AfterUnset(s: Store, b: Bucket): (Store, bool) {
    var p := if ToLower(b.visibility) == PUBLIC then ALL_USERS else b.owner;
    if p !in s.policies then (s, false)
    else
      var t := s.(policies := Removed(s.policies, b.name, p));
      if ToLower(b.visibility) == RESTRICTED then
        if b.name !in t.groups then (t, false)
        else if t.groups[b.name] == {} then (t.(groups := t.groups - {b.name}), false)
        else (Store(t.policies - {b.name}, t.groups - {b.name}), true)
      else (t, true)
  }

  // ---------- The reference: a registry ----------

  /** A registered bucket: visibility is one of the three constants; members matters for restricted buckets
      only. Orphan: a bucket that a failed unset left with nothing but its own policy. */
  datatype Entry = Entry(owner: string, visibility: string, members: set<string>) | Orphan

  type Registry = map<string, Entry>

  predicate KnownVisibility(v: string) { v == PRIVATE || v == RESTRICTED || v == PUBLIC }

  /** SetPolicies takes every unknown visibility for public. */
  function Normal(visibility: string): string {
    if visibility == RESTRICTED || visibility == PRIVATE then visibility else PUBLIC
  }

  function EntryOf(b: Bucket): Entry {
    Entry(b.owner, Normal(b.visibility), if b.visibility == RESTRICTED then set u | u in b.allowedUsers else {})
  }

  /** A restricted bucket without members. */
  predicate Memberless(e: Entry) { e.Entry? && e.visibility == RESTRICTED && e.members == {} }

  /** What a user sees of a bucket. */
  function View(reg: Registry, uid: string, bucket: string): string {
    if bucket !in reg then ""
    else if reg[bucket].Orphan? then RESTRICTED
    else if reg[bucket].visibility == PRIVATE && reg[bucket].owner != uid then ""
    else reg[bucket].visibility
  }

  /** Names in use: users and buckets do not overlap, nobody is called like the group of all users, and
      no bucket name ends in notValid. */
  datatype Names = Names(users: set<string>, buckets: set<string>) {
    ghost predicate Valid() {
      && users !! buckets && ALL_USERS !in users && ALL_USERS !in buckets
      && forall b | b in buckets :: !EndsNotValid(b)
    }
  }

  /** The buckets a policy must list. */
  function Granted(reg: Registry, p: string): set<string> {
    set b | b in reg && Grants(reg[b], b, p)
  }

  predicate Grants(e: Entry, bucket: string, p: string) {
    if e.Orphan? then p == bucket
    else if e.visibility == PUBLIC then p == ALL_USERS
    else p == e.owner || (e.visibility == RESTRICTED && p == bucket)
  }

  predicate NoDuplicates(rs: seq<string>) { forall i, j | 0 <= i < j < |rs| :: rs[i] != rs[j] }

  /** rs lists the resources of exactly the buckets bs, each once. */
  predicate Lists(rs: seq<string>, bs: set<string>) {
    && NoDuplicates(rs)
    && (forall b | b in bs :: Arn(b) in rs)
    && (forall i | 0 <= i < |rs| :: exists b | b in bs :: rs[i] == Arn(b))
  }

  /** The policy named p grants exactly bs. A policy that grants nothing is absent or denies a resource
      that belongs to no bucket. */
  ghost predicate Holds(ps: Policies, p: string, bs: set<string>) {
    if p !in ps then bs == {}
    else if ps[p].effect.Deny? then bs == {} && exists x :: ps[p].resources == [Arn(x + NOT_VALID)]
    else bs != {} && Lists(ps[p].resources, bs)
  }

  ghost predicate RegistryValid(names: Names, reg: Registry) {
    forall b | b in reg :: b in names.buckets &&
      (reg[b].Entry? ==> reg[b].owner in names.users && KnownVisibility(reg[b].visibility))
  }

  /** The store represents the registry. */
  ghost predicate Represents(names: Names, s: Store, reg: Registry) {
    && names.Valid() && RegistryValid(names, reg)
    && PoliciesMatch(s.policies, reg) && GroupsMatch(names, s.groups, reg)
  }

  /** Every policy grants exactly what the registry says. */
  ghost predicate PoliciesMatch(ps: Policies, reg: Registry) {
    forall p :: Holds(ps, p, Granted(reg, p))
  }

  /** Exactly the restricted buckets have a group, of exactly their members. */
  ghost predicate GroupsMatch(names: Names, gs: Groups, reg: Registry) {
    forall b | b in names.buckets ::
      (b in gs <==> b in reg && reg[b].Entry? && reg[b].visibility == RESTRICTED) &&
      (b in gs ==> gs[b] == reg[b].members)
  }

  // ---------- One policy ----------

  lemma {:induction false} ArnInjective(a: string, b: string)
    requires Arn(a) == Arn(b)
    ensures a == b
  {
    assert |a| == |b|;
    assert Arn(a)[13..13 + |a|] == a && Arn(b)[13..13 + |b|] == b;
  }

  /** Membership in a policy's resource list is membership in what it grants. */
  lemma {:induction false} InPolicyIsGranted(ps: Policies, p: string, bs: set<string>, b: string)
    requires Holds(ps, p, bs) && !EndsNotValid(b)
    ensures InPolicy(ps, p, b) <==> b in bs
  {
    if InPolicy(ps, p, b) {
      if ps[p].effect.Deny? {
        var x :| ps[p].resources == [Arn(x + NOT_VALID)];
        ArnInjective(b, x + NOT_VALID);
      } else {
        var i :| 0 <= i < |ps[p].resources| && ps[p].resources[i] == Arn(b);
        var c :| c in bs && ps[p].resources[i] == Arn(c);
        ArnInjective(b, c);
      }
    }
  }

  lemma {:induction false} AddedHolds(ps: Policies, bucket: string, p: string, actions: seq<string>, bs: set<string>)
    requires Holds(ps, p, bs) && bucket !in bs && !EndsNotValid(bucket)
    ensures Holds(Added(ps, bucket, p, actions), p, bs + {bucket})
  {
    InPolicyIsGranted(ps, p, bs, bucket);
    if p in ps && ps[p].effect.Allow? {
      var rs := ps[p].resources + [Arn(bucket)];
      forall i | 0 <= i < |rs| ensures exists b | b in bs + {bucket} :: rs[i] == Arn(b) {
        if i == |rs| - 1 { assert rs[i] == Arn(bucket); }
      }
    }
  }

  lemma {:induction false} RemoveFirstDistinct(rs: seq<string>, r: string)
    requires NoDuplicates(rs) && r in rs
    ensures NoDuplicates(RemoveFirst(rs, r)) && |RemoveFirst(rs, r)| == |rs| - 1
    ensures forall x :: x in RemoveFirst(rs, r) <==> x in rs && x != r
  {
    assert rs == [rs[0]] + rs[1..];
    if rs[0] != r {
      RemoveFirstDistinct(rs[1..], r);
      var rest := RemoveFirst(rs[1..], r);
      assert rs[0] !in rest;
    } else {
      assert forall i | 0 <= i < |rs| - 1 :: rs[1..][i] == rs[i + 1] != rs[0];
    }
  }

  lemma {:induction false} SingleResource(rs: seq<string>, bs: set<string>, bucket: string)
    requires Lists(rs, bs) && bucket in bs
    ensures |rs| == 1 <==> bs == {bucket}
  {
    assert |rs| >= 2 ==> rs[0] != rs[1];
    if |rs| == 1 {
      forall b | b in bs ensures b == bucket { ArnInjective(b, bucket); }
    }
    if bs == {bucket} {
      forall i | 0 <= i < |rs| ensures rs[i] == Arn(bucket) {}
      assert Arn(bucket) in rs;
    }
  }

  lemma {:induction false} RemovedHolds(ps: Policies, bucket: string, p: string, bs: set<string>)
    requires Holds(ps, p, bs) && bucket in bs
    ensures p in ps && Holds(Removed(ps, bucket, p), p, bs - {bucket})
  {
    var rs := ps[p].resources;
    SingleResource(rs, bs, bucket);
    if |rs| != 1 {
      RemoveFirstDistinct(rs, Arn(bucket));
      var kept := RemoveFirst(rs, Arn(bucket));
      forall b | b in bs - {bucket} ensures Arn(b) in kept {
        if Arn(b) == Arn(bucket) { ArnInjective(b, bucket); }
      }
      forall i | 0 <= i < |kept| ensures exists b | b in bs - {bucket} :: kept[i] == Arn(b) {
        assert kept[i] in kept;
        var j :| 0 <= j < |rs| && rs[j] == kept[i];
        var b :| b in bs && rs[j] == Arn(b);
      }
    }
  }

  // ---------- The registry changes one bucket at a time ----------

  /** Registering or dropping a bucket changes only what is granted on it. */
  lemma GrantedWith(reg: Registry, b: string, e: Entry, p: string)
    requires b !in reg
    ensures Granted(reg[b := e], p) == Granted(reg, p) + if Grants(e, b, p) then {b} else {}
  {
  }

  lemma GrantedWithout(reg: Registry, b: string, p: string)
    ensures Granted(reg - {b}, p) == Granted(reg, p) - {b}
  {
  }

  /** A policy the new bucket does not concern stays as it is; one it concerns gains its resource. */
  lemma {:induction false} SetShape(ps: Policies, gs: Groups, b: Bucket, p: string)
    requires b.name != b.owner && b.name != ALL_USERS && b.owner != ALL_USERS
    ensures var after := AfterSet(Store(ps, gs), b).policies;
            if !Grants(EntryOf(b), b.name, p) then (p in after <==> p in ps) && (p in ps ==> after[p] == ps[p])
            else exists actions :: p in after && p in Added(ps, b.name, p, actions) &&
                                   after[p] == Added(ps, b.name, p, actions)[p]
  {
    var after := AfterSet(Store(ps, gs), b).policies;
    if Grants(EntryOf(b), b.name, p) {
      var actions := if p == b.name then RESTRICTED_ACTIONS else ALL_ACTIONS;
      assert after[p] == Added(ps, b.name, p, actions)[p];
    }
  }

  /** Whether a policy grants given buckets depends on that policy alone. */
  lemma HoldsLocal(ps: Policies, qs: Policies, p: string, bs: set<string>)
    requires Holds(ps, p, bs) && (p in ps <==> p in qs) && (p in ps ==> ps[p] == qs[p])
    ensures Holds(qs, p, bs)
  {
  }

  lemma {:induction false} SetOne(ps: Policies, gs: Groups, reg: Registry, b: Bucket, p: string)
    requires Holds(ps, p, Granted(reg, p)) && b.name !in reg && !EndsNotValid(b.name)
    requires b.name != b.owner && b.name != ALL_USERS && b.owner != ALL_USERS
    ensures Holds(AfterSet(Store(ps, gs), b).policies, p, Granted(reg[b.name := EntryOf(b)], p))
  {
    var after, bs := AfterSet(Store(ps, gs), b).policies, Granted(reg, p);
    GrantedWith(reg, b.name, EntryOf(b), p);
    SetShape(ps, gs, b, p);
    if Grants(EntryOf(b), b.name, p) {
      var actions :| p in after && p in Added(ps, b.name, p, actions) && after[p] == Added(ps, b.name, p, actions)[p];
      AddedHolds(ps, b.name, p, actions, bs);
      HoldsLocal(Added(ps, b.name, p, actions), after, p, bs + {b.name});
    } else {
      HoldsLocal(ps, after, p, bs);
    }
  }

  /** Setting the policies of an unregistered bucket registers it. */
  lemma {:induction false} SetRepresents(names: Names, s: Store, reg: Registry, b: Bucket)
    requires Represents(names, s, reg) && b.name in names.buckets && b.owner in names.users && b.name !in reg
    ensures Represents(names, AfterSet(s, b), reg[b.name := EntryOf(b)])
  {
    var t, after := AfterSet(s, b), reg[b.name := EntryOf(b)];
    forall p ensures Holds(t.policies, p, Granted(after, p)) {
      assert Holds(s.policies, p, Granted(reg, p));
      SetOne(s.policies, s.groups, reg, b, p);
    }
  }

  /** The bucket as it is recorded. */
  predicate Recorded(reg: Registry, b: Bucket) {
    b.name in reg && reg[b.name].Entry? && b.visibility == reg[b.name].visibility &&
    (b.visibility != PUBLIC ==> b.owner == reg[b.name].owner)
  }

  /** What an unset of the bucket leaves in the registry. */
  function Unregistered(reg: Registry, bucket: string): Registry
    requires bucket in reg
  {
    if Memberless(reg[bucket]) then reg[bucket := Orphan] else reg - {bucket}
  }

  /** An unset of a registered bucket with its recorded owner and visibility succeeds if and only if the
      bucket is not restricted or has a member. */
  lemma {:induction false} UnsetSucceedsExactly(names: Names, s: Store, reg: Registry, b: Bucket)
    requires Represents(names, s, reg) && Recorded(reg, b)
    ensures AfterUnset(s, b).1 <==> b.visibility != RESTRICTED || reg[b.name].members != {}
    ensures var first := if b.visibility == PUBLIC then ALL_USERS else b.owner;
            first in s.policies && AfterUnset(s, b).0.policies ==
              Removed(s.policies, b.name, first) -
              (if b.visibility == RESTRICTED && !Memberless(reg[b.name]) then {b.name} else {})
  {
    var first := if b.visibility == PUBLIC then ALL_USERS else b.owner;
    assert Holds(s.policies, first, Granted(reg, first));
    assert b.name in Granted(reg, first);
  }

  lemma GrantedOrphan(reg: Registry, b: string, p: string)
    requires b in reg
    ensures Granted(reg[b := Orphan], p) == (Granted(reg, p) - {b}) + if p == b then {b} else {}
  {
  }

  /** The bucket's own policy after an unset: gone, or left behind with an orphan. */
  lemma {:induction false} UnsetOwn(names: Names, s: Store, reg: Registry, b: Bucket)
    requires Represents(names, s, reg) && Recorded(reg, b)
    ensures Holds(AfterUnset(s, b).0.policies, b.name, Granted(Unregistered(reg, b.name), b.name))
  {
    var p, after := b.name, AfterUnset(s, b).0.policies;
    assert Holds(s.policies, p, Granted(reg, p));
    UnsetSucceedsExactly(names, s, reg, b);
    OnlyItself(names, reg, p);
    if Memberless(reg[p]) {
      GrantedOrphan(reg, p, p);
      HoldsLocal(s.policies, after, p, Granted(reg, p));
    } else {
      GrantedWithout(reg, p, p);
    }
  }

  lemma {:induction false} UnsetOne(names: Names, s: Store, reg: Registry, b: Bucket, p: string)
    requires Represents(names, s, reg) && Recorded(reg, b) && p != b.name
    ensures Holds(AfterUnset(s, b).0.policies, p, Granted(Unregistered(reg, b.name), p))
  {
    assert Holds(s.policies, p, Granted(reg, p));
    UnsetSucceedsExactly(names, s, reg, b);
    GrantedWithout(reg, b.name, p);
    GrantedOrphan(reg, b.name, p);
    var first, after := if b.visibility == PUBLIC then ALL_USERS else b.owner, AfterUnset(s, b).0.policies;
    if p == first {
      assert b.name in Granted(reg, p);
      RemovedHolds(s.policies, b.name, p, Granted(reg, p));
      HoldsLocal(Removed(s.policies, b.name, p), after, p, Granted(reg, p) - {b.name});
    } else {
      assert b.name !in Granted(reg, p);
      HoldsLocal(s.policies, after, p, Granted(reg, p));
    }
  }

  /** Unsetting a registered bucket with its recorded owner and visibility drops it, unless it is restricted
      and has no members: then the unset fails and leaves an orphan. Nothing else changes. */
  lemma {:induction false} UnsetRepresents(names: Names, s: Store, reg: Registry, b: Bucket)
    requires Represents(names, s, reg) && Recorded(reg, b)
    ensures AfterUnset(s, b).1 <==> !Memberless(reg[b.name])
    ensures Represents(names, AfterUnset(s, b).0, Unregistered(reg, b.name))
  {
    UnsetSucceedsExactly(names, s, reg, b);
    var t, after := AfterUnset(s, b).0, Unregistered(reg, b.name);
    forall p ensures Holds(t.policies, p, Granted(after, p)) {
      if p == b.name { UnsetOwn(names, s, reg, b); } else { UnsetOne(names, s, reg, b, p); }
    }
    UnsetGroups(names, s, reg, b);
  }

  lemma {:induction false} UnsetGroups(names: Names, s: Store, reg: Registry, b: Bucket)
    requires Represents(names, s, reg) && Recorded(reg, b)
    ensures GroupsMatch(names, AfterUnset(s, b).0.groups, Unregistered(reg, b.name))
  {
    UnsetSucceedsExactly(names, s, reg, b);
  }

  /** A policy named like a bucket grants that bucket at most. */
  lemma OnlyItself(names: Names, reg: Registry, b: string)
    requires names.Valid() && RegistryValid(names, reg) && b in names.buckets
    ensures Granted(reg, b) <= {b}
  {
  }

  /** The visibility read back for any user is what the registry shows that user. */
  lemma {:induction false} CurrentIsView(names: Names, s: Store, reg: Registry, uid: string, b: string)
    requires Represents(names, s, reg) && uid in names.users && b in names.buckets
    ensures Current(s.policies, uid, b) == View(reg, uid, b)
    ensures InPolicy(s.policies, uid, b) <==>
            b in reg && reg[b].Entry? && reg[b].owner == uid && reg[b].visibility != PUBLIC
  {
    InPolicyIsGranted(s.policies, uid, Granted(reg, uid), b);
    InPolicyIsGranted(s.policies, b, Granted(reg, b), b);
    InPolicyIsGranted(s.policies, ALL_USERS, Granted(reg, ALL_USERS), b);
  }

  // ---------- Runs ----------

  /** Set: an unregistered bucket is given policies. Unset: a registered bucket loses them, with the
      recorded owner and visibility. Change: the update handler, called by any user. */
  datatype Op = Set(bucket: Bucket) | Unset(name: string) | Change(bucket: Bucket)

  predicate Allowed(names: Names, reg: Registry, op: Op) {
    match op
    case Set(b) => b.name in names.buckets && b.owner in names.users && b.name !in reg
    case Unset(name) => name in reg && reg[name].Entry?
    case Change(b) => b.name in names.buckets && b.owner in names.users
  }

  /** May this user change the bucket? Its owner may; a public bucket is open to everybody. */
  predicate MayChange(reg: Registry, uid: string, bucket: string) {
    bucket in reg && reg[bucket].Entry? && (reg[bucket].visibility == PUBLIC || reg[bucket].owner == uid)
  }

  function RegistryAfter(reg: Registry, op: Op): Registry {
    match op
    case Set(b) => reg[b.name := EntryOf(b)]
    case Unset(name) => if name in reg then Unregistered(reg, name) else reg
    case Change(b) =>
      if !MayChange(reg, b.owner, b.name) then reg
      else if reg[b.name].visibility != b.visibility then
        reg[b.name := if Memberless(reg[b.name]) then Orphan else EntryOf(b)]
      else if b.visibility == RESTRICTED then reg[b.name := reg[b.name].(members := set u | u in b.allowedUsers)]
      else reg
  }

  function RecordedBucket(reg: Registry, name: string): Bucket
    requires name in reg && reg[name].Entry?
  {
    Bucket(name, reg[name].visibility, reg[name].owner, [])
  }

  /** The unset-then-set change of the update handler. */
  function AfterChange(s: Store, b: Bucket): Store {
    var vis := Current(s.policies, b.owner, b.name);
    if vis == "" || !(vis == PUBLIC || InPolicy(s.policies, b.owner, b.name)) then s
    else if vis != b.visibility then
      var (t, ok) := AfterUnset(s, Bucket(b.name, vis, b.owner, []));
      if ok then AfterSet(t, b) else t
    else if vis == RESTRICTED && b.name in s.groups then s.(groups := s.groups[b.name := set u | u in b.allowedUsers])
    else s
  }

  function StoreAfter(s: Store, reg: Registry, op: Op): Store
    requires op.Unset? ==> op.name in reg && reg[op.name].Entry?
  {
    match op
    case Set(b) => AfterSet(s, b)
    case Unset(name) => AfterUnset(s, RecordedBucket(reg, name)).0
    case Change(b) => AfterChange(s, b)
  }

  ghost predicate Possible(names: Names, reg: Registry, ops: seq<Op>)
    decreases |ops|
  {
    ops == [] || (Allowed(names, reg, ops[0]) && Possible(names, RegistryAfter(reg, ops[0]), ops[1..]))
  }

  function RunStore(s: Store, reg: Registry, ops: seq<Op>): Store
    decreases |ops|
  {
    if ops == [] || (ops[0].Unset? && !(ops[0].name in reg && reg[ops[0].name].Entry?)) then s
    else RunStore(StoreAfter(s, reg, ops[0]), RegistryAfter(reg, ops[0]), ops[1..])
  }

  function RunRegistry(reg: Registry, ops: seq<Op>): Registry
    decreases |ops|
  {
    if ops == [] then reg else RunRegistry(RegistryAfter(reg, ops[0]), ops[1..])
  }

  lemma {:induction false} ChangeRepresents(names: Names, s: Store, reg: Registry, b: Bucket)
    requires Represents(names, s, reg) && b.name in names.buckets && b.owner in names.users
    ensures Represents(names, AfterChange(s, b), RegistryAfter(reg, Change(b)))
  {
    CurrentIsView(names, s, reg, b.owner, b.name);
    if MayChange(reg, b.owner, b.name) {
      var vis := reg[b.name].visibility;
      if vis != b.visibility {
        var recorded := Bucket(b.name, vis, b.owner, []);
        UnsetRepresents(names, s, reg, recorded);
        if !Memberless(reg[b.name]) {
          SetRepresents(names, AfterUnset(s, recorded).0, reg - {b.name}, b);
          assert (reg - {b.name})[b.name := EntryOf(b)] == reg[b.name := EntryOf(b)];
        }
      } else if vis == RESTRICTED {
        var reg' := RegistryAfter(reg, Change(b));
        forall p ensures Granted(reg', p) == Granted(reg, p) {}
      }
    }
  }

  lemma {:induction false} StepRepresents(names: Names, s: Store, reg: Registry, op: Op)
    requires Represents(names, s, reg) && Allowed(names, reg, op)
    ensures Represents(names, StoreAfter(s, reg, op), RegistryAfter(reg, op))
  {
    match op
    case Set(b) => SetRepresents(names, s, reg, b);
    case Unset(name) => UnsetRepresents(names, s, reg, RecordedBucket(reg, name));
    case Change(b) => ChangeRepresents(names, s, reg, b);
  }

  /** After every sequence of sets, unsets and changes the store represents the registry: each registered
      bucket reads back the visibility last set (public, where that was none of the three known texts), unset
      buckets the empty string, and orphans restricted, for every user; no policy lists a resource twice. */
  lemma {:induction false} RunsRepresent(names: Names, s: Store, reg: Registry, ops: seq<Op>)
    requires Represents(names, s, reg) && Possible(names, reg, ops)
    ensures Represents(names, RunStore(s, reg, ops), RunRegistry(reg, ops))
    ensures forall uid, b | uid in names.users && b in names.buckets ::
              Current(RunStore(s, reg, ops).policies, uid, b) == View(RunRegistry(reg, ops), uid, b)
    decreases |ops|
  {
    if ops != [] {
      StepRepresents(names, s, reg, ops[0]);
      RunsRepresent(names, StoreAfter(s, reg, ops[0]), RegistryAfter(reg, ops[0]), ops[1..]);
    } else {
      forall uid, b | uid in names.users && b in names.buckets
        ensures Current(s.policies, uid, b) == View(reg, uid, b)
      {
        CurrentIsView(names, s, reg, uid, b);
      }
    }
  }

  // ---------- What a caller asked for ----------

  /** In every reachable store a visibility that is set reads back to the owner as it was given if and only
      if it is one of the three known texts. */
  lemma ReadBackExactly(names: Names, s: Store, reg: Registry, b: Bucket)
    requires Represents(names, s, reg) && b.name in names.buckets && b.owner in names.users && b.name !in reg
    ensures Current(AfterSet(s, b).policies, b.owner, b.name) == b.visibility <==> KnownVisibility(b.visibility)
  {
    SetRepresents(names, s, reg, b);
    CurrentIsView(names, AfterSet(s, b), reg[b.name := EntryOf(b)], b.owner, b.name);
  }

  /** Every other text makes the bucket public to every user. */
  lemma UnknownIsPublic(names: Names, s: Store, reg: Registry, b: Bucket, uid: string)
    requires Represents(names, s, reg) && b.name in names.buckets && b.owner in names.users && b.name !in reg
    requires !KnownVisibility(b.visibility) && uid in names.users
    ensures Current(AfterSet(s, b).policies, uid, b.name) == PUBLIC
  {
    SetRepresents(names, s, reg, b);
    CurrentIsView(names, AfterSet(s, b), reg[b.name := EntryOf(b)], uid, b.name);
  }

  /** For instance a capitalised one. */
  lemma CapitalisedIsPublic(names: Names, s: Store, reg: Registry, name: string, owner: string, uid: string)
    requires Represents(names, s, reg) && name in names.buckets && owner in names.users && name !in reg
    requires uid in names.users
    ensures Current(AfterSet(s, Bucket(name, "Private", owner, [])).policies, uid, name) == PUBLIC
  {
    assert "Private"[0] != PRIVATE[0] && |"Private"| != |RESTRICTED| && |"Private"| != |PUBLIC|;
    UnknownIsPublic(names, s, reg, Bucket(name, "Private", owner, []), uid);
  }

  /** The update handler's own test of whether a user may change a bucket. */
  predicate MayChangeIn(ps: Policies, uid: string, bucket: string) {
    Current(ps, uid, bucket) == PUBLIC || (Current(ps, uid, bucket) != "" && InPolicy(ps, uid, bucket))
  }

  /** After a change by any user the recorded owner may still change the bucket if and only if the caller
      does not see it as public, is that owner, or makes it public again, and the change does not leave an
      orphan. */
  lemma OwnerKeptExactly(names: Names, s: Store, reg: Registry, b: Bucket)
    requires Represents(names, s, reg) && b.name in reg && reg[b.name].Entry? && b.owner in names.users
    ensures MayChangeIn(AfterChange(s, b).policies, reg[b.name].owner, b.name) <==>
            (Current(s.policies, b.owner, b.name) != PUBLIC || b.owner == reg[b.name].owner ||
             Normal(b.visibility) == PUBLIC) &&
            !(b.owner == reg[b.name].owner && Memberless(reg[b.name]) && b.visibility != RESTRICTED)
  {
    CurrentIsView(names, s, reg, b.owner, b.name);
    ChangeRepresents(names, s, reg, b);
    CurrentIsView(names, AfterChange(s, b), RegistryAfter(reg, Change(b)), reg[b.name].owner, b.name);
  }

  /** A permitted change to another visibility takes effect, unless it leaves an orphan. */
  lemma ChangeTakesEffect(names: Names, s: Store, reg: Registry, b: Bucket)
    requires Represents(names, s, reg) && b.name in reg && b.owner in names.users
    requires MayChangeIn(s.policies, b.owner, b.name) && KnownVisibility(b.visibility)
    requires Current(s.policies, b.owner, b.name) != b.visibility
    ensures Current(AfterChange(s, b).policies, b.owner, b.name) ==
            if Memberless(reg[b.name]) then RESTRICTED else b.visibility
    ensures MayChangeIn(AfterChange(s, b).policies, b.owner, b.name) <==> !Memberless(reg[b.name])
  {
    CurrentIsView(names, s, reg, b.owner, b.name);
    ChangeRepresents(names, s, reg, b);
    CurrentIsView(names, AfterChange(s, b), RegistryAfter(reg, Change(b)), b.owner, b.name);
  }

  /** Otherwise the caller takes the bucket over: made private, only the caller sees it any more, and the
      recorded owner does not. */
  lemma TakenOver(names: Names, s: Store, reg: Registry, b: Bucket)
    requires Represents(names, s, reg) && b.name in reg && b.owner in names.users
    requires reg[b.name].Entry? && reg[b.name].visibility == PUBLIC
    requires b.owner != reg[b.name].owner && b.visibility == PRIVATE
    ensures Current(AfterChange(s, b).policies, b.owner, b.name) == PRIVATE
    ensures Current(AfterChange(s, b).policies, reg[b.name].owner, b.name) == ""
  {
    var after := RegistryAfter(reg, Change(b));
    ChangeRepresents(names, s, reg, b);
    CurrentIsView(names, AfterChange(s, b), after, b.owner, b.name);
    CurrentIsView(names, AfterChange(s, b), after, reg[b.name].owner, b.name);
  }

  // ---------- Orphans ----------

  /** What a failed unset leaves: every user reads restricted, and nobody may change the bucket any more. */
  lemma OrphanLeft(names: Names, s: Store, reg: Registry, b: Bucket, uid: string)
    requires Represents(names, s, reg) && Recorded(reg, b) && Memberless(reg[b.name]) && uid in names.users
    ensures !AfterUnset(s, b).1
    ensures Current(AfterUnset(s, b).0.policies, uid, b.name) == RESTRICTED
    ensures !MayChangeIn(AfterUnset(s, b).0.policies, uid, b.name)
  {
    UnsetRepresents(names, s, reg, b);
    CurrentIsView(names, AfterUnset(s, b).0, Unregistered(reg, b.name), uid, b.name);
  }

  /** No sequence of sets, unsets and changes gets a bucket out of that state. */
  lemma {:induction false} OrphanStays(names: Names, reg: Registry, ops: seq<Op>, bucket: string)
    requires bucket in reg && reg[bucket].Orphan? && Possible(names, reg, ops)
    ensures bucket in RunRegistry(reg, ops) && RunRegistry(reg, ops)[bucket].Orphan?
    decreases |ops|
  {
    if ops != [] { OrphanStays(names, RegistryAfter(reg, ops[0]), ops[1..], bucket); }
  }

  /** A restricted bucket set up without members is enough. */
  lemma MemberlessUnsetFails(names: Names, name: string, owner: string, uid: string)
    requires names.Valid() && name in names.buckets && owner in names.users && uid in names.users
    ensures var b := Bucket(name, RESTRICTED, owner, []);
            var s := AfterSet(Store(map[], map[]), b);
            !AfterUnset(s, b).1 && Current(AfterUnset(s, b).0.policies, uid, name) == RESTRICTED
  {
    var b := Bucket(name, RESTRICTED, owner, []);
    FreshStore(names);
    SetRepresents(names, Store(map[], map[]), map[], b);
    OrphanLeft(names, AfterSet(Store(map[], map[]), b), map[name := EntryOf(b)], b, uid);
  }

  /** The empty store represents the empty registry, so all of this holds from a fresh installation. */
  lemma FreshStore(names: Names)
    requires names.Valid()
    ensures Represents(names, Store(map[], map[]), map[])
  {
  }

  /** The policy p now allows the bucket's contents; a policy that is new or was denying allows the actions and
      nothing else, any other keeps its actions and its resources. */
  predicate HasGained(before: Policies, after: Policies, p: string, bucket: string, actions: seq<string>) {
    var resource := "arn:aws:s3:::" + bucket + "/*";
    p in after && after[p].effect == Allow &&
    if p in before && before[p].effect == Allow
    then after[p].actions == before[p].actions && after[p].resources == before[p].resources + [resource]
    else after[p].actions == actions && after[p].resources == [resource]
  }

  // ---------- The code ----------

  class MinIO {
    var policies: Policies
    var groups: Groups

    constructor ()
      ensures policies == map[] && groups == map[]
    {
      policies, groups := map[], map[];
    }

    function Now(): Store
      reads this
    {
      Store(policies, groups)
    }

    /** ResourceInPolicy. */
    method ResourceInPolicy(policyName: string, resource: string) returns (found: bool)
      ensures found == InPolicy(policies, policyName, resource)
    {
      var rs := Arn(resource);
      if policyName !in policies { return false; }
      var resources := policies[policyName].resources;
      for i := 0 to |resources|
        invariant rs !in resources[..i]
      {
        if resources[i] == rs { return true; }
      }
      assert resources[..|resources|] == resources;
      return false;
    }

    /** CreateAddPolicy. */
    method CreateAddPolicy(bucket: string, policyName: string, policyActions: seq<string>)
      modifies this`policies
      ensures policies == Added(old(policies), bucket, policyName, policyActions)
    {
      var rs := Arn(bucket);
      if policyName !in policies {
        policies := policies[policyName := Policy(Allow, policyActions, [rs])];
      } else {
        var actual := policies[policyName];
        if actual.effect.Deny? {
          actual := Policy(Allow, policyActions, [rs]);
        } else {
          actual := actual.(resources := actual.resources + [rs]);
        }
        policies := policies[policyName := actual];
      }
    }

    /** RemoveResource: false when the policy does not exist. */
    method RemoveResource(bucketName: string, policyName: string) returns (ok: bool)
      modifies this`policies
      ensures ok <==> policyName in old(policies)
      ensures policies == if ok then Removed(old(policies), bucketName, policyName) else old(policies)
    {
      if policyName !in policies { return false; }
      var actual := policies[policyName];
      if |actual.resources| == 1 {
        actual := Policy(Deny, actual.actions, [Arn(bucketName + NOT_VALID)]);
      } else {
        var kept := Dropped(actual.resources, Arn(bucketName));
        actual := actual.(resources := kept);
      }
      policies := policies[policyName := actual];
      return true;
    }

    /** The loop of RemoveResource: cut out the first occurrence. */
    method Dropped(resources: seq<string>, resource: string) returns (r: seq<string>)
      ensures r == RemoveFirst(resources, resource)
    {
      r := resources;
      for i := 0 to |resources|
        invariant r == resources && resource !in resources[..i]
      {
        if resources[i] == resource {
          r := resources[..i] + resources[i + 1..];
          Cut(resources, resource, i);
          return;
        }
      }
      assert resources[..|resources|] == resources;
      Cut(resources, resource, |resources|);
    }

    /** CreateAddGroup; false when the server refuses. */
    method CreateAddGroup(groupName: string, users: seq<string>, remove: bool) returns (ok: bool)
      modifies this`groups
      ensures ok <==> GroupUpdated(old(groups), groupName, users, remove).Some?
      ensures groups == if ok then GroupUpdated(old(groups), groupName, users, remove).value else old(groups)
    {
      var updated := GroupUpdated(groups, groupName, users, remove);
      ok := updated.Some?;
      if ok { groups := updated.value; }
    }

    /** RemoveGroupPolicy: empties and removes the group, then removes the policy; succeeds if and only if
        the group has a member. A group without members is removed, and the policy stays. `members` is the
        member list the server reports. */
    method RemoveGroupPolicy(policyName: string, members: seq<string>) returns (ok: bool)
      requires policyName in groups ==> (set u | u in members) == groups[policyName]
      modifies this
      ensures ok <==> policyName in old(groups) && old(groups)[policyName] != {}
      ensures groups == old(groups) - {policyName}
      ensures policies == if ok then old(policies) - {policyName} else old(policies)
    {
      if policyName !in groups { return false; }
      if members != [] { assert members[0] in groups[policyName]; }
      ok := CreateAddGroup(policyName, members, true);
      if !ok { return; }
      ok := CreateAddGroup(policyName, [], true);
      if !ok { return; }
      policies := policies - {policyName};
    }

    /** SetPolicies. */
    method SetPolicies(bucket: Bucket)
      modifies this
      ensures Now() == AfterSet(old(Now()), bucket)
      ensures bucket.visibility == "restricted" && bucket.name != bucket.owner ==>
                && HasGained(old(policies), policies, bucket.owner, bucket.name, ["s3:*"])
                && HasGained(old(policies), policies, bucket.name, bucket.name,
                             ["s3:ListBucket", "s3:GetObject", "s3:PutObject", "s3:DeleteObject"])
                && bucket.name in groups && (bucket.name !in old(groups) ==>
                     forall u :: u in groups[bucket.name] <==> u in bucket.allowedUsers)
      ensures bucket.visibility == "private" ==>
                HasGained(old(policies), policies, bucket.owner, bucket.name, ["s3:*"]) && groups == old(groups)
      ensures bucket.visibility != "restricted" && bucket.visibility != "private" ==>
                HasGained(old(policies), policies, "all_users_group", bucket.name, ["s3:*"]) && groups == old(groups)
    {
      if bucket.visibility == RESTRICTED || bucket.visibility == PRIVATE {
        CreateAddPolicy(bucket.name, bucket.owner, ALL_ACTIONS);
        if bucket.visibility == RESTRICTED {
          var ok := CreateAddGroup(bucket.name, bucket.allowedUsers, false);
          if !ok { return; }
          CreateAddPolicy(bucket.name, bucket.name, RESTRICTED_ACTIONS);
        }
      } else {
        CreateAddPolicy(bucket.name, ALL_USERS, ALL_ACTIONS);
      }
    }

    /** UnsetPolicies. */
    method UnsetPolicies(bucket: Bucket, members: seq<string>) returns (ok: bool)
      requires bucket.name in groups ==> (set u | u in members) == groups[bucket.name]
      modifies this
      ensures (Now(), ok) == AfterUnset(old(Now()), bucket)
    {
      var policyName := bucket.owner;
      if ToLower(bucket.visibility) == PUBLIC { policyName := ALL_USERS; }
      ok := RemoveResource(bucket.name, policyName);
      if !ok { return; }
      if ToLower(bucket.visibility) == RESTRICTED {
        ok := RemoveGroupPolicy(bucket.name, members);
        assert bucket.name !in old(groups) ==> groups == old(groups);
      }
    }

    /** GetCurrentResourceVisibility. */
    method GetCurrentResourceVisibility(owner: string, bucketName: string) returns (v: string)
      ensures v == Current(policies, owner, bucketName)
    {
      var own := ResourceInPolicy(owner, bucketName);
      var group := ResourceInPolicy(bucketName, bucketName);
      if own {
        if group { return RESTRICTED; }
        return PRIVATE;
      } else {
        if group { return RESTRICTED; }
        var all := ResourceInPolicy(ALL_USERS, bucketName);
        if all { return PUBLIC; }
      }
      return "";
    }

    /** UpdateServiceGroup: afterwards the group has exactly the given users; false when there is no
        such group. `members` is the member list the server reports. */
    method UpdateServiceGroup(groupName: string, users: seq<string>, members: seq<string>) returns (ok: bool)
      requires groupName in groups ==> (set u | u in members) == groups[groupName]
      modifies this`groups
      ensures ok <==> groupName in old(groups)
      ensures groups == if ok then old(groups)[groupName := set u | u in users] else old(groups)
    {
      if groupName !in groups { return false; }
      var membersMap: map<string, bool> := map[];
      for i := 0 to |members|
        invariant membersMap.Keys == set u | u in members[..i]
        invariant forall u | u in membersMap :: membersMap[u]
      {
        assert members[..i + 1] == members[..i] + [members[i]];
        membersMap := membersMap[members[i] := true];
      }
      assert members[..|members|] == members;
      for i := 0 to |users|
        invariant membersMap.Keys == groups[groupName]
        invariant forall u | u in membersMap :: membersMap[u] <==> u !in users[..i]
      {
        assert users[..i + 1] == users[..i] + [users[i]];
        if users[i] in membersMap && membersMap[users[i]] {
          membersMap := membersMap[users[i] := false];
        }
      }
      assert users[..|users|] == users;
      var isRemove := Collect(membersMap);
      if |isRemove| > 0 {
        ok := CreateAddGroup(groupName, isRemove, true);
        if !ok { return; }
      }
      ok := CreateAddGroup(groupName, users, false);
      assert (set u | u in users) == groups[groupName];
    }

    /** The update handler, for a bucket specification whose owner is the calling user. */
    method UpdateBucket(bucket: Bucket, members: seq<string>)
      requires bucket.name in groups ==> (set u | u in members) == groups[bucket.name]
      modifies this
      ensures Now() == AfterChange(old(Now()), bucket)
      ensures !MayChangeIn(old(policies), bucket.owner, bucket.name) ==> Now() == old(Now())
      ensures MayChangeIn(old(policies), bucket.owner, bucket.name) &&
              Current(old(policies), bucket.owner, bucket.name) == bucket.visibility ==>
                policies == old(policies) &&
                groups == if bucket.visibility == "restricted" && bucket.name in old(groups)
                          then old(groups)[bucket.name := set u | u in bucket.allowedUsers] else old(groups)
    {
      var oldVis := GetCurrentResourceVisibility(bucket.owner, bucket.name);
      var own := ResourceInPolicy(bucket.owner, bucket.name);
      if oldVis != "" {
        if oldVis == PUBLIC || own {
          if oldVis != bucket.visibility {
            var ok := UnsetPolicies(Bucket(bucket.name, oldVis, bucket.owner, []), members);
            if !ok { return; }
            SetPolicies(bucket);
          } else if oldVis == RESTRICTED {
            var ok := UpdateServiceGroup(bucket.name, bucket.allowedUsers, members);
          }
        }
      }
    }
  }

  /** The keys of a map whose value is true, in some order. */
  method Collect(m: map<string, bool>) returns (ks: seq<string>)
    ensures forall k :: k in ks <==> k in m && m[k]
  {
    ks := [];
    var todo := m.Keys;
    while todo != {}
      invariant todo <= m.Keys
      invariant forall k :: k in ks <==> k in m && m[k] && k !in todo
      decreases |todo|
    {
      var k :| k in todo;
      if m[k] { ks := ks + [k]; }
      todo := todo - {k};
    }
  }

  /** What the search loop finds: the first occurrence is cut out, or there is none. */
  lemma {:induction false} Cut(rs: seq<string>, r: string, i: nat)
    requires i <= |rs| && r !in rs[..i] && (i < |rs| ==> rs[i] == r)
    ensures RemoveFirst(rs, r) == if i < |rs| then rs[..i] + rs[i + 1..] else rs
  {
    if i > 0 {
      assert rs[0] in rs[..i];
      assert rs[1..][..i - 1] == rs[..i][1..];
      Cut(rs[1..], r, i - 1);
      assert rs[..i] == [rs[0]] + rs[1..][..i - 1];
      if i < |rs| { assert rs[1..][i..] == rs[i + 1..]; }
    }
  }
}
