/** Replica priorities, their stable ordering and the try-in-order delegation loop
    (pkg/resourcemanager/delegate.go and pkg/types/replica.go).

    Replies of other clusters, random draws and answers to delegation requests are parameters. */
module Delegation {
  import opened Options
  import opened PriorityMap
  import opened Text

  /** kind, clusterID, serviceName and url are the source's Type, ClusterID, ServiceName and URL. */
  datatype Replica = Replica(kind: string, clusterID: string, serviceName: string, url: string, priority: nat)

  predicate IsOscar(r: Replica) { ToLower(r.kind) == "oscar" }

  predicate IsEndpoint(r: Replica) { ToLower(r.kind) == "endpoint" }

  /** Priority of a replica that must not be used. */
  const NO_DELEGATE: nat := 101

  // ---------- Cluster status ----------

  datatype GeneralInfo = GeneralInfo(cpuMaxFree: int, cpuFreeTotal: int)

  /** Reply to a status request: no request could be built, or an answer with its decoded body. */
  datatype StatusReply = NoRequest | Answer(code: int, info: Option<GeneralInfo>)

  /** The cluster answered and one of its nodes has the CPU the service asks for. */
  predicate CanHost(defined: bool, reply: StatusReply, cpu: Option<real>) {
    defined && reply.Answer? && reply.code == 200 && reply.info.Some? && cpu.Some? &&
    reply.info.value.cpuMaxFree as real >= 1000.0 * cpu.value
  }

  /** The priority a replica ends with, as a table over the delegation mode. */
  function Assigned(delegation: string, r: Replica, canHost: bool, freeTotal: int, draw: nat): nat {
    if !IsOscar(r) || delegation == "static" then r.priority
    else if !canHost then NO_DELEGATE
    else if delegation == "random" then draw
    else if delegation == "load-based" then LoadPriority(freeTotal)
    else NO_DELEGATE
  }

  function FreeTotal(reply: StatusReply): int {
    if reply.Answer? && reply.info.Some? then reply.info.value.cpuFreeTotal else 0
  }

  function Reassigned(delegation: string, cpu: Option<real>, clusters: set<string>,
                      r: Replica, reply: StatusReply, draw: nat): Replica
  {
    r.(priority := Assigned(delegation, r, CanHost(r.clusterID in clusters, reply, cpu), FreeTotal(reply), draw))
  }

  // ---------- Ordering ----------

  predicate Sorted(rs: seq<Replica>) {
    forall i, j | 0 <= i < j < |rs| :: rs[i].priority <= rs[j].priority
  }

  /** The replicas of priority p, in list order. */
  function WithPriority(rs: seq<Replica>, p: nat): seq<Replica> {
    if rs == [] then []
    else if rs[0].priority == p then [rs[0]] + WithPriority(rs[1..], p)
    else WithPriority(rs[1..], p)
  }

  /** s is rs sorted stably: by priority, and equal priorities in their original order. */
  ghost predicate StableSortOf(s: seq<Replica>, rs: seq<Replica>) {
    Sorted(s) && forall p :: WithPriority(s, p) == WithPriority(rs, p)
  }

  lemma {:induction false} WithPriorityAppend(a: seq<Replica>, b: seq<Replica>, p: nat)
    ensures WithPriority(a + b, p) == WithPriority(a, p) + WithPriority(b, p)
  {
    if a == [] {
      assert a + b == b;
    } else {
      WithPriorityAppend(a[1..], b, p);
      assert (a + b)[1..] == a[1..] + b;
    }
  }

  lemma {:induction false} WithPriorityMember(rs: seq<Replica>, r: Replica)
    ensures r in rs <==> r in WithPriority(rs, r.priority)
  {
    if rs != [] {
      WithPriorityMember(rs[1..], r);
      assert rs == [rs[0]] + rs[1..];
    }
  }

  lemma {:induction false} WithPriorityAbsent(rs: seq<Replica>, p: nat)
    ensures WithPriority(rs, p) == [] <==> forall i | 0 <= i < |rs| :: rs[i].priority != p
  {
    if rs != [] {
      WithPriorityAbsent(rs[1..], p);
      assert forall i | 0 < i < |rs| :: rs[i] == rs[1..][i - 1];
    }
  }

  /** Equal priority classes give equal heads. */
  lemma {:induction false} SameHead(a: seq<Replica>, b: seq<Replica>)
    requires a != [] && Sorted(a) && Sorted(b)
    requires forall p :: WithPriority(a, p) == WithPriority(b, p)
    ensures b != [] && a[0] == b[0]
  {
    WithPriorityMember(a, a[0]);
    WithPriorityMember(b, a[0]);
    WithPriorityMember(b, b[0]);
    WithPriorityMember(a, b[0]);
    var p := a[0].priority;
    assert p == b[0].priority;
    assert WithPriority(a, p)[0] == a[0] && WithPriority(b, p)[0] == b[0];
  }

  /** Stability leaves no choice: there is exactly one stable sort of a list. */
  lemma {:induction false} StableSortUnique(a: seq<Replica>, b: seq<Replica>)
    requires Sorted(a) && Sorted(b)
    requires forall p :: WithPriority(a, p) == WithPriority(b, p)
    ensures a == b
  {
    if a != [] {
      SameHead(a, b);
      forall q: nat ensures WithPriority(a[1..], q) == WithPriority(b[1..], q) {
        assert WithPriority(a, q) == WithPriority(b, q);
        if a[0].priority == q {
          assert WithPriority(a, q)[1..] == WithPriority(a[1..], q);
          assert WithPriority(b, q)[1..] == WithPriority(b[1..], q);
        }
      }
      StableSortUnique(a[1..], b[1..]);
      assert a == [a[0]] + a[1..] && b == [b[0]] + b[1..];
    } else if b != [] {
      SameHead(b, a);
    }
  }

  /** A stable sort holds the same replicas, as often. */
  lemma {:induction false} StableSortMembers(s: seq<Replica>, rs: seq<Replica>)
    requires StableSortOf(s, rs)
    ensures forall r :: r in s <==> r in rs
  {
    forall r ensures r in s <==> r in rs {
      WithPriorityMember(s, r);
      WithPriorityMember(rs, r);
    }
  }

  // ---------- Answers to delegation requests ----------

  /** What became of the request to one replica. `retry` is the answer to the request that is sent
      again after a 401, if a fresh token was obtained and an answer came. */
  datatype Contact = NotSent | Lost | Replied(code: int, retry: Option<int>)

  predicate Eligible(r: Replica, clusters: set<string>) {
    (IsOscar(r) && r.priority < NO_DELEGATE && r.clusterID in clusters) || IsEndpoint(r)
  }

  /** The replica's first answer takes the job: 201 from a cluster, 200 from an endpoint. */
  predicate Accepts(r: Replica, c: Contact) {
    c.Replied? && c.code == if IsOscar(r) then 201 else 200
  }

  predicate Takes(rs: seq<Replica>, clusters: set<string>, contacts: seq<Contact>, i: nat)
    requires i < |rs| == |contacts|
  {
    Eligible(rs[i], clusters) && Accepts(rs[i], contacts[i])
  }

  /** A cluster that may be used answers 201, or an endpoint 200. */
  predicate SaysYes(r: Replica, clusters: set<string>, c: Contact) {
    c.Replied? && ((ToLower(r.kind) == "oscar" && r.priority < 101 && r.clusterID in clusters && c.code == 201) ||
                   (ToLower(r.kind) == "endpoint" && c.code == 200))
  }

  /** k is the first position with such an answer. */
  predicate IsFirstYes(rs: seq<Replica>, clusters: set<string>, contacts: seq<Contact>, k: nat) {
    k < |rs| == |contacts| && SaysYes(rs[k], clusters, contacts[k]) &&
    forall i: nat | i < k :: !SaysYes(rs[i], clusters, contacts[i])
  }

  lemma TakesIsYes(rs: seq<Replica>, clusters: set<string>, contacts: seq<Contact>, i: nat)
    requires i < |rs| == |contacts|
    ensures Takes(rs, clusters, contacts, i) <==> SaysYes(rs[i], clusters, contacts[i])
  {
  }

  /** The first position whose replica takes the job, or |rs|. */
  function FirstTaker(rs: seq<Replica>, clusters: set<string>, contacts: seq<Contact>, from: nat): (k: nat)
    requires from <= |rs| == |contacts|
    ensures from <= k <= |rs|
    ensures forall i: nat | from <= i < k :: !Takes(rs, clusters, contacts, i)
    ensures k < |rs| ==> Takes(rs, clusters, contacts, k)
    decreases |rs| - from
  {
    if from == |rs| || Takes(rs, clusters, contacts, from) then from
    else FirstTaker(rs, clusters, contacts, from + 1)
  }

  /** Positions before n to which a request goes out. */
  function Reached(rs: seq<Replica>, clusters: set<string>, contacts: seq<Contact>, n: nat): seq<nat>
    requires n <= |rs| == |contacts|
  {
    if n == 0 then [] else
      Reached(rs, clusters, contacts, n - 1) +
      (if Eligible(rs[n - 1], clusters) && !contacts[n - 1].NotSent? then [n - 1] else [])
  }

  /** Positions the delegation loop sends a request to: those reached up to the first taker. */
  function Contacted(rs: seq<Replica>, clusters: set<string>, contacts: seq<Contact>): seq<nat>
    requires |rs| == |contacts|
  {
    var k := FirstTaker(rs, clusters, contacts, 0);
    Reached(rs, clusters, contacts, if k < |rs| then k + 1 else k)
  }

  lemma {:induction false} ReachedExactly(rs: seq<Replica>, clusters: set<string>, contacts: seq<Contact>, n: nat)
    requires n <= |rs| == |contacts|
    ensures forall i :: i in Reached(rs, clusters, contacts, n) <==>
              0 <= i < n && Eligible(rs[i], clusters) && !contacts[i].NotSent?
    ensures forall i, j | 0 <= i < j < |Reached(rs, clusters, contacts, n)| ::
              Reached(rs, clusters, contacts, n)[i] < Reached(rs, clusters, contacts, n)[j]
  {
    if n > 0 {
      ReachedExactly(rs, clusters, contacts, n - 1);
      var before := Reached(rs, clusters, contacts, n - 1);
      assert forall i | 0 <= i < |before| :: before[i] in before;
    }
  }

  // ---------- The code ----------

  class Service {
    const delegation: string
    const cpu: Option<real>       // the parsed CPU request
    const clusters: set<string>   // identifiers of the defined clusters
    var replicas: seq<Replica>

    constructor (delegation: string, cpu: Option<real>, clusters: set<string>, replicas: seq<Replica>)
      ensures this.delegation == delegation && this.cpu == cpu && this.clusters == clusters
      ensures this.replicas == replicas
    {
      this.delegation, this.cpu, this.clusters, this.replicas := delegation, cpu, clusters, replicas;
    }

    function Ranked(rs: seq<Replica>, replies: seq<StatusReply>, draws: seq<nat>): seq<Replica>
      requires |rs| == |replies| == |draws|
    {
      Prioritised(delegation, cpu, clusters, rs, replies, draws)
    }

    /** getClusterStatus: load-based, an oscar replica gets a priority within 0..100 exactly when its cluster
        answered with enough CPU on a node, and 101 otherwise; at random, it is usable in the same case;
        static delegation changes nothing. */
    method GetClusterStatus(replies: seq<StatusReply>, draws: seq<nat>)
      requires |replies| == |draws| == |replicas|
      modifies this`replicas
      ensures replicas == Ranked(old(replicas), replies, draws)
      ensures delegation == "static" ==> replicas == old(replicas)
      ensures delegation == "load-based" ==>
              forall i | 0 <= i < |replicas| && ToLower(old(replicas)[i].kind) == "oscar" ::
                if old(replicas)[i].clusterID in clusters && replies[i].Answer? && replies[i].code == 200 &&
                   replies[i].info.Some? && cpu.Some? &&
                   replies[i].info.value.cpuMaxFree as real >= 1000.0 * cpu.value
                then replicas[i].priority == LoadPriority(replies[i].info.value.cpuFreeTotal) <= 100
                else replicas[i].priority == 101
      ensures delegation == "random" ==>
              forall i | 0 <= i < |replicas| && ToLower(old(replicas)[i].kind) == "oscar" ::
                if old(replicas)[i].clusterID in clusters && replies[i].Answer? && replies[i].code == 200 &&
                   replies[i].info.Some? && cpu.Some? &&
                   replies[i].info.value.cpuMaxFree as real >= 1000.0 * cpu.value
                then replicas[i].priority == draws[i]
                else replicas[i].priority == 101
      ensures delegation != "static" && delegation != "load-based" && delegation != "random" ==>
              forall i | 0 <= i < |replicas| && ToLower(old(replicas)[i].kind) == "oscar" :: replicas[i].priority == 101
      ensures |replicas| == |old(replicas)| && forall i | 0 <= i < |replicas| ::
                replicas[i] == old(replicas)[i].(priority := replicas[i].priority) &&
                (ToLower(old(replicas)[i].kind) != "oscar" ==> replicas[i] == old(replicas)[i])
    {
      ghost var target := Ranked(replicas, replies, draws);
      for id := 0 to |replicas|
        invariant |replicas| == |target|
        invariant forall i | 0 <= i < id :: replicas[i] == target[i]
        invariant forall i | id <= i < |replicas| :: replicas[i] == old(replicas)[i]
      {
        var replica := UpdatedReplica(replicas[id], replies[id], draws[id]);
        replicas := replicas[id := replica];
      }
    }

    /** One round of getClusterStatus. */
    method UpdatedReplica(replica: Replica, reply: StatusReply, draw: nat) returns (r: Replica)
      ensures r == Reassigned(delegation, cpu, clusters, replica, reply, draw)
    {
      r := replica;
      if IsOscar(replica) {
        if replica.clusterID !in clusters || reply.NoRequest? || reply.code != 200 || reply.info.None? || cpu.None? {
          if delegation != "static" { r := r.(priority := NO_DELEGATE); }
        } else {
          var dist := reply.info.value.cpuMaxFree as real - 1000.0 * cpu.value;
          if dist >= 0.0 {
            if delegation == "random" {
              r := r.(priority := draw);
            } else if delegation == "load-based" {
              r := r.(priority := LoadPriority(reply.info.value.cpuFreeTotal));
            } else if delegation != "static" {
              r := r.(priority := NO_DELEGATE);
            }
          } else {
            if delegation != "static" { r := r.(priority := NO_DELEGATE); }
          }
        }
      }
    }

    /** The replica list put in order: sort.IsSorted, then sort.Stable. */
    method OrderReplicas()
      modifies this`replicas
      ensures StableSortOf(replicas, old(replicas))
    {
      if !Sorted(replicas) {
        var s := [];
        for n := 0 to |replicas|
          invariant replicas == old(replicas)
          invariant StableSortOf(s, replicas[..n])
        {
          InsertStable(s, replicas[..n], replicas[n]);
          assert replicas[..n + 1] == replicas[..n] + [replicas[n]];
          s := Inserted(s, replicas[n]);
        }
        assert replicas[..|replicas|] == replicas;
        replicas := s;
      }
    }

    /** The delegation loop of DelegateJob. `contacted` lists the positions a request was sent to; the
        result is true when the source returns nil. */
    method TryReplicas(contacts: seq<Contact>) returns (ok: bool, contacted: seq<nat>)
      requires |contacts| == |replicas|
      ensures ok <==>
              exists i: nat ::
                i < |replicas| && contacts[i].Replied? &&
                ((ToLower(replicas[i].kind) == "oscar" && replicas[i].priority < 101 &&
                  replicas[i].clusterID in clusters && contacts[i].code == 201) ||
                 (ToLower(replicas[i].kind) == "endpoint" && contacts[i].code == 200))
      ensures ok ==> contacted != [] && IsFirstYes(replicas, clusters, contacts, contacted[|contacted| - 1])
      ensures !ok ==> forall i: nat | i < |replicas| :: !SaysYes(replicas[i], clusters, contacts[i])
      ensures contacted == Contacted(replicas, clusters, contacts)
    {
      contacted := [];
      for i := 0 to |replicas|
        invariant FirstTaker(replicas, clusters, contacts, 0) >= i
        invariant contacted == Reached(replicas, clusters, contacts, i)
        invariant forall k: nat | k < i :: !SaysYes(replicas[k], clusters, contacts[k])
      {
        FirstTakerStep(replicas, clusters, contacts, i);
        TakesIsYes(replicas, clusters, contacts, i);
        var replica := replicas[i];
        if IsOscar(replica) && replica.priority < NO_DELEGATE {
          if replica.clusterID !in clusters { continue; }
          if contacts[i].NotSent? { continue; }
          contacted := contacted + [i];
          if contacts[i].Lost? { continue; }
          if contacts[i].code == 201 {
            return true, contacted;
          } else if contacts[i].code == 401 {
            // the request goes out again; whatever contacts[i].retry says, the loop moves on
          }
        }
        if IsEndpoint(replica) {
          if contacts[i].NotSent? { continue; }
          contacted := contacted + [i];
          if contacts[i].Lost? { continue; }
          if contacts[i].code == 200 {
            return true, contacted;
          }
        }
      }
      return false, contacted;
    }

    /** DelegateJob outside TOPSIS mode: assign priorities, order, try in order. */
    method DelegateJob(replies: seq<StatusReply>, draws: seq<nat>, contacts: seq<Contact>)
      returns (ok: bool, contacted: seq<nat>)
      requires |replies| == |draws| == |contacts| == |replicas|
      modifies this`replicas
      ensures StableSortOf(replicas, Ranked(old(replicas), replies, draws)) && |replicas| == |contacts|
      ensures ok <==>
              exists i: nat ::
                i < |replicas| && contacts[i].Replied? &&
                ((ToLower(replicas[i].kind) == "oscar" && replicas[i].priority < 101 &&
                  replicas[i].clusterID in clusters && contacts[i].code == 201) ||
                 (ToLower(replicas[i].kind) == "endpoint" && contacts[i].code == 200))
      ensures ok ==> contacted != [] && IsFirstYes(replicas, clusters, contacts, contacted[|contacted| - 1])
      ensures !ok ==> forall i: nat | i < |replicas| :: !SaysYes(replicas[i], clusters, contacts[i])
      ensures contacted == Contacted(replicas, clusters, contacts)
      ensures forall p | p in contacted ::
                p < |replicas| && Justified(delegation, cpu, clusters, old(replicas), replies, draws, replicas[p])
      ensures delegation == "static" ==> StableSortOf(replicas, old(replicas))
    {
      GetClusterStatus(replies, draws);
      ghost var given := replicas;
      OrderReplicas();
      StableSortLength(replicas, given);
      ok, contacted := TryReplicas(contacts);
      forall p | p in contacted
        ensures p < |replicas| && Justified(delegation, cpu, clusters, old(replicas), replies, draws, replicas[p])
      {
        ContactedJustified(delegation, cpu, clusters, old(replicas), replies, draws, replicas, contacts, p);
      }
    }
  }

  lemma FirstTakerStep(rs: seq<Replica>, clusters: set<string>, contacts: seq<Contact>, i: nat)
    requires i < |rs| == |contacts| && FirstTaker(rs, clusters, contacts, 0) >= i
    ensures if Takes(rs, clusters, contacts, i) then FirstTaker(rs, clusters, contacts, 0) == i
            else FirstTaker(rs, clusters, contacts, 0) > i
  {
  }

  function Prioritised(delegation: string, cpu: Option<real>, clusters: set<string>,
                       rs: seq<Replica>, replies: seq<StatusReply>, draws: seq<nat>): seq<Replica>
    requires |rs| == |replies| == |draws|
  {
    seq(|rs|, i requires 0 <= i < |rs| => Reassigned(delegation, cpu, clusters, rs[i], replies[i], draws[i]))
  }

  // ---------- The insertion step of the stable sort ----------

  function Inserted(s: seq<Replica>, r: Replica): seq<Replica> {
    if s == [] || s[|s| - 1].priority <= r.priority then s + [r]
    else Inserted(s[..|s| - 1], r) + [s[|s| - 1]]
  }

  lemma {:induction false} InsertedKeepsOrder(s: seq<Replica>, r: Replica, bound: nat)
    requires Sorted(s) && r.priority <= bound && forall i | 0 <= i < |s| :: s[i].priority <= bound
    ensures Sorted(Inserted(s, r))
    ensures forall i | 0 <= i < |Inserted(s, r)| :: Inserted(s, r)[i].priority <= bound
  {
    if s != [] && s[|s| - 1].priority > r.priority {
      InsertedKeepsOrder(s[..|s| - 1], r, s[|s| - 1].priority);
    }
  }

  lemma {:induction false} InsertedPriorities(s: seq<Replica>, r: Replica, p: nat)
    requires Sorted(s)
    ensures WithPriority(Inserted(s, r), p) == WithPriority(s + [r], p)
  {
    if s != [] && s[|s| - 1].priority > r.priority {
      var init, last := s[..|s| - 1], s[|s| - 1];
      InsertedPriorities(init, r, p);
      WithPriorityAppend(Inserted(init, r), [last], p);
      WithPriorityAppend(init, [r], p);
      assert s == init + [last];
      WithPriorityAppend(init, [last], p);
      WithPriorityAppend(s, [r], p);
    }
  }

  lemma {:induction false} InsertStable(s: seq<Replica>, rs: seq<Replica>, r: Replica)
    requires StableSortOf(s, rs)
    ensures StableSortOf(Inserted(s, r), rs + [r])
  {
    InsertedKeepsOrder(s, r, if s == [] || s[|s| - 1].priority <= r.priority then r.priority else s[|s| - 1].priority);
    forall p ensures WithPriority(Inserted(s, r), p) == WithPriority(rs + [r], p) {
      InsertedPriorities(s, r, p);
      WithPriorityAppend(s, [r], p);
      WithPriorityAppend(rs, [r], p);
    }
  }

  lemma {:induction false} SortedBy(rs: seq<Replica>, n: nat) returns (s: seq<Replica>)
    requires n <= |rs|
    ensures StableSortOf(s, rs[..n]) && |s| == n
  {
    if n == 0 {
      s := [];
    } else {
      var t := SortedBy(rs, n - 1);
      InsertStable(t, rs[..n - 1], rs[n - 1]);
      assert rs[..n] == rs[..n - 1] + [rs[n - 1]];
      s := Inserted(t, rs[n - 1]);
      InsertedLength(t, rs[n - 1]);
    }
  }

  lemma {:induction false} InsertedLength(s: seq<Replica>, r: Replica)
    ensures |Inserted(s, r)| == |s| + 1
  {
    if s != [] && s[|s| - 1].priority > r.priority { InsertedLength(s[..|s| - 1], r); }
  }

  lemma {:induction false} StableSortLength(s: seq<Replica>, rs: seq<Replica>)
    requires StableSortOf(s, rs)
    ensures |s| == |rs|
  {
    var t := SortedBy(rs, |rs|);
    assert rs[..|rs|] == rs;
    StableSortUnique(s, t);
  }

  // ---------- Main results ----------

  /** Nobody is contacted after an acceptance, nobody reachable is skipped before it, and no oscar
      replica of priority 101 or more is ever contacted. */
  lemma ContactedExactly(rs: seq<Replica>, clusters: set<string>, contacts: seq<Contact>)
    requires |rs| == |contacts|
    ensures var k, contacted := FirstTaker(rs, clusters, contacts, 0), Contacted(rs, clusters, contacts);
            && (forall i :: i in contacted <==>
                  0 <= i < |rs| && i <= k && Eligible(rs[i], clusters) && !contacts[i].NotSent?)
            && (forall i | 0 <= i < |rs| && i in contacted && IsOscar(rs[i]) :: rs[i].priority < NO_DELEGATE)
            && (k < |rs| ==> contacted != [] && contacted[|contacted| - 1] == k)
            && (forall i, j | 0 <= i < j < |contacted| :: contacted[i] < contacted[j])
  {
    var k := FirstTaker(rs, clusters, contacts, 0);
    ReachedExactly(rs, clusters, contacts, if k < |rs| then k + 1 else k);
  }

  /** Why a replica may be contacted: it is one of the given replicas and, if it is an oscar replica whose
      priority the mode assigns, its cluster answered with enough CPU on a node. In load-based mode its
      priority then is the mapped one, within 0..100. */
  predicate Justified(delegation: string, cpu: Option<real>, clusters: set<string>, rs: seq<Replica>,
                      replies: seq<StatusReply>, draws: seq<nat>, r: Replica)
    requires |rs| == |replies| == |draws|
  {
    exists i | 0 <= i < |rs| :: r == Reassigned(delegation, cpu, clusters, rs[i], replies[i], draws[i]) &&
      (IsOscar(r) && delegation != "static" ==> CanHost(rs[i].clusterID in clusters, replies[i], cpu)) &&
      (IsOscar(r) && delegation == "load-based" ==> r.priority == LoadPriority(FreeTotal(replies[i])))
  }

  /** Every replica contacted after ordering the assigned priorities is justified. */
  lemma ContactedJustified(delegation: string, cpu: Option<real>, clusters: set<string>, rs: seq<Replica>,
                           replies: seq<StatusReply>, draws: seq<nat>, sorted: seq<Replica>,
                           contacts: seq<Contact>, p: nat)
    requires |rs| == |replies| == |draws| && |sorted| == |contacts|
    requires StableSortOf(sorted, Prioritised(delegation, cpu, clusters, rs, replies, draws))
    requires p in Contacted(sorted, clusters, contacts)
    ensures p < |sorted| && Justified(delegation, cpu, clusters, rs, replies, draws, sorted[p])
  {
    var given := Prioritised(delegation, cpu, clusters, rs, replies, draws);
    ContactedExactly(sorted, clusters, contacts);
    StableSortMembers(sorted, given);
    assert sorted[p] in sorted;
    var i :| 0 <= i < |given| && given[i] == sorted[p];
    assert sorted[p] == Reassigned(delegation, cpu, clusters, rs[i], replies[i], draws[i]);
  }

  /** The try order follows free CPU: of two clusters able to host the service, the one with more free
      CPU comes first wherever the mapped priorities differ. Holds while no reported total overflows
      the priority computation (AntitoneExactly). */
  lemma MoreFreeCPUFirst(cpu: Option<real>, clusters: set<string>, rs: seq<Replica>,
                         replies: seq<StatusReply>, draws: seq<nat>, sorted: seq<Replica>, i: nat, j: nat)
    requires i < |rs| && j < |rs| && |rs| == |replies| == |draws|
    requires var given := Prioritised("load-based", cpu, clusters, rs, replies, draws);
             StableSortOf(sorted, given) && given[i].priority != given[j].priority
    requires IsOscar(rs[i]) && CanHost(rs[i].clusterID in clusters, replies[i], cpu)
    requires IsOscar(rs[j]) && CanHost(rs[j].clusterID in clusters, replies[j], cpu)
    requires -MAX_CPU <= FreeTotal(replies[i]) < FreeTotal(replies[j]) <= MAX_CPU
    ensures var given := Prioritised("load-based", cpu, clusters, rs, replies, draws);
            forall p, q | 0 <= p < |sorted| && 0 <= q < |sorted| && sorted[p] == given[i] && sorted[q] == given[j] ::
              q < p
  {
  }

  // ---------- The answer to a repeated request ----------

  /** The replica took the job, on its first answer or, for an oscar replica, on the repeated request. */
  predicate Took(r: Replica, c: Contact) { Accepts(r, c) || TookOnRetry(r, c) }

  predicate TookOnRetry(r: Replica, c: Contact) { IsOscar(r) && c == Replied(401, Some(201)) }

  /** The contacted positions whose replica took the job. */
  function Takers(rs: seq<Replica>, clusters: set<string>, contacts: seq<Contact>): set<nat>
    requires |rs| == |contacts|
  {
    set i | i in Contacted(rs, clusters, contacts) && i < |rs| && Took(rs[i], contacts[i])
  }

  /** Those that took it on the repeated request. */
  function RetryTakers(rs: seq<Replica>, clusters: set<string>, contacts: seq<Contact>): set<nat>
    requires |rs| == |contacts|
  {
    set i | i in Contacted(rs, clusters, contacts) && i < |rs| && TookOnRetry(rs[i], contacts[i])
  }

  predicate Succeeds(rs: seq<Replica>, clusters: set<string>, contacts: seq<Contact>)
    requires |rs| == |contacts|
  {
    FirstTaker(rs, clusters, contacts, 0) < |rs|
  }

  /** Who takes the job: the first replica to accept, if any, and besides it every contacted oscar replica
      that answers 401 and then 201. */
  lemma TakersExactly(rs: seq<Replica>, clusters: set<string>, contacts: seq<Contact>)
    requires |rs| == |contacts|
    ensures var k := FirstTaker(rs, clusters, contacts, 0);
            && k !in RetryTakers(rs, clusters, contacts)
            && Takers(rs, clusters, contacts) ==
               RetryTakers(rs, clusters, contacts) + if Succeeds(rs, clusters, contacts) then {k} else {}
  {
    ContactedExactly(rs, clusters, contacts);
    var k, takers := FirstTaker(rs, clusters, contacts, 0), Takers(rs, clusters, contacts);
    forall i | i in takers ensures i == k < |rs| || i in RetryTakers(rs, clusters, contacts) {
      if i < k { assert !Takes(rs, clusters, contacts, i); }
    }
    if k < |rs| { assert Takes(rs, clusters, contacts, k); }
  }

  /** DelegateJob reports success exactly when somebody took the job if and only if some first answer
      accepts or no contacted oscar replica answers 401 and then 201. */
  lemma SuccessAgreesExactly(rs: seq<Replica>, clusters: set<string>, contacts: seq<Contact>)
    requires |rs| == |contacts|
    ensures (Succeeds(rs, clusters, contacts) <==> Takers(rs, clusters, contacts) != {}) <==>
            ((exists i: nat :: i < |rs| && Takes(rs, clusters, contacts, i)) ||
             RetryTakers(rs, clusters, contacts) == {})
  {
    TakersExactly(rs, clusters, contacts);
  }

  /** At most one replica takes the job if and only if no contacted oscar replica answers 401 and then 201,
      or just one does and no first answer accepts. */
  lemma TakenAtMostOnceExactly(rs: seq<Replica>, clusters: set<string>, contacts: seq<Contact>)
    requires |rs| == |contacts|
    ensures |Takers(rs, clusters, contacts)| <= 1 <==>
            RetryTakers(rs, clusters, contacts) == {} ||
            (|RetryTakers(rs, clusters, contacts)| == 1 && !Succeeds(rs, clusters, contacts))
  {
    TakersExactly(rs, clusters, contacts);
  }

  /** The same course of events up to the answers to repeated requests. */
  predicate SameFirstAnswers(a: seq<Contact>, b: seq<Contact>) {
    |a| == |b| && forall i | 0 <= i < |a| ::
      (a[i].NotSent? <==> b[i].NotSent?) && (a[i].Lost? <==> b[i].Lost?) &&
      (a[i].Replied? && b[i].Replied? ==> a[i].code == b[i].code)
  }

  /** The answers to requests repeated with a fresh token influence neither who takes the job nor who
      is contacted. */
  lemma {:induction false} RetriesNeverCount(rs: seq<Replica>, clusters: set<string>, a: seq<Contact>, b: seq<Contact>,
                                             from: nat, n: nat)
    requires |rs| == |a| && SameFirstAnswers(a, b) && from <= |rs| && n <= |rs|
    ensures FirstTaker(rs, clusters, a, from) == FirstTaker(rs, clusters, b, from)
    ensures Reached(rs, clusters, a, n) == Reached(rs, clusters, b, n)
    decreases |rs| - from, n
  {
    if from < |rs| {
      assert Takes(rs, clusters, a, from) == Takes(rs, clusters, b, from);
      RetriesNeverCount(rs, clusters, a, b, from + 1, n);
    } else if n > 0 {
      RetriesNeverCount(rs, clusters, a, b, from, n - 1);
    }
  }

  /** A replica that takes the job only then: the loop contacts it and reports an error. */
  lemma RetryAnswerIgnored(r: Replica, clusters: set<string>)
    requires Eligible(r, clusters) && IsOscar(r)
    ensures !Succeeds([r], clusters, [Replied(401, Some(201))])
    ensures Takers([r], clusters, [Replied(401, Some(201))]) == {0}
  {
    var contacts := [Replied(401, Some(201))];
    assert !Takes([r], clusters, contacts, 0);
    ContactedExactly([r], clusters, contacts);
  }
}
