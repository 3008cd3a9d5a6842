/** Service queues in the YuniKorn scheduler configuration (pkg/utils/yunikorn.go). Pointers into the
    nested queue lists are paths of positions. */
module Yunikorn {

  type Resources = map<string, string>

  /** settings stands for the queue's remaining configuration. */
  datatype Queue = Queue(name: string, resources: Resources, queues: seq<Queue>, settings: string)

  datatype Partition = Partition(name: string, queues: seq<Queue>, settings: string)

  type Config = seq<Partition>

  const DEFAULT_PARTITION := "default"
  const ROOT_QUEUE := "root"
  const OSCAR_QUEUE := "oscar-queue"

  // ---------- Finding queues ----------

  /** Position of the first queue of that name, or |qs|. */
  function First(qs: seq<Queue>, name: string): (k: nat)
    ensures k <= |qs|
    ensures forall i | 0 <= i < k :: qs[i].name != name
    ensures k < |qs| ==> qs[k].name == name
  {
    if qs == [] then 0 else if qs[0].name == name then 0 else 1 + First(qs[1..], name)
  }

  predicate HoldsRoot(p: Partition) { p.name == DEFAULT_PARTITION && First(p.queues, ROOT_QUEUE) < |p.queues| }

  /** Position of the last of the first n partitions that is a default partition with a root queue, or n. */
  function RootPartition(c: Config, n: nat): (i: nat)
    requires n <= |c|
    ensures i <= n && (i < n ==> HoldsRoot(c[i]))
    ensures forall k | 0 <= k < n && HoldsRoot(c[k]) :: k <= i < n
  {
    if n == 0 then 0
    else if HoldsRoot(c[n - 1]) then n - 1
    else
      var i := RootPartition(c, n - 1);
      if i == n - 1 then n else i
  }

  predicate HasRoot(c: Config) { RootPartition(c, |c|) < |c| }

  function Root(c: Config): Queue
    requires HasRoot(c)
  {
    var p := c[RootPartition(c, |c|)];
    p.queues[First(p.queues, ROOT_QUEUE)]
  }

  /** The configuration with its root queue replaced by one of the same name. */
  function WithRoot(c: Config, root: Queue): Config
    requires HasRoot(c) && root.name == ROOT_QUEUE
  {
    var i := RootPartition(c, |c|);
    c[i := c[i].(queues := c[i].queues[First(c[i].queues, ROOT_QUEUE) := root])]
  }

  // ---------- The children of the OSCAR queue ----------

  function Children(c: Config): seq<Queue>
    requires HasRoot(c)
  {
    var qs := Root(c).queues;
    var k := First(qs, OSCAR_QUEUE);
    if k < |qs| then qs[k].queues else []
  }

  /** The root's queues with an OSCAR queue, added at the end when missing. */
  function EnsureOscar(qs: seq<Queue>): seq<Queue> {
    if First(qs, OSCAR_QUEUE) < |qs| then qs else qs + [Queue(OSCAR_QUEUE, map[], [], "")]
  }

  /** The configuration with the children of the OSCAR queue replaced and nothing else changed. */
  function WithChildren(c: Config, children: seq<Queue>): Config
    requires HasRoot(c)
  {
    var qs := EnsureOscar(Root(c).queues);
    var k := First(qs, OSCAR_QUEUE);
    OscarPresent(Root(c).queues);
    WithRoot(c, Root(c).(queues := qs[k := qs[k].(queues := children)]))
  }

  lemma {:induction false} FirstAppend(qs: seq<Queue>, q: Queue)
    ensures First(qs + [q], q.name) == First(qs, q.name)
  {
    if qs != [] && qs[0].name != q.name {
      FirstAppend(qs[1..], q);
      assert (qs + [q])[1..] == qs[1..] + [q];
    }
  }

  lemma {:induction false} OscarPresent(qs: seq<Queue>)
    ensures First(EnsureOscar(qs), OSCAR_QUEUE) < |EnsureOscar(qs)|
    ensures First(EnsureOscar(qs), OSCAR_QUEUE) == First(qs, OSCAR_QUEUE)
  {
    FirstAppend(qs, Queue(OSCAR_QUEUE, map[], [], ""));
  }

  lemma FirstUnique(qs: seq<Queue>, name: string, k: nat)
    requires k <= |qs| && (k < |qs| ==> qs[k].name == name)
    requires forall i | 0 <= i < k :: qs[i].name != name
    ensures First(qs, name) == k
  {
  }

  lemma {:induction false} FirstSameName(qs: seq<Queue>, j: nat, q: Queue, name: string)
    requires j < |qs| && q.name == qs[j].name
    ensures First(qs[j := q], name) == First(qs, name)
  {
    var rs := qs[j := q];
    assert forall i | 0 <= i < |qs| :: rs[i].name == qs[i].name;
    FirstUnique(rs, name, First(qs, name));
  }

  lemma RootPartitionUnique(c: Config, d: Config)
    requires |c| == |d| && forall k | 0 <= k < |c| :: HoldsRoot(c[k]) == HoldsRoot(d[k])
    ensures RootPartition(c, |c|) == RootPartition(d, |d|)
  {
  }

  /** Reading back the root just written, and writing twice. */
  lemma {:induction false} RootLens(c: Config, root: Queue, again: Queue)
    requires HasRoot(c) && root.name == ROOT_QUEUE && again.name == ROOT_QUEUE
    ensures HasRoot(WithRoot(c, root)) && Root(WithRoot(c, root)) == root
    ensures WithRoot(WithRoot(c, root), again) == WithRoot(c, again)
    ensures WithRoot(c, Root(c)) == c
  {
    var i := RootPartition(c, |c|);
    var j := First(c[i].queues, ROOT_QUEUE);
    FirstSameName(c[i].queues, j, root, ROOT_QUEUE);
    RootPartitionUnique(c, WithRoot(c, root));
    var d := WithRoot(c, root);
    assert d[i].queues[j := again] == c[i].queues[j := again];
    assert d[i := d[i].(queues := d[i].queues[j := again])] == c[i := c[i].(queues := c[i].queues[j := again])];
    assert c[i].queues[j := Root(c)] == c[i].queues;
    assert c[i := c[i].(queues := c[i].queues)] == c;
  }

  /** The children behave as one slot of the configuration: what is written is read back, a second
      write replaces the first, and writing back the original children restores every other part (an
      OSCAR queue created on the way stays, empty). */
  lemma {:induction false} ChildrenLens(c: Config, children: seq<Queue>, again: seq<Queue>)
    requires HasRoot(c)
    ensures HasRoot(WithChildren(c, children)) && Children(WithChildren(c, children)) == children
    ensures WithChildren(WithChildren(c, children), again) == WithChildren(c, again)
    ensures First(Root(c).queues, OSCAR_QUEUE) < |Root(c).queues| ==> WithChildren(c, Children(c)) == c
  {
    var qs := EnsureOscar(Root(c).queues);
    var k := First(qs, OSCAR_QUEUE);
    OscarPresent(Root(c).queues);
    var rs := qs[k := qs[k].(queues := children)];
    var root := Root(c).(queues := rs);
    FirstSameName(qs, k, qs[k].(queues := children), OSCAR_QUEUE);
    assert EnsureOscar(rs) == rs;
    assert rs[k := rs[k].(queues := again)] == qs[k := qs[k].(queues := again)];
    RootLens(c, root, root.(queues := qs[k := qs[k].(queues := again)]));
    if First(Root(c).queues, OSCAR_QUEUE) < |Root(c).queues| {
      assert qs[k := qs[k].(queues := Children(c))] == qs;
      assert Root(c).(queues := qs) == Root(c);
    }
  }

  // ---------- The children as a map ----------

  predicate UniqueNames(qs: seq<Queue>) {
    forall i, j | 0 <= i < j < |qs| :: qs[i].name != qs[j].name
  }

  /** Service name to resources. */
  function AsMap(qs: seq<Queue>): map<string, Resources> {
    if qs == [] then map[] else AsMap(qs[1..])[qs[0].name := qs[0].resources]
  }

  /** Children after adding or updating a service. */
  function Put(qs: seq<Queue>, name: string, r: Resources): seq<Queue> {
    var k := First(qs, name);
    if k < |qs| then qs[k := qs[k].(resources := r)] else qs + [Queue(name, r, [], "")]
  }

  /** Children after deleting a service. */
  function Remove(qs: seq<Queue>, name: string): seq<Queue> {
    var k := First(qs, name);
    if k < |qs| then qs[..k] + qs[k + 1..] else qs
  }

  lemma PutNames(qs: seq<Queue>, name: string, r: Resources)
    requires UniqueNames(qs)
    ensures UniqueNames(Put(qs, name, r))
  {
  }

  lemma PutTail(qs: seq<Queue>, name: string, r: Resources)
    requires qs != [] && qs[0].name != name
    ensures Put(qs, name, r) == [qs[0]] + Put(qs[1..], name, r)
  {
  }

  lemma AsMapCons(q: Queue, qs: seq<Queue>)
    ensures AsMap([q] + qs) == AsMap(qs)[q.name := q.resources]
  {
  }

  lemma PutHead(qs: seq<Queue>, name: string, r: Resources)
    requires qs != [] && qs[0].name == name
    ensures Put(qs, name, r) == [qs[0].(resources := r)] + qs[1..]
  {
    assert First(qs, name) == 0;
  }

  lemma UpdatesCommute(m: map<string, Resources>, k: string, r: Resources, name: string, s: Resources)
    ensures k != name ==> m[k := r][name := s] == m[name := s][k := r]
    ensures k == name ==> m[name := s][k := r] == m[k := r]
  {
  }

  lemma {:induction false} PutRefines(qs: seq<Queue>, name: string, r: Resources)
    ensures AsMap(Put(qs, name, r)) == AsMap(qs)[name := r]
  {
    if qs == [] {
      var q := Queue(name, r, [], "");
      AsMapCons(q, []);
      assert Put(qs, name, r) == [q] && [q] == [q] + [];
    } else {
      var q, rest := qs[0], qs[1..];
      if q.name != name {
        PutRefines(rest, name, r);
        PutTail(qs, name, r);
        AsMapCons(q, Put(rest, name, r));
        UpdatesCommute(AsMap(rest), name, r, q.name, q.resources);
      } else {
        PutHead(qs, name, r);
        AsMapCons(q.(resources := r), rest);
        UpdatesCommute(AsMap(rest), name, r, q.name, q.resources);
      }
    }
  }

  lemma RemoveNames(qs: seq<Queue>, name: string)
    requires UniqueNames(qs)
    ensures UniqueNames(Remove(qs, name))
  {
  }

  lemma {:induction false} AsMapAbsent(qs: seq<Queue>, name: string)
    requires First(qs, name) == |qs|
    ensures name !in AsMap(qs)
  {
    if qs != [] { AsMapAbsent(qs[1..], name); }
  }

  lemma {:induction false} RemoveTail(qs: seq<Queue>, name: string)
    requires qs != [] && qs[0].name != name
    ensures Remove(qs, name) == [qs[0]] + Remove(qs[1..], name)
  {
    var k := First(qs[1..], name);
    assert First(qs, name) == k + 1;
    if k + 1 < |qs| {
      assert qs[..k + 1] == [qs[0]] + qs[1..][..k];
      assert qs[k + 2..] == qs[1..][k + 1..];
    } else {
      assert qs == [qs[0]] + qs[1..];
    }
  }

  lemma {:induction false} RemoveHead(qs: seq<Queue>, name: string)
    requires qs != [] && qs[0].name == name && UniqueNames(qs)
    ensures Remove(qs, name) == qs[1..] && name !in AsMap(qs[1..])
  {
    assert First(qs, name) == 0;
    assert qs[..0] + qs[1..] == qs[1..];
    forall i | 0 <= i < |qs| - 1 ensures qs[1..][i].name != name { assert qs[0].name != qs[i + 1].name; }
    FirstUnique(qs[1..], name, |qs| - 1);
    AsMapAbsent(qs[1..], name);
  }

  lemma WithoutCommutes(m: map<string, Resources>, k: string, r: Resources, name: string)
    ensures m[k := r] - {name} == if k == name then m - {name} else (m - {name})[k := r]
  {
  }

  lemma UniqueTail(qs: seq<Queue>)
    requires qs != [] && UniqueNames(qs)
    ensures UniqueNames(qs[1..])
  {
  }

  lemma {:induction false} RemoveRefines(qs: seq<Queue>, name: string)
    requires UniqueNames(qs)
    ensures AsMap(Remove(qs, name)) == AsMap(qs) - {name}
  {
    if qs != [] {
      var q, rest := qs[0], qs[1..];
      UniqueTail(qs);
      WithoutCommutes(AsMap(rest), q.name, q.resources, name);
      if q.name != name {
        RemoveRefines(rest, name);
        RemoveTail(qs, name);
        AsMapCons(q, Remove(rest, name));
      } else {
        RemoveHead(qs, name);
        assert AsMap(rest) - {name} == AsMap(rest);
      }
    }
  }

  /** Deleting a queue that was just added restores the children. */
  lemma {:induction false} DeleteUndoesAdd(qs: seq<Queue>, name: string, r: Resources)
    requires First(qs, name) == |qs|
    ensures Remove(Put(qs, name, r), name) == qs
  {
    FirstAppend(qs, Queue(name, r, [], ""));
  }

  // ---------- Runs ----------

  datatype Op = Add(name: string, resources: Resources) | Delete(name: string)

  function ApplyChildren(qs: seq<Queue>, op: Op): seq<Queue> {
    match op
    case Add(name, r) => Put(qs, name, r)
    case Delete(name) => Remove(qs, name)
  }

  /** One request; without a default partition holding a root queue the change is lost. */
  function Apply(c: Config, op: Op): Config {
    if HasRoot(c) then WithChildren(c, ApplyChildren(Children(c), op)) else c
  }

  function ApplyAll(c: Config, ops: seq<Op>): Config {
    if ops == [] then c else Apply(ApplyAll(c, ops[..|ops| - 1]), ops[|ops| - 1])
  }

  function MapAll(m: map<string, Resources>, ops: seq<Op>): map<string, Resources> {
    if ops == [] then m
    else
      var before := MapAll(m, ops[..|ops| - 1]);
      match ops[|ops| - 1]
      case Add(name, r) => before[name := r]
      case Delete(name) => before - {name}
  }

  /** Over every run the OSCAR queue behaves as a map from service to resources, child names stay
      unique, and no other partition, queue or setting changes. */
  lemma {:induction false} QueueRefinesMap(c: Config, ops: seq<Op>)
    requires HasRoot(c) && UniqueNames(Children(c))
    ensures HasRoot(ApplyAll(c, ops)) && UniqueNames(Children(ApplyAll(c, ops)))
    ensures AsMap(Children(ApplyAll(c, ops))) == MapAll(AsMap(Children(c)), ops)
    ensures ops != [] ==> ApplyAll(c, ops) == WithChildren(c, Children(ApplyAll(c, ops)))
  {
    if ops != [] {
      var init, op := ops[..|ops| - 1], ops[|ops| - 1];
      QueueRefinesMap(c, init);
      var d := ApplyAll(c, init);
      var qs := Children(d);
      var after := ApplyChildren(qs, op);
      ChildrenLens(d, after, after);
      ChildrenLens(c, qs, after);
      assert ApplyAll(c, ops) == WithChildren(d, after);
      match op {
        case Add(name, r) =>
          PutNames(qs, name, r);
          PutRefines(qs, name, r);
        case Delete(name) =>
          RemoveNames(qs, name);
          RemoveRefines(qs, name);
      }
    }
  }

  /** An added queue is in the configuration if and only if some default partition holds a root queue. */
  lemma AddTakesEffectExactly(c: Config, name: string, r: Resources)
    ensures var after := Apply(c, Add(name, r));
            (HasRoot(after) && name in AsMap(Children(after)) && AsMap(Children(after))[name] == r) <==>
            exists i :: 0 <= i < |c| && HoldsRoot(c[i])
  {
    if HasRoot(c) {
      ChildrenLens(c, Put(Children(c), name, r), []);
      PutRefines(Children(c), name, r);
      assert HoldsRoot(c[RootPartition(c, |c|)]);
    }
  }

  /** One request is one change of the map. */
  lemma ApplyRefines(c: Config, op: Op)
    ensures HasRoot(c) && UniqueNames(Children(c)) ==>
              HasRoot(Apply(c, op)) && UniqueNames(Children(Apply(c, op))) &&
              AsMap(Children(Apply(c, op))) == MapAll(AsMap(Children(c)), [op])
  {
    if HasRoot(c) && UniqueNames(Children(c)) {
      QueueRefinesMap(c, [op]);
      assert [op][..0] == [] && ApplyAll(c, [op]) == Apply(ApplyAll(c, []), op);
    }
  }

  // ---------- The code ----------

  /** A pointer to a queue: a position in the configuration, or a queue that is in no configuration. */
  datatype Pointer = At(partition: nat, root: nat, oscar: nat) | Detached

  /** `for i, q := range qs { if q.Name == name ... break }` */
  method Search(qs: seq<Queue>, name: string) returns (k: nat)
    ensures k == First(qs, name)
  {
    k := 0;
    while k < |qs| && qs[k].name != name
      invariant k <= |qs| && forall i | 0 <= i < k :: qs[i].name != name
    {
      k := k + 1;
    }
    FirstUnique(qs, name, k);
  }

  class Scheduler {
    var config: Config

    constructor (config: Config)
      ensures this.config == config
    {
      this.config := config;
    }

    /** getOscarQueue: points at the OSCAR queue, creating it under the root when missing. */
    method GetOscarQueue() returns (p: Pointer)
      modifies this
      ensures !HasRoot(old(config)) ==> p == Detached && config == old(config)
      ensures HasRoot(old(config)) ==>
                config == WithRoot(old(config), Root(old(config)).(queues := EnsureOscar(Root(old(config)).queues)))
      ensures HasRoot(old(config)) ==>
                p == At(RootPartition(old(config), |old(config)|),
                        First(old(config)[RootPartition(old(config), |old(config)|)].queues, ROOT_QUEUE),
                        First(Root(old(config)).queues, OSCAR_QUEUE))
    {
      var found, pi, ri := false, 0, 0;
      for i := 0 to |config|
        invariant config == old(config)
        invariant found == (RootPartition(config, i) < i)
        invariant found ==> pi == RootPartition(config, i) && ri == First(config[pi].queues, ROOT_QUEUE)
      {
        if config[i].name == DEFAULT_PARTITION {
          var j := Search(config[i].queues, ROOT_QUEUE);
          if j < |config[i].queues| {
            found, pi, ri := true, i, j;
          }
        }
      }
      if !found {
        // the queue found or created below would hang on a root that is part of no configuration
        return Detached;
      }
      var root := config[pi].queues[ri];
      var k := Search(root.queues, OSCAR_QUEUE);
      if k == |root.queues| {
        root := root.(queues := root.queues + [Queue(OSCAR_QUEUE, map[], [], "")]);
        config := config[pi := config[pi].(queues := config[pi].queues[ri := root])];
      } else {
        RootLens(config, root, root);
      }
      return At(pi, ri, k);
    }

    /** Reads the children through a pointer to the OSCAR queue, and writes them back. */
    method Rewrite(op: Op)
      modifies this
      ensures config == Apply(old(config), op)
    {
      var p := GetOscarQueue();
      if p.Detached? {
        // changes to a detached queue never reach the configuration
        return;
      }
      ghost var ensured := Root(old(config)).(queues := EnsureOscar(Root(old(config)).queues));
      OscarPresent(Root(old(config)).queues);
      RootLens(old(config), ensured, ensured);
      var root := config[p.partition].queues[p.root];
      assert root == ensured;
      var oscar := root.queues[p.oscar];
      assert oscar.queues == Children(old(config));
      var children := Edited(oscar.queues, op);
      root := root.(queues := root.queues[p.oscar := oscar.(queues := children)]);
      RootLens(old(config), ensured, root);
      config := config[p.partition := config[p.partition].(queues := config[p.partition].queues[p.root := root])];
    }

    /** The search and change of one service's queue. */
    method Edited(queues: seq<Queue>, op: Op) returns (children: seq<Queue>)
      ensures children == ApplyChildren(queues, op)
    {
      children := queues;
      var k := Search(children, op.name);
      match op
      case Add(name, resources) =>
        if k < |children| {
          children := children[k := children[k].(resources := resources)];
        } else {
          children := children + [Queue(name, resources, [], "")];
        }
      case Delete(name) =>
        if k < |children| {
          children := children[..k] + children[k + 1..];
        }
    }

    /** AddYunikornQueue. */
    method AddYunikornQueue(name: string, totalMemory: string, totalCPU: string)
      modifies this
      ensures config == Apply(old(config), Add(name,
                (if totalMemory != "" then map["memory" := totalMemory] else map[]) +
                (if totalCPU != "" then map["vcore" := totalCPU] else map[])))
      ensures HasRoot(old(config)) && UniqueNames(Children(old(config))) ==>
                HasRoot(config) && UniqueNames(Children(config)) &&
                AsMap(Children(config)) == AsMap(Children(old(config)))[name :=
                  (if totalMemory != "" then map["memory" := totalMemory] else map[]) +
                  (if totalCPU != "" then map["vcore" := totalCPU] else map[])]
    {
      var maxResources: Resources := map[];
      if totalMemory != "" { maxResources := maxResources["memory" := totalMemory]; }
      if totalCPU != "" { maxResources := maxResources["vcore" := totalCPU]; }
      assert maxResources == (if totalMemory != "" then map["memory" := totalMemory] else map[]) +
                             (if totalCPU != "" then map["vcore" := totalCPU] else map[]);
      ApplyRefines(config, Add(name, maxResources));
      Rewrite(Add(name, maxResources));
    }

    /** DeleteYunikornQueue. */
    method DeleteYunikornQueue(name: string)
      modifies this
      ensures config == Apply(old(config), Delete(name))
      ensures HasRoot(old(config)) && UniqueNames(Children(old(config))) ==>
                HasRoot(config) && UniqueNames(Children(config)) &&
                AsMap(Children(config)) == AsMap(Children(old(config))) - {name}
    {
      ApplyRefines(config, Delete(name));
      Rewrite(Delete(name));
    }
  }
}
