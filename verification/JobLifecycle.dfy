/** From submission to rescheduling (pkg/handlers/job.go, pkg/resourcemanager/rescheduler.go): the event a
    job carries, and what becomes of it over every interleaving of submissions with rescheduler rounds.

    Outcomes of delegation, job creation and job deletion are parameters of the steps; job names are
    fresh. Jobs offloaded through InterLink carry an encoded event and are not part of this model. */
module JobLifecycle {
  import opened Options
  import opened EventChain
  import Delegation

  const CONTAINER_NAME := "oscar-container"
  const EVENT := "EVENT"
  const SERVICE_LABEL := "oscar_service"
  const RESCHEDULER_LABEL := "oscar_rescheduler"
  const JOB_NAME_LABEL := "job-name"

  datatype EnvVar = EnvVar(name: string, value: string)

  datatype Container = Container(name: string, env: seq<EnvVar>)

  type PodSpec = seq<Container>

  // ---------- The event in a pod ----------

  /** The value of the first variable of that name. */
  function Lookup(env: seq<EnvVar>, name: string): Option<string> {
    if env == [] then None else if env[0].name == name then Some(env[0].value) else Lookup(env[1..], name)
  }

  /** getEvent as a value. */
  function EventOf(spec: PodSpec): string {
    if spec == [] then ""
    else if spec[0].name == CONTAINER_NAME && Lookup(spec[0].env, EVENT).Some? then Lookup(spec[0].env, EVENT).value
    else EventOf(spec[1..])
  }

  /** The variables the job handler appends; RESOURCE_ID takes its value from the node. */
  function JobVars(event: string, uuid: string): seq<EnvVar> {
    [EnvVar(EVENT, event), EnvVar("JOB_UUID", uuid), EnvVar("RESOURCE_ID", "")]
  }

  function Prepared(c: Container, event: string, uuid: string): Container {
    if c.name == CONTAINER_NAME then Container(c.name, c.env + JobVars(event, uuid)) else c
  }

  /** The pod of a job. */
  function PodFor(spec: PodSpec, event: string, uuid: string): PodSpec {
    seq(|spec|, i requires 0 <= i < |spec| => Prepared(spec[i], event, uuid))
  }

  /** The environment of the first service container. */
  function ServiceEnv(spec: PodSpec): Option<seq<EnvVar>> {
    if spec == [] then None else if spec[0].name == CONTAINER_NAME then Some(spec[0].env) else ServiceEnv(spec[1..])
  }

  lemma {:induction false} LookupAppend(env: seq<EnvVar>, more: seq<EnvVar>, name: string)
    ensures Lookup(env + more, name) == if Lookup(env, name).Some? then Lookup(env, name) else Lookup(more, name)
  {
    if env == [] {
      assert env + more == more;
    } else {
      assert (env + more)[1..] == env[1..] + more;
      LookupAppend(env[1..], more, name);
    }
  }

  /** The event read from a job's pod: a variable the service itself defines hides the submitted one. */
  lemma {:induction false} CarriedEvent(spec: PodSpec, event: string, uuid: string)
    ensures EventOf(PodFor(spec, event, uuid)) ==
            match ServiceEnv(spec)
            case None => ""
            case Some(env) => if Lookup(env, EVENT).Some? then Lookup(env, EVENT).value else event
  {
    if spec != [] {
      var pod := PodFor(spec, event, uuid);
      assert pod[1..] == PodFor(spec[1..], event, uuid);
      if spec[0].name == CONTAINER_NAME {
        LookupAppend(spec[0].env, JobVars(event, uuid), EVENT);
      } else {
        CarriedEvent(spec[1..], event, uuid);
      }
    }
  }

  /** A service pod that defines no EVENT of its own. */
  predicate CleanService(spec: PodSpec) { ServiceEnv(spec).Some? && Lookup(ServiceEnv(spec).value, EVENT).None? }

  /** Exactly those services (and, by coincidence, those whose own EVENT equals the submitted one, or
      that have no service container and an empty event) get back what was submitted. */
  lemma {:induction false} EventKeptExactly(spec: PodSpec, event: string, uuid: string)
    ensures EventOf(PodFor(spec, event, uuid)) == event <==>
            (CleanService(spec) ||
             (ServiceEnv(spec).Some? && Lookup(ServiceEnv(spec).value, EVENT) == Some(event)) ||
             (ServiceEnv(spec).None? && event == ""))
  {
    CarriedEvent(spec, event, uuid);
  }

  // ---------- Choosing pods ----------

  /** A pending pod as listed: labels, age in whole seconds, spec. */
  datatype Pod = Pod(labels: map<string, string>, age: int, spec: PodSpec)

  datatype Info = Info(jobName: string, event: string)

  /** Pending longer than its own threshold. */
  predicate Overdue(parseInt: string -> Option<int>, p: Pod) {
    SERVICE_LABEL in p.labels && RESCHEDULER_LABEL in p.labels &&
    parseInt(p.labels[RESCHEDULER_LABEL]).Some? && p.age > parseInt(p.labels[RESCHEDULER_LABEL]).value
  }

  /** The rescheduler's work list for the listed pods. */
  function InfosOf(parseInt: string -> Option<int>, pods: seq<Pod>): seq<Info> {
    if pods == [] then [] else
      var rest, p := InfosOf(parseInt, pods[..|pods| - 1]), pods[|pods| - 1];
      if Overdue(parseInt, p) && JOB_NAME_LABEL in p.labels
      then rest + [Info(p.labels[JOB_NAME_LABEL], EventOf(p.spec))] else rest
  }

  /** The pod is labelled with a service, a threshold and a job, and pending for more than that threshold; info
      is what the rescheduler notes about it. */
  predicate Chosen(parseInt: string -> Option<int>, p: Pod, info: Info) {
    && "oscar_service" in p.labels && "oscar_rescheduler" in p.labels && "job-name" in p.labels
    && parseInt(p.labels["oscar_rescheduler"]).Some? && p.age > parseInt(p.labels["oscar_rescheduler"]).value
    && info == Info(p.labels["job-name"], EventOf(p.spec))
  }

  lemma ChosenIsOverdue(parseInt: string -> Option<int>, p: Pod, info: Info)
    ensures Chosen(parseInt, p, info) <==>
            Overdue(parseInt, p) && JOB_NAME_LABEL in p.labels &&
            info == Info(p.labels[JOB_NAME_LABEL], EventOf(p.spec))
  {
  }

  /** The work list holds exactly the chosen pods. */
  lemma {:induction false} InfosExactly(parseInt: string -> Option<int>, pods: seq<Pod>, info: Info)
    ensures info in InfosOf(parseInt, pods) <==> exists p :: p in pods && Chosen(parseInt, p, info)
  {
    if pods != [] {
      var init, last := pods[..|pods| - 1], pods[|pods| - 1];
      InfosExactly(parseInt, init, info);
      ChosenIsOverdue(parseInt, last, info);
      assert pods == init + [last];
    }
  }

  lemma {:induction false} InfosFromPods(parseInt: string -> Option<int>, pods: seq<Pod>)
    ensures forall info | info in InfosOf(parseInt, pods) ::
              exists p :: p in pods && JOB_NAME_LABEL in p.labels &&
                          info == Info(p.labels[JOB_NAME_LABEL], EventOf(p.spec))
  {
    if pods != [] {
      var init, last := pods[..|pods| - 1], pods[|pods| - 1];
      InfosFromPods(parseInt, init);
      assert pods == init + [last];
      forall info | info in InfosOf(parseInt, pods)
        ensures exists p :: p in pods && JOB_NAME_LABEL in p.labels &&
                            info == Info(p.labels[JOB_NAME_LABEL], EventOf(p.spec))
      {
        if info in InfosOf(parseInt, init) {
          var p :| p in init && JOB_NAME_LABEL in p.labels && info == Info(p.labels[JOB_NAME_LABEL], EventOf(p.spec));
          assert p in pods;
        } else {
          assert last in pods;
        }
      }
    }
  }

  // ---------- The cluster as a state machine ----------

  /** strconv.Atoi and encoding/json. */
  datatype Codecs = Codecs(parseInt: string -> Option<int>, decode: Decoder, encode: Encoder)

  function PostedBy(cs: Codecs, event: string, clusterID: string): Option<string> {
    Posted(cs.decode, cs.encode, event, clusterID)
  }

  /** jobs: the jobs in the cluster; pending: what is left of the current rescheduler round.
      History: created, every job ever created; answered, every submission answered 201 and its event;
      taken, the (submission, body) pairs of the requests a replica took; finished, jobs that ran to
      their end. */
  datatype World = World(jobs: map<string, PodSpec>, pending: seq<Info>, created: map<string, PodSpec>,
                         answered: map<string, string>, taken: set<(string, string)>, finished: set<string>)

  const START := World(map[], [], map[], map[], {}, {})

  /** Submit: mustDelegate holds when the service has replicas and the job does not fit; clusterID is the
      service's cluster; delegated, created and deleted are the outcomes of the calls. Round: a list of
      overdue pods is taken. Reschedule: the next entry of that list is handled. Finish: a job completes
      and is cleaned up. Restart: the process dies and the round with it. */
  datatype Step =
    | Submit(uuid: string, event: string, spec: PodSpec, clusterID: string, mustDelegate: bool, delegated: bool,
             created: bool)
    | Round(pods: seq<Pod>)
    | Reschedule(clusterID: string, delegated: bool, deleted: bool)
    | Finish(job: string)
    | Restart

  ghost predicate Possible(w: World, s: Step) {
    match s
    case Submit(uuid, event, spec, clusterID, mustDelegate, delegated, created) =>
      uuid !in w.answered && CleanService(spec)
    // a listed pod belongs to some job that was created, and carries that job's spec
    case Round(pods) => w.pending == [] &&
                        forall p | p in pods && JOB_NAME_LABEL in p.labels ::
                          p.labels[JOB_NAME_LABEL] in w.created && p.spec == w.created[p.labels[JOB_NAME_LABEL]]
    case Reschedule(clusterID, delegated, deleted) => w.pending != []
    case Finish(job) => job in w.jobs
    case Restart => true
  }

  /** An event that makes DelegateJob panic ends the handler with an error, and ends the rescheduler's
      process and so its round. */
  function After(cs: Codecs, w: World, s: Step): World {
    match s
    case Submit(uuid, event, spec, clusterID, mustDelegate, delegated, created) =>
      var body := PostedBy(cs, event, clusterID);
      if mustDelegate && body.None? then w
      else if mustDelegate && delegated then
        w.(taken := w.taken + {(uuid, body.value)}, answered := w.answered[uuid := event])
      else if created then
        var pod := PodFor(spec, event, uuid);
        w.(jobs := w.jobs[uuid := pod], created := w.created[uuid := pod], answered := w.answered[uuid := event])
      else w
    case Round(pods) => w.(pending := InfosOf(cs.parseInt, pods))
    case Reschedule(clusterID, delegated, deleted) =>
      if w.pending == [] then w
      else
        var info, rest := w.pending[0], w.pending[1..];
        var body := PostedBy(cs, info.event, clusterID);
        if body.None? then w.(pending := [])
        else if !delegated then w.(pending := rest)
        else w.(pending := rest, taken := w.taken + {(info.jobName, body.value)},
                jobs := if deleted then w.jobs - {info.jobName} else w.jobs)
    case Finish(job) => w.(jobs := w.jobs - {job}, finished := w.finished + {job})
    case Restart => w.(pending := [])
  }

  /** The submission's job is here with its event, or ran. */
  predicate HeldOrRan(w: World, uuid: string)
    requires uuid in w.answered
  {
    (uuid in w.jobs && EventOf(w.jobs[uuid]) == w.answered[uuid]) || uuid in w.finished
  }

  /** The submission is safe: held, ran, or taken by a replica in a body that carries its event. */
  predicate Safe(cs: Codecs, w: World, uuid: string)
    requires uuid in w.answered
  {
    HeldOrRan(w, uuid) ||
    exists a | a in w.taken :: a.0 == uuid && Carries(cs.decode, a.1, w.answered[uuid])
  }

  /** The body is what some cluster posts for the event of that submission. */
  ghost predicate PostedFor(cs: Codecs, w: World, a: (string, string)) {
    a.0 in w.answered && exists clusterID :: PostedBy(cs, w.answered[a.0], clusterID) == Some(a.1)
  }

  /** A replica took something for the submission. */
  predicate WasTaken(w: World, uuid: string) { exists a | a in w.taken :: a.0 == uuid }

  ghost predicate Invariant(cs: Codecs, w: World) {
    && (forall uuid | uuid in w.answered :: HeldOrRan(w, uuid) || WasTaken(w, uuid))
    && (forall job :: (job in w.created ==> job in w.answered && EventOf(w.created[job]) == w.answered[job]) &&
                      (job in w.jobs ==> job in w.created && w.jobs[job] == w.created[job]))
    && (forall i | 0 <= i < |w.pending| ::
          w.pending[i].jobName in w.answered && w.pending[i].event == w.answered[w.pending[i].jobName])
    && (forall a | a in w.taken :: PostedFor(cs, w, a))
  }

  lemma SubmitKeeps(cs: Codecs, w: World, s: Step)
    requires Invariant(cs, w) && s.Submit? && Possible(w, s)
    ensures Invariant(cs, After(cs, w, s))
  {
    CarriedEvent(s.spec, s.event, s.uuid);
    var v := After(cs, w, s);
    forall uuid | uuid in v.answered ensures HeldOrRan(v, uuid) || WasTaken(v, uuid) {
      if uuid != s.uuid {
        assert HeldOrRan(w, uuid) || WasTaken(w, uuid);
      } else if v != w && v.taken != w.taken {
        assert (uuid, PostedBy(cs, s.event, s.clusterID).value) in v.taken;
      }
    }
    forall a | a in v.taken ensures PostedFor(cs, v, a) {
      if a in w.taken {
        assert PostedFor(cs, w, a);
      } else {
        assert PostedBy(cs, v.answered[a.0], s.clusterID) == Some(a.1);
      }
    }
  }

  lemma RoundKeeps(cs: Codecs, w: World, pods: seq<Pod>)
    requires Invariant(cs, w) && Possible(w, Round(pods))
    ensures Invariant(cs, After(cs, w, Round(pods)))
  {
    InfosFromPods(cs.parseInt, pods);
    var v := After(cs, w, Round(pods));
    forall i | 0 <= i < |v.pending|
      ensures v.pending[i].jobName in v.answered && v.pending[i].event == v.answered[v.pending[i].jobName]
    {
      assert v.pending[i] in v.pending;
      var p :| p in pods && JOB_NAME_LABEL in p.labels &&
               v.pending[i] == Info(p.labels[JOB_NAME_LABEL], EventOf(p.spec));
    }
    forall uuid | uuid in v.answered ensures HeldOrRan(v, uuid) || WasTaken(v, uuid) {
      assert HeldOrRan(w, uuid) || WasTaken(w, uuid);
    }
    forall a | a in v.taken ensures PostedFor(cs, v, a) { assert PostedFor(cs, w, a); }
  }

  lemma RescheduleKeeps(cs: Codecs, w: World, s: Step)
    requires Invariant(cs, w) && s.Reschedule? && w.pending != []
    ensures Invariant(cs, After(cs, w, s))
  {
    var v, info := After(cs, w, s), w.pending[0];
    assert v.pending == [] || forall i | 0 <= i < |v.pending| :: v.pending[i] == w.pending[i + 1];
    forall uuid | uuid in v.answered ensures HeldOrRan(v, uuid) || WasTaken(v, uuid) {
      assert HeldOrRan(w, uuid) || WasTaken(w, uuid);
      if v.taken != w.taken { assert (info.jobName, PostedBy(cs, info.event, s.clusterID).value) in v.taken; }
    }
    forall a | a in v.taken ensures PostedFor(cs, v, a) {
      if a in w.taken {
        assert PostedFor(cs, w, a);
      } else {
        assert PostedBy(cs, v.answered[a.0], s.clusterID) == Some(a.1);
      }
    }
  }

  /** Every step keeps the invariant. */
  lemma StepKeeps(cs: Codecs, w: World, s: Step)
    requires Invariant(cs, w) && Possible(w, s)
    ensures Invariant(cs, After(cs, w, s))
  {
    match s
    case Submit(_, _, _, _, _, _, _) => SubmitKeeps(cs, w, s);
    case Round(pods) => RoundKeeps(cs, w, pods);
    case Reschedule(_, _, _) => RescheduleKeeps(cs, w, s);
    case _ =>
      var v := After(cs, w, s);
      forall uuid | uuid in v.answered ensures HeldOrRan(v, uuid) || WasTaken(v, uuid) {
        assert HeldOrRan(w, uuid) || WasTaken(w, uuid);
      }
      forall a | a in v.taken ensures PostedFor(cs, v, a) { assert PostedFor(cs, w, a); }
  }

  ghost predicate Execution(cs: Codecs, w: World, steps: seq<Step>)
    decreases |steps|
  {
    steps == [] || (Possible(w, steps[0]) && Execution(cs, After(cs, w, steps[0]), steps[1..]))
  }

  function Final(cs: Codecs, w: World, steps: seq<Step>): World
    decreases |steps|
  {
    if steps == [] then w else Final(cs, After(cs, w, steps[0]), steps[1..])
  }

  lemma {:induction false} ExecutionKeeps(cs: Codecs, w: World, steps: seq<Step>)
    requires Invariant(cs, w) && Execution(cs, w, steps)
    ensures Invariant(cs, Final(cs, w, steps))
    decreases |steps|
  {
    if steps != [] {
      StepKeeps(cs, w, steps[0]);
      ExecutionKeeps(cs, After(cs, w, steps[0]), steps[1..]);
    }
  }

  // ---------- What becomes of an event ----------

  /** An event that eventBuild can read, or that arrives as it is: the empty one. */
  predicate Arrives(cs: Codecs, event: string) { event == "" || cs.decode(event).Some? }

  /** A submission is safe if and only if its job is here or ran, or its event is readable or empty. */
  lemma {:induction false} SafeExactly(cs: Codecs, w: World, uuid: string)
    requires RoundTrips(cs.decode, cs.encode) && Invariant(cs, w) && uuid in w.answered
    ensures Safe(cs, w, uuid) <==> HeldOrRan(w, uuid) || Arrives(cs, w.answered[uuid])
  {
    var event := w.answered[uuid];
    forall a | a in w.taken && a.0 == uuid ensures Carries(cs.decode, a.1, event) <==> Arrives(cs, event) {
      assert PostedFor(cs, w, a);
      var clusterID :| PostedBy(cs, event, clusterID) == Some(a.1);
      PostedCarriesExactly(cs.decode, cs.encode, event, clusterID);
    }
    if !HeldOrRan(w, uuid) { assert WasTaken(w, uuid); }
  }

  /** Over every interleaving of submissions to services that define no EVENT of their own, rescheduler
      rounds, completions and crashes, with delegation, creation and deletion allowed to fail: every
      submission answered 201 is held by its job, ran, or was taken by a replica; every body taken is one
      posted for the event originally submitted; and the event is lost exactly when its job is neither here
      nor ran and the event is neither readable nor empty. */
  lemma {:induction false} FateOfEvents(cs: Codecs, steps: seq<Step>)
    requires RoundTrips(cs.decode, cs.encode) && Execution(cs, START, steps)
    ensures var w := Final(cs, START, steps);
            && (forall uuid | uuid in w.answered :: HeldOrRan(w, uuid) || WasTaken(w, uuid))
            && (forall a | a in w.taken :: PostedFor(cs, w, a))
            && (forall uuid | uuid in w.answered ::
                  Safe(cs, w, uuid) <==> HeldOrRan(w, uuid) || Arrives(cs, w.answered[uuid]))
  {
    ExecutionKeeps(cs, START, steps);
    var w := Final(cs, START, steps);
    forall uuid | uuid in w.answered
      ensures Safe(cs, w, uuid) <==> HeldOrRan(w, uuid) || Arrives(cs, w.answered[uuid])
    {
      SafeExactly(cs, w, uuid);
    }
  }

  /** No execution loses a submission with this event. */
  ghost predicate NeverLost(cs: Codecs, event: string) {
    forall steps | Execution(cs, START, steps) ::
      forall uuid | uuid in Final(cs, START, steps).answered && Final(cs, START, steps).answered[uuid] == event ::
        Safe(cs, Final(cs, START, steps), uuid)
  }

  /** A service pod of one container. */
  const PLAIN_SERVICE: PodSpec := [Container(CONTAINER_NAME, [])]

  /** An unreadable event that is not empty and is delegated is answered 201, posted as empty text and gone:
      no job holds it and nothing that was taken carries it. */
  lemma {:induction false} UnreadableLost(cs: Codecs, uuid: string, event: string, clusterID: string)
    requires RoundTrips(cs.decode, cs.encode) && !Arrives(cs, event)
    ensures var steps := [Submit(uuid, event, PLAIN_SERVICE, clusterID, true, true, true)];
            var w := Final(cs, START, steps);
            && Execution(cs, START, steps) && w.answered == map[uuid := event] && w.jobs == map[]
            && w.taken == {(uuid, "")} && !Safe(cs, w, uuid)
  {
    var s := Submit(uuid, event, PLAIN_SERVICE, clusterID, true, true, true);
    var steps := [s];
    var w := After(cs, START, s);
    assert ServiceEnv(PLAIN_SERVICE) == Some([]);
    assert Possible(START, s);
    assert steps[1..] == [] && Execution(cs, w, steps[1..]) && Final(cs, w, steps[1..]) == w;
    assert PostedBy(cs, event, clusterID) == Some("");
    assert !Carries(cs.decode, "", event);
  }

  /** For instance a plain text. */
  lemma {:induction false} PlainTextLost(cs: Codecs)
    requires RoundTrips(cs.decode, cs.encode) && cs.decode("hello").None?
    ensures !NeverLost(cs, "hello")
  {
    UnreadableLost(cs, "job", "hello", "cluster");
    var steps := [Submit("job", "hello", PLAIN_SERVICE, "cluster", true, true, true)];
    assert Execution(cs, START, steps) && !Safe(cs, Final(cs, START, steps), "job");
  }

  /** Exactly the readable events and the empty one are never lost. */
  lemma {:induction false} NoEventLostExactly(cs: Codecs, event: string)
    requires RoundTrips(cs.decode, cs.encode)
    ensures NeverLost(cs, event) <==> Arrives(cs, event)
  {
    if Arrives(cs, event) {
      forall steps | Execution(cs, START, steps)
        ensures forall uuid | uuid in Final(cs, START, steps).answered &&
                              Final(cs, START, steps).answered[uuid] == event ::
                  Safe(cs, Final(cs, START, steps), uuid)
      {
        FateOfEvents(cs, steps);
      }
    } else {
      UnreadableLost(cs, "job", event, "cluster");
      var steps := [Submit("job", event, PLAIN_SERVICE, "cluster", true, true, true)];
      assert Execution(cs, START, steps) && !Safe(cs, Final(cs, START, steps), "job");
    }
  }

  /** A job that must be delegated is created here although a replica took it, and so runs twice, exactly
      when no first answer accepts and a contacted oscar replica answers 401 and then 201. */
  lemma {:induction false} CreatedDespiteTakerExactly(
      cs: Codecs, w: World, uuid: string, event: string, spec: PodSpec, clusterID: string,
      rs: seq<Delegation.Replica>, clusters: set<string>, contacts: seq<Delegation.Contact>)
    requires |rs| == |contacts| && PostedBy(cs, event, clusterID).Some? && uuid !in w.jobs
    ensures var s := Submit(uuid, event, spec, clusterID, true, Delegation.Succeeds(rs, clusters, contacts), true);
            (uuid in After(cs, w, s).jobs && Delegation.Takers(rs, clusters, contacts) != {}) <==>
            (!Delegation.Succeeds(rs, clusters, contacts) && Delegation.RetryTakers(rs, clusters, contacts) != {})
  {
    Delegation.TakersExactly(rs, clusters, contacts);
  }

  // ---------- What becomes of a job ----------

  /** A job that is gone never comes back. */
  lemma {:induction false} GoneStays(cs: Codecs, w: World, steps: seq<Step>, uuid: string)
    requires Execution(cs, w, steps) && uuid in w.answered && uuid !in w.jobs
    ensures uuid in Final(cs, w, steps).answered && uuid !in Final(cs, w, steps).jobs
    decreases |steps|
  {
    if steps != [] { GoneStays(cs, After(cs, w, steps[0]), steps[1..], uuid); }
  }

  /** Over every execution: a job that a round delegated and deleted is in no later state. */
  lemma {:induction false} DeletedForGood(cs: Codecs, w: World, clusterID: string, later: seq<Step>)
    requires Invariant(cs, w) && w.pending != [] && PostedBy(cs, w.pending[0].event, clusterID).Some?
    requires Execution(cs, After(cs, w, Reschedule(clusterID, true, true)), later)
    ensures w.pending[0].jobName !in Final(cs, After(cs, w, Reschedule(clusterID, true, true)), later).jobs
  {
    GoneStays(cs, After(cs, w, Reschedule(clusterID, true, true)), later, w.pending[0].jobName);
  }

  // ---------- The code ----------

  predicate IsEvent(spec: PodSpec, i: nat, k: nat)
    requires i < |spec| && k < |spec[i].env|
  {
    spec[i].name == "oscar-container" && spec[i].env[k].name == "EVENT"
  }

  /** getEvent: the value of an EVENT variable of a service container, the empty text when there is none. */
  method GetEvent(podSpec: PodSpec) returns (event: string)
    ensures event == EventOf(podSpec)
    ensures (exists i, k :: 0 <= i < |podSpec| && 0 <= k < |podSpec[i].env| && IsEvent(podSpec, i, k) &&
                            event == podSpec[i].env[k].value) ||
            (event == "" && forall i, k | 0 <= i < |podSpec| && 0 <= k < |podSpec[i].env| :: !IsEvent(podSpec, i, k))
  {
    for i := 0 to |podSpec|
      invariant EventOf(podSpec) == EventOf(podSpec[i..])
      invariant forall p, k | 0 <= p < i && 0 <= k < |podSpec[p].env| :: !IsEvent(podSpec, p, k)
    {
      var c := podSpec[i];
      assert podSpec[i..][1..] == podSpec[i + 1..];
      if c.name == CONTAINER_NAME {
        for k := 0 to |c.env|
          invariant Lookup(c.env, EVENT) == Lookup(c.env[k..], EVENT)
          invariant forall l | 0 <= l < k :: !IsEvent(podSpec, i, l)
        {
          assert c.env[k..][1..] == c.env[k + 1..];
          if c.env[k].name == EVENT {
            assert IsEvent(podSpec, i, k);
            return c.env[k].value;
          }
        }
      }
    }
    return "";
  }

  /** The loop of the job handler that adds the job's variables. */
  method AddVariables(podSpec: PodSpec, event: string, uuid: string) returns (pod: PodSpec)
    ensures pod == PodFor(podSpec, event, uuid)
    ensures |pod| == |podSpec|
    ensures forall k | 0 <= k < |pod| ::
              pod[k].name == podSpec[k].name && pod[k].env == podSpec[k].env +
                if podSpec[k].name == "oscar-container"
                then [EnvVar("EVENT", event), EnvVar("JOB_UUID", uuid), EnvVar("RESOURCE_ID", "")] else []
  {
    pod := podSpec;
    for i := 0 to |podSpec|
      invariant |pod| == |podSpec|
      invariant forall k | 0 <= k < i :: pod[k] == Prepared(podSpec[k], event, uuid)
      invariant forall k | i <= k < |pod| :: pod[k] == podSpec[k]
    {
      if pod[i].name == CONTAINER_NAME {
        var c := pod[i];
        c := c.(env := c.env + [EnvVar(EVENT, event)]);
        c := c.(env := c.env + [EnvVar("JOB_UUID", uuid)]);
        c := c.(env := c.env + [EnvVar("RESOURCE_ID", "")]);
        assert c.env == podSpec[i].env + JobVars(event, uuid);
        pod := pod[i := c];
      }
    }
  }

  /** getReSchedulablePods and getReScheduleInfos on the listed pods, which all carry the rescheduler
      label; every service was read successfully. */
  method CollectInfos(parseInt: string -> Option<int>, pods: seq<Pod>) returns (infos: seq<Info>)
    requires forall p | p in pods :: RESCHEDULER_LABEL in p.labels
    ensures infos == InfosOf(parseInt, pods)
    ensures forall info :: info in infos <==> exists p :: p in pods && Chosen(parseInt, p, info)
  {
    infos := [];
    for i := 0 to |pods|
      invariant infos == InfosOf(parseInt, pods[..i])
    {
      assert pods[..i + 1][..i] == pods[..i];
      var pod := pods[i];
      assert pod in pods;
      if SERVICE_LABEL in pod.labels {
        var threshold := parseInt(pod.labels[RESCHEDULER_LABEL]);
        if threshold.None? { continue; }
        if pod.age > threshold.value {
          if JOB_NAME_LABEL in pod.labels {
            var event := GetEvent(pod.spec);
            infos := infos + [Info(pod.labels[JOB_NAME_LABEL], event)];
          }
        }
      }
    }
    assert pods[..|pods|] == pods;
    forall info ensures info in infos <==> exists p :: p in pods && Chosen(parseInt, p, info) {
      InfosExactly(parseInt, pods, info);
    }
  }

  class Cluster {
    const cs: Codecs
    var jobs: map<string, PodSpec>
    var pending: seq<Info>
    ghost var created: map<string, PodSpec>
    ghost var answered: map<string, string>
    ghost var taken: set<(string, string)>
    ghost var finished: set<string>

    ghost function Now(): World
      reads this
    {
      World(jobs, pending, created, answered, taken, finished)
    }

    constructor (cs: Codecs)
      ensures this.cs == cs && Now() == START && Invariant(cs, Now())
    {
      this.cs := cs;
      jobs, pending, created, answered, taken, finished := map[], [], map[], map[], {}, {};
    }

    /** The deciding part of the job handler: delegate a job that does not fit, otherwise (or when
        nobody takes it) create it here. */
    method HandleJob(uuid: string, event: string, spec: PodSpec, clusterID: string,
                     mustDelegate: bool, delegated: bool, creates: bool)
      returns (status: int)
      modifies this
      ensures Now() == After(cs, old(Now()), Submit(uuid, event, spec, clusterID, mustDelegate, delegated, creates))
      ensures status == 201 ==> uuid in answered && answered[uuid] == event
      ensures var body := PostedBy(cs, event, clusterID);
              if mustDelegate && body.Some? && delegated
              then status == 201 && jobs == old(jobs) && taken == old(taken) + {(uuid, body.value)}
              else if (mustDelegate && body.None?) || !creates then status == 500
              else status == 201 && uuid in jobs && jobs == old(jobs)[uuid := jobs[uuid]] && taken == old(taken) &&
                   (CleanService(spec) ==> EventOf(jobs[uuid]) == event)
      ensures status != 201 ==> status == 500 && Now() == old(Now())
      ensures old(Invariant(cs, Now())) && uuid !in old(answered) && CleanService(spec) ==> Invariant(cs, Now())
    {
      if Invariant(cs, Now()) && uuid !in answered && CleanService(spec) {
        StepKeeps(cs, Now(), Submit(uuid, event, spec, clusterID, mustDelegate, delegated, creates));
      }
      var pod := AddVariables(spec, event, uuid);
      if mustDelegate {
        var body := PostedBy(cs, event, clusterID);
        if body.None? {
          return 500;
        }
        if delegated {
          taken, answered := taken + {(uuid, body.value)}, answered[uuid := event];
          return 201;
        }
      }
      if !creates {
        return 500;
      }
      CarriedEvent(spec, event, uuid);
      jobs := jobs[uuid := pod];
      created, answered := created[uuid := pod], answered[uuid := event];
      return 201;
    }

    /** Start of a rescheduler round; the API lists only pods with the rescheduler label. */
    method StartRound(pods: seq<Pod>)
      requires forall p | p in pods :: RESCHEDULER_LABEL in p.labels
      modifies this
      ensures Now() == After(cs, old(Now()), Round(pods))
      ensures forall info :: info in pending <==> exists p :: p in pods && Chosen(cs.parseInt, p, info)
      ensures old(Invariant(cs, Now()) && Possible(Now(), Round(pods))) ==> Invariant(cs, Now())
    {
      if Invariant(cs, Now()) && Possible(Now(), Round(pods)) { StepKeeps(cs, Now(), Round(pods)); }
      pending := CollectInfos(cs.parseInt, pods);
    }

    /** One turn of the rescheduler's delegation loop: a job is deleted only after a replica took the body
        posted for its event. */
    method RescheduleNext(clusterID: string, delegated: bool, deleted: bool)
      requires pending != []
      modifies this
      ensures Now() == After(cs, old(Now()), Reschedule(clusterID, delegated, deleted))
      ensures old(Invariant(cs, Now())) ==> Invariant(cs, Now())
      ensures pending == if PostedBy(cs, old(pending[0].event), clusterID).None? then [] else old(pending[1..])
      ensures var body := PostedBy(cs, old(pending[0].event), clusterID);
              && jobs == (if body.Some? && delegated && deleted then old(jobs) - {old(pending[0].jobName)}
                          else old(jobs))
              && taken == (if body.Some? && delegated then old(taken) + {(old(pending[0].jobName), body.value)}
                           else old(taken))
    {
      if Invariant(cs, Now()) { StepKeeps(cs, Now(), Reschedule(clusterID, delegated, deleted)); }
      var rsi := pending[0];
      var body := PostedBy(cs, rsi.event, clusterID);
      if body.None? {
        pending := [];
        return;
      }
      pending := pending[1..];
      if delegated {
        taken := taken + {(rsi.jobName, body.value)};
        if deleted {
          jobs := jobs - {rsi.jobName};
        }
      }
    }
  }
}
