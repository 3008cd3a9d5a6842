/** The event a cluster forwards when it delegates a job (pkg/resourcemanager/delegate.go, WrapEvent and
    eventBuild), followed along a chain of clusters each delegating to the next.

    encoding/json is the pair of parameters `decode` and `encode`. */
module EventChain {
  import opened Options

  /** A field of a decoded JSON object. */
  datatype Value = Str(s: string) | Other

  type Fields = map<string, Value>

  /** json.Unmarshal into a map: fails on anything but an object (null decodes to no fields). */
  type Decoder = string -> Option<Fields>

  /** json.Marshal of a DelegatedEvent with the given provider and event. */
  type Encoder = (string, string) -> string

  /** What is assumed of encoding/json: an encoded DelegatedEvent decodes to its two fields, and the
      empty text is no JSON. */
  ghost predicate RoundTrips(decode: Decoder, encode: Encoder) {
    && (forall p: string, e: string ::
          decode(encode(p, e)) == Some(map["storage_provider" := Str(p), "event" := Str(e)]))
    && decode("") == None
  }

  /** Result of eventBuild: a body and its storage provider, nothing for an unreadable event, or a
      panic of a type assertion. */
  datatype Built = Forward(body: string, provider: string) | Unreadable | Panic

  /** A delegated event: provider and event are both texts. */
  predicate Delegated(m: Fields) {
    "storage_provider" in m && m["storage_provider"].Str? && "event" in m && m["event"].Str?
  }

  function EventBuild(decode: Decoder, encode: Encoder, event: string, storageProvider: string): Built {
    match decode(event)
    case None => Unreadable
    case Some(m) =>
      if "storage_provider" in m then
        if Delegated(m) then
          Forward(encode(m["storage_provider"].s, m["event"].s), m["storage_provider"].s)
        else Panic
      else Forward(encode(storageProvider, event), storageProvider)
  }

  /** The text posted to the next cluster; None when no request goes out. */
  function Body(b: Built): Option<string> {
    match b
    case Forward(body, _) => Some(body)
    case Unreadable => Some("")
    case Panic => None
  }

  /** What cluster k of the chain receives when `event` is submitted to cluster 0. */
  function Received(decode: Decoder, encode: Encoder, event: string, chain: seq<string>, k: nat): Option<string>
    requires k <= |chain|
  {
    if k == 0 then Some(event)
    else
      match Received(decode, encode, event, chain, k - 1)
      case None => None
      case Some(e) => Body(EventBuild(decode, encode, e, chain[k - 1]))
  }

  /** A delegated event is forwarded unchanged, whatever cluster forwards it. */
  lemma WrappedOnce(decode: Decoder, encode: Encoder, provider: string, event: string, cluster: string)
    requires RoundTrips(decode, encode)
    ensures EventBuild(decode, encode, encode(provider, event), cluster) == Forward(encode(provider, event), provider)
  {
  }

  /** For every event the first hop decides: later clusters all receive what the second one received.
      An unreadable event travels as empty text, one that already names a provider keeps that provider,
      and one that names it without a textual event stops the first cluster. */
  lemma {:induction false} FirstHopDecides(decode: Decoder, encode: Encoder, event: string, chain: seq<string>, k: nat)
    requires RoundTrips(decode, encode) && 1 <= k <= |chain|
    ensures Received(decode, encode, event, chain, k) == Received(decode, encode, event, chain, 1)
    ensures Received(decode, encode, event, chain, k) ==
            match decode(event)
            case None => Some("")
            case Some(m) =>
              if "storage_provider" !in m then Some(encode(chain[0], event))
              else if Delegated(m) then Some(encode(m["storage_provider"].s, m["event"].s))
              else None
  {
    assert Received(decode, encode, event, chain, 0) == Some(event);
    if k > 1 {
      FirstHopDecides(decode, encode, event, chain, k - 1);
      match decode(event)
      case None =>
      case Some(m) =>
        if "storage_provider" !in m {
          WrappedOnce(decode, encode, chain[0], event, chain[k - 1]);
        } else if Delegated(m) {
          WrappedOnce(decode, encode, m["storage_provider"].s, m["event"].s, chain[k - 1]);
        }
    }
  }

  /** Along a chain of any length every cluster forwards the original event wrapped exactly once, with
      the first cluster as storage provider. */
  lemma OriginalForwarded(decode: Decoder, encode: Encoder, event: string, chain: seq<string>, k: nat)
    requires RoundTrips(decode, encode)
    requires decode(event).Some? && "storage_provider" !in decode(event).value
    requires 1 <= k <= |chain|
    ensures Received(decode, encode, event, chain, k) == Some(encode(chain[0], event))
    ensures k < |chain| ==> EventBuild(decode, encode, Received(decode, encode, event, chain, k).value, chain[k]) ==
                            Forward(encode(chain[0], event), chain[0])
  {
    FirstHopDecides(decode, encode, event, chain, k);
    if k < |chain| { WrappedOnce(decode, encode, chain[0], event, chain[k]); }
  }

  // ---------- Which events arrive ----------

  /** The text carries the event: it is the event, it wraps the event as it is, or, when the event was a
      delegated one already, it has the same provider and the same inner event. */
  predicate Carries(decode: Decoder, body: string, event: string) {
    var b := decode(body);
    body == event ||
    (b.Some? && Delegated(b.value) &&
     (b.value["event"] == Str(event) || (decode(event).Some? && SameDelegated(b.value, decode(event).value))))
  }

  predicate SameDelegated(b: Fields, m: Fields)
    requires Delegated(b)
  {
    Delegated(m) && b["storage_provider"] == m["storage_provider"] && b["event"] == m["event"]
  }

  /** What DelegateJob posts for an event; None when it panics before any request. */
  function Posted(decode: Decoder, encode: Encoder, event: string, clusterID: string): Option<string> {
    Body(EventBuild(decode, encode, event, clusterID))
  }

  /** A request that carries the event goes out if and only if the event is empty, or decodes (to an object
      or null) and names no storage provider or is a textual delegated event. */
  lemma PostedCarriesExactly(decode: Decoder, encode: Encoder, event: string, clusterID: string)
    requires RoundTrips(decode, encode)
    ensures var body := Posted(decode, encode, event, clusterID);
            (body.Some? && Carries(decode, body.value, event)) <==>
            (event == "" ||
             (decode(event).Some? && ("storage_provider" in decode(event).value ==> Delegated(decode(event).value))))
  {
  }

  // ---------- The assumption can be met ----------

  function Ones(s: string): nat { if s != "" && s[0] == '1' then 1 + Ones(s[1..]) else 0 }

  /** A sample encoding: the provider's length in unary, a zero, the provider, the event. */
  function SampleEncode(p: string, e: string): string { seq(|p|, _ => '1') + "0" + p + e }

  function SampleDecode(s: string): Option<Fields> {
    var n := Ones(s);
    if 2 * n + 1 > |s| then None
    else Some(map["storage_provider" := Str(s[n + 1..2 * n + 1]), "event" := Str(s[2 * n + 1..])])
  }

  lemma {:induction false} OnesThenZero(n: nat, rest: string)
    ensures Ones(seq(n, _ => '1') + "0" + rest) == n
  {
    var s := seq(n, _ => '1') + "0" + rest;
    if n > 0 {
      OnesThenZero(n - 1, rest);
      assert s[1..] == seq(n - 1, _ => '1') + "0" + rest;
    }
  }

  /** There are codecs that round-trip. */
  lemma CodecsExist()
    ensures exists decode: Decoder, encode: Encoder :: RoundTrips(decode, encode)
  {
    forall p: string, e: string
      ensures SampleDecode(SampleEncode(p, e)) == Some(map["storage_provider" := Str(p), "event" := Str(e)])
    {
      var s, n := SampleEncode(p, e), |p|;
      assert s == seq(n, _ => '1') + "0" + (p + e);
      OnesThenZero(n, p + e);
      assert s[n + 1..2 * n + 1] == p && s[2 * n + 1..] == e;
    }
    assert RoundTrips(SampleDecode, SampleEncode);
  }
}
