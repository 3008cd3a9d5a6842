/** The cache of service tokens of other clusters (pkg/resourcemanager/delegate.go, getServiceToken and
    updateServiceToken). What a cluster answers to a token request is a parameter. */
module TokenCache {
  import opened Options
  import opened Text

  /** endpoint -> service -> token */
  type Tokens = map<string, map<string, string>>

  /** Outcome of asking a cluster for a service definition. */
  datatype Fetch = Failed | Fetched(token: string)

  const LIMIT: nat := 500

  /** The key of a cluster: its endpoint without surrounding blanks and slashes. */
  function Key(endpoint: string): string { Trim(endpoint, {' ', '/'}) }

  // ---------- The cache as a value ----------

  function Pairs(c: Tokens, endpoints: set<string>): set<(string, string)> {
    set e, s | e in endpoints && e in c && s in c[e] :: (e, s)
  }

  /** Number of tokens stored. */
  function Count(c: Tokens): nat { |Pairs(c, c.Keys)| }

  function Find(c: Tokens, key: string, service: string): Option<string> {
    if key in c && service in c[key] then Some(c[key][service]) else None
  }

  function Stored(c: Tokens, key: string, service: string, token: string): Tokens {
    c[key := (if key in c then c[key] else map[])[service := token]]
  }

  /** A usable token: present and not empty. */
  predicate IsHit(t: Option<string>) { t.Some? && t.value != "" }

  function Refreshed(c: Tokens, endpoint: string, service: string, f: Fetch): Tokens {
    var kept := if Count(c) > LIMIT then map[] else c;
    if f.Fetched? then Stored(kept, Key(endpoint), service, f.token) else kept
  }

  // ---------- Reference: the history of fetches ----------

  datatype Entry = Flush | Store(key: string, service: string, token: string)

  /** The last token fetched for a key and service since the last flush. */
  function LastFetched(log: seq<Entry>, key: string, service: string): Option<string> {
    if log == [] then None
    else
      var e := log[|log| - 1];
      if e.Flush? then None
      else if e.key == key && e.service == service then Some(e.token)
      else LastFetched(log[..|log| - 1], key, service)
  }

  datatype Op = Lookup(endpoint: string, service: string, fetch: Fetch)
              | Refresh(endpoint: string, service: string, fetch: Fetch)

  datatype World = World(cache: Tokens, log: seq<Entry>)

  function RefreshLog(w: World, endpoint: string, service: string, f: Fetch): seq<Entry> {
    w.log + (if Count(w.cache) > LIMIT then [Flush] else []) +
    (if f.Fetched? then [Store(Key(endpoint), service, f.token)] else [])
  }

  function Step(w: World, op: Op): World {
    if op.Lookup? && IsHit(Find(w.cache, Key(op.endpoint), op.service)) then w
    else World(Refreshed(w.cache, op.endpoint, op.service, op.fetch), RefreshLog(w, op.endpoint, op.service, op.fetch))
  }

  function Run(ops: seq<Op>): World {
    if ops == [] then World(map[], []) else Step(Run(ops[..|ops| - 1]), ops[|ops| - 1])
  }

  ghost predicate Agrees(w: World) {
    forall key, service :: Find(w.cache, key, service) == LastFetched(w.log, key, service)
  }

  // ---------- Counting ----------

  lemma StoredPairs(c: Tokens, key: string, service: string, token: string, e: string, s: string)
    ensures var d := Stored(c, key, service, token);
            (e, s) in Pairs(d, d.Keys) <==> (e, s) in Pairs(c, c.Keys) || (e, s) == (key, service)
  {
  }

  lemma FindStored(c: Tokens, key: string, service: string, token: string)
    ensures forall e, s :: Find(Stored(c, key, service, token), e, s) ==
              if e == key && s == service then Some(token) else Find(c, e, s)
  {
  }

  lemma {:induction false} StoredCount(c: Tokens, key: string, service: string, token: string)
    ensures Count(Stored(c, key, service, token)) == Count(c) + if Find(c, key, service).None? then 1 else 0
  {
    var d := Stored(c, key, service, token);
    var before, after := Pairs(c, c.Keys), Pairs(d, d.Keys);
    forall e, s ensures (e, s) in after <==> (e, s) in before + {(key, service)} {
      StoredPairs(c, key, service, token, e, s);
    }
    assert after == before + {(key, service)};
    assert (key, service) in before <==> Find(c, key, service).Some?;
    if (key, service) in before { assert after == before; }
  }

  lemma {:induction false} RowCount(key: string, services: set<string>)
    ensures |(set s | s in services :: (key, s))| == |services|
  {
    if services != {} {
      var s :| s in services;
      RowCount(key, services - {s});
      assert (set t | t in services :: (key, t)) == (set t | t in services - {s} :: (key, t)) + {(key, s)};
    }
  }

  lemma {:induction false} PairsStep(c: Tokens, done: set<string>, e: string)
    requires e in c && e !in done
    ensures |Pairs(c, done + {e})| == |Pairs(c, done)| + |c[e]|
  {
    RowCount(e, c[e].Keys);
    var row := set s | s in c[e].Keys :: (e, s);
    assert Pairs(c, done + {e}) == Pairs(c, done) + row;
    assert Pairs(c, done) !! row;
  }

  // ---------- Main results ----------

  lemma {:induction false} RefreshAgrees(w: World, endpoint: string, service: string, f: Fetch)
    requires Agrees(w)
    ensures Agrees(World(Refreshed(w.cache, endpoint, service, f), RefreshLog(w, endpoint, service, f)))
  {
    var kept := if Count(w.cache) > LIMIT then map[] else w.cache;
    var log := w.log + (if Count(w.cache) > LIMIT then [Flush] else []);
    assert Agrees(World(kept, log)) by {
      if Count(w.cache) <= LIMIT { assert log == w.log; }
    }
    if f.Fetched? {
      var e := Store(Key(endpoint), service, f.token);
      assert (log + [e])[..|log|] == log;
    } else {
      assert RefreshLog(w, endpoint, service, f) == log;
    }
  }

  /** Over any sequence of lookups and refreshes the cache never holds more than 501 tokens and holds,
      for every key and service, exactly the last token fetched since the last flush. */
  lemma {:induction false} CacheFollowsHistory(ops: seq<Op>)
    ensures Count(Run(ops).cache) <= 501
    ensures Agrees(Run(ops))
  {
    if ops == [] {
      assert Pairs(map[], {}) == {};
    } else {
      var before, op := Run(ops[..|ops| - 1]), ops[|ops| - 1];
      CacheFollowsHistory(ops[..|ops| - 1]);
      RefreshAgrees(before, op.endpoint, op.service, op.fetch);
      RefreshBounded(before.cache, op.endpoint, op.service, op.fetch);
    }
  }

  lemma {:induction false} RefreshBounded(c: Tokens, endpoint: string, service: string, f: Fetch)
    ensures Count(Refreshed(c, endpoint, service, f)) <= LIMIT + 1
  {
    assert Pairs(map[], {}) == {};
    var kept := if Count(c) > LIMIT then map[] else c;
    if f.Fetched? { StoredCount(kept, Key(endpoint), service, f.token); }
  }

  /** The key of an endpoint is what remains without surrounding blanks and slashes. */
  lemma {:induction false} KeyTrims(before: string, core: string, after: string)
    requires Pads(before) && Pads(after) && Bare(core)
    ensures Key(before + core + after) == core
  {
    TrimLeftDrops(before, core + after, {' ', '/'});
    assert before + core + after == before + (core + after);
    if core == "" {
      assert core + after == after + "";
      TrimLeftDrops(after, "", {' ', '/'});
    } else {
      assert (core + after)[0] == core[0];
      TrimRightDrops(core, after, {' ', '/'});
    }
  }

  predicate Pads(s: string) { forall c | c in s :: c == ' ' || c == '/' }

  predicate Bare(s: string) {
    s != "" ==> s[0] != ' ' && s[0] != '/' && s[|s| - 1] != ' ' && s[|s| - 1] != '/'
  }

  /** Endpoints that differ only in surrounding blanks and slashes share their tokens: after a refresh at one,
      a lookup at the other is a hit and changes nothing. */
  lemma SharedEndpoint(ops: seq<Op>, core: string, b: string, a: string, c: string, d: string, service: string,
                       token: string)
    requires token != "" && Bare(core) && Pads(b) && Pads(a) && Pads(c) && Pads(d)
    ensures var w := Run(ops + [Refresh(b + core + a, service, Fetched(token))]);
            && Step(w, Lookup(c + core + d, service, Failed)) == w
            && Find(w.cache, Key(c + core + d), service) == Some(token)
  {
    KeyTrims(b, core, a);
    KeyTrims(c, core, d);
    var longer := ops + [Refresh(b + core + a, service, Fetched(token))];
    assert longer[..|longer| - 1] == ops;
  }

  // ---------- The code ----------

  class Cache {
    var tokens: Tokens
    ghost var log: seq<Entry>

    ghost predicate Valid()
      reads this
    {
      Agrees(World(tokens, log)) && Count(tokens) <= LIMIT + 1
    }

    constructor ()
      ensures Valid() && tokens == map[] && log == []
    {
      tokens, log := map[], [];
      new;
      assert Pairs(tokens, tokens.Keys) == {};
    }

    /** The counting loop of updateServiceToken. */
    method CountTokens() returns (length: nat)
      ensures length == Count(tokens)
    {
      length := 0;
      var todo := tokens.Keys;
      ghost var done: set<string> := {};
      assert Pairs(tokens, done) == {};
      while todo != {}
        invariant done !! todo && done + todo == tokens.Keys
        invariant length == |Pairs(tokens, done)|
        decreases |todo|
      {
        var e :| e in todo;
        PairsStep(tokens, done, e);
        length := length + |tokens[e]|;
        todo, done := todo - {e}, done + {e};
      }
      assert done == tokens.Keys;
    }

    /** updateServiceToken. */
    method UpdateServiceToken(endpoint: string, service: string, fetch: Fetch) returns (token: Option<string>)
      requires Valid()
      modifies this
      ensures Valid()
      ensures World(tokens, log) == Step(old(World(tokens, log)), Refresh(endpoint, service, fetch))
      ensures token == if fetch.Fetched? then Some(fetch.token) else None
      ensures old(Count(tokens)) <= 500 && fetch.Failed? ==> tokens == old(tokens)
      ensures old(Count(tokens)) > 500 && fetch.Failed? ==> tokens == map[]
      ensures fetch.Fetched? ==> Find(tokens, Key(endpoint), service) == Some(fetch.token)
      ensures fetch.Fetched? ==> forall e, s | e != Key(endpoint) || s != service ::
                Find(tokens, e, s) == if old(Count(tokens)) > 500 then None else Find(old(tokens), e, s)
    {
      RefreshAgrees(World(tokens, log), endpoint, service, fetch);
      RefreshBounded(tokens, endpoint, service, fetch);
      ghost var target := Refreshed(tokens, endpoint, service, fetch);
      log := RefreshLog(World(tokens, log), endpoint, service, fetch);
      var length := CountTokens();
      if length > 500 {
        tokens := map[];
      }
      if fetch.Failed? {
        return None;
      }
      var key := Key(endpoint);
      if key !in tokens {
        tokens := tokens[key := map[]];
      }
      tokens := tokens[key := tokens[key][service := fetch.token]];
      token := Some(fetch.token);
      assert tokens == target;
      FindStored(if old(Count(tokens)) > 500 then map[] else old(tokens), key, service, fetch.token);
    }

    /** getServiceToken: a hit returns the last token fetched for the trimmed endpoint and service since
        the last flush and changes nothing; anything else is a refresh. */
    method GetServiceToken(endpoint: string, service: string, fetch: Fetch) returns (token: Option<string>)
      requires Valid()
      modifies this
      ensures Valid()
      ensures World(tokens, log) == Step(old(World(tokens, log)), Lookup(endpoint, service, fetch))
      ensures token == (var last := LastFetched(old(log), Key(endpoint), service);
                        if last.Some? && last.value != "" then last
                        else if fetch.Fetched? then Some(fetch.token) else None)
      ensures var last := LastFetched(old(log), Key(endpoint), service);
              last.Some? && last.value != "" ==> tokens == old(tokens) && log == old(log)
    {
      var key := Key(endpoint);
      assert Find(tokens, key, service) == LastFetched(log, key, service);
      if key in tokens {
        if service in tokens[key] && tokens[key][service] != "" {
          return Some(tokens[key][service]);
        }
      }
      token := UpdateServiceToken(endpoint, service, fetch);
    }
  }
}
