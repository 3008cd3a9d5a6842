/** Aggregation of request records and its restriction to the services a caller may see
    (pkg/metrics/aggregators.go, pkg/metrics/scoped.go). */
module Metrics {
  import opened Options
  import opened Ordering
  import opened Text

  datatype Kind = Sync | Async | Untyped

  datatype Record = Record(service: string, user: string, country: string, kind: Kind)

  datatype CountryCount = CountryCount(country: string, requests: nat)

  datatype Item = Item(key: string, executions: nat, total: nat, sync: nat, async: nat, exposed: nat,
                       uniqueUsers: nat, users: seq<string>, countries: seq<CountryCount>)

  // ---------- Simple queries over records ----------

  /** The records of one service, as ListRequests returns them for a service name. */
  function OfService(rs: seq<Record>, service: string): seq<Record> {
    if rs == [] then [] else
      var rest := OfService(rs[..|rs| - 1], service);
      if rs[|rs| - 1].service == service then rest + [rs[|rs| - 1]] else rest
  }

  function CountKind(rs: seq<Record>, kind: Kind): nat {
    if rs == [] then 0 else CountKind(rs[..|rs| - 1], kind) + if rs[|rs| - 1].kind == kind then 1 else 0
  }

  /** The identified users. */
  function UsersOf(rs: seq<Record>): set<string> {
    set i | 0 <= i < |rs| && rs[i].user != "" :: rs[i].user
  }

  predicate KnownCountry(c: string) { c != "" && !EqualFold(c, "unknown") }

  /** Requests per known country. */
  function CountriesOf(rs: seq<Record>): map<string, nat> {
    if rs == [] then map[] else
      var m, c := CountriesOf(rs[..|rs| - 1]), rs[|rs| - 1].country;
      if KnownCountry(c) then m[c := (if c in m then m[c] else 0) + 1] else m
  }

  function ServicesOf(rs: seq<Record>): set<string> {
    set i | 0 <= i < |rs| :: rs[i].service
  }

  /** Exposed records are counted only when they name a service. */
  function ExposedOf(rs: seq<Record>, service: string): seq<Record> {
    if service == "" then [] else OfService(rs, service)
  }

  // ---------- The breakdown, from the queries ----------

  ghost function CountryList(m: map<string, nat>): seq<CountryCount> {
    var ks := Listing(m.Keys);
    seq(|ks|, i requires 0 <= i < |ks| => (assert ks[i] in ks; CountryCount(ks[i], m[ks[i]])))
  }

  /** One item, from the records of its service alone. */
  ghost function ItemFor(service: string, own: seq<Record>, exposed: seq<Record>, includeUsers: bool): Item {
    Item(service, |own| + |exposed|, CountKind(own, Sync) + CountKind(own, Async), CountKind(own, Sync),
         CountKind(own, Async), |exposed|, |UsersOf(own)|, if includeUsers then Listing(UsersOf(own)) else [],
         CountryList(CountriesOf(own)))
  }

  function KeysOf(rs: seq<Record>, exposed: seq<Record>): set<string> {
    ServicesOf(rs) + (ServicesOf(exposed) - {""})
  }

  ghost function ItemsFor(ks: seq<string>, rs: seq<Record>, exposed: seq<Record>, includeUsers: bool): seq<Item> {
    if ks == [] then []
    else [ItemFor(ks[0], OfService(rs, ks[0]), ExposedOf(exposed, ks[0]), includeUsers)] +
         ItemsFor(ks[1..], rs, exposed, includeUsers)
  }

  /** The whole breakdown: one item per service, in key order. */
  ghost function Breakdown(rs: seq<Record>, exposed: seq<Record>, includeUsers: bool): seq<Item> {
    ItemsFor(Listing(KeysOf(rs, exposed)), rs, exposed, includeUsers)
  }

  // ---------- Scoping ----------

  /** The records of the allowed services. */
  function Scoped(rs: seq<Record>, allowed: set<string>): seq<Record> {
    if rs == [] then [] else
      var rest := Scoped(rs[..|rs| - 1], allowed);
      if rs[|rs| - 1].service in allowed then rest + [rs[|rs| - 1]] else rest
  }

  function ItemsIn(items: seq<Item>, allowed: set<string>): seq<Item> {
    if items == [] then []
    else if items[0].key in allowed then [items[0]] + ItemsIn(items[1..], allowed)
    else ItemsIn(items[1..], allowed)
  }

  lemma OfServiceAppend(rs: seq<Record>, r: Record, service: string)
    ensures OfService(rs + [r], service) == OfService(rs, service) + if r.service == service then [r] else []
  {
  }

  lemma {:induction false} OfServiceScoped(rs: seq<Record>, allowed: set<string>, service: string)
    requires service in allowed
    ensures OfService(Scoped(rs, allowed), service) == OfService(rs, service)
  {
    if rs != [] {
      var init, r := rs[..|rs| - 1], rs[|rs| - 1];
      OfServiceScoped(init, allowed, service);
      OfServiceAppend(Scoped(init, allowed), r, service);
    }
  }

  lemma {:induction false} ServicesAppend(rs: seq<Record>, r: Record)
    ensures ServicesOf(rs + [r]) == ServicesOf(rs) + {r.service}
  {
    var s := rs + [r];
    forall k ensures k in ServicesOf(s) <==> k in ServicesOf(rs) + {r.service} {
      if k in ServicesOf(rs) {
        var i :| 0 <= i < |rs| && rs[i].service == k;
        assert s[i].service == k;
      }
      if k == r.service { assert s[|rs|].service == k; }
    }
  }

  lemma {:induction false} ServicesScoped(rs: seq<Record>, allowed: set<string>)
    ensures ServicesOf(Scoped(rs, allowed)) == ServicesOf(rs) * allowed
  {
    if rs != [] {
      var init, r := rs[..|rs| - 1], rs[|rs| - 1];
      ServicesScoped(init, allowed);
      assert rs == init + [r];
      ServicesAppend(init, r);
      ServicesAppend(Scoped(init, allowed), r);
    }
  }

  lemma {:induction false} ItemsForScoped(ks: seq<string>, rs: seq<Record>, exposed: seq<Record>, includeUsers: bool,
                                          allowed: set<string>)
    ensures ItemsFor(Only(ks, allowed), Scoped(rs, allowed), Scoped(exposed, allowed), includeUsers) ==
            ItemsIn(ItemsFor(ks, rs, exposed, includeUsers), allowed)
  {
    if ks != [] {
      ItemsForScoped(ks[1..], rs, exposed, includeUsers, allowed);
      var items := ItemsFor(ks, rs, exposed, includeUsers);
      assert items[0].key == ks[0] && items[1..] == ItemsFor(ks[1..], rs, exposed, includeUsers);
      if ks[0] in allowed {
        OfServiceScoped(rs, allowed, ks[0]);
        OfServiceScoped(exposed, allowed, ks[0]);
        var kept := Only(ks, allowed);
        assert kept[0] == ks[0] && kept[1..] == Only(ks[1..], allowed);
      }
    }
  }

  /** Scoping commutes with aggregation: breaking down the records of the allowed services gives the
      full breakdown restricted to the allowed keys, item for item and in the same order. */
  lemma ScopingCommutes(rs: seq<Record>, exposed: seq<Record>, includeUsers: bool, allowed: set<string>)
    ensures Breakdown(Scoped(rs, allowed), Scoped(exposed, allowed), includeUsers) ==
            ItemsIn(Breakdown(rs, exposed, includeUsers), allowed)
  {
    ServicesScoped(rs, allowed);
    ServicesScoped(exposed, allowed);
    var keys := KeysOf(rs, exposed);
    assert KeysOf(Scoped(rs, allowed), Scoped(exposed, allowed)) == keys * allowed;
    ListingOnly(keys, allowed);
    ItemsForScoped(Listing(keys), rs, exposed, includeUsers, allowed);
  }

  // ---------- Totals ----------

  function SumSync(items: seq<Item>): nat { if items == [] then 0 else items[0].sync + SumSync(items[1..]) }

  function SumAsync(items: seq<Item>): nat { if items == [] then 0 else items[0].async + SumAsync(items[1..]) }

  function SumTotal(items: seq<Item>): nat { if items == [] then 0 else items[0].total + SumTotal(items[1..]) }

  function SumExposed(items: seq<Item>): nat { if items == [] then 0 else items[0].exposed + SumExposed(items[1..]) }

  function SumExecutions(items: seq<Item>): nat {
    if items == [] then 0 else items[0].executions + SumExecutions(items[1..])
  }

  /** Records of the services ks, by a measure of one service's records. */
  function SumOver(ks: seq<string>, rs: seq<Record>, measure: seq<Record> -> nat): nat {
    if ks == [] then 0 else measure(OfService(rs, ks[0])) + SumOver(ks[1..], rs, measure)
  }

  /** A measure that adds up record by record. */
  ghost predicate Additive(measure: seq<Record> -> nat) {
    measure([]) == 0 && forall rs: seq<Record>, r :: measure(rs + [r]) == measure(rs) + measure([r])
  }

  lemma {:induction false} SumOverAppend(ks: seq<string>, rs: seq<Record>, r: Record, measure: seq<Record> -> nat)
    requires Additive(measure) && Increasing(ks)
    ensures SumOver(ks, rs + [r], measure) == SumOver(ks, rs, measure) + if r.service in ks then measure([r]) else 0
  {
    if ks != [] {
      IncreasingTail(ks);
      AboveExcludes(ks[1..], ks[0]);
      SumOverAppend(ks[1..], rs, r, measure);
      OfServiceAppend(rs, r, ks[0]);
      assert ks == [ks[0]] + ks[1..];
      if r.service != ks[0] { assert OfService(rs, ks[0]) + [] == OfService(rs, ks[0]); }
    }
  }

  lemma {:induction false} SumOverNothing(ks: seq<string>, measure: seq<Record> -> nat)
    requires Additive(measure)
    ensures SumOver(ks, [], measure) == 0
  {
    if ks != [] { SumOverNothing(ks[1..], measure); }
  }

  /** Grouping by service loses and repeats no record. */
  lemma {:induction false} GroupsPartition(ks: seq<string>, rs: seq<Record>, measure: seq<Record> -> nat)
    requires Additive(measure) && Increasing(ks) && forall i | 0 <= i < |rs| :: rs[i].service in ks
    ensures SumOver(ks, rs, measure) == measure(rs)
  {
    if rs == [] {
      SumOverNothing(ks, measure);
    } else {
      var init, r := rs[..|rs| - 1], rs[|rs| - 1];
      assert rs == init + [r];
      GroupsPartition(ks, init, measure);
      SumOverAppend(ks, init, r, measure);
    }
  }

  function Size(rs: seq<Record>): nat { |rs| }

  function SyncCount(rs: seq<Record>): nat { CountKind(rs, Sync) }

  function AsyncCount(rs: seq<Record>): nat { CountKind(rs, Async) }

  lemma MeasuresAdditive()
    ensures Additive(Size) && Additive(SyncCount) && Additive(AsyncCount)
  {
  }

  /** The exposed records that name a service. */
  function Attributed(rs: seq<Record>): seq<Record> {
    if rs == [] then [] else
      var rest := Attributed(rs[..|rs| - 1]);
      if rs[|rs| - 1].service != "" then rest + [rs[|rs| - 1]] else rest
  }

  lemma {:induction false} AttributedService(rs: seq<Record>, service: string)
    ensures OfService(Attributed(rs), service) == ExposedOf(rs, service)
  {
    if rs != [] {
      var init, r := rs[..|rs| - 1], rs[|rs| - 1];
      AttributedService(init, service);
      OfServiceAppend(Attributed(init), r, service);
    }
  }

  lemma {:induction false} AttributedNamed(rs: seq<Record>)
    ensures forall i | 0 <= i < |Attributed(rs)| :: Attributed(rs)[i].service in ServicesOf(rs) - {""}
  {
    if rs != [] {
      var init, r := rs[..|rs| - 1], rs[|rs| - 1];
      AttributedNamed(init);
      assert rs == init + [r];
      ServicesAppend(init, r);
    }
  }

  lemma {:induction false} ItemSums(ks: seq<string>, rs: seq<Record>, exposed: seq<Record>, includeUsers: bool)
    ensures SumSync(ItemsFor(ks, rs, exposed, includeUsers)) == SumOver(ks, rs, SyncCount)
    ensures SumAsync(ItemsFor(ks, rs, exposed, includeUsers)) == SumOver(ks, rs, AsyncCount)
    ensures SumExposed(ItemsFor(ks, rs, exposed, includeUsers)) == SumOver(ks, Attributed(exposed), Size)
    ensures SumExecutions(ItemsFor(ks, rs, exposed, includeUsers)) ==
            SumOver(ks, rs, Size) + SumOver(ks, Attributed(exposed), Size)
  {
    if ks != [] {
      ItemSums(ks[1..], rs, exposed, includeUsers);
      AttributedService(exposed, ks[0]);
      var items := ItemsFor(ks, rs, exposed, includeUsers);
      assert items[1..] == ItemsFor(ks[1..], rs, exposed, includeUsers);
    }
  }

  /** Item sums are the summary totals: synchronous and asynchronous requests, executions, and exposed
      requests that name a service. */
  lemma {:induction false} ItemSumsAreTotals(rs: seq<Record>, exposed: seq<Record>, includeUsers: bool)
    ensures var items := Breakdown(rs, exposed, includeUsers);
            && SumSync(items) == CountKind(rs, Sync)
            && SumAsync(items) == CountKind(rs, Async)
            && SumExposed(items) == |Attributed(exposed)|
            && SumExecutions(items) == |rs| + |Attributed(exposed)|
  {
    var ks := Listing(KeysOf(rs, exposed));
    ItemSums(ks, rs, exposed, includeUsers);
    MeasuresAdditive();
    forall i | 0 <= i < |rs| ensures rs[i].service in ks { assert rs[i].service in ServicesOf(rs); }
    GroupsPartition(ks, rs, SyncCount);
    GroupsPartition(ks, rs, AsyncCount);
    GroupsPartition(ks, rs, Size);
    AttributedNamed(exposed);
    GroupsPartition(ks, Attributed(exposed), Size);
  }

  lemma {:induction false} AttributedAll(exposed: seq<Record>)
    ensures |Attributed(exposed)| == |exposed| <==> forall i | 0 <= i < |exposed| :: exposed[i].service != ""
    ensures |Attributed(exposed)| <= |exposed|
  {
    if exposed != [] { AttributedAll(exposed[..|exposed| - 1]); }
  }

  lemma {:induction false} TypedAll(rs: seq<Record>)
    ensures CountKind(rs, Sync) + CountKind(rs, Async) <= |rs|
    ensures CountKind(rs, Sync) + CountKind(rs, Async) == |rs| <==> forall i | 0 <= i < |rs| :: rs[i].kind != Untyped
  {
    if rs != [] { TypedAll(rs[..|rs| - 1]); }
  }

  lemma {:induction false} SumTotalSplits(ks: seq<string>, rs: seq<Record>, exposed: seq<Record>, includeUsers: bool)
    ensures var items := ItemsFor(ks, rs, exposed, includeUsers);
            SumTotal(items) == SumSync(items) + SumAsync(items)
  {
    if ks != [] {
      SumTotalSplits(ks[1..], rs, exposed, includeUsers);
      var items := ItemsFor(ks, rs, exposed, includeUsers);
      assert items[1..] == ItemsFor(ks[1..], rs, exposed, includeUsers);
    }
  }

  /** The items' exposed requests never exceed the summary's count of exposed records, and reach it if and
      only if every exposed record names a service. */
  lemma ExposedTotalExactly(rs: seq<Record>, exposed: seq<Record>, includeUsers: bool)
    ensures var items := Breakdown(rs, exposed, includeUsers);
            && SumExposed(items) <= |exposed|
            && (SumExposed(items) == |exposed| <==> forall i | 0 <= i < |exposed| :: exposed[i].service != "")
  {
    ItemSumsAreTotals(rs, exposed, includeUsers);
    AttributedAll(exposed);
  }

  /** The items' request totals never exceed the summary's count of records, and reach it if and only if
      every record is synchronous or asynchronous. */
  lemma RequestTotalExactly(rs: seq<Record>, exposed: seq<Record>, includeUsers: bool)
    ensures var items := Breakdown(rs, exposed, includeUsers);
            && SumTotal(items) <= |rs|
            && (SumTotal(items) == |rs| <==> forall i | 0 <= i < |rs| :: rs[i].kind != Untyped)
  {
    ItemSumsAreTotals(rs, exposed, includeUsers);
    SumTotalSplits(Listing(KeysOf(rs, exposed)), rs, exposed, includeUsers);
    TypedAll(rs);
  }

  /** Services named by any record, as uniqueServices counts them. */
  function NamedServices(rs: seq<Record>, exposed: seq<Record>): set<string> {
    (ServicesOf(rs) + ServicesOf(exposed)) - {""}
  }

  function NamedItems(items: seq<Item>): nat {
    if items == [] then 0 else (if items[0].key != "" then 1 else 0) + NamedItems(items[1..])
  }

  lemma {:induction false} NamedItemsCount(ks: seq<string>, rs: seq<Record>, exposed: seq<Record>,
                                           includeUsers: bool, s: set<string>)
    requires forall i | 0 <= i < |ks| :: ks[i] in s
    ensures NamedItems(ItemsFor(ks, rs, exposed, includeUsers)) == |Only(ks, s - {""})|
  {
    if ks != [] {
      NamedItemsCount(ks[1..], rs, exposed, includeUsers, s);
      var items := ItemsFor(ks, rs, exposed, includeUsers);
      assert items[1..] == ItemsFor(ks[1..], rs, exposed, includeUsers);
    }
  }

  /** The items with a name are as many as the distinct services of the summary. */
  lemma {:induction false} NamedItemsAreServices(rs: seq<Record>, exposed: seq<Record>, includeUsers: bool)
    ensures NamedItems(Breakdown(rs, exposed, includeUsers)) == |NamedServices(rs, exposed)|
  {
    var keys := KeysOf(rs, exposed);
    NamedItemsCount(Listing(keys), rs, exposed, includeUsers, keys);
    ListingOnly(keys, keys - {""});
    assert keys * (keys - {""}) == NamedServices(rs, exposed);
    ListingLength(NamedServices(rs, exposed));
  }

  // ---------- What an item counts ----------

  lemma CountKindAppend(rs: seq<Record>, r: Record, kind: Kind)
    ensures CountKind(rs + [r], kind) == CountKind(rs, kind) + if r.kind == kind then 1 else 0
  {
    assert (rs + [r])[..|rs|] == rs;
  }

  lemma CountriesAppend(rs: seq<Record>, r: Record)
    ensures CountriesOf(rs + [r]) ==
            var m := CountriesOf(rs);
            if KnownCountry(r.country) then m[r.country := (if r.country in m then m[r.country] else 0) + 1] else m
  {
    assert (rs + [r])[..|rs|] == rs;
  }

  /** Positions of the records that satisfy p. */
  function Hits(rs: seq<Record>, p: Record -> bool): set<nat> { set i: nat | i < |rs| && p(rs[i]) }

  lemma HitsAppend(rs: seq<Record>, r: Record, p: Record -> bool)
    ensures |Hits(rs + [r], p)| == |Hits(rs, p)| + if p(r) then 1 else 0
  {
    var s := rs + [r];
    assert Hits(s, p) == Hits(rs, p) + if p(r) then {|rs|} else {};
  }

  function Of(k: string): Record -> bool { (r: Record) => r.service == k }

  function OfKind(k: string, kind: Kind): Record -> bool { (r: Record) => r.service == k && r.kind == kind }

  function From(k: string, c: string): Record -> bool { (r: Record) => r.service == k && r.country == c }

  /** The item's figures, said of the two record lists alone. */
  ghost predicate CountsFor(item: Item, rs: seq<Record>, exposed: seq<Record>, includeUsers: bool) {
    var k := item.key;
    && item.sync == |Hits(rs, OfKind(k, Sync))| && item.async == |Hits(rs, OfKind(k, Async))|
    && item.total == item.sync + item.async
    && item.exposed == (if k == "" then 0 else |Hits(exposed, Of(k))|)
    && item.executions == |Hits(rs, Of(k))| + item.exposed
    && item.uniqueUsers == |NamedUsers(rs, k)|
    && (if includeUsers then forall u :: u in item.users <==> u in NamedUsers(rs, k) else item.users == [])
    && (forall c :: Listed(item.countries, c) <==>
                    c != "" && !EqualFold(c, "unknown") && Hits(rs, From(k, c)) != {})
    && (forall j | 0 <= j < |item.countries| ::
          item.countries[j].requests == |Hits(rs, From(k, item.countries[j].country))|)
  }

  /** The users with a name among the records of a service. */
  function NamedUsers(rs: seq<Record>, k: string): set<string> {
    set i | 0 <= i < |rs| && rs[i].service == k && rs[i].user != "" :: rs[i].user
  }

  predicate Listed(countries: seq<CountryCount>, c: string) {
    exists j :: 0 <= j < |countries| && countries[j].country == c
  }

  lemma {:induction false} ServiceHits(rs: seq<Record>, k: string, kind: Kind)
    ensures |OfService(rs, k)| == |Hits(rs, Of(k))|
    ensures CountKind(OfService(rs, k), kind) == |Hits(rs, OfKind(k, kind))|
  {
    if rs == [] {
      assert Hits(rs, Of(k)) == {} && Hits(rs, OfKind(k, kind)) == {};
    } else {
      var init, r := rs[..|rs| - 1], rs[|rs| - 1];
      assert rs == init + [r];
      ServiceHits(init, k, kind);
      HitsAppend(init, r, Of(k));
      HitsAppend(init, r, OfKind(k, kind));
      CountKindAppend(OfService(init, k), r, kind);
    }
  }

  lemma {:induction false} ServiceUsers(rs: seq<Record>, k: string)
    ensures UsersOf(OfService(rs, k)) == NamedUsers(rs, k)
  {
    if rs != [] {
      var init, r := rs[..|rs| - 1], rs[|rs| - 1];
      assert rs == init + [r];
      ServiceUsers(init, k);
      UsersAppend(OfService(init, k), r);
      assert NamedUsers(rs, k) == NamedUsers(init, k) + if r.service == k && r.user != "" then {r.user} else {} by {
        assert forall i | 0 <= i < |init| :: rs[i] == init[i];
        assert rs[|init|] == r;
      }
    }
  }

  lemma {:induction false} ServiceCountries(rs: seq<Record>, k: string, c: string)
    ensures var m := CountriesOf(OfService(rs, k));
            if KnownCountry(c)
            then (c in m <==> Hits(rs, From(k, c)) != {}) && (c in m ==> m[c] == |Hits(rs, From(k, c))|)
            else c !in m
  {
    if rs == [] {
      assert Hits(rs, From(k, c)) == {};
    } else {
      var init, r := rs[..|rs| - 1], rs[|rs| - 1];
      assert rs == init + [r];
      ServiceCountries(init, k, c);
      HitsAppend(init, r, From(k, c));
      CountriesAppend(OfService(init, k), r);
      assert |Hits(init, From(k, c))| == 0 <==> Hits(init, From(k, c)) == {};
      assert |Hits(rs, From(k, c))| == 0 <==> Hits(rs, From(k, c)) == {};
    }
  }

  lemma {:induction false} CountryListing(m: map<string, nat>)
    ensures forall c :: Listed(CountryList(m), c) <==> c in m
    ensures forall j | 0 <= j < |CountryList(m)| :: CountryList(m)[j].country in m &&
              CountryList(m)[j].requests == m[CountryList(m)[j].country]
  {
    var ks, list := Listing(m.Keys), CountryList(m);
    forall j | 0 <= j < |list| ensures list[j].country in m && list[j].requests == m[list[j].country] {
      assert ks[j] in ks;
    }
    forall c ensures Listed(list, c) <==> c in m {
      if c in m {
        var j :| 0 <= j < |ks| && ks[j] == c;
        assert list[j].country == c;
      }
    }
  }

  /** Every item of the breakdown counts what its key's records say: requests by type, executions, exposed
      requests, distinct users, and requests per known country. */
  lemma {:induction false} ItemCounts(rs: seq<Record>, exposed: seq<Record>, includeUsers: bool, k: string)
    ensures CountsFor(ItemFor(k, OfService(rs, k), ExposedOf(exposed, k), includeUsers), rs, exposed, includeUsers)
  {
    ServiceHits(rs, k, Sync);
    ServiceHits(rs, k, Async);
    ServiceHits(exposed, k, Sync);
    ServiceUsers(rs, k);
    var m := CountriesOf(OfService(rs, k));
    CountryListing(m);
    forall c ensures c in m <==> c != "" && !EqualFold(c, "unknown") && Hits(rs, From(k, c)) != {} {
      ServiceCountries(rs, k, c);
    }
    forall c | c in m ensures m[c] == |Hits(rs, From(k, c))| { ServiceCountries(rs, k, c); }
  }

  // ---------- The code: scoping ----------

  method FilterRequestRecords(records: seq<Record>, allowed: set<string>) returns (filtered: seq<Record>)
    ensures filtered == Scoped(records, allowed)
  {
    filtered := [];
    for i := 0 to |records|
      invariant filtered == Scoped(records[..i], allowed)
    {
      assert records[..i + 1][..i] == records[..i];
      if records[i].service in allowed {
        filtered := filtered + [records[i]];
      }
    }
    assert records[..|records|] == records;
  }

  // ---------- The code: simple queries ----------

  /** countRequests; no type means every record. */
  method CountRequests(records: seq<Record>, typ: Option<Kind>) returns (total: nat)
    ensures total == if typ.None? then |records| else CountKind(records, typ.value)
  {
    total := 0;
    for i := 0 to |records|
      invariant total == if typ.None? then i else CountKind(records[..i], typ.value)
    {
      assert records[..i + 1][..i] == records[..i];
      if typ.None? || records[i].kind == typ.value { total := total + 1; }
    }
    assert records[..|records|] == records;
  }

  method UniqueUsers(records: seq<Record>) returns (n: nat)
    ensures n == |UsersOf(records)|
  {
    var users: set<string> := {};
    for i := 0 to |records|
      invariant users == UsersOf(records[..i])
    {
      UsersAppend(records[..i], records[i]);
      assert records[..i + 1] == records[..i] + [records[i]];
      if records[i].user == "" { continue; }
      users := users + {records[i].user};
    }
    assert records[..|records|] == records;
    n := |users|;
  }

  method UniqueServices(records: seq<Record>, exposed: seq<Record>) returns (n: nat)
    ensures n == |NamedServices(records, exposed)|
  {
    var services: set<string> := {};
    for i := 0 to |records|
      invariant services == ServicesOf(records[..i]) - {""}
    {
      ServicesAppend(records[..i], records[i]);
      assert records[..i + 1] == records[..i] + [records[i]];
      if records[i].service == "" { continue; }
      services := services + {records[i].service};
    }
    assert records[..|records|] == records;
    for i := 0 to |exposed|
      invariant services == (ServicesOf(records) + ServicesOf(exposed[..i])) - {""}
    {
      ServicesAppend(exposed[..i], exposed[i]);
      assert exposed[..i + 1] == exposed[..i] + [exposed[i]];
      if exposed[i].service == "" { continue; }
      services := services + {exposed[i].service};
    }
    assert exposed[..|exposed|] == exposed;
    n := |services|;
  }

  lemma {:induction false} UsersAppend(rs: seq<Record>, r: Record)
    ensures UsersOf(rs + [r]) == UsersOf(rs) + if r.user != "" then {r.user} else {}
  {
    var s := rs + [r];
    forall u ensures u in UsersOf(s) <==> u in UsersOf(rs) + if r.user != "" then {r.user} else {} {
      if u in UsersOf(rs) {
        var i :| 0 <= i < |rs| && rs[i].user != "" && rs[i].user == u;
        assert s[i].user == u;
      }
      if r.user != "" && u == r.user { assert s[|rs|].user == u; }
    }
  }

  // ---------- The code: the single-pass breakdown ----------

  datatype Agg = Agg(executions: nat, sync: nat, async: nat, exposed: nat, users: set<string>,
                     countries: map<string, nat>)

  /** The accumulator a service must have, from its records alone. */
  function AggFor(own: seq<Record>, exposed: seq<Record>): Agg {
    Agg(|own| + |exposed|, CountKind(own, Sync), CountKind(own, Async), |exposed|, UsersOf(own), CountriesOf(own))
  }

  function AggAt(k: string, rs: seq<Record>, exposed: seq<Record>): Agg {
    AggFor(OfService(rs, k), ExposedOf(exposed, k))
  }

  ghost predicate Indexed(index: map<string, Agg>, rs: seq<Record>, exposed: seq<Record>) {
    index.Keys == KeysOf(rs, exposed) &&
    forall k | k in index :: index[k] == AggAt(k, rs, exposed)
  }

  function CountryAdded(m: map<string, nat>, c: string): map<string, nat> {
    if KnownCountry(c) then m[c := (if c in m then m[c] else 0) + 1] else m
  }

  lemma {:induction false} AggAppend(own: seq<Record>, r: Record, exposed: seq<Record>)
    ensures AggFor(own + [r], exposed) ==
            Agg(|own| + 1 + |exposed|, CountKind(own, Sync) + (if r.kind == Sync then 1 else 0),
                CountKind(own, Async) + (if r.kind == Async then 1 else 0), |exposed|,
                UsersOf(own) + (if r.user != "" then {r.user} else {}), CountryAdded(CountriesOf(own), r.country))
  {
  }

  /** One record of the first loop. */
  method Counted(entry: Agg, record: Record, ghost own: seq<Record>, ghost exposed: seq<Record>) returns (e: Agg)
    requires entry == AggFor(own, exposed)
    ensures e == AggFor(own + [record], exposed)
  {
    AggAppend(own, record, exposed);
    e := entry.(executions := entry.executions + 1);
    match record.kind {
      case Sync => e := e.(sync := e.sync + 1);
      case Async => e := e.(async := e.async + 1);
      case Untyped =>
    }
    if record.user != "" { e := e.(users := e.users + {record.user}); }
    if KnownCountry(record.country) {
      var c := record.country;
      e := e.(countries := e.countries[c := (if c in e.countries then e.countries[c] else 0) + 1]);
    }
  }

  lemma {:induction false} AbsentService(rs: seq<Record>, service: string)
    requires service !in ServicesOf(rs)
    ensures OfService(rs, service) == []
  {
    if rs != [] {
      var init, r := rs[..|rs| - 1], rs[|rs| - 1];
      assert rs == init + [r];
      ServicesAppend(init, r);
      AbsentService(init, service);
    }
  }

  /** The entry of a service, a fresh one when it has none yet. */
  method EntryOf(index: map<string, Agg>, service: string, ghost rs: seq<Record>, ghost exposed: seq<Record>)
    returns (entry: Agg)
    requires Indexed(index, rs, exposed) && (service == "" ==> exposed == [])
    ensures entry == AggFor(OfService(rs, service), ExposedOf(exposed, service))
  {
    if service in index { return index[service]; }
    AbsentService(rs, service);
    if service != "" { AbsentService(exposed, service); }
    entry := Agg(0, 0, 0, 0, {}, map[]);
  }

  lemma EmptyIndex()
    ensures Indexed(map[], [], [])
  {
  }

  /** The index after the first loop. */
  method IndexRecords(records: seq<Record>) returns (index: map<string, Agg>)
    ensures Indexed(index, records, [])
  {
    index := map[];
    EmptyIndex();
    for i := 0 to |records|
      invariant Indexed(index, records[..i], [])
    {
      var record := records[i];
      ghost var before := records[..i];
      var entry := EntryOf(index, record.service, before, []);
      ghost var own := OfService(before, record.service);
      assert ExposedOf([], record.service) == [];
      entry := Counted(entry, record, own, []);
      IndexStep(index, before, record, entry);
      index := index[record.service := entry];
      assert records[..i + 1] == before + [record];
    }
    assert records[..|records|] == records;
  }

  lemma {:induction false} IndexStep(index: map<string, Agg>, rs: seq<Record>, r: Record, e: Agg)
    requires Indexed(index, rs, []) && e == AggFor(OfService(rs, r.service) + [r], [])
    ensures Indexed(index[r.service := e], rs + [r], [])
  {
    ServicesAppend(rs, r);
    var after := index[r.service := e];
    forall k | k in after ensures after[k] == AggAt(k, rs + [r], []) {
      AggStep(k, rs, r);
      assert k != r.service ==> k in index && index[k] == AggAt(k, rs, []);
    }
  }

  lemma AggStep(k: string, rs: seq<Record>, r: Record)
    ensures AggAt(k, rs + [r], []) == if r.service == k then AggFor(OfService(rs, k) + [r], []) else AggAt(k, rs, [])
  {
  }

  lemma {:induction false} ExposedStep(index: map<string, Agg>, rs: seq<Record>, exposed: seq<Record>, r: Record,
                                       e: Agg)
    requires Indexed(index, rs, exposed) && r.service != ""
    requires e == AggFor(OfService(rs, r.service), ExposedOf(exposed, r.service) + [r])
    ensures Indexed(index[r.service := e], rs, exposed + [r])
  {
    ServicesAppend(exposed, r);
    var after := index[r.service := e];
    forall k | k in after ensures after[k] == AggAt(k, rs, exposed + [r]) {
      OfServiceAppend(exposed, r, k);
      assert OfService(exposed, k) + [] == OfService(exposed, k);
      assert k != r.service ==> k in index && index[k] == AggAt(k, rs, exposed);
    }
  }

  lemma {:induction false} ExposedSkip(index: map<string, Agg>, rs: seq<Record>, exposed: seq<Record>, r: Record)
    requires Indexed(index, rs, exposed) && r.service == ""
    ensures Indexed(index, rs, exposed + [r])
  {
    ServicesAppend(exposed, r);
    forall k | k in index ensures ExposedOf(exposed + [r], k) == ExposedOf(exposed, k) {
      OfServiceAppend(exposed, r, k);
      assert OfService(exposed, k) + [] == OfService(exposed, k);
    }
  }

  /** Both loops of breakdownByService. */
  method IndexAll(records: seq<Record>, exposedRecords: seq<Record>) returns (index: map<string, Agg>)
    ensures Indexed(index, records, exposedRecords)
  {
    index := IndexRecords(records);
    for i := 0 to |exposedRecords|
      invariant Indexed(index, records, exposedRecords[..i])
    {
      var record := exposedRecords[i];
      ghost var before := exposedRecords[..i];
      assert exposedRecords[..i + 1] == before + [record];
      if record.service == "" {
        ExposedSkip(index, records, before, record);
        continue;
      }
      var entry := EntryOf(index, record.service, records, before);
      entry := entry.(exposed := entry.exposed + 1, executions := entry.executions + 1);
      ExposedStep(index, records, before, record, entry);
      index := index[record.service := entry];
    }
    assert exposedRecords[..|exposedRecords|] == exposedRecords;
  }

  /** The keys of a map or set, in whatever order an iteration visits them. */
  method Visit(s: set<string>) returns (ks: seq<string>)
    ensures forall k :: k in ks <==> k in s
    ensures forall i, j | 0 <= i < j < |ks| :: ks[i] != ks[j]
  {
    ks := [];
    var todo := s;
    while todo != {}
      invariant todo <= s
      invariant forall k :: k in ks <==> k in s && k !in todo
      invariant forall i, j | 0 <= i < j < |ks| :: ks[i] != ks[j]
      decreases |todo|
    {
      var k :| k in todo;
      assert k !in ks;
      ks := ks + [k];
      todo := todo - {k};
    }
  }

  /** mapToUserList. */
  method MapToUserList(users: set<string>) returns (items: seq<string>)
    ensures items == Listing(users)
  {
    items := Visit(users);
    items := SortBy(items, (x: string) => x);
    assert Keys(items, (x: string) => x) == items;
    ListingIs(items, users);
  }

  /** mapToCountryList. */
  method MapToCountryList(counts: map<string, nat>) returns (items: seq<CountryCount>)
    ensures items == CountryList(counts)
  {
    var ks := Visit(counts.Keys);
    items := [];
    for i := 0 to |ks|
      invariant |items| == i
      invariant forall k | 0 <= k < i :: ks[k] in counts && items[k] == CountryCount(ks[k], counts[ks[k]])
    {
      assert ks[i] in ks;
      items := items + [CountryCount(ks[i], counts[ks[i]])];
    }
    items := SortBy(items, (c: CountryCount) => c.country);
    CountriesSorted(counts, ks, items);
  }

  lemma {:induction false} CountriesSorted(counts: map<string, nat>, ks: seq<string>, items: seq<CountryCount>)
    requires forall k :: k in ks <==> k in counts
    requires Increasing(Keys(items, (c: CountryCount) => c.country))
    requires forall x :: x in items <==>
               exists i :: 0 <= i < |ks| && ks[i] in counts && x == CountryCount(ks[i], counts[ks[i]])
    ensures items == CountryList(counts)
  {
    var names := Keys(items, (c: CountryCount) => c.country);
    forall k ensures k in names <==> k in counts.Keys {
      if k in names {
        var j :| 0 <= j < |names| && names[j] == k;
        assert items[j] in items;
      }
      if k in counts {
        var i :| 0 <= i < |ks| && ks[i] == k;
        assert CountryCount(ks[i], counts[ks[i]]) in items;
        var j :| 0 <= j < |items| && items[j] == CountryCount(ks[i], counts[ks[i]]);
        assert names[j] == k;
      }
    }
    ListingIs(names, counts.Keys);
    forall j | 0 <= j < |items| ensures items[j] == CountryList(counts)[j] {
      assert items[j] in items;
      assert names[j] == items[j].country;
    }
  }

  method MakeItem(key: string, entry: Agg, includeUsers: bool, ghost own: seq<Record>, ghost exposed: seq<Record>)
    returns (item: Item)
    requires entry == AggFor(own, exposed)
    ensures item == ItemFor(key, own, exposed, includeUsers)
  {
    var users: seq<string> := [];
    if includeUsers { users := MapToUserList(entry.users); }
    var countries := MapToCountryList(entry.countries);
    item := Item(key, entry.executions, entry.sync + entry.async, entry.sync, entry.async, entry.exposed,
                 |entry.users|, users, countries);
  }

  lemma IndexedAt(index: map<string, Agg>, rs: seq<Record>, exposed: seq<Record>, ks: seq<string>, i: nat)
    requires Indexed(index, rs, exposed) && i < |ks| && forall k | k in ks :: k in index
    ensures ks[i] in index && index[ks[i]] == AggFor(OfService(rs, ks[i]), ExposedOf(exposed, ks[i]))
  {
    assert ks[i] in ks;
  }

  /** The items in the order the index is visited. */
  method MakeItems(ks: seq<string>, index: map<string, Agg>, includeUsers: bool,
                   ghost rs: seq<Record>, ghost exposed: seq<Record>) returns (items: seq<Item>)
    requires Indexed(index, rs, exposed) && forall k | k in ks :: k in index
    ensures MadeFor(items, ks, |ks|, rs, exposed, includeUsers)
  {
    items := [];
    for i := 0 to |ks|
      invariant MadeFor(items, ks, i, rs, exposed, includeUsers)
    {
      var key := ks[i];
      IndexedAt(index, rs, exposed, ks, i);
      var item := MakeItem(key, index[key], includeUsers, OfService(rs, key), ExposedOf(exposed, key));
      MadeStep(items, ks, i, rs, exposed, includeUsers, item);
      items := items + [item];
    }
  }

  /** The items of the first n keys. */
  ghost predicate MadeFor(items: seq<Item>, ks: seq<string>, n: nat, rs: seq<Record>, exposed: seq<Record>,
                          includeUsers: bool)
  {
    |items| == n <= |ks| && forall k | 0 <= k < n :: items[k] == ItemOf(ks[k], rs, exposed, includeUsers)
  }

  lemma MadeStep(items: seq<Item>, ks: seq<string>, n: nat, rs: seq<Record>, exposed: seq<Record>,
                 includeUsers: bool, item: Item)
    requires MadeFor(items, ks, n, rs, exposed, includeUsers) && n < |ks|
    requires item == ItemOf(ks[n], rs, exposed, includeUsers)
    ensures MadeFor(items + [item], ks, n + 1, rs, exposed, includeUsers)
  {
  }

  predicate HasItem(items: seq<Item>, k: string) { exists j :: 0 <= j < |items| && items[j].key == k }

  /** One item for each service of a record and each service an exposed record names, in increasing order, with
      the figures of that service. */
  ghost predicate Describes(items: seq<Item>, rs: seq<Record>, exposed: seq<Record>, includeUsers: bool) {
    && (forall j | 0 <= j < |items| :: CountsFor(items[j], rs, exposed, includeUsers))
    && (forall i, j | 0 <= i < j < |items| :: Less(items[i].key, items[j].key))
    && (forall k :: HasItem(items, k) <==> k in ServicesOf(rs) || (k != "" && k in ServicesOf(exposed)))
  }

  lemma {:induction false} BreakdownAt(rs: seq<Record>, exposed: seq<Record>, includeUsers: bool, j: nat)
    requires j < |Listing(KeysOf(rs, exposed))|
    ensures var ks, items := Listing(KeysOf(rs, exposed)), Breakdown(rs, exposed, includeUsers);
            |items| == |ks| && items[j].key == ks[j] && CountsFor(items[j], rs, exposed, includeUsers)
  {
    ItemsForAt(Listing(KeysOf(rs, exposed)), rs, exposed, includeUsers, j);
    ItemCounts(rs, exposed, includeUsers, Listing(KeysOf(rs, exposed))[j]);
  }

  lemma {:induction false} KeysListed(items: seq<Item>, ks: seq<string>)
    requires |items| == |ks| && forall j | 0 <= j < |ks| :: items[j].key == ks[j]
    ensures forall k :: HasItem(items, k) <==> k in ks
  {
    forall k ensures HasItem(items, k) <==> k in ks {
      if k in ks {
        var j :| 0 <= j < |ks| && ks[j] == k;
        assert items[j].key == k;
      }
    }
  }

  lemma {:induction false} BreakdownKeys(rs: seq<Record>, exposed: seq<Record>, includeUsers: bool)
    ensures Describes(Breakdown(rs, exposed, includeUsers), rs, exposed, includeUsers)
  {
    var ks, items := Listing(KeysOf(rs, exposed)), Breakdown(rs, exposed, includeUsers);
    if ks == [] { assert items == []; }
    forall j: nat | j < |ks|
      ensures |items| == |ks| && items[j].key == ks[j] && CountsFor(items[j], rs, exposed, includeUsers)
    {
      BreakdownAt(rs, exposed, includeUsers, j);
    }
    assert |items| == |ks| by { if ks != [] { BreakdownAt(rs, exposed, includeUsers, 0); } }
    KeysListed(items, ks);
  }

  /** breakdownByService: one pass over each record list, agreeing with the per-service queries. */
  method BreakdownByService(records: seq<Record>, exposedRecords: seq<Record>, includeUsers: bool)
    returns (items: seq<Item>)
    ensures items == Breakdown(records, exposedRecords, includeUsers)
    ensures Describes(items, records, exposedRecords, includeUsers)
  {
    var index := IndexAll(records, exposedRecords);
    var ks := Visit(index.Keys);
    var unsorted := MakeItems(ks, index, includeUsers, records, exposedRecords);
    assert forall i | 0 <= i < |ks| :: unsorted[i].key == ks[i];
    items := SortBy(unsorted, (x: Item) => x.key);
    Built(records, exposedRecords, includeUsers, ks, unsorted);
    ItemsSorted(records, exposedRecords, includeUsers, ks, items);
    BreakdownKeys(records, exposedRecords, includeUsers);
  }

  lemma Built(rs: seq<Record>, exposed: seq<Record>, includeUsers: bool, ks: seq<string>, items: seq<Item>)
    requires |items| == |ks| && forall k | 0 <= k < |ks| :: items[k] == ItemOf(ks[k], rs, exposed, includeUsers)
    ensures forall x :: x in items <==> exists i :: 0 <= i < |ks| && x == ItemOf(ks[i], rs, exposed, includeUsers)
  {
  }

  ghost function ItemOf(k: string, rs: seq<Record>, exposed: seq<Record>, includeUsers: bool): Item {
    ItemFor(k, OfService(rs, k), ExposedOf(exposed, k), includeUsers)
  }

  lemma {:induction false} ItemsForAt(ks: seq<string>, rs: seq<Record>, exposed: seq<Record>, includeUsers: bool,
                                      i: nat)
    requires i < |ks|
    ensures |ItemsFor(ks, rs, exposed, includeUsers)| == |ks|
    ensures ItemsFor(ks, rs, exposed, includeUsers)[i] == ItemOf(ks[i], rs, exposed, includeUsers)
  {
    var items := ItemsFor(ks, rs, exposed, includeUsers);
    assert items == [ItemOf(ks[0], rs, exposed, includeUsers)] + ItemsFor(ks[1..], rs, exposed, includeUsers);
    if |ks| > 1 {
      ItemsForAt(ks[1..], rs, exposed, includeUsers, if i == 0 then 0 else i - 1);
    } else {
      assert ItemsFor(ks[1..], rs, exposed, includeUsers) == [];
    }
  }

  lemma {:induction false} ItemsSorted(rs: seq<Record>, exposed: seq<Record>, includeUsers: bool,
                                       ks: seq<string>, items: seq<Item>)
    requires forall k :: k in ks <==> k in KeysOf(rs, exposed)
    requires Increasing(Keys(items, (x: Item) => x.key))
    requires forall x :: x in items <==> exists i :: 0 <= i < |ks| && x == ItemOf(ks[i], rs, exposed, includeUsers)
    ensures items == Breakdown(rs, exposed, includeUsers)
  {
    var names := Keys(items, (x: Item) => x.key);
    forall k ensures k in names <==> k in KeysOf(rs, exposed) {
      if k in names {
        var j :| 0 <= j < |names| && names[j] == k;
        assert items[j] in items;
      }
      if k in ks {
        var i :| 0 <= i < |ks| && ks[i] == k;
        assert ItemOf(ks[i], rs, exposed, includeUsers) in items;
        var j :| 0 <= j < |items| && items[j] == ItemOf(ks[i], rs, exposed, includeUsers);
        assert names[j] == k;
      }
    }
    ListingIs(names, KeysOf(rs, exposed));
    var b := Breakdown(rs, exposed, includeUsers);
    forall j | 0 <= j < |items| ensures |b| == |items| && items[j] == b[j] {
      ItemsForAt(names, rs, exposed, includeUsers, j);
      assert items[j] in items;
      assert names[j] == items[j].key;
    }
    if items == [] { assert names == []; }
  }
}
