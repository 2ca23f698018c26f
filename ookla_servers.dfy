/**
 * Server selection of the Ookla engine: the server-list URL, the parallel latency probes
 * that turn fetched servers into measurement servers (`prepareTestServers`, and the older
 * `getServersList` of the ESM build), and `getBestServers`.
 */
module OoklaServers {
  import opened Wrappers
  import opened Text
  import opened Sorting
  import opened OoklaConstants

  /**
   * A measurement server. `latency` is the probe's average in milliseconds (a server whose
   * probe saw no answer is not modelled, see README); `activeConnections` is the number of
   * transfer connections currently open to it.
   */
  datatype MeasurementServer = MeasurementServer(id: int, host: string, latency: real, activeConnections: int)

  /** The comparator `serverA.latency - serverB.latency`. */
  function LatencyOf(server: MeasurementServer): real {
    server.latency
  }

  // ---------------------------------------------------------------- server list URL

  /** `serversToFetch || DEFAULT_SERVER_LIST_SIZE`: undefined and 0 are falsy. */
  function ServerListLimit(serversToFetch: Option<int>): (limit: int)
    ensures limit == DefaultServerListSize <==> serversToFetch.None? || serversToFetch.value in {0, DefaultServerListSize}
    ensures serversToFetch.Some? && serversToFetch.value != 0 ==> limit == serversToFetch.value
  {
    if serversToFetch.None? || serversToFetch.value == 0 then DefaultServerListSize else serversToFetch.value
  }

  const ServersQuery := "https://www.speedtest.net/api/js/servers?engine=js&"

  /** The end of both server queries: the limit and the `https_functional` flag. */
  function LimitParameters(serversToFetch: Option<int>): string {
    "limit=" + IntToString(ServerListLimit(serversToFetch)) + "&https_functional=true"
  }

  /** `listServers`: the URL of the nearest-servers query. */
  function ListServersUrl(serversToFetch: Option<int>): string {
    ServersQuery + LimitParameters(serversToFetch)
  }

  /** `searchServers`: the same query with a search term. */
  function SearchServersUrl(searchTerm: string, serversToFetch: Option<int>): string {
    ServersQuery + "search=" + searchTerm + "&" + LimitParameters(serversToFetch)
  }

  /**
   * The search query is the nearest-servers query with `search=<term>&` inserted after
   * `engine=js&`: the same limit fallback and the same `https_functional` flag.
   */
  lemma SearchServersQuery(searchTerm: string, serversToFetch: Option<int>)
    ensures |ServersQuery| <= |ListServersUrl(serversToFetch)|
    ensures ListServersUrl(serversToFetch)[..|ServersQuery|] == ServersQuery
    ensures SearchServersUrl(searchTerm, serversToFetch)
         == ServersQuery + "search=" + searchTerm + "&" + ListServersUrl(serversToFetch)[|ServersQuery|..]
  {
    SplitConcat(ServersQuery, LimitParameters(serversToFetch));
  }

  lemma SplitConcat<T>(a: seq<T>, b: seq<T>)
    ensures (a + b)[..|a|] == a && (a + b)[|a|..] == b
  {
  }

  /** The ESM `getServersList` interpolates `serversToFetch` as it is, with no fallback. */
  function EsmServersUrl(serversToFetch: Option<int>): string {
    "https://www.speedtest.net/api/js/servers?engine=js&limit="
      + (if serversToFetch.Some? then IntToString(serversToFetch.value) else "undefined")
      + "&https_functional=true"
  }

  /** A missing or zero limit asks for 100 servers; the ESM build sends it unchanged. */
  lemma ServerListFallback(serversToFetch: Option<int>)
    requires serversToFetch.None? || serversToFetch.value == 0
    ensures ListServersUrl(serversToFetch) == ListServersUrl(Some(DefaultServerListSize))
    ensures ListServersUrl(serversToFetch) != EsmServersUrl(serversToFetch)
  {
    var prefix := "https://www.speedtest.net/api/js/servers?engine=js&limit=";
    var a := ListServersUrl(serversToFetch);
    var b := EsmServersUrl(serversToFetch);
    assert a[|prefix|] == '1';
    if serversToFetch.None? {
      assert b[|prefix|] == 'u';
    } else {
      assert IntToString(0) == "0";
      assert b[|prefix|] == '0';
    }
  }

  // ---------------------------------------------------------------- latency probing

  /**
   * `prepareTestServers` (current and CommonJS builds) and `getServersList` (ESM build):
   * every server gets an active-connection count of 0 and a latency probe; each probe
   * reports once, in any order. The current builds collect the servers in completion
   * order; the ESM build answers with the fetched list itself. The promise settles when
   * the last probe reports, so it never settles for an empty list.
   */
  class LatencyProbing {
    const variant: Variant
    /** The fetched servers, updated in place. */
    var servers: seq<MeasurementServer>
    /** `measurementServers`: the servers pushed as their probes report. */
    var measured: seq<MeasurementServer>
    var testsInProgress: int
    /** The value the promise settles with, once it does. */
    var resolved: Option<seq<MeasurementServer>>
    /** The indices of the probes that have reported, in order. */
    ghost var order: seq<int>

    ghost predicate Valid()
      reads this
    {
      && |measured| == |order|
      && testsInProgress == |servers| - |order|
      && (forall k :: 0 <= k < |order| ==> 0 <= order[k] < |servers| && measured[k] == servers[order[k]])
      && (forall k, l :: 0 <= k < l < |order| ==> order[k] != order[l])
      && (resolved.Some? <==> |order| == |servers| && |servers| > 0)
      && (resolved.Some? ==> resolved.value == if variant == Esm then servers else measured)
    }

    /** The `forEach` that resets the counters and starts one probe per server. */
    constructor(variant: Variant, fetched: seq<MeasurementServer>)
      ensures Valid()
      ensures this.variant == variant && order == [] && measured == [] && resolved.None?
      ensures |servers| == |fetched| && testsInProgress == |fetched|
      ensures forall i :: 0 <= i < |servers| ==> servers[i] == fetched[i].(activeConnections := 0)
    {
      this.variant := variant;
      measured := [];
      order := [];
      resolved := None;
      new;
      servers := [];
      testsInProgress := 0;
      var i := 0;
      while i < |fetched|
        invariant 0 <= i <= |fetched|
        invariant |servers| == i && testsInProgress == i
        invariant forall j :: 0 <= j < i ==> servers[j] == fetched[j].(activeConnections := 0)
        invariant measured == [] && order == [] && resolved.None?
      {
        servers := servers + [fetched[i].(activeConnections := 0)];
        testsInProgress := testsInProgress + 1;
        i := i + 1;
      }
    }

    /** The probe of server `i` reports `latency`. */
    method OnLatency(i: int, latency: real)
      requires Valid()
      requires 0 <= i < |servers| && i !in order
      modifies this
      ensures Valid()
      ensures servers == old(servers)[i := old(servers)[i].(latency := latency)]
      ensures order == old(order) + [i]
      ensures variant != Esm ==> measured == old(measured) + [servers[i]]
      ensures resolved.Some? <==> testsInProgress == 0
    {
      if |order| == |servers| {
        DistinctIndicesCover(order, |servers|);
        assert false;
      }
      servers := servers[i := servers[i].(latency := latency)];
      measured := measured + [servers[i]];
      order := order + [i];
      forall k | 0 <= k < |order| ensures measured[k] == servers[order[k]] {
        if k < |order| - 1 {
          assert order[k] != i;
        }
      }
      testsInProgress := testsInProgress - 1;
      if testsInProgress == 0 {
        resolved := Some(if variant == Esm then servers else measured);
      }
    }
  }

  /** The integers 0 .. n - 1. */
  function Range(n: nat): set<int> {
    if n == 0 then {} else Range(n - 1) + {n - 1}
  }

  lemma {:induction false} RangeFacts(n: nat)
    ensures |Range(n)| == n
    ensures forall x :: x in Range(n) <==> 0 <= x < n
    decreases n
  {
    if n > 0 {
      RangeFacts(n - 1);
    }
  }

  function Elements(s: seq<int>): set<int> {
    set x | x in s
  }

  lemma {:induction false} DistinctCardinality(s: seq<int>)
    requires forall k, l :: 0 <= k < l < |s| ==> s[k] != s[l]
    ensures |Elements(s)| == |s|
    decreases |s|
  {
    if s != [] {
      var n := |s| - 1;
      DistinctCardinality(s[..n]);
      assert Elements(s) == Elements(s[..n]) + {s[n]};
      assert s[n] !in Elements(s[..n]);
    }
  }

  /** Every index reported once and none left over: the order is a permutation of the indices. */
  lemma DistinctIndicesCover(order: seq<int>, n: nat)
    requires |order| == n
    requires forall k :: 0 <= k < |order| ==> 0 <= order[k] < n
    requires forall k, l :: 0 <= k < l < |order| ==> order[k] != order[l]
    ensures forall i :: 0 <= i < n ==> i in order
  {
    var covered := Elements(order);
    RangeFacts(n);
    DistinctCardinality(order);
    assert covered <= Range(n);
    var missing := Range(n) - covered;
    assert Range(n) == covered + missing;
    assert covered !! missing;
    assert |missing| == 0;
    forall i | 0 <= i < n ensures i in order {
      assert i in Range(n);
      assert i !in missing;
    }
  }

  /**
   * Once settled, the current builds' list holds every prepared server (with its measured
   * latency), as many entries as servers, in completion order.
   */
  lemma ResolvedCoversServers(servers: seq<MeasurementServer>, measured: seq<MeasurementServer>, order: seq<int>)
    requires |measured| == |order| == |servers|
    requires forall k :: 0 <= k < |order| ==> 0 <= order[k] < |servers| && measured[k] == servers[order[k]]
    requires forall k, l :: 0 <= k < l < |order| ==> order[k] != order[l]
    ensures forall i :: 0 <= i < |servers| ==> servers[i] in measured
  {
    DistinctIndicesCover(order, |servers|);
    forall i | 0 <= i < |servers| ensures servers[i] in measured {
      assert i in order;
      var k :| 0 <= k < |order| && order[k] == i;
      assert measured[k] == servers[i];
    }
  }

  // ---------------------------------------------------------------- ranking

  /** `servers.sort(by latency).slice(0, 4)` on a value. */
  function BestServers(servers: seq<MeasurementServer>): seq<MeasurementServer> {
    var ranked := SortBy(servers, LatencyOf);
    ranked[..if |ranked| < BestServerCount then |ranked| else BestServerCount]
  }

  /** `getBestServers`: ranks the caller's array in place by latency and returns its first four. */
  method GetBestServers(servers: array<MeasurementServer>) returns (best: seq<MeasurementServer>)
    modifies servers
    ensures servers[..] == SortBy(old(servers[..]), LatencyOf)
    ensures best == BestServers(old(servers[..]))
  {
    var ranked := SortBy(servers[..], LatencyOf);
    forall i | 0 <= i < servers.Length {
      servers[i] := ranked[i];
    }
    assert servers[..] == ranked;
    best := servers[..if servers.Length < BestServerCount then servers.Length else BestServerCount];
  }

  /** The shortlist has min(4, n) servers, in ascending latency, taken from the input. */
  lemma BestServersShape(servers: seq<MeasurementServer>)
    ensures var best := BestServers(servers);
            && |best| == (if |servers| < BestServerCount then |servers| else BestServerCount)
            && (forall i, j :: 0 <= i < j < |best| ==> best[i].latency <= best[j].latency)
            && multiset(best) <= multiset(servers)
  {
    var ranked := SortBy(servers, LatencyOf);
    var k := if |ranked| < BestServerCount then |ranked| else BestServerCount;
    assert ranked == ranked[..k] + ranked[k..];
    assert multiset(ranked) == multiset(ranked[..k]) + multiset(ranked[k..]);
    forall i, j | 0 <= i < j < k ensures ranked[i].latency <= ranked[j].latency {
      assert LatencyOf(ranked[i]) <= LatencyOf(ranked[j]);
    }
  }

  /** No server left out of the shortlist is faster than a kept one. */
  lemma BestServersKeepFastest(servers: seq<MeasurementServer>, i: int, y: MeasurementServer)
    requires 0 <= i < |BestServers(servers)|
    requires y in multiset(servers) - multiset(BestServers(servers))
    ensures BestServers(servers)[i].latency <= y.latency
  {
    var ranked := SortBy(servers, LatencyOf);
    var k := if |ranked| < BestServerCount then |ranked| else BestServerCount;
    SortedPrefixLeast(ranked, k, i, y);
  }

  lemma SortedPrefixLeast(ranked: seq<MeasurementServer>, k: int, i: int, y: MeasurementServer)
    requires SortedBy(ranked, LatencyOf)
    requires 0 <= i < k <= |ranked|
    requires y in multiset(ranked) - multiset(ranked[..k])
    ensures ranked[i].latency <= y.latency
  {
    var dropped := ranked[k..];
    assert ranked == ranked[..k] + dropped;
    assert multiset(ranked) == multiset(ranked[..k]) + multiset(dropped);
    assert y in multiset(dropped);
    var j :| 0 <= j < |dropped| && dropped[j] == y;
    assert ranked[k + j] == y;
    assert LatencyOf(ranked[i]) <= LatencyOf(ranked[k + j]);
  }

  /** The head of the shortlist is a fastest server of the whole list. */
  lemma BestServerIsFastest(servers: seq<MeasurementServer>, y: MeasurementServer)
    requires y in servers
    ensures BestServers(servers) != []
    ensures BestServers(servers)[0].latency <= y.latency
  {
    var ranked := SortBy(servers, LatencyOf);
    assert y in multiset(ranked);
    SortedHeadLeast(ranked, LatencyOf, y);
  }
}
