/**
 * The alert cycle of `AlertsManager.check_alerts`: for every watched query,
 * the fetched deals are matched against the query's subscribers; a
 * `(alert id, deal link)` pair is notified at most once, never when the
 * history already holds it, and only within the alert's price ceiling; the
 * notified pairs are written to the history in one batch at the end.
 *
 * The cycle is specified by folds over the listings it works from
 * (`CycleFold`); `AlertsManager.CheckAlerts` is proved to compute that fold,
 * and the lemmas below characterise the fold without reference to the order
 * of the listings.
 */
module Alerts {
  import opened Wrappers
  import opened Price
  import opened Store

  /** A deal as the scraper reports it; only the link and the price text matter here. */
  datatype Deal = Deal(link: string, title: string, price: Option<string>)

  /** What `search_deals` answers for one query. */
  datatype FetchResult = FetchResult(success: bool, deals: seq<Deal>)

  /** One entry of the returned list: who to tell, about which deal, for which query. */
  datatype Notification = Notification(userId: int, deal: Deal, query: string)

  /** The cycle's working state: `notifications`, `batch_seen` and `seen_in_cycle`. */
  datatype Cycle = Cycle(notes: seq<Notification>, batch: seq<HistoryKey>, seen: set<HistoryKey>)

  const Start: Cycle := Cycle([], [], {})

  /** `max_price is None or deal_price <= max_price` */
  predicate PriceOk(maxPrice: Option<real>, price: real)
  {
    maxPrice.None? || price <= maxPrice.value
  }

  // ---------------------------------------------------------------------------
  // The cycle, as folds over the listings it reads (`h` is the history).

  /** The body of the innermost loop: one subscriber against one deal. */
  function SubStep(h: set<HistoryKey>, st: Cycle, q: string, deal: Deal, price: real, sub: Alert): Cycle
  {
    var key := HistoryKey(sub.id, deal.link);
    if key in st.seen then st
    else if key in h then st.(seen := st.seen + {key})
    else if PriceOk(sub.maxPrice, price) then
      Cycle(st.notes + [Notification(sub.userId, deal, q)], st.batch + [key], st.seen + {key})
    else st
  }

  function SubsFold(h: set<HistoryKey>, st: Cycle, q: string, deal: Deal, price: real, subs: seq<Alert>): Cycle
    decreases |subs|
  {
    if subs == [] then st
    else SubStep(h, SubsFold(h, st, q, deal, price, subs[..|subs| - 1]), q, deal, price, subs[|subs| - 1])
  }

  function DealsFold(h: set<HistoryKey>, st: Cycle, q: string, deals: seq<Deal>, subs: seq<Alert>): Cycle
    decreases |deals|
  {
    if deals == [] then st
    else
      var deal := deals[|deals| - 1];
      SubsFold(h, DealsFold(h, st, q, deals[..|deals| - 1], subs), q, deal, ParsePrice(deal.price), subs)
  }

  /** One query: nothing when the fetch failed or nobody watches it. */
  function QueryStep(h: set<HistoryKey>, st: Cycle, q: string, r: FetchResult, subs: seq<Alert>): Cycle
  {
    if !r.success || subs == [] then st else DealsFold(h, st, q, r.deals, subs)
  }

  /** The whole cycle over the queries `qs`, `subsLists[i]` being the subscribers listed for `qs[i]`. */
  function CycleFold(h: set<HistoryKey>, st: Cycle, qs: seq<string>, fetch: string -> FetchResult, subsLists: seq<seq<Alert>>): Cycle
    requires |subsLists| == |qs|
    decreases |qs|
  {
    if qs == [] then st
    else
      var n := |qs| - 1;
      QueryStep(h, CycleFold(h, st, qs[..n], fetch, subsLists[..n]), qs[n], fetch(qs[n]), subsLists[n])
  }

  // ---------------------------------------------------------------------------
  // The pairs a cycle looks at and would notify, ignoring the history.

  function OwnKey(deal: Deal, price: real, sub: Alert): set<HistoryKey>
  {
    if PriceOk(sub.maxPrice, price) then {HistoryKey(sub.id, deal.link)} else {}
  }

  function SubKeys(deal: Deal, price: real, subs: seq<Alert>): set<HistoryKey>
    decreases |subs|
  {
    if subs == [] then {} else SubKeys(deal, price, subs[..|subs| - 1]) + OwnKey(deal, price, subs[|subs| - 1])
  }

  function DealKeys(deals: seq<Deal>, subs: seq<Alert>): set<HistoryKey>
    decreases |deals|
  {
    if deals == [] then {}
    else
      var deal := deals[|deals| - 1];
      DealKeys(deals[..|deals| - 1], subs) + SubKeys(deal, ParsePrice(deal.price), subs)
  }

  function QueryKeys(r: FetchResult, subs: seq<Alert>): set<HistoryKey>
  {
    if !r.success || subs == [] then {} else DealKeys(r.deals, subs)
  }

  function CycleKeys(qs: seq<string>, fetch: string -> FetchResult, subsLists: seq<seq<Alert>>): set<HistoryKey>
    requires |subsLists| == |qs|
    decreases |qs|
  {
    if qs == [] then {}
    else
      var n := |qs| - 1;
      CycleKeys(qs[..n], fetch, subsLists[..n]) + QueryKeys(fetch(qs[n]), subsLists[n])
  }

  /**
   * The pairs worth notifying, straight from the alerts table: an alert and
   * a deal fetched for its query whose price is within the alert's ceiling.
   */
  ghost function Wanted(alerts: map<AlertKey, AlertRow>, fetch: string -> FetchResult): set<HistoryKey>
  {
    set ak, d | ak in alerts && fetch(ak.query).success && d in fetch(ak.query).deals &&
                PriceOk(alerts[ak].maxPrice, ParsePrice(d.price)) :: HistoryKey(alerts[ak].id, d.link)
  }

  /** Notification `n`, staged as `key`, is for a stored alert and a fetched deal within its ceiling. */
  predicate Justified(n: Notification, key: HistoryKey, alerts: map<AlertKey, AlertRow>, fetch: string -> FetchResult)
  {
    var ak := AlertKey(n.userId, n.query);
    && ak in alerts
    && key == HistoryKey(alerts[ak].id, n.deal.link)
    && fetch(n.query).success
    && n.deal in fetch(n.query).deals
    && PriceOk(alerts[ak].maxPrice, ParsePrice(n.deal.price))
  }

  /** Every subscriber listed for a successfully fetched query is a stored alert of that query. */
  predicate ListsStored(qs: seq<string>, fetch: string -> FetchResult, subsLists: seq<seq<Alert>>, alerts: map<AlertKey, AlertRow>)
    requires |subsLists| == |qs|
  {
    forall i :: 0 <= i < |qs| && fetch(qs[i]).success ==>
      forall s :: s in subsLists[i] ==> AlertStored(s, alerts) && s.query == qs[i]
  }

  /**
   * What holds of the working state after visiting the pairs whose notifiable
   * ones are `K`: one staged key per notification, no key twice, none from the
   * history, each justified; every notifiable pair visited is in the
   * in-cycle set, and that set holds only history and staged keys.
   */
  predicate Inv(h: set<HistoryKey>, alerts: map<AlertKey, AlertRow>, fetch: string -> FetchResult, st: Cycle, K: set<HistoryKey>)
  {
    && |st.notes| == |st.batch|
    && Distinct(st.batch)
    && (forall i :: 0 <= i < |st.batch| ==> st.batch[i] !in h && st.batch[i] in st.seen)
    && (forall i :: 0 <= i < |st.batch| ==> Justified(st.notes[i], st.batch[i], alerts, fetch))
    && K <= st.seen
    && (forall k :: k in st.seen ==> k in h || k in st.batch)
  }

  lemma SubStepKeeps(h: set<HistoryKey>, alerts: map<AlertKey, AlertRow>, fetch: string -> FetchResult,
                     st: Cycle, K: set<HistoryKey>, q: string, deal: Deal, sub: Alert)
    requires Inv(h, alerts, fetch, st, K)
    requires AlertStored(sub, alerts) && sub.query == q && fetch(q).success && deal in fetch(q).deals
    ensures Inv(h, alerts, fetch, SubStep(h, st, q, deal, ParsePrice(deal.price), sub), K + OwnKey(deal, ParsePrice(deal.price), sub))
  {
    var price := ParsePrice(deal.price);
    var key := HistoryKey(sub.id, deal.link);
    if key !in st.seen && key !in h && PriceOk(sub.maxPrice, price) {
      var n := Notification(sub.userId, deal, q);
      assert Justified(n, key, alerts, fetch);
      assert key !in st.batch;
      DistinctSnoc(st.batch, key);
    }
  }

  lemma {:induction false} SubsFoldKeeps(h: set<HistoryKey>, alerts: map<AlertKey, AlertRow>, fetch: string -> FetchResult,
                                         st: Cycle, K: set<HistoryKey>, q: string, deal: Deal, subs: seq<Alert>)
    requires Inv(h, alerts, fetch, st, K)
    requires forall s :: s in subs ==> AlertStored(s, alerts) && s.query == q
    requires fetch(q).success && deal in fetch(q).deals
    ensures Inv(h, alerts, fetch, SubsFold(h, st, q, deal, ParsePrice(deal.price), subs), K + SubKeys(deal, ParsePrice(deal.price), subs))
    decreases |subs|
  {
    if subs != [] {
      var n := |subs| - 1;
      var price := ParsePrice(deal.price);
      assert forall s :: s in subs[..n] ==> s in subs;
      SubsFoldKeeps(h, alerts, fetch, st, K, q, deal, subs[..n]);
      SubStepKeeps(h, alerts, fetch, SubsFold(h, st, q, deal, price, subs[..n]), K + SubKeys(deal, price, subs[..n]), q, deal, subs[n]);
    }
  }

  lemma {:induction false} DealsFoldKeeps(h: set<HistoryKey>, alerts: map<AlertKey, AlertRow>, fetch: string -> FetchResult,
                                          st: Cycle, K: set<HistoryKey>, q: string, deals: seq<Deal>, subs: seq<Alert>)
    requires Inv(h, alerts, fetch, st, K)
    requires forall s :: s in subs ==> AlertStored(s, alerts) && s.query == q
    requires fetch(q).success && forall d :: d in deals ==> d in fetch(q).deals
    ensures Inv(h, alerts, fetch, DealsFold(h, st, q, deals, subs), K + DealKeys(deals, subs))
    decreases |deals|
  {
    if deals != [] {
      var n := |deals| - 1;
      var deal := deals[n];
      assert forall d :: d in deals[..n] ==> d in deals;
      DealsFoldKeeps(h, alerts, fetch, st, K, q, deals[..n], subs);
      SubsFoldKeeps(h, alerts, fetch, DealsFold(h, st, q, deals[..n], subs), K + DealKeys(deals[..n], subs), q, deal, subs);
    }
  }

  lemma {:induction false} CycleFoldKeeps(h: set<HistoryKey>, alerts: map<AlertKey, AlertRow>, fetch: string -> FetchResult,
                                          st: Cycle, K: set<HistoryKey>, qs: seq<string>, subsLists: seq<seq<Alert>>)
    requires |subsLists| == |qs|
    requires Inv(h, alerts, fetch, st, K)
    requires ListsStored(qs, fetch, subsLists, alerts)
    ensures Inv(h, alerts, fetch, CycleFold(h, st, qs, fetch, subsLists), K + CycleKeys(qs, fetch, subsLists))
    decreases |qs|
  {
    if qs != [] {
      var n := |qs| - 1;
      var q, subs := qs[n], subsLists[n];
      assert ListsStored(qs[..n], fetch, subsLists[..n], alerts) by {
        forall i | 0 <= i < n && fetch(qs[..n][i]).success
          ensures forall s :: s in subsLists[..n][i] ==> AlertStored(s, alerts) && s.query == qs[..n][i]
        {
          assert qs[..n][i] == qs[i] && subsLists[..n][i] == subsLists[i];
        }
      }
      CycleFoldKeeps(h, alerts, fetch, st, K, qs[..n], subsLists[..n]);
      var mid := CycleFold(h, st, qs[..n], fetch, subsLists[..n]);
      var K1 := K + CycleKeys(qs[..n], fetch, subsLists[..n]);
      if fetch(q).success && subs != [] {
        DealsFoldKeeps(h, alerts, fetch, mid, K1, q, fetch(q).deals, subs);
      }
    }
  }

  // ---------------------------------------------------------------------------
  // Every wanted pair is visited by a cycle over complete listings.

  lemma {:induction false} SubKeysHas(deal: Deal, price: real, subs: seq<Alert>, s: Alert)
    requires s in subs && PriceOk(s.maxPrice, price)
    ensures HistoryKey(s.id, deal.link) in SubKeys(deal, price, subs)
    decreases |subs|
  {
    var n := |subs| - 1;
    if subs[n] != s {
      assert s in subs[..n] by { assert subs == subs[..n] + [subs[n]]; }
      SubKeysHas(deal, price, subs[..n], s);
    }
  }

  lemma {:induction false} DealKeysHas(deals: seq<Deal>, subs: seq<Alert>, d: Deal, s: Alert)
    requires d in deals && s in subs && PriceOk(s.maxPrice, ParsePrice(d.price))
    ensures HistoryKey(s.id, d.link) in DealKeys(deals, subs)
    decreases |deals|
  {
    var n := |deals| - 1;
    if deals[n] == d {
      SubKeysHas(d, ParsePrice(d.price), subs, s);
    } else {
      assert d in deals[..n] by { assert deals == deals[..n] + [deals[n]]; }
      DealKeysHas(deals[..n], subs, d, s);
    }
  }

  lemma {:induction false} CycleKeysHas(qs: seq<string>, fetch: string -> FetchResult, subsLists: seq<seq<Alert>>, i: nat)
    requires |subsLists| == |qs| && i < |qs|
    ensures QueryKeys(fetch(qs[i]), subsLists[i]) <= CycleKeys(qs, fetch, subsLists)
    decreases |qs|
  {
    var n := |qs| - 1;
    if i < n {
      assert qs[..n][i] == qs[i] && subsLists[..n][i] == subsLists[i];
      CycleKeysHas(qs[..n], fetch, subsLists[..n], i);
    }
  }

  /** The first `n` subscriber listings are complete for the queries whose fetch succeeded. */
  predicate SubscribersRead(qs: seq<string>, fetch: string -> FetchResult, subsLists: seq<seq<Alert>>, alerts: map<AlertKey, AlertRow>, n: nat)
    requires n <= |subsLists| && n <= |qs|
  {
    forall i :: 0 <= i < n && fetch(qs[i]).success ==> SubscribersListed(subsLists[i], alerts, qs[i])
  }

  /** One more listing, complete when its query's fetch succeeded, extends the complete ones. */
  lemma SubscribersReadSnoc(qs: seq<string>, fetch: string -> FetchResult, subsLists: seq<seq<Alert>>,
                            alerts: map<AlertKey, AlertRow>, subs: seq<Alert>)
    requires |subsLists| < |qs| && SubscribersRead(qs, fetch, subsLists, alerts, |subsLists|)
    requires fetch(qs[|subsLists|]).success ==> SubscribersListed(subs, alerts, qs[|subsLists|])
    ensures SubscribersRead(qs, fetch, subsLists + [subs], alerts, |subsLists| + 1)
  {
    var next := subsLists + [subs];
    forall i | 0 <= i < |next| && fetch(qs[i]).success
      ensures SubscribersListed(next[i], alerts, qs[i])
    {
      if i < |subsLists| {
        assert next[i] == subsLists[i];
      }
    }
  }

  /** The listings of one cycle: every watched query once, and for each fetched one its subscribers. */
  predicate Listed(qs: seq<string>, fetch: string -> FetchResult, subsLists: seq<seq<Alert>>, alerts: map<AlertKey, AlertRow>)
  {
    && QueriesListed(qs, alerts)
    && |subsLists| == |qs|
    && SubscribersRead(qs, fetch, subsLists, alerts, |qs|)
  }

  lemma WantedVisited(qs: seq<string>, fetch: string -> FetchResult, subsLists: seq<seq<Alert>>, alerts: map<AlertKey, AlertRow>)
    requires Listed(qs, fetch, subsLists, alerts)
    ensures Wanted(alerts, fetch) <= CycleKeys(qs, fetch, subsLists)
  {
    forall key | key in Wanted(alerts, fetch)
      ensures key in CycleKeys(qs, fetch, subsLists)
    {
      var ak, d :| ak in alerts && fetch(ak.query).success && d in fetch(ak.query).deals &&
                   PriceOk(alerts[ak].maxPrice, ParsePrice(d.price)) && key == HistoryKey(alerts[ak].id, d.link);
      var i :| 0 <= i < |qs| && qs[i] == ak.query;
      var s := AlertOf(ak, alerts[ak]);
      assert s in subsLists[i];
      DealKeysHas(fetch(qs[i]).deals, subsLists[i], d, s);
      CycleKeysHas(qs, fetch, subsLists, i);
    }
  }

  lemma JustifiedIsWanted(n: Notification, key: HistoryKey, alerts: map<AlertKey, AlertRow>, fetch: string -> FetchResult)
    requires Justified(n, key, alerts, fetch)
    ensures key in Wanted(alerts, fetch)
  {
    var ak := AlertKey(n.userId, n.query);
    assert ak.query == n.query;
  }

  // ---------------------------------------------------------------------------
  // What a cycle does, whatever order the listings come in.

  /**
   * A cycle over complete listings notifies exactly the wanted pairs the
   * history does not hold, each once, one staged key per notification in
   * order, each notification for a stored alert within its price ceiling.
   */
  lemma CycleOutcome(h: set<HistoryKey>, alerts: map<AlertKey, AlertRow>, fetch: string -> FetchResult,
                     qs: seq<string>, subsLists: seq<seq<Alert>>)
    requires Listed(qs, fetch, subsLists, alerts)
    ensures var c := CycleFold(h, Start, qs, fetch, subsLists);
            && |c.notes| == |c.batch|
            && Distinct(c.batch)
            && (forall i :: 0 <= i < |c.batch| ==> Justified(c.notes[i], c.batch[i], alerts, fetch))
            && (forall k :: k in c.batch <==> k in Wanted(alerts, fetch) && k !in h)
  {
    assert ListsStored(qs, fetch, subsLists, alerts);
    CycleFoldKeeps(h, alerts, fetch, Start, {}, qs, subsLists);
    WantedVisited(qs, fetch, subsLists, alerts);
    var c := CycleFold(h, Start, qs, fetch, subsLists);
    forall k | k in c.batch
      ensures k in Wanted(alerts, fetch)
    {
      var i :| 0 <= i < |c.batch| && c.batch[i] == k;
      JustifiedIsWanted(c.notes[i], k, alerts, fetch);
    }
  }

  /**
   * Once a cycle's batch is added to the history, a cycle over the same
   * alerts and the same fetch results, listed in any order, notifies nothing.
   */
  lemma SecondCycleIsQuiet(h: set<HistoryKey>, alerts: map<AlertKey, AlertRow>, fetch: string -> FetchResult,
                           qs1: seq<string>, subs1: seq<seq<Alert>>, qs2: seq<string>, subs2: seq<seq<Alert>>)
    requires Listed(qs1, fetch, subs1, alerts) && Listed(qs2, fetch, subs2, alerts)
    ensures var first := CycleFold(h, Start, qs1, fetch, subs1);
            CycleFold(h + (set k | k in first.batch), Start, qs2, fetch, subs2).notes == []
  {
    var first := CycleFold(h, Start, qs1, fetch, subs1);
    var h2 := h + (set k | k in first.batch);
    CycleOutcome(h, alerts, fetch, qs1, subs1);
    CycleOutcome(h2, alerts, fetch, qs2, subs2);
    var second := CycleFold(h2, Start, qs2, fetch, subs2);
    forall k ensures k !in second.batch {
      if k in Wanted(alerts, fetch) && k !in h {
        assert k in first.batch;
      }
    }
    assert (set k | k in second.batch) == {};
    DistinctSetSize(second.batch);
  }

  /** Queries whose fetch failed or that nobody watches leave the cycle's state as it was. */
  lemma {:induction false} SkippedQueriesAddNothing(h: set<HistoryKey>, st: Cycle, qs: seq<string>,
                                                     fetch: string -> FetchResult, subsLists: seq<seq<Alert>>)
    requires |subsLists| == |qs|
    requires forall i :: 0 <= i < |qs| ==> !fetch(qs[i]).success || subsLists[i] == []
    ensures CycleFold(h, st, qs, fetch, subsLists) == st
    decreases |qs|
  {
    if qs != [] {
      var n := |qs| - 1;
      assert forall i :: 0 <= i < n ==> qs[..n][i] == qs[i] && subsLists[..n][i] == subsLists[i];
      SkippedQueriesAddNothing(h, st, qs[..n], fetch, subsLists[..n]);
    }
  }

  // ---------------------------------------------------------------------------
  // The manager.

  class AlertsManager {
    const db: Database

    constructor (db: Database)
      ensures this.db == db
    {
      this.db := db;
    }

    /** The body of the loop over a query's deals: the deal's price, then each subscriber in turn. */
    method MatchDeal(st: Cycle, q: string, deal: Deal, subs: seq<Alert>) returns (next: Cycle)
      ensures next == SubsFold(db.history, st, q, deal, ParsePrice(deal.price), subs)
    {
      var price := ParsePrice(deal.price);
      next := st;
      for si := 0 to |subs|
        invariant next == SubsFold(db.history, st, q, deal, price, subs[..si])
      {
        var sub := subs[si];
        var key := HistoryKey(sub.id, deal.link);
        if key !in next.seen {
          var known := db.IsDealSeenByAlert(sub.id, deal.link);
          if known {
            next := next.(seen := next.seen + {key});
          } else if PriceOk(sub.maxPrice, price) {
            next := Cycle(next.notes + [Notification(sub.userId, deal, q)], next.batch + [key], next.seen + {key});
          }
        }
        assert subs[..si + 1][..si] == subs[..si];
      }
      assert subs[..|subs|] == subs;
    }

    /** The loop over the deals fetched for a query that has subscribers. */
    method MatchDeals(st: Cycle, q: string, deals: seq<Deal>, subs: seq<Alert>) returns (next: Cycle)
      ensures next == DealsFold(db.history, st, q, deals, subs)
    {
      next := st;
      for di := 0 to |deals|
        invariant next == DealsFold(db.history, st, q, deals[..di], subs)
      {
        next := MatchDeal(next, q, deals[di], subs);
        assert deals[..di + 1][..di] == deals[..di];
      }
      assert deals[..|deals|] == deals;
    }

    /** The body of the loop over queries: nothing for a failed fetch or a query nobody watches. */
    method MatchQuery(st: Cycle, q: string, result: FetchResult) returns (next: Cycle, ghost subs: seq<Alert>)
      ensures result.success ==> SubscribersListed(subs, db.alerts, q)
      ensures next == QueryStep(db.history, st, q, result, subs)
    {
      next, subs := st, [];
      if result.success {
        var found := db.GetAlertsByQuery(q);
        subs := found;
        if found != [] {
          next := MatchDeals(st, q, result.deals, found);
        }
      }
    }

    /**
     * `check_alerts`, with the scraper's answer to each query as `fetch`.
     * Also returns, as ghosts, the query listing and the subscriber listings
     * it read (an empty one where the fetch failed and nothing was read).
     */
    method CheckAlerts(fetch: string -> FetchResult) returns (notes: seq<Notification>, ghost queries: seq<string>, ghost subsLists: seq<seq<Alert>>)
      modifies db`history
      ensures Listed(queries, fetch, subsLists, db.alerts)
      ensures var c := CycleFold(old(db.history), Start, queries, fetch, subsLists);
              notes == c.notes && db.history == old(db.history) + (set k | k in c.batch)
    {
      var cycle := Start;
      ghost var h := db.history;
      var unique := db.GetAllUniqueQueries();
      queries, subsLists := unique, [];
      for qi := 0 to |unique|
        invariant db.history == h
        invariant |subsLists| == qi
        invariant SubscribersRead(queries, fetch, subsLists, db.alerts, qi)
        invariant cycle == CycleFold(h, Start, queries[..qi], fetch, subsLists)
      {
        var q := unique[qi];
        ghost var subs;
        cycle, subs := MatchQuery(cycle, q, fetch(q));
        SubscribersReadSnoc(queries, fetch, subsLists, db.alerts, subs);
        subsLists := subsLists + [subs];
        assert queries[..qi + 1][..qi] == queries[..qi];
        assert subsLists[..qi] == subsLists[..qi + 1][..qi];
      }
      assert queries[..|queries|] == queries;

      if cycle.batch != [] {
        db.MarkDealsSeenBatch(cycle.batch);
      }
      notes := cycle.notes;
    }
  }

  /**
   * Running the check again straight after, with the scraper giving the same
   * answers, notifies nobody.
   */
  method RecheckIsQuiet(manager: AlertsManager, fetch: string -> FetchResult) returns (first: seq<Notification>, second: seq<Notification>)
    modifies manager.db`history
    ensures second == []
  {
    ghost var h := manager.db.history;
    ghost var qs1, subs1, qs2, subs2;
    first, qs1, subs1 := manager.CheckAlerts(fetch);
    second, qs2, subs2 := manager.CheckAlerts(fetch);
    SecondCycleIsQuiet(h, manager.db.alerts, fetch, qs1, subs1, qs2, subs2);
  }
}
