/**
 * The bot's SQLite store (`Database`), with the SQL engine replaced by the
 * tables it keeps: maps keyed by each table's unique columns and sets of
 * primary keys. `CURRENT_TIMESTAMP` and `DATE('now')` are parameters.
 */
module Store {
  import opened Wrappers
  import opened Clock

  /** The `(user_id, query)` pair an alert is unique on. */
  datatype AlertKey = AlertKey(userId: int, query: string)

  /** The other columns of an `alerts` row. */
  datatype AlertRow = AlertRow(id: int, maxPrice: Option<real>, createdAt: DateTime)

  /** A whole `alerts` row, as the listings return it. */
  datatype Alert = Alert(id: int, userId: int, query: string, maxPrice: Option<real>, createdAt: DateTime)

  /** A primary key of `alert_history`: this alert has seen this deal link. */
  datatype HistoryKey = HistoryKey(alertId: int, dealId: string)

  /** A primary key of `category_sent_deals`. */
  datatype SentKey = SentKey(categoryId: int, dealId: string)

  /** The `(guild_id, slug)` pair a category config is unique on. */
  datatype ConfigKey = ConfigKey(guildId: int, slug: string)

  /** A `category_configs` row. */
  datatype CategoryConfig = CategoryConfig(
    id: int, guildId: int, slug: string, name: Option<string>, channelId: int,
    scheduleType: string, scheduleTime: string, scheduleDay: Option<string>, scheduleDate: Option<int>,
    minTemperature: int, maxPrice: Option<real>, status: string, lastRun: Option<DateTime>,
    updatedAt: DateTime)

  /** A primary key of `category_stats`: one row per category and calendar day. */
  datatype StatsKey = StatsKey(categoryId: int, date: Date)

  datatype Stats = Stats(dealsFound: int, dealsSent: int, scrapeErrors: int)

  /** The status a new category config starts with. */
  const ActiveStatus: string := "active"

  /** `CURRENT_TIMESTAMP` keeps whole seconds. */
  function Stamp(now: DateTime): (t: DateTime)
    ensures ValidDateTime(now) ==> ValidDateTime(t)
    ensures t.micro == 0 && DateOf(t) == DateOf(now)
  {
    now.(micro := 0)
  }

  function AlertOf(k: AlertKey, row: AlertRow): Alert
  {
    Alert(row.id, k.userId, k.query, row.maxPrice, row.createdAt)
  }

  predicate Distinct<T(==)>(s: seq<T>)
  {
    forall i, j :: 0 <= i < j < |s| ==> s[i] != s[j]
  }

  /** A sequence without repeats has as many elements as the set of them. */
  lemma {:induction false} DistinctSetSize<T>(s: seq<T>)
    requires Distinct(s)
    ensures |set x | x in s| == |s|
    decreases |s|
  {
    if s != [] {
      var n := |s| - 1;
      var init := s[..n];
      assert Distinct(init);
      DistinctSetSize(init);
      assert s == init + [s[n]];
      assert (set x | x in s) == (set x | x in init) + {s[n]};
      assert s[n] !in init;
    }
  }

  lemma DistinctSnoc<T>(s: seq<T>, x: T)
    requires Distinct(s) && x !in s
    ensures Distinct(s + [x])
  {
  }

  /** `a` is the row stored in `alerts` under its own key. */
  predicate AlertStored(a: Alert, alerts: map<AlertKey, AlertRow>)
  {
    AlertKey(a.userId, a.query) in alerts && AlertOf(AlertKey(a.userId, a.query), alerts[AlertKey(a.userId, a.query)]) == a
  }

  /** `rows` lists every alert of `userId` once, and nothing else. */
  predicate UserAlertsListed(rows: seq<Alert>, alerts: map<AlertKey, AlertRow>, userId: int)
  {
    && Distinct(rows)
    && (forall i :: 0 <= i < |rows| ==> rows[i].userId == userId && AlertStored(rows[i], alerts))
    && (forall k :: k in alerts && k.userId == userId ==> AlertOf(k, alerts[k]) in rows)
  }

  /** `rows` lists every alert watching `query` once, and nothing else. */
  predicate SubscribersListed(rows: seq<Alert>, alerts: map<AlertKey, AlertRow>, query: string)
  {
    && Distinct(rows)
    && (forall i :: 0 <= i < |rows| ==> rows[i].query == query && AlertStored(rows[i], alerts))
    && (forall k :: k in alerts && k.query == query ==> AlertOf(k, alerts[k]) in rows)
  }

  function QueriesOf(alerts: map<AlertKey, AlertRow>): set<string>
  {
    set k | k in alerts :: k.query
  }

  /** `qs` lists every watched query once: `SELECT DISTINCT query`. */
  predicate QueriesListed(qs: seq<string>, alerts: map<AlertKey, AlertRow>)
  {
    && Distinct(qs)
    && (forall i :: 0 <= i < |qs| ==> qs[i] in QueriesOf(alerts))
    && (forall k :: k in alerts ==> k.query in qs)
  }

  /** `c` is the config stored under its own key. */
  predicate ConfigStored(c: CategoryConfig, configs: map<ConfigKey, CategoryConfig>)
  {
    ConfigKey(c.guildId, c.slug) in configs && configs[ConfigKey(c.guildId, c.slug)] == c
  }

  /** The filter of `get_guild_categories`: an empty or missing status filters nothing. */
  predicate InGuildListing(c: CategoryConfig, guildId: int, status: Option<string>)
  {
    c.guildId == guildId && (status.None? || status.value == "" || c.status == status.value)
  }

  predicate GuildListed(rows: seq<CategoryConfig>, configs: map<ConfigKey, CategoryConfig>, guildId: int, status: Option<string>)
  {
    && Distinct(rows)
    && (forall i :: 0 <= i < |rows| ==> InGuildListing(rows[i], guildId, status) && ConfigStored(rows[i], configs))
    && (forall k :: k in configs && InGuildListing(configs[k], guildId, status) ==> configs[k] in rows)
  }

  /** `ORDER BY guild_id, id` */
  predicate Before(a: CategoryConfig, b: CategoryConfig)
  {
    a.guildId < b.guildId || (a.guildId == b.guildId && a.id < b.id)
  }

  predicate Ordered(rows: seq<CategoryConfig>)
  {
    forall i, j :: 0 <= i < j < |rows| ==> Before(rows[i], rows[j])
  }

  /** The active configs, each once, in schedule order. */
  predicate ActiveListed(rows: seq<CategoryConfig>, configs: map<ConfigKey, CategoryConfig>)
  {
    && Ordered(rows)
    && (forall i :: 0 <= i < |rows| ==> rows[i].status == ActiveStatus && ConfigStored(rows[i], configs))
    && (forall k :: k in configs && configs[k].status == ActiveStatus ==> configs[k] in rows)
  }

  /** `sent_at < datetime('now', '-N days')`: older than `days` whole days before `now`, to the second. */
  predicate Expired(t: DateTime, now: DateTime, days: nat)
    requires ValidDateTime(t) && ValidDateTime(now)
  {
    Micros(t) < Micros(Stamp(now)) - days * MicrosPerDay
  }

  predicate StampsValid<K>(m: map<K, DateTime>)
  {
    forall k :: k in m ==> ValidDateTime(m[k])
  }

  /** The rows a purge keeps. */
  function Prune<K>(m: map<K, DateTime>, now: DateTime, days: nat): (r: map<K, DateTime>)
    requires StampsValid(m) && ValidDateTime(now)
    ensures StampsValid(r)
  {
    map k | k in m && !Expired(m[k], now, days) :: m[k]
  }

  /** A purge keeps a row iff it is recent enough, and leaves its timestamp alone. */
  lemma PruneKeepsRecent<K>(m: map<K, DateTime>, now: DateTime, days: nat, k: K)
    requires StampsValid(m) && ValidDateTime(now)
    ensures k in Prune(m, now, days) <==> k in m && !Expired(m[k], now, days)
    ensures k in Prune(m, now, days) ==> Prune(m, now, days)[k] == m[k]
  {
  }

  /** Purging twice with the same clock is purging once. */
  lemma PruneIdempotent<K>(m: map<K, DateTime>, now: DateTime, days: nat)
    requires StampsValid(m) && ValidDateTime(now)
    ensures Prune(Prune(m, now, days), now, days) == Prune(m, now, days)
  {
  }

  /** `INSERT OR IGNORE` with the current timestamp: an existing row keeps its time. */
  function InsertOrIgnore<K>(m: map<K, DateTime>, k: K, stamp: DateTime): (r: map<K, DateTime>)
    ensures k in r && r.Keys == m.Keys + {k}
    ensures forall j :: j in m ==> j in r && r[j] == m[j]
    ensures k !in m ==> r[k] == stamp
  {
    if k in m then m else m[k := stamp]
  }

  /** Inserting the same row twice is inserting it once. */
  lemma InsertOrIgnoreIdempotent<K>(m: map<K, DateTime>, k: K, s1: DateTime, s2: DateTime)
    ensures InsertOrIgnore(InsertOrIgnore(m, k, s1), k, s2) == InsertOrIgnore(m, k, s1)
  {
  }

  /** `INSERT OR IGNORE` of each record in turn, all with one timestamp. */
  function InsertAll<K>(m: map<K, DateTime>, records: seq<K>, stamp: DateTime): (r: map<K, DateTime>)
    decreases |records|
  {
    if records == [] then m
    else InsertOrIgnore(InsertAll(m, records[..|records| - 1], stamp), records[|records| - 1], stamp)
  }

  /** The batch adds exactly the new records, stamped, and keeps every old row as it was. */
  lemma {:induction false} InsertAllAddsRecords<K>(m: map<K, DateTime>, records: seq<K>, stamp: DateTime)
    ensures InsertAll(m, records, stamp).Keys == m.Keys + set r | r in records
    ensures forall k :: k in m ==> InsertAll(m, records, stamp)[k] == m[k]
    ensures forall k :: k in InsertAll(m, records, stamp) && k !in m ==> InsertAll(m, records, stamp)[k] == stamp
    decreases |records|
  {
    if records != [] {
      var init := records[..|records| - 1];
      InsertAllAddsRecords(m, init, stamp);
      assert records == init + [records[|records| - 1]];
      assert (set r | r in records) == (set r | r in init) + {records[|records| - 1]};
    }
  }

  /** The counters after adding `delta` to the day's row, creating it when it is missing. */
  function Accumulate(stats: map<StatsKey, Stats>, key: StatsKey, delta: Stats): (r: map<StatsKey, Stats>)
    ensures key in r && r.Keys == stats.Keys + {key}
    ensures forall k :: k in stats && k != key ==> r[k] == stats[k]
    ensures key !in stats ==> r[key] == delta
    ensures key in stats ==> r[key] == Stats(stats[key].dealsFound + delta.dealsFound,
                                             stats[key].dealsSent + delta.dealsSent,
                                             stats[key].scrapeErrors + delta.scrapeErrors)
  {
    var old_ := if key in stats then stats[key] else Stats(0, 0, 0);
    stats[key := Stats(old_.dealsFound + delta.dealsFound, old_.dealsSent + delta.dealsSent, old_.scrapeErrors + delta.scrapeErrors)]
  }

  /** Two updates of one day add up: the row holds the sum of both, whatever it held before. */
  lemma AccumulateTwice(stats: map<StatsKey, Stats>, key: StatsKey, d1: Stats, d2: Stats)
    ensures Accumulate(Accumulate(stats, key, d1), key, d2) ==
            Accumulate(stats, key, Stats(d1.dealsFound + d2.dealsFound, d1.dealsSent + d2.dealsSent, d1.scrapeErrors + d2.scrapeErrors))
  {
  }

  /** Counters never go down when the added counts are not negative. */
  lemma AccumulateNeverOverwrites(stats: map<StatsKey, Stats>, key: StatsKey, delta: Stats)
    requires key in stats
    requires delta.dealsFound >= 0 && delta.dealsSent >= 0 && delta.scrapeErrors >= 0
    ensures Accumulate(stats, key, delta)[key].dealsFound >= stats[key].dealsFound
    ensures Accumulate(stats, key, delta)[key].dealsSent >= stats[key].dealsSent
    ensures Accumulate(stats, key, delta)[key].scrapeErrors >= stats[key].scrapeErrors
  {
  }

  /** `rows` with `c` put in its place in schedule order. */
  function InsertOrdered(rows: seq<CategoryConfig>, c: CategoryConfig): (r: seq<CategoryConfig>)
    ensures |r| == |rows| + 1
    decreases |rows|
  {
    if rows == [] || Before(c, rows[0]) then [c] + rows
    else [rows[0]] + InsertOrdered(rows[1..], c)
  }

  /** Inserting a config whose id is new keeps the listing ordered and adds just that config. */
  lemma {:induction false} InsertOrderedKeepsOrder(rows: seq<CategoryConfig>, c: CategoryConfig)
    requires Ordered(rows)
    requires forall i :: 0 <= i < |rows| ==> rows[i].id != c.id
    ensures Ordered(InsertOrdered(rows, c))
    ensures forall x :: x in InsertOrdered(rows, c) <==> x in rows || x == c
    decreases |rows|
  {
    if rows != [] && !Before(c, rows[0]) {
      var tail := rows[1..];
      InsertOrderedKeepsOrder(tail, c);
      var r := InsertOrdered(rows, c);
      assert r == [rows[0]] + InsertOrdered(tail, c);
      assert Before(rows[0], c);
      forall x | x in InsertOrdered(tail, c) ensures Before(rows[0], x) {
        if x != c {
          var j :| 0 <= j < |tail| && tail[j] == x;
          assert rows[j + 1] == x;
        }
      }
      assert forall x :: x in rows <==> x == rows[0] || x in tail by {
        assert rows == [rows[0]] + tail;
      }
    }
  }

  /** The first of an ordered listing comes before every other member. */
  lemma HeadIsLeast(a: seq<CategoryConfig>)
    requires Ordered(a) && a != []
    ensures forall x :: x in a ==> x == a[0] || Before(a[0], x)
  {
    forall x | x in a
      ensures x == a[0] || Before(a[0], x)
    {
      var i :| 0 <= i < |a| && a[i] == x;
      if i > 0 {
        assert Before(a[0], a[i]);
      }
    }
  }

  /** The rest of an ordered listing is everything but its first. */
  lemma TailMembers(a: seq<CategoryConfig>, x: CategoryConfig)
    requires Ordered(a) && a != []
    ensures x in a[1..] <==> x in a && x != a[0]
  {
    assert a == [a[0]] + a[1..];
    if x in a[1..] {
      var j :| 0 <= j < |a| - 1 && a[1..][j] == x;
      assert Before(a[0], a[j + 1]);
    }
  }

  /** Two ordered listings of the same configs are the same listing: the schedule order is total. */
  lemma {:induction false} OrderedListingUnique(a: seq<CategoryConfig>, b: seq<CategoryConfig>)
    requires Ordered(a) && Ordered(b)
    requires forall x :: x in a <==> x in b
    ensures a == b
    decreases |a|
  {
    assert (set x | x in a) == (set x | x in b);
    DistinctSetSize(a);
    DistinctSetSize(b);
    if a != [] {
      HeadIsLeast(a);
      HeadIsLeast(b);
      assert a[0] in b && b[0] in a;
      assert a[0] == b[0];
      forall x ensures x in a[1..] <==> x in b[1..] {
        TailMembers(a, x);
        TailMembers(b, x);
      }
      OrderedListingUnique(a[1..], b[1..]);
      assert a == [a[0]] + a[1..] && b == [b[0]] + b[1..];
    }
  }

  /** A config stored under its own key, with an id below `nextId` and valid timestamps. */
  predicate ConfigWellFormed(k: ConfigKey, c: CategoryConfig, nextId: int)
  {
    && c.guildId == k.guildId && c.slug == k.slug && 1 <= c.id < nextId
    && ValidDateTime(c.updatedAt) && (c.lastRun.Some? ==> ValidDateTime(c.lastRun.value))
  }

  /** `alerts` with `AUTOINCREMENT` ids: distinct, positive and below the next one. */
  predicate AlertsValid(alerts: map<AlertKey, AlertRow>, nextId: int)
  {
    && 1 <= nextId
    && (forall k :: k in alerts ==> 1 <= alerts[k].id < nextId && ValidDateTime(alerts[k].createdAt))
    && (forall k, k' :: k in alerts && k' in alerts && alerts[k].id == alerts[k'].id ==> k == k')
  }

  /** `category_configs` with `AUTOINCREMENT` ids and each row under its own `(guild_id, slug)`. */
  predicate ConfigsValid(configs: map<ConfigKey, CategoryConfig>, nextId: int)
  {
    && 1 <= nextId
    && (forall k :: k in configs ==> ConfigWellFormed(k, configs[k], nextId))
    && (forall k, k' :: k in configs && k' in configs && configs[k].id == configs[k'].id ==> k == k')
  }

  /** A new alert takes the next id. */
  lemma AlertsValidInsert(alerts: map<AlertKey, AlertRow>, nextId: int, k: AlertKey, row: AlertRow)
    requires AlertsValid(alerts, nextId) && k !in alerts
    requires row.id == nextId && ValidDateTime(row.createdAt)
    ensures AlertsValid(alerts[k := row], nextId + 1)
  {
    assert forall j :: j in alerts[k := row] && j != k ==> j in alerts && alerts[k := row][j] == alerts[j];
  }

  /** An upsert that only changes `max_price` keeps every id. */
  lemma AlertsValidUpdate(alerts: map<AlertKey, AlertRow>, nextId: int, k: AlertKey, maxPrice: Option<real>)
    requires AlertsValid(alerts, nextId) && k in alerts
    ensures AlertsValid(alerts[k := alerts[k].(maxPrice := maxPrice)], nextId)
  {
    var m := alerts[k := alerts[k].(maxPrice := maxPrice)];
    assert forall j :: j in m ==> j in alerts && m[j].id == alerts[j].id && m[j].createdAt == alerts[j].createdAt;
  }

  /** A new config takes the next id. */
  lemma ConfigsValidInsert(configs: map<ConfigKey, CategoryConfig>, nextId: int, k: ConfigKey, c: CategoryConfig)
    requires ConfigsValid(configs, nextId) && k !in configs
    requires c.id == nextId && ConfigWellFormed(k, c, nextId + 1)
    ensures ConfigsValid(configs[k := c], nextId + 1)
  {
    assert forall j :: j in configs[k := c] && j != k ==> j in configs && configs[k := c][j] == configs[j];
  }

  /** Changing a config's other columns keeps it well formed. */
  lemma ConfigsValidUpdate(configs: map<ConfigKey, CategoryConfig>, nextId: int, k: ConfigKey, c: CategoryConfig)
    requires ConfigsValid(configs, nextId) && k in configs
    requires c.id == configs[k].id && ConfigWellFormed(k, c, nextId)
    ensures ConfigsValid(configs[k := c], nextId)
  {
    var m := configs[k := c];
    assert forall j :: j in m ==> j in configs && m[j].id == configs[j].id;
  }

  /** `SET last_run = ... WHERE id = ...` */
  function LastRunSet(configs: map<ConfigKey, CategoryConfig>, id: int, stamp: DateTime): (r: map<ConfigKey, CategoryConfig>)
    ensures r.Keys == configs.Keys
    ensures forall k :: k in r ==> r[k] == if configs[k].id == id then configs[k].(lastRun := Some(stamp)) else configs[k]
  {
    map k | k in configs :: if configs[k].id == id then configs[k].(lastRun := Some(stamp)) else configs[k]
  }

  lemma ConfigsValidLastRun(configs: map<ConfigKey, CategoryConfig>, nextId: int, id: int, stamp: DateTime)
    requires ConfigsValid(configs, nextId) && ValidDateTime(stamp)
    ensures ConfigsValid(LastRunSet(configs, id, stamp), nextId)
  {
    var m := LastRunSet(configs, id, stamp);
    assert forall j :: j in m ==> m[j].id == configs[j].id;
  }

  class Database {
    /** `sent_deals`: deal id to `sent_at`. */
    var sentDeals: map<string, DateTime>
    /** `alerts` */
    var alerts: map<AlertKey, AlertRow>
    /** The next `AUTOINCREMENT` id of `alerts`; ids are never reused. */
    var nextAlertId: int
    /** `alert_history` */
    var history: set<HistoryKey>
    /** `category_configs` */
    var configs: map<ConfigKey, CategoryConfig>
    var nextConfigId: int
    /** `category_sent_deals`: key to `sent_at`. */
    var categorySent: map<SentKey, DateTime>
    /** `category_stats` */
    var stats: map<StatsKey, Stats>

    /** The table constraints: unique ids below the counters, configs under their own key, valid timestamps. */
    predicate Valid()
      reads this
    {
      && AlertsValid(alerts, nextAlertId) && ConfigsValid(configs, nextConfigId)
      && StampsValid(sentDeals) && StampsValid(categorySent)
    }

    /** A fresh, empty store. */
    constructor ()
      ensures Valid()
      ensures sentDeals == map[] && alerts == map[] && history == {} && configs == map[]
      ensures categorySent == map[] && stats == map[]
    {
      sentDeals, alerts, nextAlertId, history := map[], map[], 1, {};
      configs, nextConfigId, categorySent, stats := map[], 1, map[], map[];
    }

    // -------------------------------------------------------------------------
    // sent_deals

    /** `add_sent_deal` */
    method AddSentDeal(dealId: string, now: DateTime)
      requires Valid() && ValidDateTime(now)
      modifies this`sentDeals
      ensures Valid()
      ensures sentDeals == InsertOrIgnore(old(sentDeals), dealId, Stamp(now))
    {
      sentDeals := InsertOrIgnore(sentDeals, dealId, Stamp(now));
    }

    /** `is_deal_sent` */
    method IsDealSent(dealId: string) returns (sent: bool)
      ensures sent <==> dealId in sentDeals
    {
      sent := dealId in sentDeals;
    }

    /** `cleanup_old_deals` */
    method CleanupOldDeals(days: nat, now: DateTime)
      requires Valid() && ValidDateTime(now)
      modifies this`sentDeals
      ensures Valid()
      ensures sentDeals == Prune(old(sentDeals), now, days)
    {
      sentDeals := Prune(sentDeals, now, days);
    }

    // -------------------------------------------------------------------------
    // alerts

    /** `add_alert`: insert, or on a `(user_id, query)` conflict update only `max_price`. */
    method AddAlert(userId: int, query: string, maxPrice: Option<real>, now: DateTime) returns (ok: bool)
      requires Valid() && ValidDateTime(now)
      modifies this`alerts, this`nextAlertId
      ensures Valid() && ok
      ensures var k := AlertKey(userId, query);
              if k in old(alerts) then
                alerts == old(alerts)[k := old(alerts)[k].(maxPrice := maxPrice)] && nextAlertId == old(nextAlertId)
              else
                alerts == old(alerts)[k := AlertRow(old(nextAlertId), maxPrice, Stamp(now))] && nextAlertId == old(nextAlertId) + 1
    {
      var k := AlertKey(userId, query);
      if k in alerts {
        AlertsValidUpdate(alerts, nextAlertId, k, maxPrice);
        alerts := alerts[k := alerts[k].(maxPrice := maxPrice)];
      } else {
        AlertsValidInsert(alerts, nextAlertId, k, AlertRow(nextAlertId, maxPrice, Stamp(now)));
        alerts := alerts[k := AlertRow(nextAlertId, maxPrice, Stamp(now))];
        nextAlertId := nextAlertId + 1;
      }
      ok := true;
    }

    /** `remove_alert`: the alert's history rows stay, as foreign keys are not enforced. */
    method RemoveAlert(userId: int, query: string) returns (removed: bool)
      requires Valid()
      modifies this`alerts
      ensures Valid()
      ensures removed <==> AlertKey(userId, query) in old(alerts)
      ensures alerts == old(alerts) - {AlertKey(userId, query)}
    {
      var k := AlertKey(userId, query);
      removed := k in alerts;
      alerts := alerts - {k};
    }

    /** `get_user_alerts`, in no particular order. */
    method GetUserAlerts(userId: int) returns (rows: seq<Alert>)
      ensures UserAlertsListed(rows, alerts, userId)
    {
      var keys := set k | k in alerts && k.userId == userId;
      var left := keys;
      rows := [];
      while left != {}
        invariant left <= keys
        invariant forall i :: 0 <= i < |rows| ==>
                    AlertKey(rows[i].userId, rows[i].query) in keys - left && AlertStored(rows[i], alerts)
        invariant forall k :: k in keys - left ==> AlertOf(k, alerts[k]) in rows
        invariant Distinct(rows)
        decreases |left|
      {
        var k :| k in left;
        rows := rows + [AlertOf(k, alerts[k])];
        left := left - {k};
      }
    }

    /** `get_all_unique_queries`, in no particular order. */
    method GetAllUniqueQueries() returns (qs: seq<string>)
      ensures QueriesListed(qs, alerts)
    {
      var all := QueriesOf(alerts);
      var left := all;
      qs := [];
      while left != {}
        invariant left <= all
        invariant forall i :: 0 <= i < |qs| ==> qs[i] in all - left
        invariant forall q :: q in all - left ==> q in qs
        invariant Distinct(qs)
        decreases |left|
      {
        var q :| q in left;
        qs := qs + [q];
        left := left - {q};
      }
    }

    /** `get_alerts_by_query`, in no particular order. */
    method GetAlertsByQuery(query: string) returns (rows: seq<Alert>)
      ensures SubscribersListed(rows, alerts, query)
    {
      var keys := set k | k in alerts && k.query == query;
      var left := keys;
      rows := [];
      while left != {}
        invariant left <= keys
        invariant forall i :: 0 <= i < |rows| ==>
                    AlertKey(rows[i].userId, rows[i].query) in keys - left && AlertStored(rows[i], alerts)
        invariant forall k :: k in keys - left ==> AlertOf(k, alerts[k]) in rows
        invariant Distinct(rows)
        decreases |left|
      {
        var k :| k in left;
        rows := rows + [AlertOf(k, alerts[k])];
        left := left - {k};
      }
    }

    // -------------------------------------------------------------------------
    // alert_history

    /** `is_deal_seen_by_alert` */
    method IsDealSeenByAlert(alertId: int, dealId: string) returns (seen: bool)
      ensures seen <==> HistoryKey(alertId, dealId) in history
    {
      seen := HistoryKey(alertId, dealId) in history;
    }

    /** `mark_deal_seen` */
    method MarkDealSeen(alertId: int, dealId: string)
      modifies this`history
      ensures history == old(history) + {HistoryKey(alertId, dealId)}
    {
      history := history + {HistoryKey(alertId, dealId)};
    }

    /** `mark_deals_seen_batch`: insert-or-ignore of every record; nothing at all for an empty batch. */
    method MarkDealsSeenBatch(records: seq<HistoryKey>)
      modifies this`history
      ensures history == old(history) + set r | r in records
    {
      if records == [] {
        return;
      }
      for i := 0 to |records|
        invariant history == old(history) + set r | r in records[..i]
      {
        var done, next := records[..i], records[..i + 1];
        assert next == done + [records[i]];
        assert (set r | r in next) == (set r | r in done) + {records[i]};
        history := history + {records[i]};
      }
      assert records[..|records|] == records;
    }

    // -------------------------------------------------------------------------
    // category_configs

    /** `add_category_config`: the new row's id, or `None` when the guild already has the slug. */
    method AddCategoryConfig(guildId: int, slug: string, channelId: int, scheduleType: string, scheduleTime: string,
                             scheduleDay: Option<string>, scheduleDate: Option<int>, name: Option<string>,
                             minTemperature: int, maxPrice: Option<real>, now: DateTime)
      returns (id: Option<int>)
      requires Valid() && ValidDateTime(now)
      modifies this`configs, this`nextConfigId
      ensures Valid()
      ensures var k := ConfigKey(guildId, slug);
              if k in old(configs) then
                id == None && configs == old(configs) && nextConfigId == old(nextConfigId)
              else
                && id == Some(old(nextConfigId)) && nextConfigId == old(nextConfigId) + 1
                && configs == old(configs)[k := CategoryConfig(old(nextConfigId), guildId, slug, name, channelId,
                                                               scheduleType, scheduleTime, scheduleDay, scheduleDate,
                                                               minTemperature, maxPrice, ActiveStatus, None, Stamp(now))]
    {
      var k := ConfigKey(guildId, slug);
      if k in configs {
        return None;
      }
      var c := CategoryConfig(nextConfigId, guildId, slug, name, channelId, scheduleType, scheduleTime,
                              scheduleDay, scheduleDate, minTemperature, maxPrice, ActiveStatus, None, Stamp(now));
      ConfigsValidInsert(configs, nextConfigId, k, c);
      configs := configs[k := c];
      id := Some(nextConfigId);
      nextConfigId := nextConfigId + 1;
    }

    /** `remove_category_config` */
    method RemoveCategoryConfig(guildId: int, slug: string) returns (removed: bool)
      requires Valid()
      modifies this`configs
      ensures Valid()
      ensures removed <==> ConfigKey(guildId, slug) in old(configs)
      ensures configs == old(configs) - {ConfigKey(guildId, slug)}
    {
      var k := ConfigKey(guildId, slug);
      removed := k in configs;
      configs := configs - {k};
    }

    /** `get_guild_categories`, in no particular order. */
    method GetGuildCategories(guildId: int, status: Option<string>) returns (rows: seq<CategoryConfig>)
      requires ConfigsValid(configs, nextConfigId)
      ensures GuildListed(rows, configs, guildId, status)
    {
      var keys := set k | k in configs && InGuildListing(configs[k], guildId, status);
      var left := keys;
      rows := [];
      while left != {}
        invariant left <= keys
        invariant forall x :: x in rows ==> ConfigKey(x.guildId, x.slug) in keys - left && ConfigStored(x, configs)
        invariant forall k :: k in keys - left ==> configs[k] in rows
        invariant Distinct(rows)
        decreases |left|
      {
        var k :| k in left;
        assert configs[k] !in rows by {
          assert ConfigWellFormed(k, configs[k], nextConfigId);
        }
        DistinctSnoc(rows, configs[k]);
        rows := rows + [configs[k]];
        left := left - {k};
      }
      assert forall i :: 0 <= i < |rows| ==> rows[i] in rows;
    }

    /** `get_category_by_slug` */
    method GetCategoryBySlug(guildId: int, slug: string) returns (c: Option<CategoryConfig>)
      requires ConfigsValid(configs, nextConfigId)
      ensures c.Some? <==> ConfigKey(guildId, slug) in configs
      ensures c.Some? ==> ConfigStored(c.value, configs) && c.value.guildId == guildId && c.value.slug == slug
    {
      var k := ConfigKey(guildId, slug);
      c := if k in configs then Some(configs[k]) else None;
    }

    /** `update_category_status`: also stamps `updated_at`. */
    method UpdateCategoryStatus(guildId: int, slug: string, status: string, now: DateTime) returns (updated: bool)
      requires Valid() && ValidDateTime(now)
      modifies this`configs
      ensures Valid()
      ensures updated <==> ConfigKey(guildId, slug) in old(configs)
      ensures var k := ConfigKey(guildId, slug);
              configs == if updated then old(configs)[k := old(configs)[k].(status := status, updatedAt := Stamp(now))]
                         else old(configs)
    {
      var k := ConfigKey(guildId, slug);
      updated := k in configs;
      if updated {
        ConfigsValidUpdate(configs, nextConfigId, k, configs[k].(status := status, updatedAt := Stamp(now)));
        configs := configs[k := configs[k].(status := status, updatedAt := Stamp(now))];
      }
    }

    /** `update_category_last_run`: stamps `last_run` of the config with this id, if there is one. */
    method UpdateCategoryLastRun(categoryId: int, now: DateTime)
      requires Valid() && ValidDateTime(now)
      modifies this`configs
      ensures Valid()
      ensures configs == LastRunSet(old(configs), categoryId, Stamp(now))
    {
      ConfigsValidLastRun(configs, nextConfigId, categoryId, Stamp(now));
      configs := LastRunSet(configs, categoryId, Stamp(now));
    }

    /** `get_active_categories_for_schedule`: the active configs ordered by guild, then id. */
    method GetActiveCategoriesForSchedule() returns (rows: seq<CategoryConfig>)
      requires ConfigsValid(configs, nextConfigId)
      ensures ActiveListed(rows, configs)
    {
      var keys := set k | k in configs && configs[k].status == ActiveStatus;
      var left := keys;
      rows := [];
      while left != {}
        invariant left <= keys
        invariant Ordered(rows)
        invariant forall x :: x in rows ==> ConfigKey(x.guildId, x.slug) in keys - left && ConfigStored(x, configs)
        invariant forall k :: k in keys - left ==> configs[k] in rows
        decreases |left|
      {
        var k :| k in left;
        var c := configs[k];
        forall i | 0 <= i < |rows| ensures rows[i].id != c.id {
          assert rows[i] in rows;
        }
        InsertOrderedKeepsOrder(rows, c);
        rows := InsertOrdered(rows, c);
        left := left - {k};
      }
      assert forall i :: 0 <= i < |rows| ==> rows[i] in rows;
    }

    // -------------------------------------------------------------------------
    // category_sent_deals and category_stats

    /** `is_category_deal_sent` */
    method IsCategoryDealSent(categoryId: int, dealId: string) returns (sent: bool)
      ensures sent <==> SentKey(categoryId, dealId) in categorySent
    {
      sent := SentKey(categoryId, dealId) in categorySent;
    }

    /** `mark_category_deal_sent` */
    method MarkCategoryDealSent(categoryId: int, dealId: string, now: DateTime)
      requires Valid() && ValidDateTime(now)
      modifies this`categorySent
      ensures Valid()
      ensures categorySent == InsertOrIgnore(old(categorySent), SentKey(categoryId, dealId), Stamp(now))
    {
      categorySent := InsertOrIgnore(categorySent, SentKey(categoryId, dealId), Stamp(now));
    }

    /** `mark_category_deals_sent_batch`: nothing at all for an empty batch. */
    method MarkCategoryDealsSentBatch(records: seq<SentKey>, now: DateTime)
      requires Valid() && ValidDateTime(now)
      modifies this`categorySent
      ensures Valid()
      ensures categorySent == InsertAll(old(categorySent), records, Stamp(now))
    {
      if records == [] {
        return;
      }
      for i := 0 to |records|
        invariant StampsValid(categorySent)
        invariant categorySent == InsertAll(old(categorySent), records[..i], Stamp(now))
      {
        assert records[..i + 1][..i] == records[..i];
        categorySent := InsertOrIgnore(categorySent, records[i], Stamp(now));
      }
      assert records[..|records|] == records;
    }

    /** `cleanup_category_deals` */
    method CleanupCategoryDeals(days: nat, now: DateTime)
      requires Valid() && ValidDateTime(now)
      modifies this`categorySent
      ensures Valid()
      ensures categorySent == Prune(old(categorySent), now, days)
    {
      categorySent := Prune(categorySent, now, days);
    }

    /** `update_category_stats`: add to today's counters, never overwrite them. */
    method UpdateCategoryStats(categoryId: int, dealsFound: int, dealsSent: int, errors: int, today: Date)
      modifies this`stats
      ensures stats == Accumulate(old(stats), StatsKey(categoryId, today), Stats(dealsFound, dealsSent, errors))
    {
      stats := Accumulate(stats, StatsKey(categoryId, today), Stats(dealsFound, dealsSent, errors));
    }
  }
}
