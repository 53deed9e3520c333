/** The sales and event ledger of `SimpleLogger` (app.js:32-426): appending
    sales and events, retention, the union merge with the ledgers other
    devices left in local storage, and the statistics read from it.
    Instants are integers (milliseconds); local storage is the sequence of
    its entries in enumeration order, each holding its already-parsed ledger. */
module Ledger {
  import opened Wrappers
  import opened Text
  import Numbers
  import Seqs

  /** The storage key prefix of a device's ledger. */
  const LedgerPrefix: string := "gamezone_logs_"
  /** `slice(-1000)` on the sales after a merge. */
  const MaxSales: nat := 1000
  /** `slice(-500)` on the events after a merge or a cleanup. */
  const MaxEvents: nat := 500

  datatype SaleItem = SaleItem(name: string, platform: string, price: int, quantity: int, total: int)

  datatype Sale = Sale(
    timestamp: int,
    saleId: string,
    items: seq<SaleItem>,
    totalAmount: int,
    totalItems: int,
    deviceId: string)

  datatype AppEvent = AppEvent(timestamp: int, action: string, details: map<string, string>, deviceId: string)

  /** A parsed ledger as another device stored it; a list the JSON lacks is `None`. */
  datatype StoredLedger = StoredLedger(deviceId: string, appLog: Option<seq<AppEvent>>, salesLog: Option<seq<Sale>>)

  /** One local storage entry; `None` when its value is `null` or not valid JSON. */
  datatype StorageEntry = StorageEntry(key: string, ledger: Option<StoredLedger>)

  /** The two lists of a logger. */
  datatype Logs = Logs(sales: seq<Sale>, events: seq<AppEvent>)

  function SaleKey(s: Sale): string {
    s.saleId
  }

  function EventKey(e: AppEvent): (int, string) {
    (e.timestamp, e.action)
  }

  function SaleTime(s: Sale): int {
    s.timestamp
  }

  function EventTime(e: AppEvent): int {
    e.timestamp
  }

  function OrEmpty<T>(o: Option<seq<T>>): seq<T> {
    if o.Some? then o.value else []
  }

  // ---------------------------------------------------------------------
  // Collecting the stored ledgers (app.js:78-94)
  // ---------------------------------------------------------------------

  /** An entry `syncWithOtherDevices` keeps: the key has the ledger prefix and
      the ledger has a non-empty device id and a sales list. */
  predicate Mergeable(e: StorageEntry) {
    LedgerPrefix <= e.key && e.ledger.Some? && e.ledger.value.deviceId != [] && e.ledger.value.salesLog.Some?
  }

  predicate Collectable(ledgers: seq<StoredLedger>) {
    forall i :: 0 <= i < |ledgers| ==> ledgers[i].deviceId != [] && ledgers[i].salesLog.Some?
  }

  predicate UniqueDevices(ledgers: seq<StoredLedger>) {
    forall i, j :: 0 <= i < j < |ledgers| ==> ledgers[i].deviceId != ledgers[j].deviceId
  }

  /** `allLogs[l.deviceId] = l`: a device seen before keeps its place and
      takes the new ledger, a new device goes last. */
  function Upsert(ledgers: seq<StoredLedger>, l: StoredLedger): seq<StoredLedger> {
    match Seqs.FindFirst(ledgers, (x: StoredLedger) => x.deviceId == l.deviceId)
    case Some(i) => ledgers[i := l]
    case None => ledgers + [l]
  }

  lemma UpsertSpec(ledgers: seq<StoredLedger>, l: StoredLedger)
    ensures l in Upsert(ledgers, l)
    ensures forall x :: x in Upsert(ledgers, l) ==> x == l || x in ledgers
    ensures forall x :: x in ledgers && x.deviceId != l.deviceId ==> x in Upsert(ledgers, l)
    ensures Collectable(ledgers) && l.deviceId != [] && l.salesLog.Some? ==> Collectable(Upsert(ledgers, l))
    ensures UniqueDevices(ledgers) ==> UniqueDevices(Upsert(ledgers, l))
  {
    var r := Upsert(ledgers, l);
    match Seqs.FindFirst(ledgers, (x: StoredLedger) => x.deviceId == l.deviceId)
    case Some(i) =>
      assert r[i] == l;
      forall x | x in r ensures x == l || x in ledgers {
        var k :| 0 <= k < |r| && r[k] == x;
        if k != i {
          assert r[k] == ledgers[k];
        }
      }
      forall x | x in ledgers && x.deviceId != l.deviceId ensures x in r {
        var k :| 0 <= k < |ledgers| && ledgers[k] == x;
        assert r[k] == x;
      }
      if UniqueDevices(ledgers) {
        forall a, b | 0 <= a < b < |r| ensures r[a].deviceId != r[b].deviceId {
          assert r[a].deviceId == ledgers[a].deviceId && r[b].deviceId == ledgers[b].deviceId;
        }
      }
    case None =>
      assert r[|ledgers|] == l;
  }

  /** `Object.values(allLogs)` after the storage loop: one ledger per device,
      in the order devices were first seen. */
  function Collect(store: seq<StorageEntry>): (r: seq<StoredLedger>)
    ensures Collectable(r) && UniqueDevices(r)
  {
    if store == [] then []
    else
      var init := Collect(store[..|store| - 1]);
      var e := store[|store| - 1];
      if Mergeable(e) then UpsertSpec(init, e.ledger.value); Upsert(init, e.ledger.value) else init
  }

  /** Every collected ledger comes from a mergeable entry. */
  lemma {:induction false} CollectSound(store: seq<StorageEntry>, l: StoredLedger)
    requires l in Collect(store)
    ensures exists i :: 0 <= i < |store| && Mergeable(store[i]) && store[i].ledger.value == l
  {
    var n := |store| - 1;
    var init := store[..n];
    var e := store[n];
    if Mergeable(e) && l == e.ledger.value {
    } else {
      if Mergeable(e) {
        UpsertSpec(Collect(init), e.ledger.value);
      }
      CollectSound(init, l);
      var i :| 0 <= i < |init| && Mergeable(init[i]) && init[i].ledger.value == l;
      assert store[i] == init[i];
    }
  }

  /** The last mergeable entry of each device is the one collected. */
  lemma {:induction false} CollectLatest(store: seq<StorageEntry>, i: nat)
    requires i < |store| && Mergeable(store[i])
    requires forall j :: i < j < |store| && Mergeable(store[j]) ==>
      store[j].ledger.value.deviceId != store[i].ledger.value.deviceId
    ensures store[i].ledger.value in Collect(store)
  {
    var n := |store| - 1;
    var init := store[..n];
    var e := store[n];
    if i == n {
      UpsertSpec(Collect(init), e.ledger.value);
    } else {
      forall j | i < j < |init| && Mergeable(init[j])
        ensures init[j].ledger.value.deviceId != init[i].ledger.value.deviceId
      {
        assert init[j] == store[j];
      }
      CollectLatest(init, i);
      if Mergeable(e) {
        UpsertSpec(Collect(init), e.ledger.value);
      }
    }
  }

  // ---------------------------------------------------------------------
  // Merging (app.js:96-129)
  // ---------------------------------------------------------------------

  /** The `forEach` over the collected ledgers: ledgers of this device are
      skipped; for another device its unseen sales and then its unseen events
      are appended; a ledger without an event list throws, which ends the
      merge (`None`). */
  function MergeLedgers(self: string, m: Logs, ledgers: seq<StoredLedger>): Option<Logs>
    requires Collectable(ledgers)
    decreases |ledgers|
  {
    if ledgers == [] then Some(m)
    else
      var l := ledgers[0];
      if l.deviceId == self then MergeLedgers(self, m, ledgers[1..])
      else if l.appLog.None? then None
      else
        MergeLedgers(self, Logs(Seqs.AppendNew(m.sales, l.salesLog.value, SaleKey),
                                Seqs.AppendNew(m.events, l.appLog.value, EventKey)), ledgers[1..])
  }

  /** Some other device's ledger has no event list. */
  predicate Aborts(self: string, ledgers: seq<StoredLedger>) {
    exists i :: 0 <= i < |ledgers| && ledgers[i].deviceId != self && ledgers[i].appLog.None?
  }

  /** The sales of the other devices' ledgers, in merge order. */
  function OtherSales(self: string, ledgers: seq<StoredLedger>): seq<Sale> {
    if ledgers == [] then []
    else (if ledgers[0].deviceId != self then OrEmpty(ledgers[0].salesLog) else []) + OtherSales(self, ledgers[1..])
  }

  /** The events of the other devices' ledgers, in merge order. */
  function OtherEvents(self: string, ledgers: seq<StoredLedger>): seq<AppEvent> {
    if ledgers == [] then []
    else (if ledgers[0].deviceId != self then OrEmpty(ledgers[0].appLog) else []) + OtherEvents(self, ledgers[1..])
  }

  /** The merge fails exactly when another device's ledger lacks its event list. */
  lemma {:induction false} MergeAborts(self: string, m: Logs, ledgers: seq<StoredLedger>)
    requires Collectable(ledgers)
    ensures MergeLedgers(self, m, ledgers).None? <==> Aborts(self, ledgers)
    decreases |ledgers|
  {
    if ledgers != [] {
      var l := ledgers[0];
      var rest := ledgers[1..];
      var m' := Logs(Seqs.AppendNew(m.sales, OrEmpty(l.salesLog), SaleKey), Seqs.AppendNew(m.events, OrEmpty(l.appLog), EventKey));
      if l.deviceId == self {
        MergeAborts(self, m, rest);
      } else {
        MergeAborts(self, m', rest);
      }
      if Aborts(self, rest) {
        var i :| 0 <= i < |rest| && rest[i].deviceId != self && rest[i].appLog.None?;
        assert ledgers[i + 1] == rest[i];
      }
      if Aborts(self, ledgers) && !(l.deviceId != self && l.appLog.None?) {
        var i :| 0 <= i < |ledgers| && ledgers[i].deviceId != self && ledgers[i].appLog.None?;
        assert rest[i - 1] == ledgers[i];
      }
    }
  }

  /** Without an abort, the merge appends the unseen other-device sales and
      events to this device's lists. */
  lemma {:induction false} MergeAsAppend(self: string, m: Logs, ledgers: seq<StoredLedger>)
    requires Collectable(ledgers) && !Aborts(self, ledgers)
    ensures MergeLedgers(self, m, ledgers) ==
      Some(Logs(Seqs.AppendNew(m.sales, OtherSales(self, ledgers), SaleKey),
                Seqs.AppendNew(m.events, OtherEvents(self, ledgers), EventKey)))
    decreases |ledgers|
  {
    if ledgers != [] {
      var l := ledgers[0];
      var rest := ledgers[1..];
      assert !Aborts(self, rest) by {
        forall i | 0 <= i < |rest| && rest[i].deviceId != self ensures rest[i].appLog.Some? {
          assert ledgers[i + 1] == rest[i];
        }
      }
      if l.deviceId == self {
        MergeAsAppend(self, m, rest);
        assert OtherSales(self, ledgers) == OtherSales(self, rest);
        assert OtherEvents(self, ledgers) == OtherEvents(self, rest);
      } else {
        assert l.appLog.Some?;
        var m' := Logs(Seqs.AppendNew(m.sales, l.salesLog.value, SaleKey), Seqs.AppendNew(m.events, l.appLog.value, EventKey));
        MergeAsAppend(self, m', rest);
        Seqs.AppendNewConcat(m.sales, l.salesLog.value, OtherSales(self, rest), SaleKey);
        Seqs.AppendNewConcat(m.events, l.appLog.value, OtherEvents(self, rest), EventKey);
      }
    }
  }

  /** A sale is merged in from the collected ledgers only if it belongs to
      the sales list of a ledger of another device. */
  lemma {:induction false} OtherSalesMember(self: string, ledgers: seq<StoredLedger>, x: Sale)
    ensures x in OtherSales(self, ledgers) <==>
      exists i :: 0 <= i < |ledgers| && ledgers[i].deviceId != self && x in OrEmpty(ledgers[i].salesLog)
    decreases |ledgers|
  {
    if ledgers != [] {
      var rest := ledgers[1..];
      OtherSalesMember(self, rest, x);
      if exists i :: 0 <= i < |rest| && rest[i].deviceId != self && x in OrEmpty(rest[i].salesLog) {
        var i :| 0 <= i < |rest| && rest[i].deviceId != self && x in OrEmpty(rest[i].salesLog);
        assert ledgers[i + 1] == rest[i];
      }
      if exists i :: 0 <= i < |ledgers| && ledgers[i].deviceId != self && x in OrEmpty(ledgers[i].salesLog) {
        var i :| 0 <= i < |ledgers| && ledgers[i].deviceId != self && x in OrEmpty(ledgers[i].salesLog);
        if i > 0 {
          assert rest[i - 1] == ledgers[i];
        }
      }
    }
  }

  /** An event is merged in only if it belongs to the event list of a ledger of another device. */
  lemma {:induction false} OtherEventsMember(self: string, ledgers: seq<StoredLedger>, x: AppEvent)
    ensures x in OtherEvents(self, ledgers) <==>
      exists i :: 0 <= i < |ledgers| && ledgers[i].deviceId != self && x in OrEmpty(ledgers[i].appLog)
    decreases |ledgers|
  {
    if ledgers != [] {
      var rest := ledgers[1..];
      OtherEventsMember(self, rest, x);
      if exists i :: 0 <= i < |rest| && rest[i].deviceId != self && x in OrEmpty(rest[i].appLog) {
        var i :| 0 <= i < |rest| && rest[i].deviceId != self && x in OrEmpty(rest[i].appLog);
        assert ledgers[i + 1] == rest[i];
      }
      if exists i :: 0 <= i < |ledgers| && ledgers[i].deviceId != self && x in OrEmpty(ledgers[i].appLog) {
        var i :| 0 <= i < |ledgers| && ledgers[i].deviceId != self && x in OrEmpty(ledgers[i].appLog);
        if i > 0 {
          assert rest[i - 1] == ledgers[i];
        }
      }
    }
  }

  /** `sort` by time, then `slice(-1000)` and `slice(-500)`. */
  function Reconcile(m: Logs): Logs {
    Logs(Seqs.KeepNewest(Seqs.SortBy(m.sales, SaleTime), MaxSales),
         Seqs.KeepNewest(Seqs.SortBy(m.events, EventTime), MaxEvents))
  }

  /** The lists `syncWithOtherDevices` leaves, or `None` when it throws and
      leaves them as they were. */
  function Sync(self: string, own: Logs, store: seq<StorageEntry>): Option<Logs> {
    match MergeLedgers(self, own, Collect(store))
    case None => None
    case Some(m) => Some(Reconcile(m))
  }

  function SyncOrKeep(self: string, own: Logs, store: seq<StorageEntry>): Logs {
    match Sync(self, own, store)
    case None => own
    case Some(r) => r
  }

  /** Sorting by `key` and keeping the last `n`: sorted, within `n`, drawn
      from `s` (all of it when it fits), and nothing dropped is newer than
      anything kept. */
  lemma SortAndCap<T>(s: seq<T>, n: nat, key: T -> int)
    ensures var sorted := Seqs.SortBy(s, key); var r := Seqs.KeepNewest(sorted, n);
      && Seqs.SortedBy(r, key)
      && |r| == (if |s| <= n then |s| else n) && r == sorted[|sorted| - |r|..]
      && multiset(r) <= multiset(s)
      && (|s| <= n ==> r == sorted && multiset(r) == multiset(s))
      && (forall d, k :: 0 <= d < |sorted| - |r| && 0 <= k < |r| ==> key(sorted[d]) <= key(r[k]))
  {
    var sorted := Seqs.SortBy(s, key);
    CapSorted(sorted, n, key);
    Seqs.PermutationLength(sorted, s);
  }

  /** Keeping the last `n` of a sorted sequence. */
  lemma CapSorted<T>(sorted: seq<T>, n: nat, key: T -> int)
    requires Seqs.SortedBy(sorted, key)
    ensures var r := Seqs.KeepNewest(sorted, n);
      && Seqs.SortedBy(r, key)
      && |r| == (if |sorted| <= n then |sorted| else n) && r == sorted[|sorted| - |r|..]
      && multiset(r) <= multiset(sorted)
      && (|sorted| <= n ==> r == sorted)
      && (forall d, k :: 0 <= d < |sorted| - |r| && 0 <= k < |r| ==> key(sorted[d]) <= key(r[k]))
  {
    Seqs.KeepNewestOfSorted(sorted, n, key);
    Seqs.KeepNewestSubMultiset(sorted, n);
  }

  /** The merge keeps min(|sales|, 1000) sales and min(|events|, 500) events. */
  lemma ReconcileLength(m: Logs)
    ensures |Reconcile(m).sales| == if |m.sales| <= MaxSales then |m.sales| else MaxSales
    ensures |Reconcile(m).events| == if |m.events| <= MaxEvents then |m.events| else MaxEvents
  {
    Seqs.PermutationLength(Seqs.SortBy(m.sales, SaleTime), m.sales);
    Seqs.PermutationLength(Seqs.SortBy(m.events, EventTime), m.events);
  }

  /** The sales come out sorted by time and exactly min(|sales|, 1000) of them, drawn from the
      merged sales (all of them when they fit), and no dropped sale is newer
      than a kept one. */
  lemma ReconcileSales(m: Logs)
    ensures var r := Reconcile(m).sales; var ss := Seqs.SortBy(m.sales, SaleTime);
      && Seqs.SortedBy(r, SaleTime)
      && |r| == (if |m.sales| <= MaxSales then |m.sales| else MaxSales)
      && multiset(r) <= multiset(m.sales)
      && (|m.sales| <= MaxSales ==> multiset(r) == multiset(m.sales))
      && forall d, k :: 0 <= d < |ss| - |r| && 0 <= k < |r| ==> ss[d].timestamp <= r[k].timestamp
  {
    ReconcileLength(m);
    SortAndCap(m.sales, MaxSales, SaleTime);
  }

  /** The events come out sorted by time and exactly min(|events|, 500) of them, drawn from the
      merged events (all of them when they fit), and no dropped event is newer
      than a kept one. */
  lemma ReconcileEvents(m: Logs)
    ensures var r := Reconcile(m).events; var se := Seqs.SortBy(m.events, EventTime);
      && Seqs.SortedBy(r, EventTime)
      && |r| == (if |m.events| <= MaxEvents then |m.events| else MaxEvents)
      && multiset(r) <= multiset(m.events)
      && (|m.events| <= MaxEvents ==> multiset(r) == multiset(m.events))
      && forall d, k :: 0 <= d < |se| - |r| && 0 <= k < |r| ==> se[d].timestamp <= r[k].timestamp
  {
    ReconcileLength(m);
    SortAndCap(m.events, MaxEvents, EventTime);
  }

  /** `syncWithOtherDevices` as one formula: it fails exactly when another
      device's ledger lacks its event list; otherwise the unseen other-device
      sales and events are appended to this device's lists, which are then
      sorted and capped. */
  lemma SyncSpec(self: string, own: Logs, store: seq<StorageEntry>)
    ensures var ledgers := Collect(store);
      && (Sync(self, own, store).None? <==> Aborts(self, ledgers))
      && (!Aborts(self, ledgers) ==>
            Sync(self, own, store) == Some(Reconcile(Logs(
              Seqs.AppendNew(own.sales, OtherSales(self, ledgers), SaleKey),
              Seqs.AppendNew(own.events, OtherEvents(self, ledgers), EventKey)))))
  {
    var ledgers := Collect(store);
    MergeAborts(self, own, ledgers);
    if !Aborts(self, ledgers) {
      MergeAsAppend(self, own, ledgers);
    }
  }

  /** Before sorting and capping: this device's lists come first, unchanged;
      each added entry is from another device's ledger; every sale id and every
      (timestamp, action) pair of another device ends up present; and ids that
      were unique stay unique. */
  lemma MergedSales(self: string, own: seq<Sale>, ledgers: seq<StoredLedger>)
    ensures var merged := Seqs.AppendNew(own, OtherSales(self, ledgers), SaleKey);
      && |own| <= |merged| && merged[..|own|] == own
      && (forall j :: |own| <= j < |merged| ==>
            exists i :: 0 <= i < |ledgers| && ledgers[i].deviceId != self && merged[j] in OrEmpty(ledgers[i].salesLog))
      && (forall i, x :: 0 <= i < |ledgers| && ledgers[i].deviceId != self && x in OrEmpty(ledgers[i].salesLog) ==>
            Seqs.HasKey(merged, x.saleId, SaleKey))
      && (Seqs.UniqueKeys(own, SaleKey) ==> Seqs.UniqueKeys(merged, SaleKey))
  {
    var others := OtherSales(self, ledgers);
    var merged := Seqs.AppendNew(own, others, SaleKey);
    Seqs.AppendNewPrefix(own, others, SaleKey);
    forall j | |own| <= j < |merged|
      ensures exists i :: 0 <= i < |ledgers| && ledgers[i].deviceId != self && merged[j] in OrEmpty(ledgers[i].salesLog)
    {
      OtherSalesMember(self, ledgers, merged[j]);
    }
    forall i, x | 0 <= i < |ledgers| && ledgers[i].deviceId != self && x in OrEmpty(ledgers[i].salesLog)
      ensures Seqs.HasKey(merged, x.saleId, SaleKey)
    {
      OtherSalesMember(self, ledgers, x);
      var k :| 0 <= k < |others| && others[k] == x;
      assert Seqs.HasKey(others, SaleKey(x), SaleKey);
      Seqs.AppendNewKeys(own, others, SaleKey, x.saleId);
    }
    if Seqs.UniqueKeys(own, SaleKey) {
      Seqs.AppendNewUnique(own, others, SaleKey);
    }
  }

  lemma MergedEvents(self: string, own: seq<AppEvent>, ledgers: seq<StoredLedger>)
    ensures var merged := Seqs.AppendNew(own, OtherEvents(self, ledgers), EventKey);
      && |own| <= |merged| && merged[..|own|] == own
      && (forall j :: |own| <= j < |merged| ==>
            exists i :: 0 <= i < |ledgers| && ledgers[i].deviceId != self && merged[j] in OrEmpty(ledgers[i].appLog))
      && (forall i, x :: 0 <= i < |ledgers| && ledgers[i].deviceId != self && x in OrEmpty(ledgers[i].appLog) ==>
            Seqs.HasKey(merged, (x.timestamp, x.action), EventKey))
      && (Seqs.UniqueKeys(own, EventKey) ==> Seqs.UniqueKeys(merged, EventKey))
  {
    var others := OtherEvents(self, ledgers);
    var merged := Seqs.AppendNew(own, others, EventKey);
    Seqs.AppendNewPrefix(own, others, EventKey);
    forall j | |own| <= j < |merged|
      ensures exists i :: 0 <= i < |ledgers| && ledgers[i].deviceId != self && merged[j] in OrEmpty(ledgers[i].appLog)
    {
      OtherEventsMember(self, ledgers, merged[j]);
    }
    forall i, x | 0 <= i < |ledgers| && ledgers[i].deviceId != self && x in OrEmpty(ledgers[i].appLog)
      ensures Seqs.HasKey(merged, (x.timestamp, x.action), EventKey)
    {
      OtherEventsMember(self, ledgers, x);
      var k :| 0 <= k < |others| && others[k] == x;
      assert Seqs.HasKey(others, EventKey(x), EventKey);
      Seqs.AppendNewKeys(own, others, EventKey, (x.timestamp, x.action));
    }
    if Seqs.UniqueKeys(own, EventKey) {
      Seqs.AppendNewUnique(own, others, EventKey);
    }
  }

  /** Every key of `inc` is in `AppendNew(acc, inc)`, and stays there after sorting. */
  lemma CoveredAfterSort<T, K>(acc: seq<T>, inc: seq<T>, key: T -> K, sorted: seq<T>)
    requires multiset(sorted) == multiset(Seqs.AppendNew(acc, inc, key))
    ensures forall i :: 0 <= i < |inc| ==> Seqs.HasKey(sorted, key(inc[i]), key)
  {
    forall i | 0 <= i < |inc| ensures Seqs.HasKey(sorted, key(inc[i]), key) {
      assert Seqs.HasKey(inc, key(inc[i]), key);
      Seqs.AppendNewKeys(acc, inc, key, key(inc[i]));
      Seqs.HasKeyPermutation(sorted, Seqs.AppendNew(acc, inc, key), key(inc[i]), key);
    }
  }

  /** Syncing twice against the same storage changes nothing the second time,
      as long as the merged lists stayed within the caps. */
  lemma SyncIdempotent(self: string, own: Logs, store: seq<StorageEntry>, m: Logs)
    requires MergeLedgers(self, own, Collect(store)) == Some(m)
    requires |m.sales| <= MaxSales && |m.events| <= MaxEvents
    ensures Sync(self, Reconcile(m), store) == Some(Reconcile(m))
  {
    var ledgers := Collect(store);
    var r := Reconcile(m);
    MergeAborts(self, own, ledgers);
    MergeAsAppend(self, own, ledgers);
    SortAndCap(m.sales, MaxSales, SaleTime);
    SortAndCap(m.events, MaxEvents, EventTime);
    var os := OtherSales(self, ledgers);
    var oe := OtherEvents(self, ledgers);
    assert r.sales == Seqs.SortBy(m.sales, SaleTime);
    assert r.events == Seqs.SortBy(m.events, EventTime);
    CoveredAfterSort(own.sales, os, SaleKey, r.sales);
    CoveredAfterSort(own.events, oe, EventKey, r.events);
    Seqs.AppendNewNoop(r.sales, os, SaleKey);
    Seqs.AppendNewNoop(r.events, oe, EventKey);
    MergeAsAppend(self, r, ledgers);
    assert MergeLedgers(self, r, ledgers) == Some(r);
    Seqs.SortBySorted(r.sales, SaleTime);
    Seqs.SortBySorted(r.events, EventTime);
  }

  // ---------------------------------------------------------------------
  // Loading and retention (app.js:52-71, 233-246)
  // ---------------------------------------------------------------------

  /** `loadFromStorage`: the lists saved under this device's key, each `[]` when missing. */
  function Load(self: string, store: seq<StorageEntry>): Logs {
    match Seqs.FindFirst(store, (e: StorageEntry) => e.key == LedgerPrefix + self)
    case None => Logs([], [])
    case Some(i) =>
      match store[i].ledger
      case None => Logs([], [])
      case Some(l) => Logs(OrEmpty(l.salesLog), OrEmpty(l.appLog))
  }

  /** `cleanupOldLogs`: the sales strictly newer than `cutoff`, and the last 500 events. */
  function Retained(own: Logs, cutoff: int): Logs {
    Logs(Seqs.Filter(own.sales, (s: Sale) => s.timestamp > cutoff), Seqs.KeepNewest(own.events, MaxEvents))
  }

  /** Exactly the sales newer than the cutoff survive, the event list is the
      newest at most 500, and a second cleanup with the same cutoff changes nothing. */
  lemma RetainedSpec(own: Logs, cutoff: int)
    ensures var r := Retained(own, cutoff);
      && (forall s :: s in r.sales <==> s in own.sales && s.timestamp > cutoff)
      && |r.events| == (if |own.events| <= MaxEvents then |own.events| else MaxEvents)
      && r.events == own.events[|own.events| - |r.events|..]
      && Retained(r, cutoff) == r
  {
    var p := (s: Sale) => s.timestamp > cutoff;
    var r := Retained(own, cutoff);
    forall s ensures s in r.sales <==> s in own.sales && s.timestamp > cutoff {
      Seqs.FilterMember(own.sales, p, s);
    }
    Seqs.FilterAll(r.sales, p);
  }

  // ---------------------------------------------------------------------
  // Appending (app.js:177-215)
  // ---------------------------------------------------------------------

  /** `'SALE_' + Date.now() + '_' + this.deviceId`. */
  function SaleId(now: int, deviceId: string): string {
    "SALE_" + Numbers.IntToString(now) + "_" + deviceId
  }

  /** A sale id splits on `_` into the prefix, the instant and the device id's pieces. */
  lemma SplitSaleId(now: int, deviceId: string)
    ensures Split(SaleId(now, deviceId), '_') == ["SALE", Numbers.IntToString(now)] + Split(deviceId, '_')
  {
    var t := Numbers.IntToString(now);
    Numbers.IntToStringChars(now);
    assert '_' !in t;
    var tail := t + ['_'] + deviceId;
    assert SaleId(now, deviceId) == "SALE" + ['_'] + tail;
    SplitPrefix("SALE", '_', tail);
    SplitPrefix(t, '_', deviceId);
  }

  /** Sale ids differ for sales logged at different instants or on different devices. */
  lemma SaleIdsDistinct(a: int, d1: string, b: int, d2: string)
    requires SaleId(a, d1) == SaleId(b, d2)
    ensures a == b && d1 == d2
  {
    SplitSaleId(a, d1);
    SplitSaleId(b, d2);
    var parts := Split(SaleId(a, d1), '_');
    assert Numbers.IntToString(a) == parts[1] == Numbers.IntToString(b);
    assert Split(d1, '_') == parts[2..] == Split(d2, '_');
    JoinSplit(d1, '_');
    JoinSplit(d2, '_');
    Numbers.IntToStringInjective(a, b);
  }

  // ---------------------------------------------------------------------
  // Statistics (app.js:378-426)
  // ---------------------------------------------------------------------

  datatype Stats = Stats(
    totalSales: nat,
    totalRevenue: int,
    totalItems: int,
    todaySales: nat,
    todayRevenue: int,
    todayItems: int)

  /** `reduce((sum, sale) => sum + sale.totalAmount, 0)`. */
  function Revenue(sales: seq<Sale>): int {
    if sales == [] then 0 else Revenue(sales[..|sales| - 1]) + sales[|sales| - 1].totalAmount
  }

  /** `reduce((sum, sale) => sum + sale.totalItems, 0)`. */
  function ItemsSold(sales: seq<Sale>): int {
    if sales == [] then 0 else ItemsSold(sales[..|sales| - 1]) + sales[|sales| - 1].totalItems
  }

  /** The sales at or after the local midnight `todayStart`. */
  function SalesSince(sales: seq<Sale>, todayStart: int): seq<Sale> {
    Seqs.Filter(sales, (s: Sale) => s.timestamp >= todayStart)
  }

  /** `getStats()` over `salesLog`, with today starting at `todayStart`. */
  function GetStats(sales: seq<Sale>, todayStart: int): (r: Stats)
    ensures r.totalSales == |sales| && r.todaySales <= r.totalSales
  {
    var today := SalesSince(sales, todayStart);
    Stats(|sales|, Revenue(sales), ItemsSold(sales), |today|, Revenue(today), ItemsSold(today))
  }

  /** `getSalesByPeriod(period)`: a period naming "today" selects today's
      sales, any other period all of them. */
  function GetSalesByPeriod(sales: seq<Sale>, period: string, todayStart: int): seq<Sale> {
    if Contains(period, "today") then SalesSince(sales, todayStart) else sales
  }

  /** Today's period holds exactly the sales at or after `todayStart`; any
      period without "today" in its name holds the whole log. */
  lemma PeriodSpec(sales: seq<Sale>, period: string, todayStart: int)
    ensures Contains(period, "today") ==>
      forall s :: s in GetSalesByPeriod(sales, period, todayStart) <==> s in sales && s.timestamp >= todayStart
    ensures !Contains(period, "today") ==> GetSalesByPeriod(sales, period, todayStart) == sales
  {
    forall s {
      Seqs.FilterMember(sales, (x: Sale) => x.timestamp >= todayStart, s);
    }
  }

  /** The figures of `getStats` are the counts and sums over the lists
      `getSalesByPeriod` returns for the six periods the statistics screen uses. */
  lemma StatsMatchPeriods(sales: seq<Sale>, todayStart: int)
    ensures var st := GetStats(sales, todayStart);
      && st.todaySales == |GetSalesByPeriod(sales, "today-sales", todayStart)|
      && st.todayRevenue == Revenue(GetSalesByPeriod(sales, "today-revenue", todayStart))
      && st.todayItems == ItemsSold(GetSalesByPeriod(sales, "today-items", todayStart))
      && st.totalSales == |GetSalesByPeriod(sales, "total-sales", todayStart)|
      && st.totalRevenue == Revenue(GetSalesByPeriod(sales, "total-revenue", todayStart))
      && st.totalItems == ItemsSold(GetSalesByPeriod(sales, "total-items", todayStart))
  {
    TodayPeriods();
    TotalPeriods();
  }

  lemma TodayPeriods()
    ensures Contains("today-sales", "today") && Contains("today-revenue", "today") && Contains("today-items", "today")
  {
    assert "today-sales" == "today" + "-sales";
    assert "today-revenue" == "today" + "-revenue";
    assert "today-items" == "today" + "-items";
  }

  lemma TotalPeriods()
    ensures !Contains("total-sales", "today") && !Contains("total-revenue", "today") && !Contains("total-items", "today")
  {
    NoTodayInAny("total-sales", "total-revenue", "total-items");
  }

  /** Three period names without the letter `y` name no day. */
  lemma NoTodayInAny(a: string, b: string, c: string)
    requires 'y' !in a && 'y' !in b && 'y' !in c
    ensures !Contains(a, "today") && !Contains(b, "today") && !Contains(c, "today")
  {
    NoTodayWithoutY(a);
    NoTodayWithoutY(b);
    NoTodayWithoutY(c);
  }

  /** A period name without the letter `y` cannot contain "today". */
  lemma NoTodayWithoutY(period: string)
    requires 'y' !in period
    ensures !Contains(period, "today")
  {
    if Contains(period, "today") {
      ContainsChars(period, "today", 'y');
    }
  }

  /** Logging one more sale adds it to the totals, and to today's figures
      exactly when it was made at or after `todayStart`. */
  lemma StatsAfterSale(sales: seq<Sale>, x: Sale, todayStart: int)
    ensures var before := GetStats(sales, todayStart);
      var after := GetStats(sales + [x], todayStart);
      var d := if x.timestamp >= todayStart then 1 else 0;
      && after.totalSales == before.totalSales + 1
      && after.totalRevenue == before.totalRevenue + x.totalAmount
      && after.totalItems == before.totalItems + x.totalItems
      && after.todaySales == before.todaySales + d
      && after.todayRevenue == before.todayRevenue + d * x.totalAmount
      && after.todayItems == before.todayItems + d * x.totalItems
  {
    var s := sales + [x];
    assert s[..|s| - 1] == sales;
    var today := SalesSince(sales, todayStart);
    var today' := SalesSince(s, todayStart);
    assert today' == if x.timestamp >= todayStart then today + [x] else today;
    if x.timestamp >= todayStart {
      assert (today + [x])[..|today|] == today;
    }
  }

  // ---------------------------------------------------------------------
  // Clearing every device's ledger (app.js:353-375)
  // ---------------------------------------------------------------------

  predicate IsLedgerEntry(e: StorageEntry) {
    LedgerPrefix <= e.key
  }

  predicate NotLedgerEntry(e: StorageEntry) {
    !IsLedgerEntry(e)
  }

  /** The storage loop of `clearLogs` as written, from index `i`: removing an
      entry moves every later entry down by one, and `i++` then steps over
      the entry that took the removed one's place. */
  function RemoveLedgersAsWritten(store: seq<StorageEntry>, i: nat): seq<StorageEntry>
    decreases if i <= |store| then |store| - i else 0
  {
    if i >= |store| then store
    else if IsLedgerEntry(store[i]) then RemoveLedgersAsWritten(store[..i] + store[i + 1..], i + 1)
    else RemoveLedgersAsWritten(store, i + 1)
  }

  /** The loop as written never touches the entries before index `i`. */
  lemma {:induction false} AsWrittenKeepsVisited(store: seq<StorageEntry>, i: nat)
    requires i <= |store|
    ensures var r := RemoveLedgersAsWritten(store, i); i <= |r| && r[..i] == store[..i]
    decreases |store| - i
  {
    if i < |store| {
      if IsLedgerEntry(store[i]) {
        var next := store[..i] + store[i + 1..];
        if i + 1 <= |next| {
          AsWrittenKeepsVisited(next, i + 1);
          assert RemoveLedgersAsWritten(next, i + 1)[..i] == RemoveLedgersAsWritten(next, i + 1)[..i + 1][..i];
        }
        assert next[..i] == store[..i];
      } else {
        AsWrittenKeepsVisited(store, i + 1);
        assert RemoveLedgersAsWritten(store, i + 1)[..i] == RemoveLedgersAsWritten(store, i + 1)[..i + 1][..i];
      }
    }
  }

  /** When the first two entries of local storage are both ledgers, the loop
      as written leaves the second one in place: a ledger survives the clear. */
  lemma ClearLogsAsWrittenMissesLedger(store: seq<StorageEntry>)
    requires |store| >= 2 && IsLedgerEntry(store[0]) && IsLedgerEntry(store[1])
    ensures var r := RemoveLedgersAsWritten(store, 0); |r| > 0 && r[0] == store[1] && IsLedgerEntry(r[0])
  {
    var next := store[..0] + store[1..];
    AsWrittenKeepsVisited(next, 1);
  }

  /** Local storage after every ledger entry is removed, the other entries
      kept in their order. */
  function RemoveLedgers(store: seq<StorageEntry>): seq<StorageEntry> {
    Seqs.Filter(store, NotLedgerEntry)
  }

  /** No ledger is left, every other entry stays, and a later sync finds no
      ledger to merge. */
  lemma RemoveLedgersSpec(store: seq<StorageEntry>)
    ensures forall e :: e in RemoveLedgers(store) <==> e in store && !IsLedgerEntry(e)
    ensures Collect(RemoveLedgers(store)) == []
  {
    forall e ensures e in RemoveLedgers(store) <==> e in store && !IsLedgerEntry(e) {
      Seqs.FilterMember(store, NotLedgerEntry, e);
    }
    CollectNoLedgers(RemoveLedgers(store));
  }

  lemma {:induction false} CollectNoLedgers(store: seq<StorageEntry>)
    requires forall i :: 0 <= i < |store| ==> NotLedgerEntry(store[i])
    ensures Collect(store) == []
  {
    if store != [] {
      CollectNoLedgers(store[..|store| - 1]);
    }
  }

  /** After a clear, syncing an emptied logger leaves it empty. */
  lemma SyncAfterClear(self: string, store: seq<StorageEntry>)
    ensures SyncOrKeep(self, Logs([], []), RemoveLedgers(store)) == Logs([], [])
  {
    RemoveLedgersSpec(store);
  }

  /** The storage loop of `clearLogs` over a snapshot of the entries, so
      that a removal cannot make it step over the next entry. */
  method RemoveLedgerEntries(store: seq<StorageEntry>) returns (r: seq<StorageEntry>)
    ensures r == RemoveLedgers(store)
  {
    r := [];
    var i := 0;
    while i < |store|
      invariant 0 <= i <= |store|
      invariant r == RemoveLedgers(store[..i])
    {
      assert store[..i + 1][..i] == store[..i];
      if NotLedgerEntry(store[i]) {
        r := r + [store[i]];
      }
      i := i + 1;
    }
    assert store[..i] == store;
  }

  // ---------------------------------------------------------------------
  // The logger
  // ---------------------------------------------------------------------

  class SimpleLogger {
    var deviceId: string
    var appLog: seq<AppEvent>
    var salesLog: seq<Sale>

    function Lists(): Logs
      reads this
    {
      Logs(salesLog, appLog)
    }

    /** `new SimpleLogger()`: load this device's saved lists, clean them up
        with `cutoff` (30 days before now), then sync with `store`. */
    constructor(deviceId: string, store: seq<StorageEntry>, cutoff: int)
      ensures this.deviceId == deviceId
      ensures Lists() == SyncOrKeep(deviceId, Retained(Load(deviceId, store), cutoff), store)
    {
      this.deviceId := deviceId;
      var loaded := Load(deviceId, store);
      salesLog := loaded.sales;
      appLog := loaded.events;
      new;
      CleanupOldLogs(cutoff);
      ghost var kept := Lists();
      SyncWithOtherDevices(store);
      assert Lists() == SyncOrKeep(deviceId, kept, store);
    }

    method CleanupOldLogs(cutoff: int)
      modifies this
      ensures deviceId == old(deviceId)
      ensures Lists() == Retained(old(Lists()), cutoff)
    {
      salesLog := Seqs.Filter(salesLog, (s: Sale) => s.timestamp > cutoff);
      appLog := Seqs.KeepNewest(appLog, MaxEvents);
    }

    method SyncWithOtherDevices(store: seq<StorageEntry>)
      modifies this
      ensures deviceId == old(deviceId)
      ensures Lists() == SyncOrKeep(deviceId, old(Lists()), store)
    {
      var synced := SyncLists(deviceId, Lists(), store);
      salesLog := synced.sales;
      appLog := synced.events;
    }

    method LogSale(now: int, items: seq<SaleItem>, totalAmount: int, totalItems: int) returns (entry: Sale)
      modifies this
      ensures entry == Sale(now, SaleId(now, deviceId), items, totalAmount, totalItems, deviceId)
      ensures deviceId == old(deviceId) && appLog == old(appLog)
      ensures salesLog == old(salesLog) + [entry]
    {
      entry := Sale(now, "SALE_" + Numbers.IntToString(now) + "_" + deviceId, items, totalAmount, totalItems, deviceId);
      salesLog := salesLog + [entry];
    }

    /** `clearLogs()`: on confirmation every ledger entry leaves local
        storage (`after`) and both lists are emptied. */
    method ClearLogs(confirmed: bool, store: seq<StorageEntry>) returns (ok: bool, after: seq<StorageEntry>)
      modifies this
      ensures ok == confirmed && deviceId == old(deviceId)
      ensures !confirmed ==> after == store && Lists() == old(Lists())
      ensures confirmed ==> after == RemoveLedgers(store) && Lists() == Logs([], [])
    {
      if !confirmed {
        return false, store;
      }
      after := RemoveLedgerEntries(store);
      appLog := [];
      salesLog := [];
      ok := true;
    }

    method LogAppAction(now: int, action: string, details: map<string, string>) returns (entry: AppEvent)
      modifies this
      ensures entry == AppEvent(now, action, details, deviceId)
      ensures deviceId == old(deviceId) && salesLog == old(salesLog)
      ensures appLog == old(appLog) + [entry]
    {
      entry := AppEvent(now, action, details, deviceId);
      appLog := appLog + [entry];
    }
  }

  /** The body of `syncWithOtherDevices` on copies of the lists: the lists
      it assigns, or the old ones when it throws. */
  method SyncLists(self: string, own: Logs, store: seq<StorageEntry>) returns (r: Logs)
    ensures r == SyncOrKeep(self, own, store)
  {
    var allLogs := CollectLedgers(store);
    var merged := MergeCollected(self, own, allLogs);
    if merged.None? {
      return own;
    }
    var sales := Seqs.SortBy(merged.value.sales, SaleTime);
    var events := Seqs.SortBy(merged.value.events, EventTime);
    r := Logs(Seqs.KeepNewest(sales, MaxSales), Seqs.KeepNewest(events, MaxEvents));
  }

  /** The loop over local storage that fills `allLogs`. */
  method CollectLedgers(store: seq<StorageEntry>) returns (all: seq<StoredLedger>)
    ensures all == Collect(store)
  {
    all := [];
    var i := 0;
    while i < |store|
      invariant 0 <= i <= |store|
      invariant all == Collect(store[..i])
    {
      assert store[..i + 1][..i] == store[..i];
      var e := store[i];
      if LedgerPrefix <= e.key && e.ledger.Some? && e.ledger.value.deviceId != [] && e.ledger.value.salesLog.Some? {
        all := Upsert(all, e.ledger.value);
      }
      i := i + 1;
    }
    assert store[..i] == store;
  }

  /** The `forEach` over `Object.values(allLogs)`, on copies of this
      device's lists; `None` where a ledger without an event list throws. */
  method MergeCollected(self: string, own: Logs, allLogs: seq<StoredLedger>) returns (merged: Option<Logs>)
    requires Collectable(allLogs)
    ensures merged == MergeLedgers(self, own, allLogs)
  {
    var mergedSales := own.sales;
    var mergedEvents := own.events;
    var i := 0;
    while i < |allLogs|
      invariant 0 <= i <= |allLogs|
      invariant MergeLedgers(self, own, allLogs) == MergeLedgers(self, Logs(mergedSales, mergedEvents), allLogs[i..])
    {
      var logs := allLogs[i];
      assert allLogs[i..][0] == logs && allLogs[i..][1..] == allLogs[i + 1..];
      if logs.deviceId != self {
        var sales := PushUnseen(mergedSales, logs.salesLog.value, SaleKey);
        if logs.appLog.None? {
          return None;
        }
        mergedEvents := PushUnseen(mergedEvents, logs.appLog.value, EventKey);
        mergedSales := sales;
      }
      i := i + 1;
    }
    return Some(Logs(mergedSales, mergedEvents));
  }

  /** `incoming.forEach(x => { if (!merged.some(...)) merged.push(x) })`. */
  method PushUnseen<T, K(==)>(merged: seq<T>, incoming: seq<T>, key: T -> K) returns (r: seq<T>)
    ensures r == Seqs.AppendNew(merged, incoming, key)
  {
    r := merged;
    var j := 0;
    while j < |incoming|
      invariant 0 <= j <= |incoming|
      invariant r == Seqs.AppendNew(merged, incoming[..j], key)
    {
      assert incoming[..j + 1][..j] == incoming[..j];
      if !Seqs.HasKey(r, key(incoming[j]), key) {
        r := r + [incoming[j]];
      }
      j := j + 1;
    }
    assert incoming[..j] == incoming;
  }
}
