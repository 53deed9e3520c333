/** `GameScannerApp` (app.js:439-1716) as far as it holds state worth
    modelling: the cart `scannedGames`, the sale that empties it into the
    logger, the scanner fields behind the acceptance guard, and the daily
    usage bucket of `trackUsage`. The catalog is passed in already loaded;
    confirmations and timers are parameters or separate method calls. */
module App {
  import opened Wrappers
  import opened Catalog
  import opened Cart
  import Ledger
  import Scanner
  import Seqs
  import Pricing
  import Text

  /** The size of a daily usage bucket. */
  const UsageCap: nat := 100

  /** The daily bucket after `trackUsage` pushes `entry`: the oldest entries
      beyond 100 are dropped. */
  function RecordUsage<T>(bucket: seq<T>, entry: T): (r: seq<T>)
    ensures |r| == if |bucket| < UsageCap then |bucket| + 1 else UsageCap
    ensures r[|r| - 1] == entry
    ensures r == (bucket + [entry])[|bucket| + 1 - |r|..]
  {
    Seqs.KeepNewest(bucket + [entry], UsageCap)
  }

  /** The bucket after tracking `entries` one after the other. */
  function RecordAll<T>(bucket: seq<T>, entries: seq<T>): seq<T>
    decreases |entries|
  {
    if entries == [] then bucket
    else RecordAll(RecordUsage(bucket, entries[0]), entries[1..])
  }

  /** Dropping the oldest entries before appending more changes nothing once
      the oldest are dropped again. */
  lemma KeepNewestAppend<T>(s: seq<T>, t: seq<T>, n: nat)
    ensures Seqs.KeepNewest(Seqs.KeepNewest(s, n) + t, n) == Seqs.KeepNewest(s + t, n)
  {
    var k := Seqs.KeepNewest(s, n);
    assert k + t == (s + t)[|s| - |k|..];
  }

  /** Tracking entries one by one keeps exactly the newest 100 of everything
      tracked into a bucket of at most 100 entries. */
  lemma {:induction false} RecordAllKeepsNewest<T>(bucket: seq<T>, entries: seq<T>)
    requires |bucket| <= UsageCap
    ensures RecordAll(bucket, entries) == Seqs.KeepNewest(bucket + entries, UsageCap)
    decreases |entries|
  {
    if entries == [] {
      assert bucket + entries == bucket;
    } else {
      RecordAllKeepsNewest(RecordUsage(bucket, entries[0]), entries[1..]);
      RecordThenKeep(bucket, entries);
    }
  }

  /** One tracked entry, then the newest of the rest appended. */
  lemma RecordThenKeep<T>(bucket: seq<T>, entries: seq<T>)
    requires entries != []
    ensures Seqs.KeepNewest(RecordUsage(bucket, entries[0]) + entries[1..], UsageCap)
      == Seqs.KeepNewest(bucket + entries, UsageCap)
  {
    KeepNewestAppend(bucket + [entries[0]], entries[1..], UsageCap);
    assert bucket + [entries[0]] + entries[1..] == bucket + entries;
  }

  /** The item `processSaleFromCart` writes for one cart line. */
  function SaleItemOf(l: CartLine): Ledger.SaleItem {
    Ledger.SaleItem(l.name, l.platform, l.price, EffectiveQuantity(l.quantity), LineTotal(l))
  }

  /** `saleData.items`. */
  function SaleItems(cart: seq<CartLine>): seq<Ledger.SaleItem> {
    Seqs.Map(SaleItemOf, cart)
  }

  /** Σ total over the items of a sale. */
  function ItemsAmount(items: seq<Ledger.SaleItem>): int {
    if items == [] then 0 else ItemsAmount(items[..|items| - 1]) + items[|items| - 1].total
  }

  /** Σ quantity over the items of a sale. */
  function ItemsQuantity(items: seq<Ledger.SaleItem>): int {
    if items == [] then 0 else ItemsQuantity(items[..|items| - 1]) + items[|items| - 1].quantity
  }

  /** The totals recorded with a sale are the sums over its items: the amount
      is Σ total and the item count Σ quantity. */
  lemma {:induction false} SaleItemsMatchTotals(cart: seq<CartLine>)
    ensures ItemsAmount(SaleItems(cart)) == TotalAmount(cart)
    ensures ItemsQuantity(SaleItems(cart)) == TotalItems(cart)
  {
    if cart != [] {
      var n := |cart| - 1;
      SaleItemsMatchTotals(cart[..n]);
      assert SaleItems(cart)[..n] == SaleItems(cart[..n]);
    }
  }

  class GameScannerApp {
    /** The catalog, already loaded. */
    var gamesData: seq<Product>
    var scannedGames: seq<CartLine>
    const logger: Ledger.SimpleLogger
    var isScanning: bool
    var scanCooldown: bool
    var lastScanTime: int
    var lastScannedCode: Option<string>
    var quaggaInitialized: bool

    /** The scanner fields. */
    function ScanState(): Scanner.ScanState
      reads this
    {
      Scanner.ScanState(isScanning, scanCooldown, lastScanTime, lastScannedCode, quaggaInitialized)
    }

    /** `new GameScannerApp()` with the catalog `games`: an empty cart, the
        scanner at rest and a new logger for this device. */
    constructor(deviceId: string, store: seq<Ledger.StorageEntry>, cutoff: int, games: seq<Product>)
      ensures gamesData == games && scannedGames == []
      ensures ScanState() == Scanner.Initial
      ensures fresh(logger) && logger.deviceId == deviceId
      ensures logger.Lists() == Ledger.SyncOrKeep(deviceId, Ledger.Retained(Ledger.Load(deviceId, store), cutoff), store)
    {
      gamesData := games;
      scannedGames := [];
      quaggaInitialized := false;
      isScanning := false;
      lastScannedCode := None;
      scanCooldown := false;
      lastScanTime := 0;
      logger := new Ledger.SimpleLogger(deviceId, store, cutoff);
    }

    /** `addGameToCart(game)`. */
    method AddGameToCart(game: Product)
      modifies this
      ensures scannedGames == AddLine(old(scannedGames), game)
      ensures gamesData == old(gamesData) && ScanState() == old(ScanState())
    {
      var price := Pricing.CalculateFinalPrice(game.optPrice);
      var existingIndex := LineOf(scannedGames, game.barcode);
      if existingIndex.Some? {
        var i := existingIndex.value;
        scannedGames := scannedGames[i := scannedGames[i].(quantity := EffectiveQuantity(scannedGames[i].quantity) + 1)];
      } else {
        scannedGames := scannedGames + [CartLine(game.name, game.barcode, price, game.platform, game, 1)];
      }
    }

    /** `updateCartItem(index, change)`. */
    method UpdateCartItem(index: int, change: int)
      modifies this
      ensures scannedGames == ChangeQuantity(old(scannedGames), index, change)
      ensures gamesData == old(gamesData) && ScanState() == old(ScanState())
    {
      if 0 <= index < |scannedGames| {
        var currentQuantity := EffectiveQuantity(scannedGames[index].quantity);
        var newQuantity := currentQuantity + change;
        if newQuantity < 1 {
          RemoveFromCart(index);
        } else {
          scannedGames := scannedGames[index := scannedGames[index].(quantity := newQuantity)];
        }
      }
    }

    /** `removeFromCart(index)`. */
    method RemoveFromCart(index: int)
      modifies this
      ensures scannedGames == RemoveAt(old(scannedGames), index)
      ensures gamesData == old(gamesData) && ScanState() == old(ScanState())
    {
      if 0 <= index < |scannedGames| {
        scannedGames := scannedGames[..index] + scannedGames[index + 1..];
      }
    }

    /** `clearCart()`; `confirmed` is the user's answer to the confirmation. */
    method ClearCart(confirmed: bool)
      modifies this
      ensures scannedGames == if confirmed then [] else old(scannedGames)
      ensures gamesData == old(gamesData) && ScanState() == old(ScanState())
    {
      if |scannedGames| == 0 {
        return;
      }
      if confirmed {
        scannedGames := [];
      }
    }

    /** `processSaleFromCart()` at the instant `now`; `confirmed` is the
        user's answer. A confirmed sale logs one sale holding every cart line
        with the cart's totals, and empties the cart. */
    method ProcessSaleFromCart(confirmed: bool, now: int) returns (sale: Option<Ledger.Sale>)
      modifies this, logger
      ensures !confirmed ==> sale == None && scannedGames == old(scannedGames)
      ensures !confirmed ==> logger.Lists() == old(logger.Lists())
      ensures confirmed ==> sale == Some(Ledger.Sale(now, Ledger.SaleId(now, logger.deviceId), SaleItems(old(scannedGames)),
                                                      TotalAmount(old(scannedGames)), TotalItems(old(scannedGames)), logger.deviceId))
      ensures confirmed ==> scannedGames == [] && logger.Lists() == Ledger.Logs(old(logger.salesLog) + [sale.value], old(logger.appLog))
      ensures logger.deviceId == old(logger.deviceId)
      ensures gamesData == old(gamesData) && ScanState() == old(ScanState())
    {
      var totalAmount := TotalAmount(scannedGames);
      var totalItems := TotalItems(scannedGames);
      if !confirmed {
        return None;
      }
      var items := Seqs.Map(SaleItemOf, scannedGames);
      var entry := logger.LogSale(now, items, totalAmount, totalItems);
      scannedGames := [];
      sale := Some(entry);
    }

    /** A detection from the decoder at the instant `now`: the acceptance
        guard, then `processScannedBarcode` for an accepted code, which looks
        the code up and, outside client mode, adds the product to the cart. */
    method OnDetected(raw: string, now: int, clientMode: bool) returns (accepted: Option<string>, found: Option<Product>)
      modifies this
      ensures (ScanState(), accepted) == Scanner.OnDetected(old(ScanState()), raw, now)
      ensures found == if accepted.Some? then FindGameByBarcode(gamesData, accepted.value) else None
      ensures scannedGames == if found.Some? && !clientMode then AddLine(old(scannedGames), found.value) else old(scannedGames)
      ensures gamesData == old(gamesData)
    {
      found := None;
      accepted := None;
      if !(isScanning && !scanCooldown) {
        return;
      }
      accepted := HandleBarcodeDetection(raw, now);
      if accepted.Some? {
        found := FindGameByBarcode(gamesData, accepted.value);
        if found.Some? && !clientMode {
          AddGameToCart(found.value);
        }
      }
    }

    /** `handleBarcodeDetection`: the accepted code, if any. */
    method HandleBarcodeDetection(raw: string, now: int) returns (accepted: Option<string>)
      modifies this
      ensures (ScanState(), accepted) == Scanner.HandleDetection(old(ScanState()), raw, now)
      ensures gamesData == old(gamesData) && scannedGames == old(scannedGames)
    {
      if raw == [] {
        return None;
      }
      var code := Text.Trim(raw);
      if |code| < Scanner.MinCodeLength {
        return None;
      }
      if lastScanTime != 0 && now - lastScanTime < Scanner.ScanCooldownMs {
        return None;
      }
      if lastScannedCode == Some(code) {
        return None;
      }
      lastScanTime := now;
      scanCooldown := true;
      lastScannedCode := Some(code);
      StopQuagga();
      accepted := Some(code);
    }

    /** `stopQuagga()`. */
    method StopQuagga()
      modifies this
      ensures ScanState() == Scanner.StopDecoder(old(ScanState()))
      ensures gamesData == old(gamesData) && scannedGames == old(scannedGames)
    {
      quaggaInitialized := false;
    }

    /** `resetScannerStateForRestart()`. */
    method ResetScannerStateForRestart()
      modifies this
      ensures ScanState() == Scanner.ResetForRestart(old(ScanState()))
      ensures gamesData == old(gamesData) && scannedGames == old(scannedGames)
    {
      scanCooldown := false;
      lastScannedCode := None;
      StopQuagga();
      isScanning := false;
    }

    /** `resetScannerState()`. */
    method ResetScannerState()
      modifies this
      ensures ScanState() == Scanner.Reset(old(ScanState()))
      ensures gamesData == old(gamesData) && scannedGames == old(scannedGames)
    {
      isScanning := false;
      lastScannedCode := None;
      scanCooldown := false;
      lastScanTime := 0;
    }

    /** `stopScanner()`, for the scanner fields. */
    method StopScanner()
      modifies this
      ensures ScanState() == Scanner.Stop(old(ScanState()))
      ensures gamesData == old(gamesData) && scannedGames == old(scannedGames)
    {
      ResetScannerState();
      StopQuagga();
    }

    /** The timer `processScannedBarcode` sets after a found product. */
    method AfterFoundTimeout()
      modifies this
      ensures ScanState() == Scanner.AfterFound(old(ScanState()))
      ensures gamesData == old(gamesData) && scannedGames == old(scannedGames)
    {
      StopScanner();
      scanCooldown := false;
      lastScannedCode := None;
    }

    /** `startQuaggaScanner()`; `initOk` is whether the decoder initialised. */
    method StartQuaggaScanner(initOk: bool)
      modifies this
      ensures ScanState() == Scanner.StartDecoder(old(ScanState()), initOk)
      ensures gamesData == old(gamesData) && scannedGames == old(scannedGames)
    {
      if isScanning {
        return;
      }
      StopQuagga();
      if initOk {
        quaggaInitialized := true;
        isScanning := true;
      }
    }
  }
}
