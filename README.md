# GAME ZONE scanner: a Dafny model of its data engine

The scanner is a kiosk web app. A price clerk scans a game's barcode with the camera, the app looks the code up in a catalog, and the game goes into a cart that is sold in one step. The app is built from two classes in `app.js`. `GameScannerApp` holds the catalog, the cart and the scanner state. `SimpleLogger` keeps the device's sales and event ledger in local storage and merges it with the ledgers that other devices on the same origin left there.

This project models that data engine in Dafny and proves what it promises.

| File | Module | What it models |
|---|---|---|
| `csv.dfy` | `Csv` | `parseCSVRow`, the quote-toggling comma splitter that trims each cell. `parseCSV`, which skips the header and blank lines, drops rows of fewer than 29 cells, and extracts up to four records (PS4, PS5, NS/Switch, XBOX) from fixed cell ranges. |
| `catalog.dfy` | `Catalog` | The catalog record, and `findGameByBarcode`: an exact pass over the `/`-separated alternates, then a substring fallback. |
| `pricing.dfy` | `Pricing` | `calculateFinalPrice` (a decimal comma, white space, `parseFloat`, `Math.round`, +1000), and `formatPrice` (a space every three digits). |
| `search.dfy` | `Search` | `smartSearch`: fixed scores, zero scores dropped, a stable sort by descending score. |
| `cart.dfy` | `Cart` | The cart lines, as values. What adding, changing and removing do to them, and the sale totals. |
| `ledger.dfy` | `Ledger` | `SimpleLogger` as a class with the fields `deviceId`, `salesLog` and `appLog`, plus the pure specification of:<ul><li>loading, retention and the cross-device merge;</li><li>the statistics and sale ids;</li><li>clearing every ledger.</li></ul> |
| `scanner.dfy` | `Scanner` | The scan acceptance guard as a state machine over `isScanning`, `scanCooldown`, `lastScanTime`, `lastScannedCode` and `quaggaInitialized`. |
| `app.dfy` | `App` | `GameScannerApp` as a class whose methods update the cart and scanner fields in place. It also holds the usage bucket of `trackUsage`. |
| `text.dfy`, `numbers.dfy`, `seqs.dfy` | `Text`, `Numbers`, `Seqs` | The JavaScript library calls the source relies on: `trim`, `includes`, `split`/`join`, the first-match `replace`, `toLowerCase`, the decimal spelling of integers, `filter`, `findIndex`, the stable `sort` with a numeric comparator, `slice(-n)`, and the `some`-then-`push` deduplication. |
| `wrappers.dfy` | `Wrappers` | `Option`. |

**Conventions of the model:**

- **Time.** Instants are integers (milliseconds). "Now", the 30-day cutoff and the start of today are parameters.
- **Local storage.** It is the sequence of its entries in enumeration order, each holding its already-parsed ledger.
  - It is a sequence and not a map, because the merge result depends on that order: which copy of a device's ledger is collected, the order of the appended entries, and the order of timestamp ties after the stable sort.
- **Missing values.**
  - A missing quantity is 0, and it counts as 1, as `quantity || 1` does.
  - A missing list in a stored ledger is `None`.
  - A ledger from another device that lacks its event list makes the merge throw. The logger then keeps its lists, which is the `catch` of `syncWithOtherDevices`.
- **Confirmations.** The user's answer to a confirmation dialog is a `confirmed` parameter.

## Model

| member | source | states |
|---|---|---|
| Csv.ParseCSVRow | app.js:831-848 | The cells are the trimmed fields of the reference splitter. There is exactly one more cell than there are commas outside quotes, and no cell holds a `"` or surrounding white space. |
| Csv.FieldsNoQuote | app.js:836-838 | No field holds a double quote: every quote only toggles the in-quotes state. |
| Csv.JoinFields | app.js:836-846 | Joining the fields with commas gives the row back without its quote characters. The splitter loses nothing else. |
| Csv.CellCount | app.js:839-846 | A row has one more field than it has commas outside quotes. |
| Csv.FieldsCount | app.js:836-845 | Over a split point, the field count adds up from the quote state at the split. |
| Csv.CellsClean | app.js:840-846 | Every trimmed cell is free of quotes and trimmed. |
| Csv.ParseCSV | app.js:752-829 | The records are, in order, those of each line after the header, taken from the lines of `csvText.split('\n')`. |
| Csv.AppendLineRecords | app.js:757-761 | One line adds its records to the end of the list. A blank line or a short row adds none. |
| Csv.AppendRowRecords | app.js:763-822 | A row of at least 29 cells adds the PS4, PS5, NS and XBOX records, in that order, each only when present. |
| Csv.PushPs4 | app.js:763-775 | The push block appends `Ps4Record` of cells 0-6, a record exactly when cell 0 contains `PS4` and cells 1 and 2 are non-empty. That the record is well formed is a property of `Ps4Record`, proved by `Csv.Ps4WellFormed`. |
| Csv.PushPs5 | app.js:777-789 | The push block appends `Ps5Record` of cells 8-14, on the same conditions with `PS5`. That the record is well formed is a property of `Ps5Record`, proved by `Csv.Ps5WellFormed`. |
| Csv.PushSwitch | app.js:791-808 | The push block appends `SwitchRecord` of cells 16-21, whose alternates are trimmed and re-joined. That the record is well formed is a property of `SwitchRecord`, proved by `Csv.SwitchWellFormed`. |
| Csv.PushXbox | app.js:810-822 | The push block appends `XboxRecord` of cells 23-28. That the record is well formed is a property of `XboxRecord`, proved by `Csv.XboxWellFormed`. |
| Csv.HeaderIgnored | app.js:756 | Line 0 contributes nothing, whatever it holds. |
| Csv.BlankLineIgnored | app.js:757 | A blank line after the header contributes nothing, wherever it stands. |
| Csv.ShortRowIgnored | app.js:761 | A row with fewer than 28 unquoted commas, and so fewer than 29 cells, yields no record. |
| Csv.NormalizeAlternatesStable | app.js:793-796 | Normalizing the NS alternates leaves what the matcher sees unchanged, and is idempotent. |
| Csv.RowRecordsWellFormed | app.js:763-822 | A row yields at most four records, and each is well formed: tag in platform, non-empty barcode and name, no quotes. |
| Csv.LineRecordsWellFormed | app.js:757-822 | Any line yields at most four well-formed records. |
| Csv.CatalogRecordsWellFormed | app.js:752-829 | Every parsed record is well formed and comes from some line after the header. |
| Catalog.Alternates | app.js:1444-1445 | The alternates of a barcode: at least one, each free of `/` and trimmed. |
| Catalog.FindGameByBarcode | app.js:1439-1465 | The code is trimmed first. When some record matches exactly, the first such record is found. The substring pass decides only when no record matches exactly, and then its first match is found. Nothing is found exactly when neither pass matches. A found record is in the catalog and has a non-empty barcode. |
| Catalog.ExactIsPartial | app.js:1443-1461 | An exact match also passes the substring test. |
| Catalog.AlternateIsFound | app.js:1443-1450 | A code equal to some record's alternate always finds a record that has it as an alternate. |
| Catalog.EmptyAlternateMatchesEverything | app.js:1455-1458 | A barcode cell with an empty alternate, such as a trailing `/`, passes the substring test for every code. |
| Pricing.ParseFloat | app.js:1628 | `parseFloat` gives NaN exactly when the longest numeric prefix holds no digit. An unsigned number is non-negative. |
| Pricing.Round | app.js:1629 | `Math.round` returns the integer within half of `x`, rounding halves up. |
| Pricing.CalculateFinalPrice | app.js:1625-1634 | An empty price, or a text that does not parse, gives 0. |
| Pricing.FinalPriceOfParsed | app.js:1627-1629 | A non-empty text whose cleaned form parses as v is priced at round(v + 1000), which by `Round` is within one half of v + 1000. |
| Pricing.FinalPriceOfDigits | app.js:1625-1634 | A plain digit string n is priced at n + 1000. |
| Pricing.FinalPriceOfInt | app.js:1625-1634 | The decimal spelling of any integer n, including a negative one, is priced at n + 1000. |
| Pricing.ParseDecimalComma | app.js:1627-1629 | Cleaning "a,f" turns the first comma into a decimal point, and the result parses as a + 0.f; with FinalPriceOfParsed, "a,f" is priced at round(a + 0.f + 1000). |
| Pricing.FinalPriceOfText | app.js:1628-1629 | A price text that cannot start a number is priced at 0. |
| Pricing.SpacesIgnored | app.js:1627 | White space anywhere in the price text does not change the price. |
| Pricing.GroupShape | app.js:1675 | The grouped digits are a first group of one to three digits followed by groups of exactly three, joined by single spaces. |
| Pricing.GroupStrip | app.js:1675 | Removing the spaces from the grouped digits gives the digits back. |
| Pricing.FormatPriceDigits | app.js:1673-1676 | Removing the spaces from a formatted price gives JavaScript's plain spelling of the integer; 0 gives `"0"`. |
| Pricing.FormatPriceNoComma | app.js:1673-1676 | A formatted price holds no comma. |
| Pricing.FormatPriceReadBack | app.js:1625-1634 | A formatted price, read back by `calculateFinalPrice`, gives that price plus 1000. The formatter and the parser are inverse up to the margin. Also app.js lines 1673-1676. |
| Search.Score | app.js:146-165 | The score lies between 0 and 250. It is positive exactly when the name, the code or some alternate contains the query, and a name match scores at least 100. |
| Search.SmartSearch | app.js:140-174 | The result is the hit list of the catalog sorted by score and mapped to the records. A query shorter than 2 gives []. |
| Search.ScoreGame | app.js:147-165 | The loop body computes exactly `Score`. The properties live on `Search.Score`: the bounds, and a positive score exactly on a name, code or alternate match. |
| Search.HitsSound | app.js:146-170 | Every hit is the record at its index with its positive score, and hits stay in catalog order. |
| Search.HitsComplete | app.js:146-170 | Every record with a positive score has a hit. |
| Search.HitsCount | app.js:146-170 | The number of hits is the number of records with a positive score. |
| Search.SearchOrder | app.js:172 | Results are in non-increasing score order. Equal scores keep catalog order. |
| Search.SearchMembers | app.js:140-174 | A record is returned exactly when the query has at least two characters and its score is positive, once per catalog position. |
| Search.BlankQueryFindsAllNamed | app.js:141-150 | A query of two or more white-space characters trims to "" and finds every record with a name. |
| Cart.EffectiveQuantity | app.js:1004 | `quantity \|\| 1`: a zero quantity counts as 1, and any other quantity as itself. |
| Cart.AddExisting | app.js:1002-1004 | Adding a product whose barcode is in the cart raises the first such line's quantity by one and changes no other line. |
| Cart.AddNew | app.js:1005-1014 | Adding a product not in the cart appends a line of quantity 1 at the price computed at that moment. |
| Cart.AddKeepsBarcodesUnique | app.js:1000-1015 | At most one line per barcode is kept, and the added barcode is in the cart. |
| Cart.AddTwice | app.js:1000-1015 | Two scans of the same product into an empty cart give one line of quantity 2. |
| Cart.AddTotals | app.js:1000-1015 | An add raises the item total by one and the amount by the line's snapshot price. An existing line keeps the price it was created with. Also app.js lines 1063-1064. |
| Cart.TotalsUpdate | app.js:1063-1064 | Replacing one line changes the totals by the difference of the two lines. |
| Cart.TotalsConcat | app.js:1063-1064 | The totals of a concatenation are the sums of the totals of its parts. |
| Cart.RemoveAtSpec | app.js:1041-1047 | An in-range removal drops exactly that line and keeps the others in order. An out-of-range index changes nothing. |
| Cart.RemoveKeepsBarcodesUnique | app.js:1041-1047 | Removal keeps at most one line per barcode. |
| Cart.RemoveTotals | app.js:1041-1047 | Removal takes the line's items and amount off the totals. Also app.js lines 1063-1064. |
| Cart.ChangeQuantitySpec | app.js:1026-1039 | An out-of-range index changes nothing. A quantity that would drop below 1 removes the line. Otherwise only that line's quantity changes. Uniqueness of barcodes is kept. |
| Cart.IncrementThenDecrement | app.js:1026-1039 | A `+` and then a `-` on a line give the cart back. |
| Ledger.UpsertSpec | app.js:85 | `allLogs[id] = logs` keeps one ledger per device, with the latest one in place of an older one. |
| Ledger.Collect | app.js:76-91 | The collected ledgers each have a device id and a sales list, and there is one per device. |
| Ledger.CollectSound | app.js:79-86 | Every collected ledger comes from a `gamezone_logs_` entry with a device id and a sales list. |
| Ledger.CollectLatest | app.js:79-86 | The last qualifying entry of a device is the one collected. |
| Ledger.MergeAborts | app.js:101-119 | The merge throws exactly when another device's ledger lacks its event list. Also app.js lines 134-136. |
| Ledger.MergeAsAppend | app.js:93-119 | Without a throw, the merge appends the unseen other-device sales, then the unseen events, to this device's lists. The device's own ledger is skipped. |
| Ledger.OtherSalesMember | app.js:101-108 | A sale is offered to the merge exactly when it is in some other device's ledger. |
| Ledger.OtherEventsMember | app.js:101-117 | An event is offered exactly when it is in some other device's ledger. |
| Ledger.MergedSales | app.js:103-108 | The device's own sales come first, unchanged. Each added sale comes from another device. Every other-device sale id ends up present, and unique ids stay unique. |
| Ledger.MergedEvents | app.js:110-117 | The same for events, keyed by the (timestamp, action) pair. |
| Ledger.SortAndCap | app.js:122-125 | Sorting and keeping the last n gives exactly min(|s|, n) entries: the suffix of the sorted list, so it is sorted and drawn from the input, all of it when it fits. Nothing dropped is newer than anything kept. |
| Ledger.ReconcileSales | app.js:122-124 | Sales come out sorted by time, exactly min(|sales|, 1000) of them, drawn from the merge. Nothing dropped is newer than anything kept. |
| Ledger.ReconcileEvents | app.js:123-125 | Events come out sorted by time, exactly min(|events|, 500) of them, drawn from the merge. Nothing dropped is newer than anything kept. |
| Ledger.ReconcileLength | app.js:124-125 | `slice(-1000)` and `slice(-500)` keep exactly min(|sales|, 1000) sales and min(|events|, 500) events. |
| Ledger.SyncSpec | app.js:74-137 | The sync fails exactly when another device's ledger lacks its event list. Otherwise the result is the own lists with the unseen other-device entries appended, then sorted and capped. |
| Ledger.CoveredAfterSort | app.js:103-123 | Sorting the merged list keeps every merged key present. |
| Ledger.SyncIdempotent | app.js:74-137 | A second sync against the same storage changes nothing, when the first merge fits in the caps. |
| Ledger.RetainedSpec | app.js:52-71 | After cleanup, a sale is kept exactly when it is newer than the cutoff. Exactly the last min(|events|, 500) events remain. Cleaning up twice is cleaning up once. |
| Ledger.SplitSaleId | app.js:196 | A sale id splits on `_` into `SALE`, the instant, and the pieces of the device id. |
| Ledger.SaleIdsDistinct | app.js:196 | Sale ids made at different instants or on different devices differ. |
| Ledger.GetStats | app.js:378-399 | The total sale count is the length of the sales log, and today's count does not exceed it. |
| Ledger.PeriodSpec | app.js:402-426 | A period containing `today` selects exactly the sales at or after the start of today. Any other period returns the whole log. |
| Ledger.StatsMatchPeriods | app.js:378-426 | Each figure of `getStats` is the count, revenue or items of the matching `getSalesByPeriod` list. |
| Ledger.StatsAfterSale | app.js:193-215 | Logging one sale raises the totals by its amount and items, and raises today's figures exactly when it was made today. Also app.js lines 378-399. |
| Ledger.ClearLogsAsWrittenMissesLedger | app.js:356-361 | When the first two storage entries are both ledgers, the loop as written leaves the second one in storage. |
| Ledger.AsWrittenKeepsVisited | app.js:356-361 | The loop as written never changes the entries before its index. |
| Ledger.RemoveLedgersSpec | app.js:353-363 | The intended clear: no ledger entry is left, every other entry stays, and a later sync collects nothing. |
| Ledger.SyncAfterClear | app.js:74-137 | After a clear, syncing the emptied logger leaves it empty. Also app.js lines 353-364. |
| Ledger.RemoveLedgerEntries | app.js:356-361 | The clearing loop removes exactly the ledger entries. |
| Ledger.SimpleLogger.constructor | app.js:33-49 | The logger loads this device's lists, cleans them up, then syncs them. |
| Ledger.SimpleLogger.CleanupOldLogs | app.js:52-71 | The new lists are the retained ones. |
| Ledger.SimpleLogger.SyncWithOtherDevices | app.js:74-137 | The new lists are the sync result, or the old lists when the sync throws. |
| Ledger.SimpleLogger.LogSale | app.js:193-215 | Exactly one sale is appended: id `SALE_<now>_<device>`, the given items and totals, and this device. Events are unchanged. |
| Ledger.SimpleLogger.LogAppAction | app.js:177-190 | Exactly one event is appended. Sales are unchanged. |
| Ledger.SimpleLogger.ClearLogs | app.js:353-375 | On confirmation, both lists are emptied and storage becomes `RemoveLedgers(store)`: the corrected clear of the Findings table, in which every ledger entry leaves storage. Otherwise nothing changes and false is returned. |
| Ledger.SyncLists | app.js:74-137 | The body of the sync on copies of the lists computes the sync result, or keeps the lists on a throw. |
| Ledger.CollectLedgers | app.js:76-91 | The storage loop computes `Collect`. |
| Ledger.MergeCollected | app.js:93-119 | The merge loop computes `MergeLedgers`. |
| Ledger.PushUnseen | app.js:104-108 | The `some`-then-`push` loop appends each incoming entry whose key is not yet present. Also app.js lines 111-117. |
| Scanner.DetectionSpec | app.js:1361-1397 | A detection is accepted exactly when all of these hold: scanning is on and out of cooldown; the trimmed code has at least 6 characters; it is not within 300 ms of the last accepted scan (when there was one); and it differs from the last code. Acceptance records the time and code, starts the cooldown and stops the decoder. A rejection changes nothing. |
| Scanner.CooldownBlocks | app.js:1361 | While the cooldown is on, no detection is accepted and nothing changes. |
| Scanner.AtMostOneAccepted | app.js:1361-1397 | Between resets, at most one code is accepted, however many detections arrive. |
| Scanner.SpacingAcrossRestart | app.js:1378-1381 | A restart keeps `lastScanTime`, so the next accepted scan comes at least 300 ms after the previous one. Also app.js lines 1467-1472. |
| Scanner.SameCodeAfterRestart | app.js:1384-1387 | After a restart, the same code is accepted again once 300 ms have passed. Also app.js lines 1467-1472. |
| Scanner.StopForgetsLastScan | app.js:1532-1545 | Stopping or resetting clears the time of the last scan and turns scanning off. Also app.js lines 1569-1575. |
| App.RecordUsage | app.js:1706-1712 | A push into a daily bucket keeps at most 100 entries. The new entry is last, and the kept ones are the newest. |
| App.RecordAllKeepsNewest | app.js:1692-1716 | Tracking entries one after another keeps exactly the newest 100 of everything tracked. |
| App.KeepNewestAppend | app.js:1709-1711 | Dropping the oldest entries, appending, then dropping again is the same as dropping once at the end. |
| App.SaleItemsMatchTotals | app.js:1063-1082 | A sale's totals are the sums over its items: the amount is Σ total, and the item count is Σ quantity. |
| App.GameScannerApp.constructor | app.js:440-464 | The app starts with an empty cart, the scanner at rest, and a fresh logger for the device. |
| App.GameScannerApp.AddGameToCart | app.js:1000-1024 | The cart becomes `AddLine` of the old cart. The scanner fields are unchanged. |
| App.GameScannerApp.UpdateCartItem | app.js:1026-1039 | The cart becomes `ChangeQuantity` of the old cart. |
| App.GameScannerApp.RemoveFromCart | app.js:1041-1047 | The cart becomes `RemoveAt` of the old cart. |
| App.GameScannerApp.ClearCart | app.js:1049-1060 | On confirmation the cart is emptied. Otherwise it is unchanged. |
| App.GameScannerApp.ProcessSaleFromCart | app.js:1062-1106 | On confirmation, one sale is logged holding every line, with the cart's totals, and the cart is emptied. Otherwise nothing changes. |
| App.GameScannerApp.OnDetected | app.js:1361-1363 | The scanner fields follow the guard. An accepted code is looked up, and outside client mode a found product is added to the cart. Also app.js lines 1399-1412. |
| App.GameScannerApp.HandleBarcodeDetection | app.js:1368-1397 | The scanner fields and the accepted code are those of the guard. |
| App.GameScannerApp.StopQuagga | app.js:1509-1520 | The decoder is marked stopped. |
| App.GameScannerApp.ResetScannerStateForRestart | app.js:1467-1472 | The cooldown and last code are cleared, the decoder is stopped and scanning is off. |
| App.GameScannerApp.ResetScannerState | app.js:1569-1575 | Scanning is off, and the last code, the cooldown and the last scan time are cleared. |
| App.GameScannerApp.StopScanner | app.js:1532-1545 | Resets the scanner fields and stops the decoder. |
| App.GameScannerApp.AfterFoundTimeout | app.js:1418-1422 | Stops the scanner, then clears the cooldown and last code. |
| App.GameScannerApp.StartQuaggaScanner | app.js:1321-1366 | Does nothing while scanning. Otherwise it stops the decoder and, when the decoder initialises, marks it running and starts scanning. |

## Findings

| source | as written | input that shows it | evidently intended | confidence | as-written member | corrected member |
|---|---|---|---|---|---|---|
| app.js:356-361 | `clearLogs` removes entries while walking `localStorage` by a rising index. Each removal moves the later keys down by one, so the loop steps over the key after every removed one. | A store whose first two keys are both `gamezone_logs_…`: the second ledger survives, and the next sync merges it back. | Every `gamezone_logs_` entry is removed. | medium: browsers re-index keys after a removal, but the order of keys is left to the implementation; not executed | Ledger.ClearLogsAsWrittenMissesLedger | Ledger.RemoveLedgersSpec |

`Ledger.SimpleLogger.ClearLogs` uses the corrected loop, `Ledger.RemoveLedgerEntries`.

## Left out

- **The user interface.** DOM rendering, modals, `alert`, `updateStatus`/`updateCameraStatus`, haptics and the mode switch have nothing to state.
  - `confirm` is the `confirmed` parameter.
  - Client mode is the `clientMode` parameter of `OnDetected`.
- **The camera and decoder lifecycle.** `getUserMedia`, `Quagga.init/start/stop/onDetected`, `safeRestartScanner`, `restartCamera` and `stopCamera` are asynchronous foreign calls.
  - Their effect on the modelled fields is kept: `StartQuaggaScanner` takes the decoder's answer as `initOk`, and `StopQuagga` only clears the flag.
  - The `try`/`catch` of `stopQuagga` is not modelled.
- **Timers.**
  - The `setTimeout` callbacks of `processScannedBarcode` are separate method calls, `AfterFoundTimeout` and `ResetScannerStateForRestart`.
  - The `setInterval` syncs and cleanups are not modelled.
- **I/O, encoding and storage.**
  - These are not modelled:
    - the network fetch of the spreadsheet (`loadGamesData`, `checkForUpdates`);
    - the catalog cache in local storage;
    - `saveCart`;
    - `saveToStorage`, which also slices the lists when it writes them;
    - JSON (de)serialisation.
  - The catalog is a constructor parameter.
  - Storage is read as a parameter, and `ClearLogs` returns the new storage.
  - `Ledger.Load` takes the device's own ledger from storage.
- **The `catch` branches on I/O errors.** The `catch` of `cleanupOldLogs`, of `clearLogs` and of JSON parsing are not modelled. An unparseable storage value is an entry whose ledger is `None`.
- **`downloadLogs`.** It needs Blob/anchor downloads and locale date formatting.
- **Date arithmetic.**
  - "Thirty days ago" and local midnight are the parameters `cutoff` and `todayStart`.
  - The two clock reads in `logSale` (the ISO timestamp and `Date.now()`) are taken as the same instant.
- **ISO timestamp strings.** Timestamps are integers. The comparator `new Date(a) - new Date(b)` is an integer key, and the `(timestamp, action)` deduplication compares those integers.
- **Numbers.**
  - Exotic `parseFloat` input (exponents, `Infinity`) and floating-point rounding are not modelled. `parseFloat` is read exactly on decimal text.
  - `formatPrice` is modelled on integer prices only.
  - `Math.random` device ids are not modelled; the device id is a parameter.
- **Text.**
  - `toLowerCase` covers ASCII and Cyrillic only.
  - `.length` counts characters, not UTF-16 units.
  - `Object.values` of `allLogs` lists devices in first-seen order. The model ignores that JavaScript lists integer-like device ids first.
- **Usage tracking.** `platformIcon`, `APP_VERSION` and the mode in usage entries are not modelled, and nor are the `trackUsage` calls made from the other methods. Only the bucket cap, `App.RecordUsage`, is modelled.
- **Search.Hit.index.** The catalog position of a hit is not in the source's entry. It is there only to state the order of ties.
- **Ledger.SimpleLogger.ClearLogs.** It models the corrected clear, `RemoveLedgers`, not the index walk of app.js:356-361. That walk, `Ledger.RemoveLedgersAsWritten`, can leave a ledger in storage (see Findings). So on a store whose first two keys are ledgers, the model removes both where the program leaves the second.
- **Ledger.SyncIdempotent.** It is stated only when the merge fits in the caps of 1000 sales and 500 events. At the caps, a later sync can re-add a sale that was dropped earlier, when it ties in time with a kept one.
- **Ledger.SaleIdsDistinct.** Uniqueness of sale ids is proved on the merged list before sorting (`Ledger.MergedSales`). Its survival through the sort and the cap is not stated.
- **build.js and sw.js.** These are build-time minification and Service Worker cache plumbing.
