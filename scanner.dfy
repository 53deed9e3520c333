/** The scan acceptance guard of `GameScannerApp`: the `isScanning &&
    !scanCooldown` gate of the detection callback (app.js:1360-1364),
    `handleBarcodeDetection` (app.js:1368-1397), and the helpers that start,
    stop and reset the scanner fields (app.js:1354-1355, 1419-1423,
    1467-1472, 1509-1520, 1532-1536, 1569-1575). Instants are integers
    (milliseconds) passed in by the caller. */
module Scanner {
  import opened Wrappers
  import opened Text

  /** `SCAN_COOLDOWN_MS`. */
  const ScanCooldownMs: int := 300
  /** The shortest code `handleBarcodeDetection` accepts. */
  const MinCodeLength: int := 6

  /** The scanner fields of the app; `lastScannedCode` is `None` for `null`,
      and `decoderRunning` is `quaggaInitialized`. */
  datatype ScanState = ScanState(
    isScanning: bool,
    scanCooldown: bool,
    lastScanTime: int,
    lastScannedCode: Option<string>,
    decoderRunning: bool)

  /** The fields as the app constructor sets them. */
  const Initial: ScanState := ScanState(false, false, 0, None, false)

  /** `this.lastScanTime && (now - this.lastScanTime) < SCAN_COOLDOWN_MS`. */
  predicate TooSoon(st: ScanState, now: int) {
    st.lastScanTime != 0 && now - st.lastScanTime < ScanCooldownMs
  }

  /** `handleBarcodeDetection` on the raw decoded text: the new fields and the
      accepted code, which then goes to `processScannedBarcode`. */
  function HandleDetection(st: ScanState, raw: string, now: int): (ScanState, Option<string>) {
    if raw == [] then (st, None)
    else
      var code := Trim(raw);
      if |code| < MinCodeLength then (st, None)
      else if TooSoon(st, now) then (st, None)
      else if st.lastScannedCode == Some(code) then (st, None)
      else (st.(lastScanTime := now, scanCooldown := true, lastScannedCode := Some(code), decoderRunning := false), Some(code))
  }

  /** The `onDetected` callback: detections reach the handler only while
      scanning and out of cooldown. */
  function OnDetected(st: ScanState, raw: string, now: int): (ScanState, Option<string>) {
    if st.isScanning && !st.scanCooldown then HandleDetection(st, raw, now) else (st, None)
  }

  /** `stopQuagga`. */
  function StopDecoder(st: ScanState): ScanState {
    st.(decoderRunning := false)
  }

  /** `resetScannerStateForRestart`. */
  function ResetForRestart(st: ScanState): ScanState {
    StopDecoder(st.(scanCooldown := false, lastScannedCode := None)).(isScanning := false)
  }

  /** `resetScannerState`. */
  function Reset(st: ScanState): ScanState {
    st.(isScanning := false, lastScannedCode := None, scanCooldown := false, lastScanTime := 0)
  }

  /** The scanner fields after `stopScanner`. */
  function Stop(st: ScanState): ScanState {
    StopDecoder(Reset(st))
  }

  /** The timer set after a found product: `stopScanner`, then the cooldown
      and the last code are cleared. */
  function AfterFound(st: ScanState): ScanState {
    Stop(st).(scanCooldown := false, lastScannedCode := None)
  }

  /** `startQuaggaScanner` up to the decoder's answer: nothing while already
      scanning; otherwise the decoder is stopped and, when it initialises,
      marked running and scanning starts. */
  function StartDecoder(st: ScanState, initOk: bool): ScanState {
    if st.isScanning then st
    else
      var stopped := StopDecoder(st);
      if initOk then stopped.(decoderRunning := true, isScanning := true) else stopped
  }

  /** A code is accepted exactly when scanning is on and out of cooldown, the
      trimmed code has at least 6 characters, it does not come within 300 ms
      of the last accepted scan (when there was one), and it differs from the
      last accepted code. Acceptance records the time and the code, starts the
      cooldown and stops the decoder; a rejected detection changes nothing. */
  lemma DetectionSpec(st: ScanState, raw: string, now: int)
    ensures var (st', accepted) := OnDetected(st, raw, now);
      && (accepted.Some? <==>
            st.isScanning && !st.scanCooldown && |Trim(raw)| >= MinCodeLength
            && !TooSoon(st, now) && st.lastScannedCode != Some(Trim(raw)))
      && (accepted.Some? ==>
            accepted.value == Trim(raw) && IsTrimmed(accepted.value)
            && st' == ScanState(st.isScanning, true, now, accepted, false))
      && (accepted.None? ==> st' == st)
  {
    if raw == [] {
      assert Trim(raw) == [];
    }
  }

  /** Feeding the detections `ds` (code, instant) one after the other: the
      final fields and the accepted codes in order. */
  function DetectAll(st: ScanState, ds: seq<(string, int)>): (ScanState, seq<string>)
    decreases |ds|
  {
    if ds == [] then (st, [])
    else
      var step := OnDetected(st, ds[0].0, ds[0].1);
      var next := DetectAll(step.0, ds[1..]);
      (next.0, (if step.1.Some? then [step.1.value] else []) + next.1)
  }

  /** While the cooldown is on, no detection gets through and nothing changes. */
  lemma {:induction false} CooldownBlocks(st: ScanState, ds: seq<(string, int)>)
    requires st.scanCooldown
    ensures DetectAll(st, ds) == (st, [])
    decreases |ds|
  {
    if ds != [] {
      CooldownBlocks(st, ds[1..]);
      assert DetectAll(st, ds).1 == [];
    }
  }

  /** Between two resets at most one code is accepted, however many detections arrive. */
  lemma {:induction false} AtMostOneAccepted(st: ScanState, ds: seq<(string, int)>)
    ensures |DetectAll(st, ds).1| <= 1
    decreases |ds|
  {
    if ds != [] {
      var step := OnDetected(st, ds[0].0, ds[0].1);
      DetectionSpec(st, ds[0].0, ds[0].1);
      if step.1.Some? {
        CooldownBlocks(step.0, ds[1..]);
      } else {
        AtMostOneAccepted(step.0, ds[1..]);
      }
    }
  }

  /** A restart (`resetScannerStateForRestart` and a new decoder) keeps the
      time of the last accepted scan, so a scan accepted after it lies at
      least 300 ms after the previous one, even with the same code. */
  lemma SpacingAcrossRestart(st: ScanState, raw1: string, t1: int, raw2: string, t2: int)
    requires OnDetected(st, raw1, t1).1.Some? && t1 != 0
    requires OnDetected(StartDecoder(ResetForRestart(OnDetected(st, raw1, t1).0), true), raw2, t2).1.Some?
    ensures t2 - t1 >= ScanCooldownMs
  {
    DetectionSpec(st, raw1, t1);
    var st2 := StartDecoder(ResetForRestart(OnDetected(st, raw1, t1).0), true);
    assert st2.lastScanTime == t1;
    DetectionSpec(st2, raw2, t2);
  }

  /** After a restart the same code can be accepted again once 300 ms have passed. */
  lemma SameCodeAfterRestart(st: ScanState, raw: string, t1: int, t2: int)
    requires OnDetected(st, raw, t1).1.Some?
    requires t2 - t1 >= ScanCooldownMs
    ensures OnDetected(StartDecoder(ResetForRestart(OnDetected(st, raw, t1).0), true), raw, t2).1 == Some(Trim(raw))
  {
    DetectionSpec(st, raw, t1);
    var st2 := StartDecoder(ResetForRestart(OnDetected(st, raw, t1).0), true);
    DetectionSpec(st2, raw, t2);
  }

  /** `stopScanner` and `resetScannerState` forget the time of the last scan:
      after them the 300 ms spacing no longer applies, and scanning is off
      until the decoder is started again. */
  lemma StopForgetsLastScan(st: ScanState, now: int, raw: string)
    ensures !TooSoon(Reset(st), now) && !TooSoon(Stop(st), now) && !TooSoon(AfterFound(st), now)
    ensures OnDetected(Stop(st), raw, now) == (Stop(st), None)
    ensures AfterFound(st) == Stop(st)
  {
  }
}
