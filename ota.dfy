/**
 * The arithmetic and bookkeeping of the multithreaded OTA updater: state and
 * error names, download speed and time remaining, and the cancel/retry
 * flags `setState` derives from the new state.  States and errors are the
 * C enum values, so a value outside the enumeration can reach the `default`
 * branches.
 */
module OTA {
  import opened Bits

  // OTAState_t, in declaration order.
  const IDLE := 0
  const INITIALIZING := 1
  const CONNECTING := 2
  const CONNECTED := 3
  const DOWNLOADING := 4
  const INSTALLING := 5
  const VERIFYING := 6
  const SUCCESS := 7
  const FAILED := 8
  const CANCELLED := 9
  const CLEANUP := 10

  // OTAError_t, in declaration order.
  const ERROR_NONE := 0
  const ERROR_UNKNOWN := 7

  /** The names of the eleven states, in enum order. */
  const STATE_NAMES: seq<string> := ["IDLE", "INITIALIZING", "CONNECTING", "CONNECTED", "DOWNLOADING",
    "INSTALLING", "VERIFYING", "SUCCESS", "FAILED", "CANCELLED", "CLEANUP"]

  const ERROR_NAMES: seq<string> := ["No Error", "WiFi Connection Timeout", "Server Unreachable",
    "Download Failed", "Flash Write Failed", "Verification Failed", "Out of Memory", "Unknown Error"]

  predicate IsState(s: int) { IDLE <= s <= CLEANUP }

  predicate IsError(e: int) { ERROR_NONE <= e <= ERROR_UNKNOWN }

  /** getStateString: the state's name, "UNKNOWN" for a value outside the enumeration. */
  function StateString(state: int): (r: string)
    ensures IsState(state) ==> r == STATE_NAMES[state]
    ensures !IsState(state) ==> r == "UNKNOWN"
  {
    if state == IDLE then "IDLE"
    else if state == INITIALIZING then "INITIALIZING"
    else if state == CONNECTING then "CONNECTING"
    else if state == CONNECTED then "CONNECTED"
    else if state == DOWNLOADING then "DOWNLOADING"
    else if state == INSTALLING then "INSTALLING"
    else if state == VERIFYING then "VERIFYING"
    else if state == SUCCESS then "SUCCESS"
    else if state == FAILED then "FAILED"
    else if state == CANCELLED then "CANCELLED"
    else if state == CLEANUP then "CLEANUP"
    else "UNKNOWN"
  }

  /** No two states share a name, and none is called "UNKNOWN", so the name identifies the state. */
  lemma StateStringInjective(a: int, b: int)
    requires StateString(a) == StateString(b)
    ensures IsState(a) <==> IsState(b)
    ensures IsState(a) ==> a == b
  {
  }

  /** getErrorString: the error's description, "Invalid Error" outside the enumeration. */
  function ErrorString(error: int): (r: string)
    ensures IsError(error) ==> r == ERROR_NAMES[error]
    ensures !IsError(error) ==> r == "Invalid Error"
  {
    if error == 0 then "No Error"
    else if error == 1 then "WiFi Connection Timeout"
    else if error == 2 then "Server Unreachable"
    else if error == 3 then "Download Failed"
    else if error == 4 then "Flash Write Failed"
    else if error == 5 then "Verification Failed"
    else if error == 6 then "Out of Memory"
    else if error == ERROR_UNKNOWN then "Unknown Error"
    else "Invalid Error"
  }

  lemma ErrorStringInjective(a: int, b: int)
    requires ErrorString(a) == ErrorString(b)
    ensures IsError(a) <==> IsError(b)
    ensures IsError(a) ==> a == b
  {
  }

  // ---------------------------------------------------------------------------
  // Download speed and time remaining
  // ---------------------------------------------------------------------------

  /**
   * calculateDownloadSpeed as written: `bytesDownloaded * 1000` is computed
   * in uint32_t, so the product wraps modulo 2^32 before the division.
   */
  function DownloadSpeedAsWritten(bytesDownloaded: uint32, timeMs: uint32): (r: uint32)
    ensures timeMs == 0 ==> r == 0
    ensures timeMs > 0 ==> r * timeMs <= Mul32(bytesDownloaded, 1000) < (r + 1) * timeMs
  {
    if timeMs == 0 then 0 else Mul32(bytesDownloaded, 1000) / timeMs
  }

  /** A download of 5,000,000 bytes in one second is reported at 705,032 bytes per second. */
  lemma DownloadSpeedWraps(bytes: uint32, time: uint32)
    requires bytes == 5000000 && time == 1000
    ensures DownloadSpeedAsWritten(bytes, time) == 705032
    ensures DownloadSpeed(bytes, time) == 5000000
  {
  }

  /** The two agree exactly when the product fits in 32 bits: beyond 4,294,967 bytes the report is too low. */
  lemma DownloadSpeedAsWrittenExact(bytes: uint32, time: uint32)
    requires time > 0
    ensures DownloadSpeedAsWritten(bytes, time) == DownloadSpeed(bytes, time) <==> bytes * 1000 < TWO32
    ensures DownloadSpeedAsWritten(bytes, time) <= DownloadSpeed(bytes, time)
  {
    var x := bytes * 1000;
    var w, q := DownloadSpeedAsWritten(bytes, time), DownloadSpeed(bytes, time);
    if x >= TWO32 {
      assert Mul32(bytes, 1000) <= x - TWO32;
      assert w * time < q * time;
    } else {
      assert Mul32(bytes, 1000) == x;
    }
  }

  /** calculateDownloadSpeed as intended: bytes per second, the product held exactly. */
  function DownloadSpeed(bytesDownloaded: uint32, timeMs: uint32): (r: nat)
    ensures timeMs == 0 ==> r == 0
    ensures timeMs > 0 ==> r * timeMs <= bytesDownloaded * 1000 < (r + 1) * timeMs
  {
    if timeMs == 0 then 0 else (bytesDownloaded * 1000) / timeMs
  }

  /** calculateETA: whole seconds to fetch the remaining bytes at `speed`; 0 when the speed is 0 or nothing remains. */
  function ETA(bytesDownloaded: uint32, totalBytes: uint32, speed: nat): (r: nat)
    ensures speed == 0 || bytesDownloaded >= totalBytes ==> r == 0
    ensures speed > 0 && bytesDownloaded < totalBytes ==>
      r * speed <= totalBytes - bytesDownloaded < (r + 1) * speed
  {
    if speed == 0 || bytesDownloaded >= totalBytes then 0
    else (totalBytes - bytesDownloaded) / speed
  }

  /** More bytes downloaded at the same speed never raises the estimate. */
  lemma ETAMonotone(b1: uint32, b2: uint32, total: uint32, speed: nat)
    requires b1 <= b2
    ensures ETA(b2, total, speed) <= ETA(b1, total, speed)
  {
    if speed > 0 && b2 < total {
      var r1, r2 := ETA(b1, total, speed), ETA(b2, total, speed);
      assert r2 * speed <= total - b2 <= total - b1 < (r1 + 1) * speed;
    }
  }

  // ---------------------------------------------------------------------------
  // setState
  // ---------------------------------------------------------------------------

  datatype Flags = Flags(canCancel: bool, canRetry: bool)

  /** The switch in setState: the control flags each new state gets. */
  function ControlFlags(state: int): (r: Flags)
    ensures r.canRetry <==> state == FAILED
    ensures !r.canCancel <==> state in {INSTALLING, VERIFYING, SUCCESS, CANCELLED}
  {
    if state == CONNECTING || state == DOWNLOADING then Flags(true, false)
    else if state == INSTALLING || state == VERIFYING then Flags(false, false)
    else if state == FAILED then Flags(true, true)
    else if state == SUCCESS || state == CANCELLED then Flags(false, false)
    else Flags(true, false)
  }

  /** A retry is only ever offered together with a cancel. */
  lemma RetryImpliesCancel(state: int)
    ensures ControlFlags(state).canRetry ==> ControlFlags(state).canCancel
  {
  }

  /** The OTAUIUpdateType_t values setState and its neighbours post. */
  datatype UIUpdate = ProgressUpdate | StateUpdate | ErrorUpdate | LogUpdate | StatsUpdate

  /** The part of g_otaProgress that setState owns, and the UI updates posted so far. */
  class Progress {
    var state: int
    var canCancel: bool
    var canRetry: bool
    var posted: seq<UIUpdate>

    /** The flags always agree with the state once setState has run. */
    predicate Valid()
      reads this
    {
      Flags(canCancel, canRetry) == ControlFlags(state)
    }

    constructor()
      ensures state == IDLE && canCancel && !canRetry && posted == [] && Valid()
    {
      state := IDLE;
      canCancel := true;
      canRetry := false;
      posted := [];
    }

    /**
     * setState: when the state mutex is taken (`acquired`), store the state,
     * set the flags from it and post one state update; otherwise nothing.
     */
    method SetState(newState: int, acquired: bool)
      modifies this
      ensures acquired ==> state == newState && Flags(canCancel, canRetry) == ControlFlags(newState)
      ensures acquired ==> posted == old(posted) + [StateUpdate]
      ensures !acquired ==> (state == old(state) && canCancel == old(canCancel) &&
                             canRetry == old(canRetry) && posted == old(posted))
      ensures old(Valid()) ==> Valid()
    {
      if acquired {
        state := newState;
        if newState == CONNECTING || newState == DOWNLOADING {
          canCancel, canRetry := true, false;
        } else if newState == INSTALLING || newState == VERIFYING {
          canCancel, canRetry := false, false;
        } else if newState == FAILED {
          canCancel, canRetry := true, true;
        } else if newState == SUCCESS || newState == CANCELLED {
          canCancel, canRetry := false, false;
        } else {
          canCancel, canRetry := true, false;
        }
        posted := posted + [StateUpdate];
      }
    }
  }
}
