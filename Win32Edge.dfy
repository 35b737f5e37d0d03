/** Window size hints (`Hint` in include/webview/detail/engine_base.h). */
module Hints {

  /** Exactly the five hints of the source, in its order. */
  datatype Hint = None | Min | Max | Fixed | Static
}

/** The non-UI logic of the WebView2 backend (src/backends/win32_edge.cpp):
    the environment-creation retry state machine of `Webview2ComHandler`, COM
    reference counting, the size-hint rules, and the null-checked accessors. */
module Win32Edge {
  import opened Errors
  import Hints
  import W = Wrappers

  /** An HRESULT, as a signed 32-bit value. */
  type HResult = int

  const S_OK: HResult := 0
  /** E_ABORT, 0x80004004. */
  const E_ABORT: HResult := -2147467260
  /** HRESULT_FROM_WIN32(ERROR_INVALID_STATE), 0x8007139F. */
  const INVALID_STATE_HR: HResult := -2147019873

  predicate Succeeded(hr: HResult) { hr >= 0 }

  /** An attempt result that ends the retries without giving up. */
  predicate StopsRetrying(hr: HResult)
  {
    Succeeded(hr) || hr == INVALID_STATE_HR
  }

  // ---------------------------------------------------------------------
  // Environment creation.

  /** The end state of `TryCreateEnvironment` started at `attempts`: the
      final attempt count, and whether the completion callback was called
      with two null pointers (the handler gave up). `attempt(k)` is what the
      attempt handler returns on the k-th attempt. */
  datatype RetryEnd = RetryEnd(attempts: nat, gaveUp: bool)

  function RetryRun(attempts: nat, maxAttempts: nat, attempt: nat -> HResult): (r: RetryEnd)
    requires attempts <= maxAttempts
    ensures attempts <= r.attempts <= maxAttempts
    ensures r.gaveUp ==> r.attempts == maxAttempts
    ensures !r.gaveUp ==> r.attempts > attempts && StopsRetrying(attempt(r.attempts))
    ensures forall k :: attempts < k < r.attempts ==> !StopsRetrying(attempt(k))
    ensures r.gaveUp ==> forall k :: attempts < k <= maxAttempts ==> !StopsRetrying(attempt(k))
    decreases maxAttempts - attempts
  {
    if attempts < maxAttempts then
      if StopsRetrying(attempt(attempts + 1)) then RetryEnd(attempts + 1, false)
      else RetryRun(attempts + 1, maxAttempts, attempt)
    else RetryEnd(attempts, true)
  }

  /** From a fresh handler (0 attempts, at most 5), the handler is called at
      most five times and gives up exactly when none of the five attempts
      succeeds or reports ERROR_INVALID_STATE. */
  lemma FreshHandlerRetries(attempt: nat -> HResult)
    ensures RetryRun(0, 5, attempt).attempts <= 5
    ensures RetryRun(0, 5, attempt).gaveUp <==> forall k :: 1 <= k <= 5 ==> !StopsRetrying(attempt(k))
  {
  }

  /** What the completion callback `cb_` was called with. */
  datatype Delivery = Delivered | GaveUp

  class ComHandler {
    var attempts: nat
    const maxAttempts: nat
    const attempt: nat -> HResult
    /** The calls of `cb_`, in order. */
    var deliveries: seq<Delivery>
    /** How many times CreateCoreWebView2Controller was requested. */
    var controllerRequests: nat

    /** A new handler: no attempts yet, at most five. */
    constructor (attempt: nat -> HResult)
      ensures attempts == 0 && maxAttempts == 5 && this.attempt == attempt
      ensures deliveries == [] && controllerRequests == 0
    {
      attempts := 0;
      maxAttempts := 5;
      this.attempt := attempt;
      deliveries := [];
      controllerRequests := 0;
    }

    /** `TryCreateEnvironment`. */
    method TryCreateEnvironment()
      requires attempts <= maxAttempts
      modifies this`attempts, this`deliveries
      ensures attempts == RetryRun(old(attempts), maxAttempts, attempt).attempts
      ensures deliveries == old(deliveries) + (if RetryRun(old(attempts), maxAttempts, attempt).gaveUp then [GaveUp] else [])
      decreases maxAttempts - attempts
    {
      if attempts < maxAttempts {
        attempts := attempts + 1;
        var res := attempt(attempts);
        if Succeeded(res) {
          return;
        }
        if res == INVALID_STATE_HR {
          return;
        }
        TryCreateEnvironment();
        return;
      }
      deliveries := deliveries + [GaveUp];
    }

    /** `Invoke(HRESULT, ICoreWebView2Environment*)`: on success requests the
        controller and returns that request's result; otherwise retries. */
    method EnvironmentCompleted(res: HResult, createControllerResult: HResult) returns (r: HResult)
      requires attempts <= maxAttempts
      modifies this`attempts, this`deliveries, this`controllerRequests
      ensures Succeeded(res) ==>
        r == createControllerResult && controllerRequests == old(controllerRequests) + 1
        && attempts == old(attempts) && deliveries == old(deliveries)
      ensures !Succeeded(res) ==>
        r == S_OK && controllerRequests == old(controllerRequests)
        && attempts == RetryRun(old(attempts), maxAttempts, attempt).attempts
        && deliveries == old(deliveries) + (if RetryRun(old(attempts), maxAttempts, attempt).gaveUp then [GaveUp] else [])
    {
      if Succeeded(res) {
        controllerRequests := controllerRequests + 1;
        return createControllerResult;
      }
      TryCreateEnvironment();
      r := S_OK;
    }

    /** `Invoke(HRESULT, ICoreWebView2Controller*)`: ERROR_INVALID_STATE and
        E_ABORT give up silently, any other failure retries, success hands
        the controller to the callback. Always returns S_OK. */
    method ControllerCompleted(res: HResult) returns (r: HResult)
      requires attempts <= maxAttempts
      modifies this`attempts, this`deliveries
      ensures r == S_OK
      ensures (res == INVALID_STATE_HR || res == E_ABORT) ==>
        attempts == old(attempts) && deliveries == old(deliveries)
      ensures !Succeeded(res) && res != INVALID_STATE_HR && res != E_ABORT ==>
        attempts == RetryRun(old(attempts), maxAttempts, attempt).attempts
        && deliveries == old(deliveries) + (if RetryRun(old(attempts), maxAttempts, attempt).gaveUp then [GaveUp] else [])
      ensures Succeeded(res) ==> attempts == old(attempts) && deliveries == old(deliveries) + [Delivered]
    {
      if !Succeeded(res) {
        if res == INVALID_STATE_HR || res == E_ABORT {
          return S_OK;
        }
        TryCreateEnvironment();
        return S_OK;
      }
      deliveries := deliveries + [Delivered];
      r := S_OK;
    }
  }

  // ---------------------------------------------------------------------
  // COM reference counting (`AddRef` / `Release` of both handler classes).

  const UlongLimit: nat := 0x1_0000_0000

  /** The count after one `Release` (`None`: the object deleted itself). */
  function AfterRelease(count: nat): (r: W.Option<nat>)
    ensures count > 1 ==> r == W.Some(count - 1)
    ensures count <= 1 ==> r == W.None
  {
    if count > 1 then W.Some(count - 1) else W.None
  }

  /** The count after `n` releases, `None` once deleted. */
  function AfterReleases(count: nat, n: nat): W.Option<nat>
  {
    if n == 0 then W.Some(count)
    else match AfterRelease(count)
      case None => W.None
      case Some(c) => AfterReleases(c, n - 1)
  }

  /** An object with count `c` survives `c - 1` releases and deletes itself
      on the `c`-th. */
  lemma {:induction false} ReleasesToDelete(c: nat)
    requires c >= 1
    ensures AfterReleases(c, c - 1) == W.Some(1)
    ensures AfterReleases(c, c) == W.None
  {
    if c > 1 {
      ReleasesToDelete(c - 1);
    }
  }

  class ComRefCount {
    var refCount: nat
    var deleted: bool

    ghost predicate Valid()
      reads this
    {
      refCount < UlongLimit
    }

    /** A new handler holds one reference. */
    constructor ()
      ensures Valid() && refCount == 1 && !deleted
    {
      refCount := 1;
      deleted := false;
    }

    /** `AddRef`: increments the atomic 32-bit count. */
    method AddRef() returns (r: nat)
      requires Valid() && !deleted
      modifies this
      ensures Valid() && !deleted
      ensures refCount == (old(refCount) + 1) % UlongLimit && r == refCount
    {
      refCount := (refCount + 1) % UlongLimit;
      r := refCount;
    }

    /** `Release`: decrements while more than one reference is held,
        otherwise deletes the object and returns 0. */
    method Release() returns (r: nat)
      requires Valid() && !deleted
      modifies this
      ensures old(refCount) > 1 ==> !deleted && refCount == old(refCount) - 1 && r == refCount
      ensures old(refCount) <= 1 ==> deleted && r == 0
      ensures AfterRelease(old(refCount)) == (if deleted then W.None else W.Some(refCount))
    {
      if refCount > 1 {
        refCount := refCount - 1;
        return refCount;
      }
      deleted := true;
      r := 0;
    }
  }

  // ---------------------------------------------------------------------
  // Size hints.

  datatype Point = Point(x: int, y: int)

  const WS_THICKFRAME: bv32 := 0x0004_0000
  const WS_CAPTION: bv32 := 0x00C0_0000
  const WS_MAXIMIZEBOX: bv32 := 0x0001_0000
  const WS_EX_TOPMOST: bv32 := 0x0000_0008

  /** The window style `SetSize` writes back for a hint. */
  function StyleFor(style: bv32, hint: Hints.Hint): bv32
  {
    match hint
    case Static => (style & !(WS_THICKFRAME | WS_CAPTION)) | WS_EX_TOPMOST
    case Fixed => style & !(WS_THICKFRAME | WS_MAXIMIZEBOX)
    case _ => style | (WS_THICKFRAME | WS_MAXIMIZEBOX)
  }

  /** The fields of MINMAXINFO that the window procedure may overwrite. */
  datatype MinMaxInfo = MinMaxInfo(maxSize: Point, maxTrackSize: Point, minTrackSize: Point)

  /** `WM_GETMINMAXINFO`: a bound is applied only when both of its
      components are positive. */
  function ApplyMinMax(info: MinMaxInfo, minsz: Point, maxsz: Point): (r: MinMaxInfo)
    ensures maxsz.x > 0 && maxsz.y > 0 ==> r.maxSize == maxsz && r.maxTrackSize == maxsz
    ensures !(maxsz.x > 0 && maxsz.y > 0) ==> r.maxSize == info.maxSize && r.maxTrackSize == info.maxTrackSize
    ensures minsz.x > 0 && minsz.y > 0 ==> r.minTrackSize == minsz
    ensures !(minsz.x > 0 && minsz.y > 0) ==> r.minTrackSize == info.minTrackSize
  {
    var withMax := if maxsz.x > 0 && maxsz.y > 0 then info.(maxSize := maxsz, maxTrackSize := maxsz) else info;
    if minsz.x > 0 && minsz.y > 0 then withMax.(minTrackSize := minsz) else withMax
  }

  /** The bounds left unset (zero) change nothing. */
  lemma UnsetBoundsChangeNothing(info: MinMaxInfo)
    ensures ApplyMinMax(info, Point(0, 0), Point(0, 0)) == info
  {
  }

  class EdgeWindow {
    var style: bv32
    var minsz: Point
    var maxsz: Point
    /** The logical sizes passed on to SetWindowPos, in order (scaling to the
        window's DPI and adding the frame happen in the window system). */
    var resizes: seq<Point>

    /** Both bounds start at (0, 0). */
    constructor (style: bv32)
      ensures this.style == style && minsz == Point(0, 0) && maxsz == Point(0, 0) && resizes == []
    {
      this.style := style;
      minsz := Point(0, 0);
      maxsz := Point(0, 0);
      resizes := [];
    }

    /** `SetSize`: MAX and STATIC set the maximum, MIN and STATIC the
        minimum, and every hint but MAX and MIN resizes the window. */
    method SetSize(width: int, height: int, hints: Hints.Hint)
      modifies this
      ensures style == StyleFor(old(style), hints)
      ensures maxsz == (if hints == Hints.Max || hints == Hints.Static then Point(width, height) else old(maxsz))
      ensures minsz == (if hints == Hints.Min || hints == Hints.Static then Point(width, height) else old(minsz))
      ensures resizes == old(resizes) + (if hints != Hints.Max && hints != Hints.Min then [Point(width, height)] else [])
    {
      style := StyleFor(style, hints);
      if hints == Hints.Max || hints == Hints.Static {
        maxsz := Point(width, height);
      }
      if hints == Hints.Min || hints == Hints.Static {
        minsz := Point(width, height);
      }
      if hints != Hints.Max && hints != Hints.Min {
        resizes := resizes + [Point(width, height)];
      }
    }
  }

  /** After a STATIC size of positive extent the tracking bounds pin the
      window to that size. */
  lemma StaticPinsSize(info: MinMaxInfo, width: int, height: int)
    requires width > 0 && height > 0
    ensures ApplyMinMax(info, Point(width, height), Point(width, height))
      == MinMaxInfo(Point(width, height), Point(width, height), Point(width, height))
  {
  }

  // ---------------------------------------------------------------------
  // Null-checked accessors (`Window`, `Widget`, `BrowserController`).

  datatype Checked<T> = Handle(value: T) | Threw(exception: Exception)

  /** A null handle throws INVALID_STATE with an empty message. */
  function RequireHandle<T>(h: W.Option<T>): (r: Checked<T>)
    ensures h.Some? ==> r == Handle(h.value)
    ensures h.None? ==> r.Threw? && r.exception.error.code == InvalidState && What(r.exception) == ""
  {
    match h
    case Some(v) => Handle(v)
    case None => Threw(NewException(InvalidState))
  }
}
