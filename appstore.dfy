/**
 * The global state of the client (app.store.ts): loading flag, the one
 * notification, the platform mode and the layout breakpoint with what the
 * layout derives from it.
 */
module AppStore {
  datatype Breakpoint = Xs | Sm | Md | Lg | Xl

  datatype Mode = Ios | MaterialDesign

  /**
   * The error of a notification as the client holds it: null, or some value
   * that is truthy or not (false, 0, "" and undefined are not).
   */
  datatype ErrorValue = Null | Value(truthy: bool)

  /** The breakpoints from the smallest up. */
  function Rank(b: Breakpoint): (r: nat)
    ensures r <= 4
  {
    match b
    case Xs => 0
    case Sm => 1
    case Md => 2
    case Lg => 3
    case Xl => 4
  }

  /**
   * `getBreakpoint`: the widest breakpoint whose minimum width the screen
   * reaches. The width lies in the breakpoint's band: at least its minimum
   * width and, below the largest, less than the next one's.
   */
  function BreakpointOf(width: int): (b: Breakpoint)
    ensures width >= 0 ==> MinWidth(b) <= width
    ensures forall c :: Rank(c) == Rank(b) + 1 ==> width < MinWidth(c)
  {
    if width >= 1200 then Xl
    else if width >= 992 then Lg
    else if width >= 768 then Md
    else if width >= 576 then Sm
    else Xs
  }

  /** The minimum width of each breakpoint. */
  function MinWidth(b: Breakpoint): int {
    match b
    case Xs => 0
    case Sm => 576
    case Md => 768
    case Lg => 992
    case Xl => 1200
  }

  /** A wider screen never gets a smaller breakpoint. */
  lemma BreakpointMonotone(width: int, wider: int)
    requires width <= wider
    ensures Rank(BreakpointOf(width)) <= Rank(BreakpointOf(wider))
  {
  }

  /** The media grid's column count, four on the smallest screens and one more per breakpoint. */
  function GridColumns(b: Breakpoint): (n: nat)
    ensures n == 4 + Rank(b)
  {
    match b
    case Xs => 4
    case Sm => 5
    case Md => 6
    case Lg => 7
    case _ => 8
  }

  predicate IsXs(b: Breakpoint) { b == Xs }
  predicate IsSm(b: Breakpoint) { b in {Xs, Sm} }
  predicate IsMd(b: Breakpoint) { b in {Xs, Sm, Md} }
  predicate IsLg(b: Breakpoint) { b in {Xs, Sm, Md, Lg} }
  predicate IsXl(b: Breakpoint) { true }

  /** Each size test holds for a breakpoint and every smaller one: "at most this size". */
  lemma SizeChain(b: Breakpoint)
    ensures IsXs(b) ==> IsSm(b)
    ensures IsSm(b) ==> IsMd(b)
    ensures IsMd(b) ==> IsLg(b)
    ensures IsLg(b) ==> IsXl(b)
    ensures IsSm(b) <==> Rank(b) <= 1
    ensures IsMd(b) <==> Rank(b) <= 2
    ensures IsLg(b) <==> Rank(b) <= 3
  {
  }

  /** More breakpoint, more columns. */
  lemma ColumnsIncrease(b: Breakpoint, c: Breakpoint)
    requires Rank(b) < Rank(c)
    ensures GridColumns(b) < GridColumns(c)
  {
  }

  datatype Notification = Notification(message: string, error: ErrorValue)

  class Store {
    var loading: bool
    var notification: string
    var error: ErrorValue
    var breakpoint: Breakpoint
    var appMode: Mode

    constructor()
      ensures !loading && notification == "" && error == Null && breakpoint == Xs && appMode == MaterialDesign
    {
      loading := false;
      notification := "";
      error := Null;
      breakpoint := Xs;
      appMode := MaterialDesign;
    }

    predicate HasNotification()
      reads this
    {
      notification != "" || (error.Value? && error.truthy)
    }

    predicate HasError()
      reads this
    {
      error != Null
    }

    predicate IsIosMode()
      reads this
    {
      appMode == Ios
    }

    predicate IsMdMode()
      reads this
    {
      appMode == MaterialDesign
    }

    function GetNotification(): (n: Notification)
      reads this
      ensures n.message == notification && n.error == error
    {
      Notification(notification, error)
    }

    method SetLoading(value: bool)
      modifies this
      ensures loading == value
      ensures notification == old(notification) && error == old(error) && breakpoint == old(breakpoint) && appMode == old(appMode)
    {
      loading := value;
    }

    method SetAppMode(mode: Mode)
      modifies this
      ensures appMode == mode && !(IsIosMode() && IsMdMode())
      ensures loading == old(loading) && notification == old(notification) && error == old(error) && breakpoint == old(breakpoint)
    {
      appMode := mode;
    }

    /** `setNotification`; the error defaults to null. */
    method SetNotification(message: string, err: ErrorValue)
      modifies this
      ensures GetNotification() == Notification(message, err)
      ensures HasError() <==> err != Null
      ensures loading == old(loading) && breakpoint == old(breakpoint) && appMode == old(appMode)
    {
      notification := message;
      error := err;
    }

    method UnsetNotification()
      modifies this
      ensures notification == "" && error == Null && !HasNotification() && !HasError()
      ensures loading == old(loading) && breakpoint == old(breakpoint) && appMode == old(appMode)
    {
      notification := "";
      error := Null;
    }
  }

  /**
   * An empty message with an error that is not null but falsy, such as
   * undefined, counts as an error but not as a notification.
   */
  lemma ErrorWithoutNotification(s: Store)
    requires s.notification == "" && s.error == Value(false)
    ensures s.HasError() && !s.HasNotification()
  {
  }
}
