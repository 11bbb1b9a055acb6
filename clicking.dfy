/** `clicker` (gbf.py:86-123) with `random_click` (gbf.py:61-70) and
    `java_click` (gbf.py:73-83): which element is clicked, how, and with what
    jitter. Randomness enters as the raw draws behind `randint`; the browser
    enters as whether the selector was visible, whether it was found, and how
    each click attempt was answered. */
module Clicking {
  import opened Common
  import Waits

  /** Python's `randint(lo, hi)` fed the raw random number `draw`:
      ValueError (here `None`) when lo > hi, else one of lo..hi. */
  function RandInt(lo: int, hi: int, draw: nat): (r: Option<int>)
    ensures r.Some? <==> lo <= hi
    ensures r.Some? ==> lo <= r.value <= hi
  {
    if lo <= hi then Some(lo + draw % (hi - lo + 1)) else None
  }

  /** Every value of the range is drawn for some random number. */
  lemma RandIntCovers(lo: int, hi: int, v: int)
    requires lo <= v <= hi
    ensures RandInt(lo, hi, v - lo) == Some(v)
  {
    var m := hi - lo + 1;
    assert (v - lo) % m == v - lo by {
      assert 0 <= v - lo < m;
    }
  }

  /** The three ways `clicker` delivers a click. `java_click` clicks at the
      element's own location and ignores the jitter, so `ScriptClick` carries
      no offset. */
  datatype Delivery = DragClick(dx: int, dy: int) | ScriptClick | NativeClick

  /** One click that landed on the element found with `on`. An attempt that
      raised (a stale element, an open alert) lands nothing. */
  datatype Hit = Hit(on: Locator, delivery: Delivery)

  /** How the browser answers one click attempt: the click landed, the
      element was stale or missing, or an alert was open. */
  datatype Answer = Delivered | Stale | AlertShown

  /** The random draws for `var_x` and `var_y` and the browser's answer for
      one pass through `clicker`'s body. */
  datatype Try = Try(drawX: nat, drawY: nat, answer: Answer)

  /** What a `clicker` call returns in Python: `None` or `False`. */
  datatype PyReturn = ReturnedNone | ReturnedFalse

  /** The outcome of one `clicker` call and the clicks that landed;
      `NoAnswer` means the tries given ran out. */
  datatype ClickResult =
    | Returned(value: PyReturn, hits: seq<Hit>)
    | Raised(error: PyError)
    | NoAnswer

  function HitsOf(r: ClickResult): seq<Hit> {
    match r
    case Returned(_, hits) => hits
    case _ => []
  }

  predicate IsKind(kind: string) {
    kind == "random" || kind == "java" || kind == "fallback"
  }

  /** The delivery `clicker` dispatches to for `kind`; `None` for an invalid
      kind, which is only logged. */
  function DeliveryFor(kind: string, dx: int, dy: int): (d: Option<Delivery>)
    ensures d.None? <==> !IsKind(kind)
    ensures d == Some(DragClick(dx, dy)) <==> kind == "random"
    ensures d == Some(ScriptClick) <==> kind == "java"
    ensures d == Some(NativeClick) <==> kind == "fallback"
  {
    if kind == "random" then Some(DragClick(dx, dy))
    else if kind == "java" then Some(ScriptClick)
    else if kind == "fallback" then Some(NativeClick)
    else None
  }

  /** A delivery that matches `kind` with an offset inside the square of
      half-width `variance`. */
  predicate Fits(d: Delivery, kind: string, variance: int) {
    match d
    case DragClick(dx, dy) => kind == "random" && -variance <= dx <= variance && -variance <= dy <= variance
    case ScriptClick => kind == "java"
    case NativeClick => kind == "fallback"
  }

  /** The click a valid `kind` makes on `on` with the jitter drawn in `t`. */
  function Landing(on: Locator, kind: string, variance: nat, t: Try): (h: Hit)
    requires IsKind(kind)
    ensures h.on == on && Fits(h.delivery, kind, variance)
  {
    var v: int := variance;
    var dx := RandInt(-v, v, t.drawX).value;
    var dy := RandInt(-v, v, t.drawY).value;
    Hit(on, DeliveryFor(kind, dx, dy).value)
  }

  /** Try `k` is the first whose click attempt met no alert, and it landed. */
  predicate LandsAt(tries: seq<Try>, k: nat) {
    k < |tries| && tries[k].answer == Delivered &&
    forall j :: 0 <= j < k ==> tries[j].answer == AlertShown
  }

  /** `clicker`'s body from the jitter on, for an element found with `on`.
      An alert during the click is accepted and `clicker` is called again on
      the element with fresh jitter; the value of that call is discarded, so
      the first call returns `None`. */
  function Deliver(on: Locator, kind: string, variance: int, tries: seq<Try>): (r: ClickResult)
    ensures r.Raised? <==> variance < 0
    ensures r.Raised? ==> r.error == ValueError
    ensures |HitsOf(r)| <= 1
    ensures forall h <- HitsOf(r) :: h.on == on && Fits(h.delivery, kind, variance)
    ensures |HitsOf(r)| == 1 <==> variance >= 0 && IsKind(kind) && exists k: nat :: LandsAt(tries, k)
    ensures forall k: nat :: variance >= 0 && IsKind(kind) && LandsAt(tries, k) ==>
      r == Returned(ReturnedNone, [Landing(on, kind, variance, tries[k])])
    ensures r == Returned(ReturnedFalse, HitsOf(r)) <==>
      variance >= 0 && tries != [] && IsKind(kind) && tries[0].answer == Stale
    ensures variance >= 0 && tries != [] && !IsKind(kind) ==> r == Returned(ReturnedNone, [])
    ensures r.NoAnswer? <==>
      variance >= 0 && (tries == [] || IsKind(kind)) && forall i :: 0 <= i < |tries| ==> tries[i].answer == AlertShown
    decreases |tries|
  {
    if variance < 0 then Raised(ValueError)
    else if tries == [] then NoAnswer
    else if !IsKind(kind) then Returned(ReturnedNone, [])
    else
      match tries[0].answer
      case Delivered =>
        assert LandsAt(tries, 0);
        Returned(ReturnedNone, [Landing(on, kind, variance, tries[0])])
      case Stale => Returned(ReturnedFalse, [])
      case AlertShown =>
        var rest := tries[1..];
        assert forall k: nat :: LandsAt(tries, k + 1) <==> LandsAt(rest, k);
        assert forall k: nat :: LandsAt(tries, k) ==> k > 0 && LandsAt(rest, k - 1);
        assert forall i :: 0 <= i < |rest| ==> rest[i] == tries[i + 1];
        match Deliver(on, kind, variance, rest)
        case Returned(_, hits) => Returned(ReturnedNone, hits)
        case NoAnswer => NoAnswer
        case Raised(e) => Raised(e)
  }

  /** `clicker(target, kind=kind, variance=variance)`. `shown` is what
      `ele_check` answered for a selector string and `located` whether
      `find_element` then found it (its NoSuchElementException is raised
      outside the `try`). */
  function Clicker(target: Target, kind: string, variance: int, shown: bool, located: bool,
                   tries: seq<Try>): (r: ClickResult)
    ensures r == Raised(IndexError) <==> target == Selector([])
    ensures r == Raised(NoSuchElement) <==> target.Selector? && target.sel != [] && shown && !located
    ensures target.Selector? && target.sel != [] && !shown ==> r == Returned(ReturnedNone, [])
    ensures r == Raised(ValueError) <==>
      variance < 0 && (target.Element? || (target.sel != [] && shown && located))
    ensures |HitsOf(r)| <= 1
    ensures forall h <- HitsOf(r) :: Fits(h.delivery, kind, variance)
    ensures forall h <- HitsOf(r) ::
      h.on == match target case Selector(sel) => Waits.LocatorOf(sel).value case Element(loc) => loc
    ensures forall k: nat :: Reaches(target, shown, located) && variance >= 0 && IsKind(kind) && LandsAt(tries, k) ==>
      r == Returned(ReturnedNone, [Landing(Found(target), kind, variance, tries[k])])
    ensures |HitsOf(r)| == 1 <==>
      Reaches(target, shown, located) && variance >= 0 && IsKind(kind) && exists k: nat :: LandsAt(tries, k)
    ensures r == Returned(ReturnedFalse, []) <==>
      Reaches(target, shown, located) && variance >= 0 && tries != [] && IsKind(kind) && tries[0].answer == Stale
    ensures Reaches(target, shown, located) && variance >= 0 && tries != [] && !IsKind(kind) ==>
      r == Returned(ReturnedNone, [])
    ensures r.NoAnswer? <==>
      Reaches(target, shown, located) && variance >= 0 && (tries == [] || IsKind(kind)) &&
      forall i :: 0 <= i < |tries| ==> tries[i].answer == AlertShown
  {
    match target
    case Selector(sel) =>
      if sel == [] then Raised(IndexError)
      else if !shown then Returned(ReturnedNone, [])
      else if !located then Raised(NoSuchElement)
      else Deliver(Waits.LocatorOf(sel).value, kind, variance, tries)
    case Element(loc) => Deliver(loc, kind, variance, tries)
  }

  /** `clicker` gets as far as its click: an element object, or a non-empty
      selector that `ele_check` saw and `find_element` found. */
  predicate Reaches(target: Target, shown: bool, located: bool) {
    target.Element? || (target.sel != [] && shown && located)
  }

  /** The element `clicker` clicks for a target that reaches the click. */
  function Found(target: Target): Locator
    requires target.Element? || target.sel != []
  {
    match target
    case Selector(sel) => Waits.LocatorOf(sel).value
    case Element(loc) => loc
  }

  /** Every offset in the square is reachable: the jitter is exactly
      `randint(-variance, variance)` on each axis. */
  lemma DragReachesEveryOffset(on: Locator, variance: int, dx: int, dy: int)
    requires -variance <= dx <= variance && -variance <= dy <= variance
    ensures Deliver(on, "random", variance, [Try(dx + variance, dy + variance, Delivered)]) ==
            Returned(ReturnedNone, [Hit(on, DragClick(dx, dy))])
  {
    RandIntCovers(-variance, variance, dx);
    RandIntCovers(-variance, variance, dy);
  }
}
