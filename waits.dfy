/** The element checks every handler builds on: `ele_check` (gbf.py:126-143),
    one bounded visibility wait on a selector, and `wait_until_css`
    (gbf.py:146-158), which repeats `ele_check` a counted number of times. */
module Waits {
  import opened Common

  /** How `ele_check` and `clicker` read a selector string: XPath when it
      starts with '/', CSS otherwise. `ele[0]` on the empty string raises
      IndexError, here `None`. */
  function LocatorOf(sel: string): (r: Option<Locator>)
    ensures r.None? <==> sel == []
    ensures r.Some? ==> (r.value.ByXPath? <==> sel[0] == '/')
    ensures r.Some? ==> sel == match r.value case ByXPath(p) => p case ByCss(c) => c
  {
    if sel == [] then None
    else if sel[0] == '/' then Some(ByXPath(sel))
    else Some(ByCss(sel))
  }

  /** What the browser answers to one `WebDriverWait(...).until(visible)`:
      the element became visible, the wait timed out, or an alert was open
      (UnexpectedAlertPresentException). */
  datatype Probe = Visible | TimedOut | AlertOpen

  /** The result of one `ele_check` call, with the locator the visibility
      wait was asked for. `NoAnswer` means the probes given ran out before
      the browser settled the question. */
  datatype Check = Shown(on: Locator) | NotShown(on: Locator) | Raised(error: PyError) | NoAnswer

  /** Every probe before position `k` found an alert open. */
  predicate AlertsBefore(probes: seq<Probe>, k: int) {
    forall j :: 0 <= j < k && j < |probes| ==> probes[j] == AlertOpen
  }

  /** `ele_check(sel)`: each open alert is accepted and the check is repeated;
      the first probe that is not an alert decides. */
  function EleCheck(sel: string, probes: seq<Probe>): (r: Check)
    ensures r == Raised(IndexError) <==> sel == []
    ensures r.Raised? ==> r == Raised(IndexError)
    ensures r.Shown? || r.NotShown? ==> LocatorOf(sel) == Some(r.on)
    ensures r.Shown? <==>
      sel != [] && exists k :: 0 <= k < |probes| && probes[k] == Visible && AlertsBefore(probes, k)
    ensures r.NotShown? <==>
      sel != [] && exists k :: 0 <= k < |probes| && probes[k] == TimedOut && AlertsBefore(probes, k)
    ensures r == NoAnswer <==> sel != [] && forall k :: 0 <= k < |probes| ==> probes[k] == AlertOpen
  {
    if sel == [] then Raised(IndexError)
    else if probes == [] then NoAnswer
    else match probes[0]
      case Visible => Shown(LocatorOf(sel).value)
      case TimedOut => NotShown(LocatorOf(sel).value)
      case AlertOpen => EleCheck(sel, probes[1..])
  }

  /** How `wait_until_css` ends. `Unanswered` means the checks given ran out
      while it was still waiting. */
  datatype WaitEnd = Appeared | GaveUp | Unanswered

  /** The number of failed checks after which `wait_until_css(css, maxwait)`
      gives up: `maxwait + 1` when maxwait > 0; 1 when maxwait < 0, since
      `tries` then stays 0 and 0 > maxwait; never when maxwait == 0. */
  function GiveUpAfter(maxwait: int): (n: Option<nat>)
    ensures n.Some? <==> maxwait != 0
    ensures n.Some? ==> n.value >= 1
    ensures maxwait > 0 ==> n == Some(maxwait + 1)
    ensures maxwait < 0 ==> n == Some(1)
  {
    if maxwait > 0 then Some(maxwait + 1) else if maxwait < 0 then Some(1) else None
  }

  /** `wait_until_css(css, maxwait)`, where `checks` are the answers of the
      successive `ele_check(css)` calls. It counts iterations, not time. */
  method WaitUntilCss(checks: seq<bool>, maxwait: int) returns (r: WaitEnd, tries: int, used: nat)
    ensures used <= |checks|
    ensures r == Appeared <==>
      FirstIndexOf(checks, true) < |checks| &&
      (maxwait == 0 || FirstIndexOf(checks, true) < GiveUpAfter(maxwait).value)
    ensures r == Appeared ==> used == FirstIndexOf(checks, true) + 1
    ensures r == GaveUp <==> maxwait != 0 && FirstIndexOf(checks, true) >= GiveUpAfter(maxwait).value
    ensures r == GaveUp ==> used == GiveUpAfter(maxwait).value
    ensures r == Unanswered ==> used == |checks|
    ensures tries == if maxwait <= 0 then 0 else if r == Appeared then used - 1 else used
  {
    r, tries, used := Unanswered, 0, 0;
    while used < |checks|
      invariant used <= |checks|
      invariant forall j :: 0 <= j < used ==> !checks[j]
      invariant tries == if maxwait > 0 then used else 0
      invariant maxwait != 0 ==> used < GiveUpAfter(maxwait).value
    {
      var found := checks[used];
      used := used + 1;
      if found {
        r := Appeared;
        return;
      }
      if maxwait > 0 {
        tries := tries + 1;
      }
      if tries > maxwait {
        r := GaveUp;
        return;
      }
    }
  }
}
