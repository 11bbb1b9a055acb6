/** Values shared by the components of the bot: the Python errors that escape
    the modelled functions, the keys and targets the browser is driven with,
    the URLs and selectors the source hard-codes, and the actions a handler
    issues. Every browser read is an input of the function or method that
    makes it. A handler's clicks, key presses, page loads and calls of other
    handlers are `Action`s in the trace it returns; accepting an alert is
    not recorded. */
module Common {

  datatype Option<T> = None | Some(value: T)

  /** The Python exceptions that escape the modelled code. */
  datatype PyError = IndexError | ValueError | NoSuchElement

  datatype Result<T> = Ok(value: T) | Err(error: PyError)

  /** How Selenium is asked to find an element. */
  datatype Locator = ByXPath(path: string) | ByCss(selector: string)

  /** What `clicker` is given: a selector string, or an element object that
      the caller has already found with the given locator. */
  datatype Target = Selector(sel: string) | Element(foundBy: Locator)

  /** A key sent with `ActionChains.send_keys`. */
  datatype Key = Char(c: char) | Space | F5

  /** One step a handler takes. `Click` is a call of `clicker`, whose own
      behaviour is `Clicking.Clicker`; `CheckPopup`, `CreateRoom`, `Summon`
      and `Attack` are calls of `popup_check`, `create_coop_lobby`,
      `do_summon` and `do_attack`, modelled in their own modules. */
  datatype Action =
    | Click(target: Target, variance: int)
    | SendKeys(keys: seq<Key>)
    | AlertOperator(message: string)
    | CheckPopup
    | CreateRoom
    | Summon(slot: int)
    | Attack
    | Wait(css: string, maxwait: int)
    | LoadPage(url: string, waitFor: string)
    | Refresh

  // Locations the main loop and the handlers test for.
  const COOP_URL := "http://game.granbluefantasy.jp/#coopraid"
  const COOP_ENTRY_URL := "http://game.granbluefantasy.jp/#coopraid/room/entry"
  const COOP_ROOM_URL := "http://game.granbluefantasy.jp/#coopraid/room/"
  const RAID_URL := "http://game.granbluefantasy.jp/#raid_multi/"
  const RESULT_URL := "http://game.granbluefantasy.jp/#result_multi/"
  const TOP_URL := "http://game.granbluefantasy.jp/#top"
  const AUTH_URL := "http://game.granbluefantasy.jp/#authentication"

  /** The page the bot returns to, and the element it waits for there. */
  const HOMEPAGE := COOP_URL
  const HOME_MARKER := ".prt-head-current"

  /** The default `variance` of `clicker`. */
  const DEFAULT_VARIANCE := 3
  /** The default `maxwait` of `wait_until_css`. */
  const DEFAULT_MAXWAIT := 5

  /** Index of the first occurrence of `x` in `s`, or `|s|` when there is none. */
  function FirstIndexOf<T(==)>(s: seq<T>, x: T): (k: nat)
    ensures k <= |s|
    ensures forall j :: 0 <= j < k ==> s[j] != x
    ensures k < |s| ==> s[k] == x
  {
    if s == [] then 0
    else if s[0] == x then 0
    else 1 + FirstIndexOf(s[1..], x)
  }

  /** `n` copies of `a`. */
  function Repeat<T>(a: T, n: nat): (r: seq<T>)
    ensures |r| == n
    ensures forall i :: 0 <= i < n ==> r[i] == a
  {
    if n == 0 then [] else Repeat(a, n - 1) + [a]
  }
}
