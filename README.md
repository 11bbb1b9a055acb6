# GBF driver decision logic, in Dafny

A model of the decision logic in `gbf.py`, a Selenium bot that plays
co-op raids of a browser game without supervision. The model covers:

- how the main loop classifies the current URL and picks a handler;
- the counted poll loops (`wait_until_css`, `wait_for_ready`,
  `wait_for_skill_queue`, `set_ougi`, `coop_lobby`);
- how `clicker` picks an element, a delivery and a jitter;
- the popup dispatcher;
- the readers that turn page snapshots into lists (`skill_check`,
  `summon_check`, `check_health`).

Nothing talks to a browser. Every browser read is an input:

- a URL string;
- a list of class or style strings;
- a sequence of answers, one per pass of a loop.

A handler's clicks, key presses, page loads and calls of other handlers
are `Action`s in a trace that the member returns (`Common.Action`).
Accepting an alert is not recorded. `Click(target, variance)` stands for
a call of `clicker`, whose own outcomes, including the clicks that land,
are `Clicking.Clicker`'s. A loop that runs out of
answers ends in an `Unanswered` or `NoAnswer` outcome. So no member claims
that a loop terminates when the code gives no bound.

Modules, one per component of the file:

- `Common`: the shared datatypes and the URL constants.
- `PyText`: the Python built-ins the code relies on: `in`, `split()`,
  `s[0:-2]` and `int()`.
- `Waits`: `ele_check` and `wait_until_css`.
- `Clicking`: `clicker`.
- `Battle`: the battle handler and its loops.
- `Extractors`: the snapshot readers.
- `Popups`: `popup_check`.
- `Lobby`: the co-op lobby handler.
- `Navigation`: `main_loop` and `results_page`.

## Model

| member | source | states |
|---|---|---|
| `Waits.LocatorOf` | gbf.py:128-137 | A selector is looked up as XPath iff its first character is '/', and as CSS otherwise. The empty selector raises IndexError (`ele[0]`). |
| `Waits.EleCheck` | gbf.py:126-143 | Each open alert is accepted and the check is repeated. The first probe that is not an alert decides: Shown iff it is Visible, NotShown iff it timed out. Either answer is for the locator `LocatorOf(sel)`, so XPath iff the selector starts with '/'. An empty selector raises IndexError. |
| `Waits.GiveUpAfter` | gbf.py:154-158 | The number of failed checks before giving up: `maxwait + 1` when maxwait > 0, 1 when maxwait < 0, never when maxwait == 0. |
| `Waits.WaitUntilCss` | gbf.py:146-158 | Returns True at the first successful check, within that bound. Returns False exactly when the first `GiveUpAfter(maxwait)` checks all failed, after consuming exactly that many. `tries` stays 0 when maxwait <= 0 and otherwise counts the failed checks. |
| `Clicking.RandInt` | gbf.py:104-105 | `randint(lo, hi)` raises ValueError iff lo > hi. Otherwise the value lies in [lo, hi]. |
| `Clicking.RandIntCovers` | gbf.py:104-105 | Every value in [lo, hi] is produced by some random draw. |
| `Clicking.DeliveryFor` | gbf.py:108-116 | "random" gives a drag-click with the offsets, "java" a script click, "fallback" a native click. Any other kind is only logged. |
| `Clicking.Deliver` | gbf.py:100-123 | A negative variance raises ValueError. A stale element or an open alert lands no click. At most one click lands, and one lands iff the kind is valid and some attempt is delivered after nothing but alerts. The call then returns None with exactly that attempt's click (`Landing`): on the given element, of the kind's delivery, with offsets in [-variance, variance]. It returns False iff the first attempt found a stale element. After an alert the retried call's value is dropped, so a later stale answer still gives None. |
| `Clicking.Clicker` | gbf.py:86-123 | An empty selector raises IndexError. A selector that fails `ele_check` returns None without clicking. A selector not found afterwards raises NoSuchElementException. An element object, or a selector that is shown and found, is clicked exactly once iff the kind is valid, the variance is not negative, and an attempt is delivered after nothing but alerts; a negative variance raises ValueError. Such a target returns False with no click iff the first attempt found a stale element, and gives no answer iff every attempt met an alert; an unknown kind returns None without clicking. The click lands on the element found with `LocatorOf(sel)` (so XPath iff the selector starts with '/'), with its jitter in [-variance, variance]. |
| `Clicking.Landing` | gbf.py:104-116 | The click a valid kind makes is on the given element, of that kind's delivery, with offsets in [-variance, variance]. |
| `Clicking.DragReachesEveryOffset` | gbf.py:104-109 | Every offset pair in the square is the jitter of some drag-click. |
| `Battle.WaitForReady` | gbf.py:339-350 | Returns True on the first pass whose wait for the attack button succeeds. Returns False on the first failed pass whose URL lacks the raid prefix. Every pass before the one that ends it was a failed wait inside the raid. |
| `Battle.SkillQueueExitTestAsWritten` | gbf.py:333 | The test as written: the current URL is not a substring of the raid prefix, so it can fail only for a URL no longer than the prefix. |
| `Battle.SkillQueueAsWrittenExitsEveryRaid` | gbf.py:333 | As written, the exit test holds for every raid URL longer than the raid prefix. |
| `Battle.SkillQueueAsWrittenCounterexample` | gbf.py:330-336 | A concrete raid URL that the test at line 333 takes for a page outside the raid. |
| `Battle.WaitForSkillQueue` | gbf.py:330-336 | With the corrected exit test: returns True once the rail is idle. Returns False only after reading a URL without the raid prefix. Every earlier pass was busy and inside the raid. |
| `Battle.OugiCheck` | gbf.py:236-240 | True iff lock0 is shown. False iff lock0 is hidden and lock1 is shown. None iff neither is shown. |
| `Battle.SetOugi` | gbf.py:243-247 | Presses the toggle key once per reading until the first reading equal to the wanted state. A None reading is followed by another press. The presses number exactly the index of that reading. |
| `Battle.DoAttack` | gbf.py:250-261 | Returns False and does nothing iff the attack button is not shown. The attack is clicked only after the ougi state read back as wanted. The trace is the toggle presses, the attack click with variance 6, and, when `auto` is set and the auto button appears within the default wait, its click. |
| `Battle.RaidBattle` | gbf.py:361-371 | Not ready means nothing is done. Otherwise the steps are exactly: summon slot 5; then, iff the skill rail cleared, the attack; then, iff the attack succeeded, the reload. Nothing else happens and the order is fixed. |
| `Extractors.SkillCheck` | gbf.py:173-187 | The result has the shape of the cards. Entry [i][j] is true iff ability j of card i has exactly the ready class string. |
| `Extractors.SummonCheck` | gbf.py:206-219 | None iff no summon is shown. With fewer than six cards it raises IndexError. Otherwise the slots are strictly increasing, and n is listed iff n < 6 and card n's class is exactly `quick-summon available`. |
| `Extractors.GaugePercent` | gbf.py:325-326 | IndexError iff the style has fewer than two words. Otherwise it succeeds iff `int()` accepts the second word minus its last two characters, with that number, and raises ValueError iff `int()` rejects it. |
| `Extractors.GaugePercentOfWidth` | gbf.py:325-326 | A gauge styled `width: N%;` reads back N. |
| `Extractors.CheckHealth` | gbf.py:320-327 | Succeeds iff the first four gauges exist and read, giving their four values in order. Otherwise it raises the error of the first gauge that is missing or unreadable. |
| `PyText.Contains` | gbf.py:436-445 | Python's `sub in s`, as in these tests and at lines 333, 347 and 394: `sub` occurs at some position of `s`; only a string no longer than `s` can occur in it. |
| `PyText.Split` | gbf.py:325 | `split()` yields only non-empty words without whitespace. |
| `PyText.SplitJoin` | gbf.py:325 | `split()` takes apart words joined by single spaces. |
| `PyText.ParseInt` | gbf.py:326 | `int()` on a token: it accepts exactly a digit run (decimal digits with single underscores between digits) with an optional leading '+' or '-', and rejects every other token, such as `85.5` or `5a`. A digit run reads as its decimal value, negated after '-'. |
| `PyText.ParseShowNat` | gbf.py:326 | `int()` reads back the decimal text of every natural number. |
| `PyText.ParseIntNeedsDigit` | gbf.py:326 | `int()` raises ValueError on every token without a decimal digit. |
| `PyText.DropLastTwo` | gbf.py:326 | `s[0:-2]` is a prefix of s, two characters shorter, or empty when s is shorter than two. |
| `Popups.PopupCheck` | gbf.py:287-311 | A missing or hidden header does nothing. "Not enough AP" with the OK button appearing clicks the pot, then OK. "Access Verification" only alerts the operator. Any other text sends the dismiss keys. "Not enough AP" whose OK wait fails clicks the pot and then dismisses. |
| `Popups.EscalationOnlyForCaptcha` | gbf.py:304-306 | The operator is alerted iff the header reads "Access Verification". |
| `Lobby.CreateCoopLobby` | gbf.py:374-380 | Clicks "create room" iff it appeared and "enter room" iff it appeared, in that order. |
| `Lobby.PlaceOf` | gbf.py:390-395 | The lobby root iff the URL equals one of the two lobby pages; a room iff not that and the URL contains the room prefix; elsewhere (the pass returns) iff neither. |
| `Lobby.PassActions` | gbf.py:389-418 | Every pass starts with the popup check, and outside the lobby and rooms it does nothing else. |
| `Lobby.PassActionsOrder` | gbf.py:389-418 | A pass has exactly one step per condition that holds, in the source order: popup check, room creation at the lobby root, operator prompt when not ready, repeat click, then either the start click with a last popup check or, at the counter's limit, F5. |
| `Lobby.PassActionsMembers` | gbf.py:389-418 | It creates a room iff at the lobby root. It prompts the operator iff not ready, clicks repeat iff shown, and clicks start iff shown. It sends F5 iff the pass stalls with the counter at its limit. Each of these only inside the lobby. |
| `Lobby.CoopLobby` | gbf.py:383-418 | Each pass without progress increments the counter until it reaches 8. The ninth such pass sends F5 and returns, so at most nine passes run. It leaves on a URL outside the lobby and returns after clicking start. The trace is the passes' actions in order. |
| `Lobby.ReloadOnlyAfterStallLimit` | gbf.py:409-418 | F5 appears in a lobby trace only when more than eight passes ran. |
| `Navigation.Classify` | gbf.py:436-448 | The phase is the first of the full URLs `http://game.granbluefantasy.jp/#coopraid`, `…#raid_multi/`, `…#result_multi/`, `…#top`, `…#authentication` that the current URL contains as a substring. Each phase holds iff its URL is contained and all earlier ones are not. A URL containing none reloads the home page. |
| `Navigation.FirstMatchWins` | gbf.py:436-448 | In an ordered table, the first matching row decides, whatever later rows say. |
| `Navigation.FirstMatchFallsBack` | gbf.py:447-448 | A URL that matches no row reloads the home page. |
| `Navigation.ClassifyIsTable` | gbf.py:436-448 | The if/elif chain equals the lookup in the ordered table of (fragment, phase). |
| `Navigation.ResultsPage` | gbf.py:353-358 | Returns exactly `rounds + 1`, after a `maxwait=1` wait for OK (up to two checks) and a load of the home page with its marker. |
| `Navigation.ResultVisits` | gbf.py:441-442 | The count of results visits never exceeds the number of iterations. |
| `Navigation.ResultVisitsStep` | gbf.py:441-442 | One more iteration adds one round iff its URL classifies as Results, and none otherwise. |
| `Navigation.ResultVisitsAppend` | gbf.py:433-442 | Rounds add up over consecutive stretches of the loop. |
| `Navigation.MainLoop` | gbf.py:429-449 | Every URL read goes to the handler `Classify` picks. `rounds` is exactly the number of URLs that went to the results handler. |
| `Navigation.LandingClick` | gbf.py:421-426 | The top and authentication pages each make one click. The login target of the authentication page is looked up as XPath, the top page's as CSS. |

Behaviour worth noting:

- Waits count iterations, not elapsed time.
- With a negative `maxwait`, `wait_until_css` gives up after one failed
  check, because `tries` stays 0 and `0 > maxwait`. Only `maxwait == 0`
  waits forever.
- The click jitter is a fixed number of pixels (`variance`) on each
  axis, whatever the element's size.
- `java_click` ignores the jitter.
- `popup_check` holds no state, so calling it twice is just two
  independent checks.

## Left out

- Creating the browser session, its options and profile path (gbf.py:25-28), `set_viewport_size` (gbf.py:53-58) and `main` (gbf.py:452-455): browser setup with no decisions in it.
- The top-level exception handling (gbf.py:457-464): it only logs or alerts, then exits.
- `log` (gbf.py:31-36) and the console output: file and console I/O.
- `alert_operator` (gbf.py:39-50): the Pushbullet call and the blocking `input()` are a foreign library and console I/O. The model records them as one `AlertOperator(message)` action.
- Every `sleep` and the `uniform` delays (gbf.py:68, 101-103 and elsewhere): wall-clock time and floating point.
- `random_click`'s `while not clicked` loop (gbf.py:61-70) always runs once. It is modelled as one drag-click.
- `java_click`'s coordinates: the script clicks at the element's own location. The model records this as a `ScriptClick` without coordinates, because element positions are not modelled.
- `load_page` (gbf.py:161-170): its recursion on an unexpected URL when `ignore_url` is false is unbounded. Both callers in the core pass `ignore_url=True`, so it appears only as a `LoadPage` action.
- `wait_until_url` (gbf.py:264-270): it never increments its counter, so it has no bound, and no handler calls it.
- `do_skill` (gbf.py:190-203) and `do_summon` (gbf.py:222-233): they only send hotkeys from the readers' results. `raid_battle` records the summon as `Summon(5)`. `do_summon` raises TypeError when `summon_check` returns None; that is not modelled.
- The commented-out `claim_rewards` and `check_bp` (gbf.py:272-284, 313-317): dead code.
- Battle.RaidBattle: it is stated over the booleans that `wait_for_ready`, `wait_for_skill_queue` and `do_attack` return, not composed from those methods and their answer sequences.
- Navigation.MainLoop: it records the handler chosen for each URL and threads `rounds`. It does not run the handlers on their own answer sequences and drops `ResultsPage`'s actions; each handler is modelled in its own module.
- The handler traces (`Battle.DoAttack`, `Battle.RaidBattle`, `Popups.PopupCheck`, `Lobby.CreateCoopLobby`, `Lobby.PassActions`, `Lobby.CoopLobby`) assume every function they call returns. In the source a call can raise and end the run:
  - `clicker`'s NoSuchElementException (gbf.py:94, 96), which `Clicking.Clicker` models on its own;
  - `coop_lobby`'s own `find_element` (gbf.py:400, 403);
  - `summon_check`'s IndexError inside `do_summon` (gbf.py:214).
- Accepting an alert (gbf.py:122, 142) is not recorded as an action; `Waits.EleCheck` and `Clicking.Deliver` show only its effect, a repeated check or click.
- Waits.EleCheck: the `wait` argument, the visibility timeout, is time and is not modelled. A probe is the finished wait's answer.
- PyText.ParseInt: Python's `int()` also strips surrounding whitespace and accepts non-ASCII decimal digits. The tokens here come from `split()` and hold no whitespace. Non-ASCII digits are rejected by the model.

## Findings

| source | as written | input that shows it | evidently intended | confidence | as-written member | corrected member |
|---|---|---|---|---|---|---|
| gbf.py:333 | `GBF.current_url not in "http://game.granbluefantasy.jp/#raid_multi/"` is a test of whether the URL is a piece of the raid prefix | URL `http://game.granbluefantasy.jp/#raid_multi/12345` while the skill rail is still busy: the test holds, so `wait_for_skill_queue` returns False and `raid_battle` gives up without attacking | `"http://game.granbluefantasy.jp/#raid_multi/" not in GBF.current_url`, the test `wait_for_ready` makes at line 347 | high; not executed | `Battle.SkillQueueAsWrittenCounterexample` | `Battle.WaitForSkillQueue` |
