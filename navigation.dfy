/** The top-level control loop `main_loop` (gbf.py:429-449): classify the
    current URL by an ordered chain of substring tests, run the matching
    handler, and count the rounds on the results page with `results_page`
    (gbf.py:353-358). The URLs the loop reads come as a sequence. */
module Navigation {
  import opened Common
  import opened PyText
  import Waits

  /** The handler `main_loop` picks for a URL. */
  datatype Phase = Coop | Raid | Results | Top | Authentication | Reload

  /** `main_loop`'s if/elif chain: the first URL fragment contained in `url`
      decides; a URL with none reloads the home page. */
  function Classify(url: string): (p: Phase)
    ensures p == Coop <==> Contains(url, COOP_URL)
    ensures p == Raid <==> !Contains(url, COOP_URL) && Contains(url, RAID_URL)
    ensures p == Results <==> !Contains(url, COOP_URL) && !Contains(url, RAID_URL) && Contains(url, RESULT_URL)
    ensures p == Top <==>
      !Contains(url, COOP_URL) && !Contains(url, RAID_URL) && !Contains(url, RESULT_URL) && Contains(url, TOP_URL)
    ensures p == Authentication <==>
      !Contains(url, COOP_URL) && !Contains(url, RAID_URL) && !Contains(url, RESULT_URL) &&
      !Contains(url, TOP_URL) && Contains(url, AUTH_URL)
    ensures p == Reload <==>
      !Contains(url, COOP_URL) && !Contains(url, RAID_URL) && !Contains(url, RESULT_URL) &&
      !Contains(url, TOP_URL) && !Contains(url, AUTH_URL)
  {
    if Contains(url, COOP_URL) then Coop
    else if Contains(url, RAID_URL) then Raid
    else if Contains(url, RESULT_URL) then Results
    else if Contains(url, TOP_URL) then Top
    else if Contains(url, AUTH_URL) then Authentication
    else Reload
  }

  /** The same classification as an ordered table of (fragment, phase). */
  const PHASE_TABLE: seq<(string, Phase)> :=
    [(COOP_URL, Coop), (RAID_URL, Raid), (RESULT_URL, Results), (TOP_URL, Top), (AUTH_URL, Authentication)]

  /** The phase of the first row whose fragment `url` contains. */
  function FirstMatch(table: seq<(string, Phase)>, url: string): Phase {
    if table == [] then Reload
    else if Contains(url, table[0].0) then table[0].1
    else FirstMatch(table[1..], url)
  }

  /** The first matching row wins, whatever the later rows say. */
  lemma {:induction false} FirstMatchWins(table: seq<(string, Phase)>, url: string, k: nat)
    requires k < |table| && Contains(url, table[k].0)
    requires forall j :: 0 <= j < k ==> !Contains(url, table[j].0)
    ensures FirstMatch(table, url) == table[k].1
  {
    if k > 0 {
      FirstMatchWins(table[1..], url, k - 1);
    }
  }

  /** A URL that matches no row reloads the home page. */
  lemma {:induction false} FirstMatchFallsBack(table: seq<(string, Phase)>, url: string)
    requires forall j :: 0 <= j < |table| ==> !Contains(url, table[j].0)
    ensures FirstMatch(table, url) == Reload
  {
    if table != [] {
      FirstMatchFallsBack(table[1..], url);
    }
  }

  /** `main_loop`'s chain is the ordered table read top to bottom. */
  lemma ClassifyIsTable(url: string)
    ensures Classify(url) == FirstMatch(PHASE_TABLE, url)
  {
    var t := PHASE_TABLE;
    if Contains(url, COOP_URL) {
      FirstMatchWins(t, url, 0);
    } else if Contains(url, RAID_URL) {
      FirstMatchWins(t, url, 1);
    } else if Contains(url, RESULT_URL) {
      FirstMatchWins(t, url, 2);
    } else if Contains(url, TOP_URL) {
      FirstMatchWins(t, url, 3);
    } else if Contains(url, AUTH_URL) {
      FirstMatchWins(t, url, 4);
    } else {
      FirstMatchFallsBack(t, url);
    }
  }

  /** `results_page`: wait briefly for the OK button, go back to the home
      page, and count one more round. */
  method ResultsPage(rounds: nat) returns (next: nat, actions: seq<Action>)
    ensures next == rounds + 1
    ensures actions == [Wait(".btn-usual-ok", 1), LoadPage(HOMEPAGE, HOME_MARKER)]
  {
    actions := [Wait(".btn-usual-ok", 1), LoadPage(HOMEPAGE, HOME_MARKER)];
    next := rounds + 1;
  }

  /** How many of `urls` the main loop sends to the results handler. */
  function ResultVisits(urls: seq<string>): (n: nat)
    ensures n <= |urls|
  {
    if urls == [] then 0
    else ResultVisits(urls[..|urls| - 1]) + (if Classify(urls[|urls| - 1]) == Results then 1 else 0)
  }

  /** Reading one more URL changes the round count only on the results page. */
  lemma ResultVisitsStep(urls: seq<string>, url: string)
    ensures ResultVisits(urls + [url]) == ResultVisits(urls) + (if Classify(url) == Results then 1 else 0)
  {
    assert (urls + [url])[..|urls|] == urls;
  }

  /** Rounds add up over consecutive stretches of the loop. */
  lemma {:induction false} ResultVisitsAppend(a: seq<string>, b: seq<string>)
    ensures ResultVisits(a + b) == ResultVisits(a) + ResultVisits(b)
    decreases |b|
  {
    if b == [] {
      assert a + b == a;
    } else {
      var b' := b[..|b| - 1];
      assert a + b == (a + b') + [b[|b| - 1]];
      ResultVisitsStep(a + b', b[|b| - 1]);
      ResultVisitsAppend(a, b');
      assert b == b' + [b[|b| - 1]];
      ResultVisitsStep(b', b[|b| - 1]);
    }
  }

  /** `main_loop` over the URLs it reads, one per iteration: each URL goes
      to `Classify`'s handler, and `rounds` grows only through
      `results_page`. */
  method MainLoop(urls: seq<string>) returns (rounds: nat, dispatched: seq<Phase>)
    ensures |dispatched| == |urls|
    ensures forall i :: 0 <= i < |urls| ==> dispatched[i] == Classify(urls[i])
    ensures rounds == ResultVisits(urls)
  {
    rounds, dispatched := 0, [];
    for i := 0 to |urls|
      invariant |dispatched| == i
      invariant forall j :: 0 <= j < i ==> dispatched[j] == Classify(urls[j])
      invariant rounds == ResultVisits(urls[..i])
    {
      var url := urls[i];
      assert urls[..i + 1] == urls[..i] + [url];
      ResultVisitsStep(urls[..i], url);
      var phase := Classify(url);
      if phase == Results {
        var pageActions;
        rounds, pageActions := ResultsPage(rounds);
      }
      dispatched := dispatched + [phase];
    }
    assert urls[..|urls|] == urls;
  }

  const TOP_LOGIN_BUTTON := ".btn-login.switch-position"
  const GREE_LOGIN_XPATH := "//*[@id=\"gree-login\"]"

  /** `top_page` and `authentication_page` each make one click; the second
      target starts with '/' and so is looked up as XPath. */
  function LandingClick(phase: Phase): (a: Option<Action>)
    ensures a.Some? <==> phase == Top || phase == Authentication
    ensures a.Some? ==> a.value.Click? && a.value.variance == DEFAULT_VARIANCE && a.value.target.Selector?
    ensures phase == Authentication ==> Waits.LocatorOf(a.value.target.sel) == Some(ByXPath(GREE_LOGIN_XPATH))
    ensures phase == Top ==> Waits.LocatorOf(a.value.target.sel) == Some(ByCss(TOP_LOGIN_BUTTON))
  {
    if phase == Top then Some(Click(Selector(TOP_LOGIN_BUTTON), DEFAULT_VARIANCE))
    else if phase == Authentication then Some(Click(Selector(GREE_LOGIN_XPATH), DEFAULT_VARIANCE))
    else None
  }
}
