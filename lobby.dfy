/** The co-op lobby handler: `create_coop_lobby` (gbf.py:374-380) and
    `coop_lobby` (gbf.py:383-418). Each pass of `coop_lobby` reads the URL
    and three visibility checks; the answers come as a sequence of passes. */
module Lobby {
  import opened Common
  import opened PyText

  const CREATE_ROOM_BUTTON := ".btn-create-room.location-href"
  const ENTER_ROOM_BUTTON := ".btn-entry-room"
  const REPEAT_BUTTON := ".btn-repeat-last"
  const START_BUTTON := ".btn-quest-start.multi.se-quest-start"
  const SUMMON_PROMPT := "Please choose a summon"
  /** Passes without progress that `coop_lobby` counts before it reloads. */
  const STALL_LIMIT := 8

  /** `create_coop_lobby`, from the results of its two
      `wait_until_css(..., maxwait=2)` calls: click "create room" if it
      appeared, then "enter room" if it appeared. */
  function CreateCoopLobby(createShown: bool, enterShown: bool): (steps: seq<Action>)
    ensures Click(Selector(CREATE_ROOM_BUTTON), DEFAULT_VARIANCE) in steps <==> createShown
    ensures Click(Selector(ENTER_ROOM_BUTTON), DEFAULT_VARIANCE) in steps <==> enterShown
    ensures |steps| == (if createShown then 1 else 0) + (if enterShown then 1 else 0)
    ensures createShown && enterShown ==> steps[0].target.sel == CREATE_ROOM_BUTTON
  {
    (if createShown then [Click(Selector(CREATE_ROOM_BUTTON), DEFAULT_VARIANCE)] else []) +
    (if enterShown then [Click(Selector(ENTER_ROOM_BUTTON), DEFAULT_VARIANCE)] else [])
  }

  /** What one pass of `coop_lobby` reads: the URL, and whether the
      not-ready banner, the repeat button and the start button are shown. */
  datatype LobbyPass = LobbyPass(url: string, notReady: bool, repeatShown: bool, startShown: bool)

  /** How `coop_lobby` returns. */
  datatype LobbyEnd = QuestStarted | LeftLobby | Reloaded | Unanswered

  /** The lobby root or the room-entry page, where a room is created. */
  predicate AtLobbyRoot(url: string) {
    url == COOP_URL || url == COOP_ENTRY_URL
  }

  /** Where a pass finds itself: at the lobby root, in a room, or elsewhere. */
  datatype Place = Root | Room | Elsewhere

  /** `coop_lobby`'s URL tests, in their order: the two lobby-root pages by
      equality, then a room by substring. */
  function PlaceOf(url: string): (pl: Place)
    ensures pl == Root <==> AtLobbyRoot(url)
    ensures pl == Room <==> !AtLobbyRoot(url) && Contains(url, COOP_ROOM_URL)
    ensures pl == Elsewhere <==> !AtLobbyRoot(url) && !Contains(url, COOP_ROOM_URL)
  {
    if AtLobbyRoot(url) then Root
    else if Contains(url, COOP_ROOM_URL) then Room
    else Elsewhere
  }

  /** Neither the lobby root nor a room: `coop_lobby` returns at once. */
  predicate LeavesLobby(p: LobbyPass) {
    PlaceOf(p.url) == Elsewhere
  }

  /** A pass that makes no progress: still in the lobby, no start button. */
  predicate Stalled(p: LobbyPass) {
    !LeavesLobby(p) && !p.startShown
  }

  /** The first `n` passes of `ps` all made no progress. */
  predicate StalledBefore(ps: seq<LobbyPass>, n: nat)
    requires n <= |ps|
  {
    forall j :: 0 <= j < n ==> Stalled(ps[j])
  }

  /** 1 for a step that is taken, 0 for one that is skipped. */
  function Flag(b: bool): nat {
    if b then 1 else 0
  }

  /** The body of one `coop_lobby` pass at `place`, when `counter` passes
      before it made no progress: popup check, room creation at the lobby
      root, the operator prompt, the repeat and start clicks, and F5 once
      the counter has reached its limit, in that order and nothing else. */
  function PassActions(place: Place, notReady: bool, repeatShown: bool, startShown: bool,
                       counter: nat): (step: seq<Action>)
    ensures |step| >= 1 && step[0] == CheckPopup
    ensures place == Elsewhere ==> step == [CheckPopup]
  {
    if place == Elsewhere then [CheckPopup]
    else
      [CheckPopup] +
      (if place == Root then [CreateRoom] else []) +
      (if notReady then [AlertOperator(SUMMON_PROMPT)] else []) +
      (if repeatShown then [Click(Element(ByCss(REPEAT_BUTTON)), DEFAULT_VARIANCE)] else []) +
      (if startShown then [Click(Element(ByCss(START_BUTTON)), DEFAULT_VARIANCE), CheckPopup]
       else if counter >= STALL_LIMIT then [SendKeys([F5])]
       else [])
  }

  /** The length of a pass and the position of each of its steps: nothing
      else happens, and the steps come in the order of the source. */
  lemma PassActionsOrder(place: Place, notReady: bool, repeatShown: bool, startShown: bool, counter: nat,
                         step: seq<Action>)
    requires step == PassActions(place, notReady, repeatShown, startShown, counter)
    ensures |step| == if place == Elsewhere then 1 else
      1 + Flag(place == Root) + Flag(notReady) + Flag(repeatShown) +
      (if startShown then 2 else Flag(counter >= STALL_LIMIT))
    ensures place == Root ==> step[1] == CreateRoom
    ensures place != Elsewhere && notReady ==> step[1 + Flag(place == Root)] == AlertOperator(SUMMON_PROMPT)
    ensures place != Elsewhere && repeatShown ==>
      step[1 + Flag(place == Root) + Flag(notReady)] == Click(Element(ByCss(REPEAT_BUTTON)), DEFAULT_VARIANCE)
    ensures place != Elsewhere && startShown ==>
      step[|step| - 2..] == [Click(Element(ByCss(START_BUTTON)), DEFAULT_VARIANCE), CheckPopup]
    ensures place != Elsewhere && !startShown && counter >= STALL_LIMIT ==> step[|step| - 1] == SendKeys([F5])
  {
  }

  /** Each step of a pass happens exactly when its condition holds. */
  lemma PassActionsMembers(place: Place, notReady: bool, repeatShown: bool, startShown: bool, counter: nat,
                           step: seq<Action>)
    requires step == PassActions(place, notReady, repeatShown, startShown, counter)
    ensures CreateRoom in step <==> place == Root
    ensures AlertOperator(SUMMON_PROMPT) in step <==> place != Elsewhere && notReady
    ensures Click(Element(ByCss(REPEAT_BUTTON)), DEFAULT_VARIANCE) in step <==> place != Elsewhere && repeatShown
    ensures Click(Element(ByCss(START_BUTTON)), DEFAULT_VARIANCE) in step <==> place != Elsewhere && startShown
    ensures SendKeys([F5]) in step <==> place != Elsewhere && !startShown && counter >= STALL_LIMIT
  {
  }

  /** What pass `p` does when `counter` passes before it made no progress. */
  function PassOf(p: LobbyPass, counter: nat): seq<Action> {
    PassActions(PlaceOf(p.url), p.notReady, p.repeatShown, p.startShown, counter)
  }

  /** The actions of the passes `ps`, pass `k` coming after `k` stalled ones. */
  function LobbyTrace(ps: seq<LobbyPass>): seq<Action> {
    if ps == [] then [] else LobbyTrace(ps[..|ps| - 1]) + PassOf(ps[|ps| - 1], |ps| - 1)
  }

  lemma TraceStep(ps: seq<LobbyPass>, k: nat)
    requires k < |ps|
    ensures LobbyTrace(ps[..k + 1]) == LobbyTrace(ps[..k]) + PassOf(ps[k], k)
  {
    assert ps[..k + 1][..k] == ps[..k];
  }

  /** `coop_lobby`: run passes until the page leaves the lobby, the quest is
      started, or the ninth pass without progress sends F5. */
  method CoopLobby(passes: seq<LobbyPass>) returns (r: LobbyEnd, counter: nat, used: nat, actions: seq<Action>)
    ensures used <= |passes| && used <= STALL_LIMIT + 1
    ensures r != Unanswered ==> used >= 1
    ensures r != Unanswered ==> StalledBefore(passes, used - 1)
    ensures r == LeftLobby ==> LeavesLobby(passes[used - 1]) && counter == used - 1
    ensures r == QuestStarted ==>
      !LeavesLobby(passes[used - 1]) && passes[used - 1].startShown && counter == used - 1
    ensures r == Reloaded ==> used == STALL_LIMIT + 1 && counter == STALL_LIMIT && Stalled(passes[used - 1])
    ensures r == Unanswered ==>
      used == |passes| && used <= STALL_LIMIT && counter == used && StalledBefore(passes, used)
    ensures actions == LobbyTrace(passes[..used])
  {
    r, counter, used, actions := Unanswered, 0, 0, [];
    while used < |passes|
      invariant used <= |passes|
      invariant counter == used <= STALL_LIMIT
      invariant StalledBefore(passes, used)
      invariant actions == LobbyTrace(passes[..used])
    {
      var p := passes[used];
      var step := PassOf(p, counter);
      TraceStep(passes, used);
      actions, used := actions + step, used + 1;
      assert actions == LobbyTrace(passes[..used]);
      if LeavesLobby(p) {
        r := LeftLobby;
        return;
      }
      if p.startShown {
        r := QuestStarted;
        return;
      }
      if counter < STALL_LIMIT {
        counter := counter + 1;
      } else {
        r := Reloaded;
        return;
      }
    }
  }

  /** F5 is sent only once eight passes before it made no progress, i.e. in
      the ninth pass or later of a trace. */
  lemma {:induction false} ReloadOnlyAfterStallLimit(ps: seq<LobbyPass>)
    ensures SendKeys([F5]) in LobbyTrace(ps) ==> |ps| > STALL_LIMIT
  {
    if ps != [] {
      var init := ps[..|ps| - 1];
      ReloadOnlyAfterStallLimit(init);
      var k := |ps| - 1;
      if k < STALL_LIMIT {
        var p := ps[k];
        PassActionsMembers(PlaceOf(p.url), p.notReady, p.repeatShown, p.startShown, k, PassOf(p, k));
      }
    }
  }
}
