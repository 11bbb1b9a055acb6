/** The battle handler and the loops it waits in: `wait_for_ready`
    (gbf.py:339-350), `wait_for_skill_queue` (gbf.py:330-336), `ougi_check`
    and `set_ougi` (gbf.py:236-247), `do_attack` (gbf.py:250-261) and
    `raid_battle` (gbf.py:361-371). Each loop reads its browser answers from a
    sequence, one entry per pass; running out of entries ends the loop with
    `Unanswered`, so nothing here claims that the loops terminate. */
module Battle {
  import opened Common
  import opened PyText
  import Waits

  const ATTACK_BUTTON := ".btn-attack-start.display-on"
  const AUTO_BUTTON := ".btn-auto"
  const OUGI_ON := ".btn-lock.lock0"
  const OUGI_OFF := ".btn-lock.lock1"
  const SKILL_RAIL_IDLE := ".prt-ability-rail-overlayer.hide"
  /** `do_attack` clicks the attack button with this variance. */
  const ATTACK_VARIANCE := 6
  /** The key that toggles the special attack ("ougi"). */
  const OUGI_TOGGLE := SendKeys([Char('c')])

  /** The page is still a raid: the test `RAID_URL in current_url` that
      `wait_for_ready` makes. */
  predicate InRaid(url: string) {
    Contains(url, RAID_URL)
  }

  /** How a poll loop ends: its condition held, the page left the raid, or
      the answers given ran out. */
  datatype LoopEnd = Done | Exited | Unanswered

  /** One pass of `wait_for_ready`: the result of
      `wait_until_css(ATTACK_BUTTON)` and the URL read when it failed. */
  datatype ReadyPass = ReadyPass(appeared: bool, url: string)

  predicate StillWaiting(p: ReadyPass) {
    !p.appeared && InRaid(p.url)
  }

  /** `wait_for_ready`: True when the attack button appears, False as soon as
      a failed wait finds the page outside the raid, otherwise retry. */
  method WaitForReady(passes: seq<ReadyPass>) returns (r: LoopEnd, used: nat)
    ensures used <= |passes|
    ensures r != Unanswered ==> used >= 1
    ensures forall j :: 0 <= j < used - 1 ==> StillWaiting(passes[j])
    ensures r == Done ==> passes[used - 1].appeared
    ensures r == Exited ==> !passes[used - 1].appeared && !InRaid(passes[used - 1].url)
    ensures r == Unanswered ==> used == |passes| && forall j :: 0 <= j < used ==> StillWaiting(passes[j])
  {
    used := 0;
    while used < |passes|
      invariant used <= |passes|
      invariant forall j :: 0 <= j < used ==> StillWaiting(passes[j])
    {
      var p := passes[used];
      used := used + 1;
      if p.appeared {
        return Done, used;
      }
      if !InRaid(p.url) {
        return Exited, used;
      }
    }
    r := Unanswered;
  }

  /** Line 333 as written: `current_url not in RAID_URL`, a test of whether
      the URL is a piece of the raid prefix. */
  predicate SkillQueueExitTestAsWritten(url: string)
    ensures !SkillQueueExitTestAsWritten(url) ==> |url| <= |RAID_URL|
  {
    !Contains(RAID_URL, url)
  }

  /** The exit test as written holds on every raid page (a raid id after
      the prefix), so `wait_for_skill_queue` reports leaving the raid on the
      first pass in which the skill rail is still busy. */
  lemma SkillQueueAsWrittenExitsEveryRaid(url: string)
    requires InRaid(url) && |url| > |RAID_URL|
    ensures SkillQueueExitTestAsWritten(url)
  {
  }

  /** A concrete raid page that line 333 takes for a page outside the raid. */
  lemma SkillQueueAsWrittenCounterexample()
    ensures InRaid(RAID_URL + "12345")
    ensures SkillQueueExitTestAsWritten(RAID_URL + "12345")
  {
    ContainsOwnPrefix(RAID_URL, "12345");
    SkillQueueAsWrittenExitsEveryRaid(RAID_URL + "12345");
  }

  /** One pass of `wait_for_skill_queue`: whether the idle rail was shown and
      the URL read when it was not. */
  datatype QueuePass = QueuePass(idle: bool, url: string)

  predicate QueueBusy(p: QueuePass) {
    !p.idle && InRaid(p.url)
  }

  /** `wait_for_skill_queue` with the exit test of `wait_for_ready`
      (`RAID_URL not in current_url`): it reports leaving the raid only for a
      URL without the raid prefix. */
  method WaitForSkillQueue(passes: seq<QueuePass>) returns (r: LoopEnd, used: nat)
    ensures used <= |passes|
    ensures r != Unanswered ==> used >= 1
    ensures forall j :: 0 <= j < used - 1 ==> QueueBusy(passes[j])
    ensures r == Done ==> passes[used - 1].idle
    ensures r == Exited ==> !passes[used - 1].idle && !InRaid(passes[used - 1].url)
    ensures r == Unanswered ==> used == |passes| && forall j :: 0 <= j < used ==> QueueBusy(passes[j])
  {
    used := 0;
    while used < |passes|
      invariant used <= |passes|
      invariant forall j :: 0 <= j < used ==> QueueBusy(passes[j])
    {
      var p := passes[used];
      used := used + 1;
      if p.idle {
        return Done, used;
      }
      if !InRaid(p.url) {
        return Exited, used;
      }
    }
    r := Unanswered;
  }

  /** `ougi_check`: True when the lock0 button shows, else False when the
      lock1 button shows, else None. */
  function OugiCheck(lock0Shown: bool, lock1Shown: bool): (r: Option<bool>)
    ensures r == Some(true) <==> lock0Shown
    ensures r == Some(false) <==> !lock0Shown && lock1Shown
    ensures r == None <==> !lock0Shown && !lock1Shown
  {
    if lock0Shown then Some(true) else if lock1Shown then Some(false) else None
  }

  /** `set_ougi(want)`: press the toggle key until `ougi_check` reads back
      `want`. `readings` are the successive `ougi_check` answers; a `None`
      never equals `want`, so it is followed by another press. */
  method SetOugi(want: bool, readings: seq<Option<bool>>) returns (r: LoopEnd, presses: nat, actions: seq<Action>)
    ensures presses == FirstIndexOf(readings, Some(want))
    ensures r == Done <==> presses < |readings|
    ensures r != Exited
    ensures actions == Repeat(OUGI_TOGGLE, presses)
  {
    presses, actions := 0, [];
    while presses < |readings| && readings[presses] != Some(want)
      invariant presses <= |readings|
      invariant forall j :: 0 <= j < presses ==> readings[j] != Some(want)
      invariant actions == Repeat(OUGI_TOGGLE, presses)
    {
      presses := presses + 1;
      actions := actions + [OUGI_TOGGLE];
    }
    r := if presses < |readings| then Done else Unanswered;
  }

  /** How `do_attack` ends: True, False, or out of answers. */
  datatype AttackEnd = Attacked | CannotAttack | AttackUnanswered

  /** The toggle presses `do_attack` makes before it attacks. */
  function OugiPresses(ougi: bool, ougiNow: Option<bool>, readings: seq<Option<bool>>): nat {
    if ougiNow == Some(ougi) then 0 else FirstIndexOf(readings, Some(ougi))
  }

  /** `wait_until_css(AUTO_BUTTON)` with the default maxwait succeeds. */
  predicate AutoAppears(autoChecks: seq<bool>) {
    FirstIndexOf(autoChecks, true) < |autoChecks| && FirstIndexOf(autoChecks, true) < DEFAULT_MAXWAIT + 1
  }

  /** `do_attack(auto, ougi)`: False without clicking when the attack button
      is not shown; otherwise bring the ougi state to `ougi`, click attack
      and, when `auto`, click the auto button if it appears. `ougiNow` is the
      first `ougi_check`, `readings` those of `set_ougi`, `autoChecks` the
      checks of the wait for the auto button. */
  method DoAttack(auto: bool, ougi: bool, attackShown: bool, ougiNow: Option<bool>,
                  readings: seq<Option<bool>>, autoChecks: seq<bool>)
    returns (r: AttackEnd, actions: seq<Action>)
    ensures r == CannotAttack <==> !attackShown
    ensures r == CannotAttack ==> actions == []
    ensures r == Attacked ==> ougiNow == Some(ougi) || OugiPresses(ougi, ougiNow, readings) < |readings|
    ensures r == Attacked ==>
      actions == Repeat(OUGI_TOGGLE, OugiPresses(ougi, ougiNow, readings)) +
                 [Click(Selector(ATTACK_BUTTON), ATTACK_VARIANCE)] +
                 (if auto && AutoAppears(autoChecks) then [Click(Selector(AUTO_BUTTON), DEFAULT_VARIANCE)] else [])
    ensures r == AttackUnanswered ==>
      attackShown &&
      ((ougiNow != Some(ougi) && OugiPresses(ougi, ougiNow, readings) == |readings|) ||
       (auto && !AutoAppears(autoChecks) && |autoChecks| < DEFAULT_MAXWAIT + 1))
  {
    if !attackShown {
      return CannotAttack, [];
    }
    actions := [];
    if Some(ougi) != ougiNow {
      var end, presses, keys := SetOugi(ougi, readings);
      actions := keys;
      if end == Unanswered {
        return AttackUnanswered, actions;
      }
    }
    actions := actions + [Click(Selector(ATTACK_BUTTON), ATTACK_VARIANCE)];
    if auto {
      var waited, _, _ := Waits.WaitUntilCss(autoChecks, DEFAULT_MAXWAIT);
      if waited == Waits.Unanswered {
        return AttackUnanswered, actions;
      }
      if waited == Waits.Appeared {
        actions := actions + [Click(Selector(AUTO_BUTTON), DEFAULT_VARIANCE)];
      }
    }
    r := Attacked;
  }

  /** `raid_battle`, from the booleans its three steps return: abort before
      summoning when not ready, summon slot 5, abort when the skill rail
      wait fails, attack, and reload only after a successful attack. */
  function RaidBattle(ready: bool, queueDone: bool, attacked: bool): (steps: seq<Action>)
    ensures !ready <==> steps == []
    ensures ready ==> steps[0] == Summon(5)
    ensures Attack in steps <==> ready && queueDone
    ensures Refresh in steps <==> ready && queueDone && attacked
    ensures forall i :: 0 <= i < |steps| - 1 ==> steps[i] != Refresh
    ensures |steps| == if !ready then 0 else if !queueDone then 1 else if !attacked then 2 else 3
    ensures ready && queueDone ==> steps[1] == Attack
    ensures ready && queueDone && attacked ==> steps[2] == Refresh
  {
    if !ready then []
    else if !queueDone then [Summon(5)]
    else if !attacked then [Summon(5), Attack]
    else [Summon(5), Attack, Refresh]
  }
}
