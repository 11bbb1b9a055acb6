/** The readers that turn a snapshot of the battle page into Python lists:
    `skill_check` (gbf.py:173-187), `summon_check` (gbf.py:206-219) and
    `check_health` (gbf.py:320-327). The snapshot is the attribute strings the
    browser returned. */
module Extractors {
  import opened Common
  import opened PyText

  /** The class string of a skill that can be used now. */
  const SKILL_READY := "lis-ability btn-ability-available quick-button"
  /** The class string of a summon that can be called now. */
  const SUMMON_READY := "quick-summon available"
  /** `summon_check` reads this many summon cards. */
  const SUMMON_SLOTS := 6
  /** `check_health` reads this many health gauges. */
  const PARTY_SIZE := 4

  /** `skill_check`: for each character card (the class strings of its
      abilities), one boolean per ability saying whether it is ready. */
  method SkillCheck(cards: seq<seq<string>>) returns (available: seq<seq<bool>>)
    ensures |available| == |cards|
    ensures forall i :: 0 <= i < |cards| ==> |available[i]| == |cards[i]|
    ensures forall i, j :: 0 <= i < |cards| && 0 <= j < |cards[i]| ==>
      (available[i][j] <==> cards[i][j] == SKILL_READY)
  {
    available := [];
    for counter := 0 to |cards|
      invariant |available| == counter
      invariant forall i :: 0 <= i < counter ==> |available[i]| == |cards[i]|
      invariant forall i, j :: 0 <= i < counter && 0 <= j < |cards[i]| ==>
        (available[i][j] <==> cards[i][j] == SKILL_READY)
    {
      var abilities := cards[counter];
      var charAvail: seq<bool> := [];
      for charcount := 0 to |abilities|
        invariant |charAvail| == charcount
        invariant forall j :: 0 <= j < charcount ==> (charAvail[j] <==> abilities[j] == SKILL_READY)
      {
        if abilities[charcount] == SKILL_READY {
          charAvail := charAvail + [true];
        } else {
          charAvail := charAvail + [false];
        }
      }
      available := available + [charAvail];
    }
  }

  /** What `summon_check` returns: None when no summon is shown, the ready
      slots, or the IndexError of a page with fewer than six cards. */
  datatype SummonScan = NoSummons | Ready(slots: seq<nat>) | ScanFailed(error: PyError)

  /** `summon_check`: `shown` is `ele_check(".quick-summon")`, `classes` the
      class strings of the cards found. The ready slots come out in
      increasing order. */
  method SummonCheck(shown: bool, classes: seq<string>) returns (r: SummonScan)
    ensures !shown <==> r == NoSummons
    ensures r == ScanFailed(IndexError) <==> shown && |classes| < SUMMON_SLOTS
    ensures r.ScanFailed? ==> r.error == IndexError
    ensures r.Ready? ==> forall i, j :: 0 <= i < j < |r.slots| ==> r.slots[i] < r.slots[j]
    ensures r.Ready? ==> forall n: nat :: n in r.slots <==> n < SUMMON_SLOTS && classes[n] == SUMMON_READY
  {
    if !shown {
      return NoSummons;
    }
    var available: seq<nat> := [];
    for counter := 0 to SUMMON_SLOTS
      invariant counter <= |classes|
      invariant forall i, j :: 0 <= i < j < |available| ==> available[i] < available[j]
      invariant forall i :: 0 <= i < |available| ==> available[i] < counter
      invariant forall n: nat :: n in available <==> n < counter && classes[n] == SUMMON_READY
    {
      if counter >= |classes| {
        return ScanFailed(IndexError);
      }
      if classes[counter] == SUMMON_READY {
        available := available + [counter];
      }
    }
    r := Ready(available);
  }

  /** The percentage in one health gauge's style attribute, as
      `int(style.split()[1][0:-2])` reads it: IndexError when the style has
      fewer than two words, ValueError when the token is not an integer. */
  function GaugePercent(style: string): (r: Result<int>)
    ensures r == Err(IndexError) <==> |Split(style)| < 2
    ensures r.Ok? <==> |Split(style)| >= 2 && ParseInt(DropLastTwo(Split(style)[1])).Some?
    ensures r.Ok? ==> ParseInt(DropLastTwo(Split(style)[1])) == Some(r.value)
    ensures r == Err(ValueError) <==> |Split(style)| >= 2 && ParseInt(DropLastTwo(Split(style)[1])).None?
  {
    var words := Split(style);
    if |words| < 2 then Err(IndexError)
    else match ParseInt(DropLastTwo(words[1]))
      case Some(v) => Ok(v)
      case None => Err(ValueError)
  }

  /** A gauge styled the way the page renders it reads back its width. */
  lemma {:induction false} GaugePercentOfWidth(n: nat)
    ensures GaugePercent("width: " + ShowNat(n) + "%;") == Ok(n)
  {
    var token := ShowNat(n);
    var second := token + "%;";
    var words := ["width:", second];
    assert NoSpace("width:") by {
      forall i | 0 <= i < |"width:"| ensures !IsSpace("width:"[i]) { }
    }
    assert NoSpace(second) by {
      forall i | 0 <= i < |second| ensures !IsSpace(second[i]) {
        if i < |token| { assert second[i] == token[i]; }
      }
    }
    assert Join(words) == "width: " + token + "%;";
    assert forall w <- words :: w == "width:" || w == second;
    SplitJoin(words);
    assert DropLastTwo(second) == token;
    ParseShowNat(n);
  }

  /** Gauge `k` is the first that fails, with error `e`: every earlier gauge
      exists and reads, and gauge `k` is missing (IndexError) or unreadable. */
  predicate FailsFirstAt(styles: seq<string>, k: nat, e: PyError) {
    (forall j :: 0 <= j < k ==> j < |styles| && GaugePercent(styles[j]).Ok?) &&
    if k >= |styles| then e == IndexError else GaugePercent(styles[k]) == Err(e)
  }

  /** `check_health`: the health percentages of the first four characters,
      from their gauges' style strings. The first gauge that is missing or
      unreadable raises its error. */
  method CheckHealth(styles: seq<string>) returns (r: Result<seq<int>>)
    ensures r.Ok? <==> |styles| >= PARTY_SIZE && forall i :: 0 <= i < PARTY_SIZE ==> GaugePercent(styles[i]).Ok?
    ensures r.Ok? ==> |r.value| == PARTY_SIZE && forall i :: 0 <= i < PARTY_SIZE ==> GaugePercent(styles[i]) == Ok(r.value[i])
    ensures r.Err? ==> exists k :: 0 <= k < PARTY_SIZE && FailsFirstAt(styles, k, r.error)
  {
    var thp: seq<int> := [];
    for i := 0 to PARTY_SIZE
      invariant |thp| == i && i <= |styles|
      invariant forall j :: 0 <= j < i ==> GaugePercent(styles[j]) == Ok(thp[j])
    {
      if i >= |styles| {
        assert FailsFirstAt(styles, i, IndexError);
        return Err(IndexError);
      }
      var percent := GaugePercent(styles[i]);
      if percent.Err? {
        assert FailsFirstAt(styles, i, percent.error);
        return Err(percent.error);
      }
      thp := thp + [percent.value];
    }
    r := Ok(thp);
  }
}
