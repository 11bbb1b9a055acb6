/** `popup_check` (gbf.py:287-311): find the popup header, and by its exact
    text either spend a half AP pot, call the operator for a CAPTCHA, or
    dismiss the popup with the generic keys. */
module Popups {
  import opened Common

  const AP_TEXT := "Not enough AP"
  const CAPTCHA_TEXT := "Access Verification"
  const CAPTCHA_MESSAGE := "CAPTCHA detected! Help!"
  const POT_BUTTON := ".btn-use-full.index-1"
  const OK_BUTTON := ".btn-usual-ok"
  /** The generic dismissal: a backquote, then space, in one key chain. */
  const DISMISS := SendKeys([Char('`'), Space])

  /** What the browser shows for `.prt-popup-header`: nothing (the lookup
      raised), a hidden header, or a displayed header with its text. */
  datatype Header = Absent | Hidden | Showing(text: string)

  datatype Outcome = NoPopup | PotUsed | Escalated | Dismissed

  datatype PopupReport = PopupReport(outcome: Outcome, actions: seq<Action>)

  /** `popup_check`. `okAppeared` is what `wait_until_css(OK_BUTTON)`
      answers after the pot is clicked; it is only asked for the AP popup.
      When it fails the AP branch falls through to the generic dismissal. */
  function PopupCheck(header: Header, okAppeared: bool): (r: PopupReport)
    ensures r.outcome == NoPopup <==> !header.Showing?
    ensures r.outcome == NoPopup ==> r.actions == []
    ensures r.outcome == PotUsed <==> header == Showing(AP_TEXT) && okAppeared
    ensures r.outcome == PotUsed ==> r.actions == [Click(Selector(POT_BUTTON), DEFAULT_VARIANCE), Click(Selector(OK_BUTTON), DEFAULT_VARIANCE)]
    ensures r.outcome == Escalated <==> header == Showing(CAPTCHA_TEXT)
    ensures r.outcome == Escalated ==> r.actions == [AlertOperator(CAPTCHA_MESSAGE)]
    ensures r.outcome == Dismissed <==>
      header.Showing? && header.text != CAPTCHA_TEXT && !(header.text == AP_TEXT && okAppeared)
    ensures r.outcome == Dismissed ==>
      r.actions == (if header.text == AP_TEXT then [Click(Selector(POT_BUTTON), DEFAULT_VARIANCE)] else []) + [DISMISS]
  {
    match header
    case Absent => PopupReport(NoPopup, [])
    case Hidden => PopupReport(NoPopup, [])
    case Showing(text) =>
      var pot := if text == AP_TEXT then [Click(Selector(POT_BUTTON), DEFAULT_VARIANCE)] else [];
      if text == AP_TEXT && okAppeared then
        PopupReport(PotUsed, pot + [Click(Selector(OK_BUTTON), DEFAULT_VARIANCE)])
      else if text == CAPTCHA_TEXT then
        PopupReport(Escalated, [AlertOperator(CAPTCHA_MESSAGE)])
      else
        PopupReport(Dismissed, pot + [DISMISS])
  }

  /** The operator is called only for the CAPTCHA, exactly once, and nothing
      else is done on that path; no other popup calls the operator. */
  lemma EscalationOnlyForCaptcha(header: Header, okAppeared: bool)
    ensures var r := PopupCheck(header, okAppeared);
      (exists i :: 0 <= i < |r.actions| && r.actions[i].AlertOperator?) <==> header == Showing(CAPTCHA_TEXT)
  {
    var r := PopupCheck(header, okAppeared);
    if header == Showing(CAPTCHA_TEXT) {
      assert r.actions[0].AlertOperator?;
    }
  }
}
