/**
 * The console demo's own decision table: a risk value and a yes/no slot
 * answer give an action, a success flag and a buffer time.
 */
module ConsoleBooking {
  import RiskAssessment

  datatype Decision = Decision(action: string, success: bool, bufferTime: int)

  /**
   * `riskValue` is the string value of the risk level the demo holds, so that a
   * value outside the three tiers takes the fallback branches.  The preferred
   * time is only echoed to the console.
   */
  function MakeAiDecision(riskValue: string, slotAvailable: bool, preferredTime: string): (d: Decision)
    ensures d.success == slotAvailable
    ensures !slotAvailable ==> d.bufferTime == 0
    ensures slotAvailable ==> d.action in RiskAssessment.ConfirmActions
    ensures riskValue !in {"low", "medium", "high"} ==>
              d == (if slotAvailable then Decision("confirm", true, 0) else Decision("waitlist_standard", false, 0))
  {
    if slotAvailable then
      if riskValue == "low" then Decision("confirm", true, 0)
      else if riskValue == "medium" then Decision("confirm_with_buffer", true, 15)
      else if riskValue == "high" then Decision("confirm_with_extended_buffer", true, 30)
      else Decision("confirm", true, 0)
    else
      if riskValue == "low" then Decision("waitlist_standard", false, 0)
      else if riskValue == "medium" then Decision("waitlist_priority", false, 0)
      else if riskValue == "high" then Decision("waitlist_urgent", false, 0)
      else Decision("waitlist_standard", false, 0)
  }

  /** The three waiting-list actions, one per tier. */
  lemma NoSlotActions(preferredTime: string)
    ensures MakeAiDecision("low", false, preferredTime).action == "waitlist_standard"
    ensures MakeAiDecision("medium", false, preferredTime).action == "waitlist_priority"
    ensures MakeAiDecision("high", false, preferredTime).action == "waitlist_urgent"
  {
  }

  /**
   * With a slot, the demo's table is the assessor's table for an open slot:
   * the same action and the same buffer for every tier.
   */
  lemma AgreesWithAssessorWhenAvailable(level: RiskAssessment.RiskLevel, preferredTime: string, capacity: int)
    requires capacity > 0
    ensures var d := MakeAiDecision(level.Value(), true, preferredTime);
            var s := RiskAssessment.GetSchedulingStrategy(level, true, capacity);
            d.action == s.action && d.bufferTime == s.bufferTime
  {
  }

  /** The preferred time never changes the decision. */
  lemma IgnoresPreferredTime(riskValue: string, slotAvailable: bool, t1: string, t2: string)
    ensures MakeAiDecision(riskValue, slotAvailable, t1) == MakeAiDecision(riskValue, slotAvailable, t2)
  {
  }
}
