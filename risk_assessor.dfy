/**
 * The no-show risk assessor: a threshold classifier over the predicted
 * no-show probability, the tier-by-availability scheduling table, the static
 * intervention checklists, the clamped waitlist priority and the summary record.
 */
module RiskAssessment {

  datatype RiskLevel = Low | Medium | High
  {
    /** The enum's string value. */
    function Value(): string
    {
      match this
      case Low => "low"
      case Medium => "medium"
      case High => "high"
    }

    /** The position of the tier in the order LOW < MEDIUM < HIGH. */
    function Rank(): nat
    {
      match this
      case Low => 0
      case Medium => 1
      case High => 2
    }
  }

  /** A risk assessor is its three thresholds; nothing else about it changes. */
  datatype RiskAssessor = RiskAssessor(lowThreshold: real, mediumThreshold: real, highThreshold: real)

  /** The thresholds the constructor takes when none are given. */
  const DefaultAssessor: RiskAssessor := RiskAssessor(0.3, 0.6, 0.8)

  function AssessRisk(a: RiskAssessor, p: real): (r: RiskLevel)
    ensures r == Low <==> p <= a.lowThreshold
    ensures r == Medium <==> a.lowThreshold < p <= a.mediumThreshold
    ensures r == High <==> a.lowThreshold < p && a.mediumThreshold < p
  {
    if p <= a.lowThreshold then Low
    else if p <= a.mediumThreshold then Medium
    else if p <= a.highThreshold then High
    else High
  }

  /** The high threshold decides nothing: both branches it separates give HIGH. */
  lemma AssessRiskIgnoresHighThreshold(a: RiskAssessor, h: real, p: real)
    ensures AssessRisk(a.(highThreshold := h), p) == AssessRisk(a, p)
  {
  }

  /** With ordered thresholds the tier never drops as the probability grows. */
  lemma AssessRiskMonotone(a: RiskAssessor, p1: real, p2: real)
    requires a.lowThreshold <= a.mediumThreshold
    requires p1 <= p2
    ensures AssessRisk(a, p1).Rank() <= AssessRisk(a, p2).Rank()
  {
  }

  // ---------------------------------------------------------------------------
  // Scheduling strategy
  // ---------------------------------------------------------------------------

  /** The part of a strategy that the per-tier helpers return. */
  datatype Plan = Plan(action: string, bufferTime: int, requiresConfirmation: bool,
                       waitlistPriority: int, interventions: seq<string>, notes: string)

  /** The strategy record `get_scheduling_strategy` returns. */
  datatype Strategy = Strategy(riskLevel: string, action: string, bufferTime: int,
                               requiresConfirmation: bool, waitlistPriority: int,
                               interventions: seq<string>, notes: string)

  /** The table treats a slot as open only when it is available and has capacity left. */
  predicate SlotOpen(slotAvailable: bool, slotCapacity: int)
  {
    slotAvailable && slotCapacity > 0
  }

  function LowRiskStrategy(slotAvailable: bool, slotCapacity: int): (p: Plan)
    ensures p.action == (if SlotOpen(slotAvailable, slotCapacity) then "confirm" else "reschedule")
    ensures p.bufferTime == 0
    ensures p.requiresConfirmation == false
    ensures p.waitlistPriority == 0 + (if SlotOpen(slotAvailable, slotCapacity) then 0 else 1)
    ensures |p.interventions| == 1
  {
    if SlotOpen(slotAvailable, slotCapacity) then
      Plan("confirm", 0, false, 0, ["standard_reminder"], "Low risk patient - standard scheduling")
    else
      Plan("reschedule", 0, false, 1, ["standard_reminder"], "Low risk patient - reschedule to available slot")
  }

  function MediumRiskStrategy(slotAvailable: bool, slotCapacity: int): (p: Plan)
    ensures p.action == (if SlotOpen(slotAvailable, slotCapacity) then "confirm_with_buffer" else "reschedule_optimal")
    ensures p.bufferTime == (if SlotOpen(slotAvailable, slotCapacity) then 15 else 0)
    ensures p.requiresConfirmation == true
    ensures p.waitlistPriority == 2 + (if SlotOpen(slotAvailable, slotCapacity) then 0 else 1)
    ensures |p.interventions| == 2
  {
    if SlotOpen(slotAvailable, slotCapacity) then
      Plan("confirm_with_buffer", 15, true, 2, ["enhanced_reminder", "confirmation_call"],
           "Medium risk patient - confirm with buffer time and follow-up")
    else
      Plan("reschedule_optimal", 0, true, 3, ["enhanced_reminder", "confirmation_call"],
           "Medium risk patient - find optimal slot with confirmation")
  }

  function HighRiskStrategy(slotAvailable: bool, slotCapacity: int): (p: Plan)
    ensures p.action == (if SlotOpen(slotAvailable, slotCapacity) then "confirm_with_extended_buffer" else "waitlist_high_priority")
    ensures p.bufferTime == (if SlotOpen(slotAvailable, slotCapacity) then 30 else 0)
    ensures p.requiresConfirmation == true
    ensures p.waitlistPriority == 4 + (if SlotOpen(slotAvailable, slotCapacity) then 0 else 1)
    ensures |p.interventions| == 3
  {
    if SlotOpen(slotAvailable, slotCapacity) then
      Plan("confirm_with_extended_buffer", 30, true, 4,
           ["urgent_reminder", "confirmation_call", "alternative_times"],
           "High risk patient - extended buffer and intensive follow-up")
    else
      Plan("waitlist_high_priority", 0, true, 5,
           ["urgent_reminder", "confirmation_call", "alternative_times"],
           "High risk patient - high priority waitlist placement")
  }

  /**
   * The default record overwritten by the tier's helper; every field the
   * default has is one the helpers set, except the risk level.
   */
  function GetSchedulingStrategy(level: RiskLevel, slotAvailable: bool, slotCapacity: int): (s: Strategy)
    ensures s.riskLevel == level.Value()
    ensures s.requiresConfirmation <==> level != Low
    ensures s.bufferTime == (if SlotOpen(slotAvailable, slotCapacity) then 15 * level.Rank() else 0)
    ensures s.waitlistPriority == 2 * level.Rank() + (if SlotOpen(slotAvailable, slotCapacity) then 0 else 1)
    ensures |s.interventions| == level.Rank() + 1
    ensures s.action in ConfirmActions <==> SlotOpen(slotAvailable, slotCapacity)
  {
    var plan := match level
      case Low => LowRiskStrategy(slotAvailable, slotCapacity)
      case Medium => MediumRiskStrategy(slotAvailable, slotCapacity)
      case High => HighRiskStrategy(slotAvailable, slotCapacity);
    Strategy(level.Value(), plan.action, plan.bufferTime, plan.requiresConfirmation,
             plan.waitlistPriority, plan.interventions, plan.notes)
  }

  /** The actions that book the slot the patient asked about. */
  const ConfirmActions: set<string> := {"confirm", "confirm_with_buffer", "confirm_with_extended_buffer"}

  /** The six actions of the table, one per tier and availability. */
  lemma StrategyActions(level: RiskLevel, slotAvailable: bool, slotCapacity: int)
    ensures var open := SlotOpen(slotAvailable, slotCapacity);
            var action := GetSchedulingStrategy(level, slotAvailable, slotCapacity).action;
            && (level == Low ==> action == (if open then "confirm" else "reschedule"))
            && (level == Medium ==> action == (if open then "confirm_with_buffer" else "reschedule_optimal"))
            && (level == High ==> action == (if open then "confirm_with_extended_buffer" else "waitlist_high_priority"))
  {
  }

  /** Availability changes the action, buffer, priority and notes, never the interventions. */
  lemma StrategyInterventionsIgnoreSlot(level: RiskLevel, a1: bool, c1: int, a2: bool, c2: int)
    ensures GetSchedulingStrategy(level, a1, c1).interventions == GetSchedulingStrategy(level, a2, c2).interventions
    ensures GetSchedulingStrategy(level, a1, c1).requiresConfirmation == GetSchedulingStrategy(level, a2, c2).requiresConfirmation
  {
  }

  // ---------------------------------------------------------------------------
  // Interventions
  // ---------------------------------------------------------------------------

  function GetInterventionRecommendations(level: RiskLevel): (r: seq<string>)
    ensures level == Low ==> |r| == 3
    ensures level == Medium ==> |r| == 4
    ensures level == High ==> |r| == 6
  {
    match level
    case Low => ["Standard SMS reminder 24h before appointment",
                 "Email confirmation",
                 "App notification"]
    case Medium => ["Enhanced SMS reminder 48h and 24h before",
                    "Confirmation call 24h before appointment",
                    "Email with appointment details",
                    "App notification with reminder"]
    case High => ["Urgent SMS reminder 72h, 48h, and 24h before",
                  "Confirmation call 48h and 24h before",
                  "Personalized email with appointment importance",
                  "App notification with multiple reminders",
                  "Alternative appointment time suggestions",
                  "Follow-up call after appointment"]
  }

  // ---------------------------------------------------------------------------
  // Waitlist priority, in exact tenths
  // ---------------------------------------------------------------------------

  function Min(a: int, b: int): int
  {
    if a <= b then a else b
  }

  /** `int(t / 10)`: the quotient truncated toward zero, as Python's `int()` does on a float. */
  function TruncTenths(t: int): (q: int)
    ensures t >= 0 ==> 10 * q <= t < 10 * q + 10
    ensures t < 0 ==> 10 * q - 10 < t <= 10 * q
  {
    if t >= 0 then t / 10 else -((-t) / 10)
  }

  /** `max(lo, min(x, hi))`. */
  function Clamp(x: int, lo: int, hi: int): (r: int)
    requires lo <= hi
    ensures lo <= r <= hi
    ensures lo <= x <= hi ==> r == x
    ensures x < lo ==> r == lo
    ensures hi < x ==> r == hi
  {
    if x < lo then lo else if hi < x then hi else x
  }

  /** The base priority of a tier: 1, 3 and 5 for LOW, MEDIUM and HIGH. */
  function RiskBase(level: RiskLevel): (b: int)
    ensures b == 2 * level.Rank() + 1
  {
    match level
    case Low => 1
    case Medium => 3
    case High => 5
  }

  /** Ten times `base * (urgency / 5.0) + min(waiting, 7) * 0.5`, which is an integer. */
  function PriorityTenths(base: int, urgency: int, waitingDays: int): int
  {
    2 * base * urgency + 5 * Min(waitingDays, 7)
  }

  function CalculateWaitlistPriority(a: RiskAssessor, p: real, urgency: int, waitingDays: int): (r: int)
    ensures 1 <= r <= 10
  {
    Clamp(TruncTenths(PriorityTenths(RiskBase(AssessRisk(a, p)), urgency, waitingDays)), 1, 10)
  }

  lemma TruncTenthsMonotone(s: int, t: int)
    requires s <= t
    ensures TruncTenths(s) <= TruncTenths(t)
  {
  }

  lemma ClampMonotone(x: int, y: int, lo: int, hi: int)
    requires lo <= hi && x <= y
    ensures Clamp(x, lo, hi) <= Clamp(y, lo, hi)
  {
  }

  /** More urgency never lowers the priority. */
  lemma WaitlistPriorityMonotoneInUrgency(a: RiskAssessor, p: real, u1: int, u2: int, w: int)
    requires u1 <= u2
    ensures CalculateWaitlistPriority(a, p, u1, w) <= CalculateWaitlistPriority(a, p, u2, w)
  {
    var b := RiskBase(AssessRisk(a, p));
    assert b * u1 <= b * u2;
    TruncTenthsMonotone(PriorityTenths(b, u1, w), PriorityTenths(b, u2, w));
  }

  /** Longer waiting never lowers the priority, and a week or more counts as one week. */
  lemma WaitlistPriorityWaitingTime(a: RiskAssessor, p: real, u: int, w1: int, w2: int)
    requires w1 <= w2
    ensures CalculateWaitlistPriority(a, p, u, w1) <= CalculateWaitlistPriority(a, p, u, w2)
    ensures 7 <= w1 ==> CalculateWaitlistPriority(a, p, u, w1) == CalculateWaitlistPriority(a, p, u, w2)
  {
    var b := RiskBase(AssessRisk(a, p));
    TruncTenthsMonotone(PriorityTenths(b, u, w1), PriorityTenths(b, u, w2));
  }

  /** Over non-negative urgency a higher risk tier never lowers the priority. */
  lemma WaitlistPriorityMonotoneInRisk(a: RiskAssessor, p1: real, p2: real, u: int, w: int)
    requires a.lowThreshold <= a.mediumThreshold
    requires p1 <= p2 && 0 <= u
    ensures CalculateWaitlistPriority(a, p1, u, w) <= CalculateWaitlistPriority(a, p2, u, w)
  {
    AssessRiskMonotone(a, p1, p2);
    var b1 := RiskBase(AssessRisk(a, p1));
    var b2 := RiskBase(AssessRisk(a, p2));
    assert b1 * u <= b2 * u;
    TruncTenthsMonotone(PriorityTenths(b1, u, w), PriorityTenths(b2, u, w));
  }

  /** For non-negative inputs `int()` is the floor of the exact sum. */
  lemma WaitlistPriorityIsFloor(a: RiskAssessor, p: real, u: int, w: int)
    requires 0 <= u && 0 <= w
    ensures var t := PriorityTenths(RiskBase(AssessRisk(a, p)), u, w);
            CalculateWaitlistPriority(a, p, u, w) == Clamp(t / 10, 1, 10)
  {
  }

  // ---------------------------------------------------------------------------
  // Summary
  // ---------------------------------------------------------------------------

  datatype RiskSummary = RiskSummary(noShowProbability: real, riskLevel: string, riskDescription: string,
                                     schedulingRecommendation: string, interventions: seq<string>,
                                     monitoringFrequency: string)

  function RiskDescription(level: RiskLevel): string
  {
    match level
    case Low => "Patient shows low likelihood of missing appointment"
    case Medium => "Patient shows moderate risk of missing appointment"
    case High => "Patient shows high risk of missing appointment"
  }

  function SchedulingRecommendation(level: RiskLevel): string
  {
    match level
    case Low => "Standard scheduling with minimal intervention"
    case Medium => "Schedule with buffer time and confirmation calls"
    case High => "High-priority scheduling with intensive follow-up"
  }

  function MonitoringFrequency(level: RiskLevel): string
  {
    match level
    case Low => "Standard monitoring (24h before appointment)"
    case Medium => "Enhanced monitoring (48h and 24h before appointment)"
    case High => "Intensive monitoring (72h, 48h, and 24h before appointment)"
  }

  function GetRiskSummary(a: RiskAssessor, p: real): (s: RiskSummary)
    ensures s.noShowProbability == p
    ensures s.riskLevel == AssessRisk(a, p).Value()
    ensures s.interventions == GetInterventionRecommendations(AssessRisk(a, p))
    ensures s.riskDescription == RiskDescription(AssessRisk(a, p))
    ensures s.schedulingRecommendation == SchedulingRecommendation(AssessRisk(a, p))
    ensures s.monitoringFrequency == MonitoringFrequency(AssessRisk(a, p))
  {
    var level := AssessRisk(a, p);
    RiskSummary(p, level.Value(), RiskDescription(level), SchedulingRecommendation(level),
                GetInterventionRecommendations(level), MonitoringFrequency(level))
  }

  // ---------------------------------------------------------------------------
  // Worked scenarios with the default thresholds
  // ---------------------------------------------------------------------------

  /** Probability 0.2 is LOW; with one free place the patient is confirmed without buffer. */
  lemma LowRiskFreeSlotScenario()
    ensures AssessRisk(DefaultAssessor, 0.2) == Low
    ensures GetSchedulingStrategy(Low, true, 1).action == "confirm"
    ensures GetSchedulingStrategy(Low, true, 1).bufferTime == 0
  {
  }

  /** Probability 0.5 is MEDIUM; without a free slot the action is the optimal reschedule. */
  lemma MediumRiskNoSlotScenario()
    ensures AssessRisk(DefaultAssessor, 0.5) == Medium
    ensures GetSchedulingStrategy(Medium, false, 0).action == "reschedule_optimal"
    ensures GetSchedulingStrategy(Medium, false, 0).waitlistPriority == 3
  {
  }

  /** Probability 0.9 is HIGH whatever the high threshold; without a slot it goes to the waitlist. */
  lemma HighRiskNoSlotScenario()
    ensures AssessRisk(DefaultAssessor, 0.9) == High
    ensures GetSchedulingStrategy(High, false, 0).action == "waitlist_high_priority"
    ensures GetSchedulingStrategy(High, false, 0).bufferTime == 0
  {
  }

  /** The two boundaries resolve to the lower tier. */
  lemma BoundariesGoToLowerTier(a: RiskAssessor)
    requires a.lowThreshold < a.mediumThreshold
    ensures AssessRisk(a, a.lowThreshold) == Low
    ensures AssessRisk(a, a.mediumThreshold) == Medium
  {
  }
}
