/**
 * A patient on the waitlist: the entry's priority from the no-show risk, the
 * urgency and the days waited, the contact bookkeeping, and how well the
 * entry matches a free slot.
 */
module WaitlistEntries {
  import opened Wrappers
  import opened Clock
  import opened RiskAssessment

  // ---------------------------------------------------------------------------
  // Priority
  // ---------------------------------------------------------------------------

  /** The extra points of a tier on top of its base: 0, 1 and 2 for LOW, MEDIUM and HIGH. */
  function RiskBonus(level: RiskLevel): (b: int)
    ensures b == level.Rank()
  {
    match level
    case Low => 0
    case Medium => 1
    case High => 2
  }

  /**
   * `_calculate_priority_score`: the tier under the default thresholds gives a
   * base and a bonus; the priority is `int(base * urgency / 5 + min(days, 7) / 2 + bonus)`
   * clamped to 1..10, computed here in exact tenths.
   */
  function EntryPriority(p: real, urgency: int, waitingDays: int): (r: int)
    ensures 1 <= r <= 10
  {
    var level := AssessRisk(DefaultAssessor, p);
    Clamp(TruncTenths(PriorityTenths(RiskBase(level), urgency, waitingDays) + 10 * RiskBonus(level)), 1, 10)
  }

  /** For non-negative urgency and waiting time the bonus is added to the floor of the rest. */
  lemma EntryPriorityIsFloorPlusBonus(p: real, u: int, w: int)
    requires 0 <= u && 0 <= w
    ensures var level := AssessRisk(DefaultAssessor, p);
            EntryPriority(p, u, w) == Clamp(PriorityTenths(RiskBase(level), u, w) / 10 + RiskBonus(level), 1, 10)
  {
    var level := AssessRisk(DefaultAssessor, p);
    var t := PriorityTenths(RiskBase(level), u, w);
    assert t >= 0;
    assert (t + 10 * RiskBonus(level)) / 10 == t / 10 + RiskBonus(level);
  }

  /**
   * The entry's priority is never below the risk assessor's waitlist priority
   * for the same inputs, and equals it for LOW risk, whose bonus is 0.
   */
  lemma EntryPriorityAtLeastAssessor(p: real, u: int, w: int)
    ensures EntryPriority(p, u, w) >= CalculateWaitlistPriority(DefaultAssessor, p, u, w)
    ensures AssessRisk(DefaultAssessor, p) == Low ==> EntryPriority(p, u, w) == CalculateWaitlistPriority(DefaultAssessor, p, u, w)
  {
    var level := AssessRisk(DefaultAssessor, p);
    var t := PriorityTenths(RiskBase(level), u, w);
    TruncTenthsMonotone(t, t + 10 * RiskBonus(level));
    ClampMonotone(TruncTenths(t), TruncTenths(t + 10 * RiskBonus(level)), 1, 10);
  }

  /** The two formulas differ: a HIGH-risk patient of urgency 1 on the first day gets 3 here and 1 from the assessor. */
  lemma EntryPriorityDiffersFromAssessor()
    ensures EntryPriority(0.9, 1, 0) == 3
    ensures CalculateWaitlistPriority(DefaultAssessor, 0.9, 1, 0) == 1
  {
  }

  /** Waiting longer never lowers the priority, and beyond a week it no longer raises it. */
  lemma EntryPriorityWaiting(p: real, u: int, w1: int, w2: int)
    requires w1 <= w2
    ensures EntryPriority(p, u, w1) <= EntryPriority(p, u, w2)
    ensures 7 <= w1 ==> EntryPriority(p, u, w1) == EntryPriority(p, u, w2)
  {
    var level := AssessRisk(DefaultAssessor, p);
    var b := 10 * RiskBonus(level);
    var t1 := PriorityTenths(RiskBase(level), u, w1) + b;
    var t2 := PriorityTenths(RiskBase(level), u, w2) + b;
    TruncTenthsMonotone(t1, t2);
    ClampMonotone(TruncTenths(t1), TruncTenths(t2), 1, 10);
  }

  /** More urgency never lowers the priority. */
  lemma EntryPriorityUrgency(p: real, u1: int, u2: int, w: int)
    requires u1 <= u2
    ensures EntryPriority(p, u1, w) <= EntryPriority(p, u2, w)
  {
    var level := AssessRisk(DefaultAssessor, p);
    var base := RiskBase(level);
    assert base * u1 <= base * u2;
    var b := 10 * RiskBonus(level);
    var t1 := PriorityTenths(base, u1, w) + b;
    var t2 := PriorityTenths(base, u2, w) + b;
    TruncTenthsMonotone(t1, t2);
    ClampMonotone(TruncTenths(t1), TruncTenths(t2), 1, 10);
  }

  /** Over non-negative urgency a higher no-show probability never lowers the priority. */
  lemma EntryPriorityRisk(p1: real, p2: real, u: int, w: int)
    requires p1 <= p2 && 0 <= u
    ensures EntryPriority(p1, u, w) <= EntryPriority(p2, u, w)
  {
    AssessRiskMonotone(DefaultAssessor, p1, p2);
    var l1 := AssessRisk(DefaultAssessor, p1);
    var l2 := AssessRisk(DefaultAssessor, p2);
    assert RiskBase(l1) * u <= RiskBase(l2) * u;
    var t1 := PriorityTenths(RiskBase(l1), u, w) + 10 * RiskBonus(l1);
    var t2 := PriorityTenths(RiskBase(l2), u, w) + 10 * RiskBonus(l2);
    TruncTenthsMonotone(t1, t2);
    ClampMonotone(TruncTenths(t1), TruncTenths(t2), 1, 10);
  }

  // ---------------------------------------------------------------------------
  // Entries
  // ---------------------------------------------------------------------------

  class WaitlistEntry {
    const patientId: string
    var noShowProbability: real
    var urgencyScore: int
    const entryDate: int
    const preferredDoctor: Option<string>
    const preferredDate: Option<int>
    const medicalNotes: string
    var waitingDays: int
    var lastContactDate: int
    var contactAttempts: int
    var priorityScore: int

    /** The stored priority is the one the entry's current factors give. */
    predicate Valid()
      reads this
    {
      priorityScore == EntryPriority(noShowProbability, urgencyScore, waitingDays)
    }

    /**
     * The entry is as `__init__` leaves it: the given fields, no days waited,
     * no contact attempt, last contacted when it entered, and the priority of
     * its factors on the first day.
     */
    predicate Entered(patientId: string, noShowProbability: real, urgencyScore: int, entryDate: int,
                      preferredDoctor: Option<string>, preferredDate: Option<int>, medicalNotes: string)
      reads this
    {
      && this.patientId == patientId && this.noShowProbability == noShowProbability
      && this.urgencyScore == urgencyScore && this.entryDate == entryDate
      && this.preferredDoctor == preferredDoctor && this.preferredDate == preferredDate
      && this.medicalNotes == medicalNotes
      && waitingDays == 0 && lastContactDate == entryDate && contactAttempts == 0
      && priorityScore == EntryPriority(noShowProbability, urgencyScore, 0)
    }

    constructor (patientId: string, noShowProbability: real, urgencyScore: int, entryDate: int,
                 preferredDoctor: Option<string>, preferredDate: Option<int>, medicalNotes: string)
      ensures Valid()
      ensures Entered(patientId, noShowProbability, urgencyScore, entryDate, preferredDoctor, preferredDate, medicalNotes)
    {
      this.patientId := patientId;
      this.noShowProbability := noShowProbability;
      this.urgencyScore := urgencyScore;
      this.entryDate := entryDate;
      this.preferredDoctor := preferredDoctor;
      this.preferredDate := preferredDate;
      this.medicalNotes := medicalNotes;
      waitingDays := 0;
      lastContactDate := entryDate;
      contactAttempts := 0;
      priorityScore := 0;
      new;
      CalculatePriorityScore();
    }

    /** `_calculate_priority_score`: recomputes the stored priority from the current factors. */
    method CalculatePriorityScore()
      modifies this
      ensures Valid()
      ensures noShowProbability == old(noShowProbability) && urgencyScore == old(urgencyScore)
      ensures waitingDays == old(waitingDays) && lastContactDate == old(lastContactDate)
      ensures contactAttempts == old(contactAttempts)
    {
      var level := AssessRisk(DefaultAssessor, noShowProbability);
      var tenths := PriorityTenths(RiskBase(level), urgencyScore, waitingDays) + 10 * RiskBonus(level);
      priorityScore := TruncTenths(tenths);
      priorityScore := Clamp(priorityScore, 1, 10);
    }

    /** `update_waiting_time`: the whole days since entry at `now`, and the priority they give. */
    method UpdateWaitingTime(now: int)
      modifies this
      ensures Valid()
      ensures waitingDays == DaysElapsed(entryDate, now)
      ensures noShowProbability == old(noShowProbability) && urgencyScore == old(urgencyScore)
      ensures lastContactDate == old(lastContactDate) && contactAttempts == old(contactAttempts)
    {
      waitingDays := DaysElapsed(entryDate, now);
      CalculatePriorityScore();
    }

    /** `record_contact_attempt` of the entry: stamps the contact at `now` and counts it. */
    method RecordContactAttempt(now: int)
      modifies this
      ensures lastContactDate == now && contactAttempts == old(contactAttempts) + 1
      ensures noShowProbability == old(noShowProbability) && urgencyScore == old(urgencyScore)
      ensures waitingDays == old(waitingDays) && priorityScore == old(priorityScore)
    {
      lastContactDate := now;
      contactAttempts := contactAttempts + 1;
    }

    /** `__lt__`: this entry comes first in the queue, having the strictly higher priority. */
    predicate Before(other: WaitlistEntry)
      reads this, other
    {
      priorityScore > other.priorityScore
    }
  }

  /** `Before` is a strict order: irreflexive and transitive. */
  lemma BeforeIsStrict(a: WaitlistEntry, b: WaitlistEntry, c: WaitlistEntry)
    ensures !a.Before(a)
    ensures a.Before(b) && b.Before(c) ==> a.Before(c)
    ensures a.Before(b) ==> !b.Before(a)
  {
  }

  // ---------------------------------------------------------------------------
  // Matching an entry to a free slot
  // ---------------------------------------------------------------------------

  /** 3 when the slot has a start time whose hour lies in the morning, afternoon or evening band. */
  function HourBonus(slotStart: Option<int>): (b: int)
    ensures b == 0 || b == 3
    ensures b == 3 <==> slotStart.Some? && 9 <= Hour(slotStart.value) <= 20
  {
    match slotStart
    case None => 0
    case Some(t) =>
      var hour := Hour(t);
      if 9 <= hour <= 12 then 3
      else if 13 <= hour <= 17 then 3
      else if 18 <= hour <= 20 then 3
      else 0
  }

  /** 5 for HIGH risk, 3 for MEDIUM, nothing for LOW. */
  function RiskMatchBonus(level: RiskLevel): (b: int)
    ensures b == (if level == High then 5 else if level == Medium then 3 else 0)
  {
    match level
    case High => 5
    case Medium => 3
    case Low => 0
  }

  /**
   * `_calculate_slot_match_score` on the entry's priority, probability and
   * preferred date, for a slot whose start time is `slotStart` (none when the
   * slot object has no start time) on the day of `slotDate`.  Every term is a
   * whole number, so the float sum is exact.
   */
  function MatchScore(priority: int, p: real, preferredDate: Option<int>, slotStart: Option<int>, slotDate: int): int
  {
    priority * 2 + DateProximity(slotDate, preferredDate) + HourBonus(slotStart) + RiskMatchBonus(AssessRisk(DefaultAssessor, p))
  }

  /** With a priority in 1..10 the score lies between 2 and 38; twice the priority is always its floor. */
  lemma MatchScoreBounds(priority: int, p: real, preferredDate: Option<int>, slotStart: Option<int>, slotDate: int)
    requires 1 <= priority <= 10
    ensures 2 * priority <= MatchScore(priority, p, preferredDate, slotStart, slotDate) <= 2 * priority + 18
    ensures 2 <= MatchScore(priority, p, preferredDate, slotStart, slotDate) <= 38
  {
  }

  /**
   * One point of priority is worth two points of score, so it outweighs a day
   * of date distance but not the risk bonus.
   */
  lemma MatchScorePriority(pr1: int, pr2: int, p: real, preferredDate: Option<int>, slotStart: Option<int>, slotDate: int)
    ensures MatchScore(pr2, p, preferredDate, slotStart, slotDate) - MatchScore(pr1, p, preferredDate, slotStart, slotDate)
         == 2 * (pr2 - pr1)
  {
  }

  /** A higher no-show probability never lowers the score. */
  lemma MatchScoreRisk(priority: int, p1: real, p2: real, preferredDate: Option<int>, slotStart: Option<int>, slotDate: int)
    requires p1 <= p2
    ensures MatchScore(priority, p1, preferredDate, slotStart, slotDate) <= MatchScore(priority, p2, preferredDate, slotStart, slotDate)
  {
    AssessRiskMonotone(DefaultAssessor, p1, p2);
  }

  /** The entry's score for a slot. */
  function EntryMatchScore(e: WaitlistEntry, slotStart: Option<int>, slotDate: int): int
    reads e
  {
    MatchScore(e.priorityScore, e.noShowProbability, e.preferredDate, slotStart, slotDate)
  }

  /**
   * The filter of `find_optimal_patient_for_slot`: a named preferred doctor
   * must be the slot's doctor, and a preferred date at most 7 days from the
   * slot's day.
   */
  predicate Suits(e: WaitlistEntry, doctorId: string, slotDate: int)
  {
    && !(Truthy(e.preferredDoctor) && e.preferredDoctor.value != doctorId)
    && (e.preferredDate.Some? ==> DaysApart(slotDate, e.preferredDate.value) <= 7)
  }

  /** A suitable entry with a preferred date scores at least 3 points for closeness. */
  lemma SuitableCloseness(e: WaitlistEntry, doctorId: string, slotDate: int)
    requires Suits(e, doctorId, slotDate) && e.preferredDate.Some?
    ensures DateProximity(slotDate, e.preferredDate) >= 3
  {
  }
}
