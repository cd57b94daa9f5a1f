/**
 * The appointment scheduler that composes the risk assessor, the slot
 * optimizer and the waitlist manager: the availability check, the action
 * dispatcher, the wait-time estimate, the waitlist auto-fill pass, the
 * configuration update and the per-patient recommendations.  The two
 * predictions of the machine-learning model are inputs.
 */
module Scheduler {
  import opened Wrappers
  import opened Clock
  import opened RiskAssessment
  import opened Slots
  import opened WaitlistEntries
  import opened Waitlist
  import opened WaitlistFill

  // ---------------------------------------------------------------------------
  // Requests, oracle answers and results
  // ---------------------------------------------------------------------------

  /** The keys of an appointment request; a missing key is `None`. */
  datatype Request = Request(patientId: Option<string>, preferredDoctor: Option<string>,
                             preferredDate: Option<int>, preferredTime: Option<string>,
                             urgencyScore: Option<int>, medicalNotes: Option<string>)

  /** The patient id of a request, `"unknown"` when it has none. */
  function RequestPatient(req: Request): string
  {
    req.patientId.GetOr("unknown")
  }

  /** What a call into the prediction model gives: a value, or an exception with its message. */
  datatype Oracle<T> = Returned(value: T) | Raised(message: string)

  /** The full output of the prediction model. */
  datatype FullPrediction = FullPrediction(prediction: int, noShowProbability: real, showProbability: real)

  /** The booked slot as the result reports it. */
  datatype SlotInfo = SlotInfo(doctorId: string, startTime: int, endTime: int)

  /** What a booking adds beyond the slot, by action. */
  datatype Extra =
    | Buffered(bufferTime: int)
    | BufferedConfirmed(bufferTime: int, requiresConfirmation: bool)
    | Rescheduled(doctor: Option<string>, date: Option<int>, time: Option<string>)

  /** The branch-specific keys of a decision. */
  datatype Details =
    | Plain
    | Assigned(slot: SlotInfo, extra: Extra)
    | Queued(waitlistPriority: int, estimatedWaitTime: string)

  /** The result of `_execute_scheduling_decision`, timestamp left out. */
  datatype Decision = Decision(success: bool, patientId: string, action: string, riskLevel: string,
                               noShowProbability: real, strategy: Strategy, details: Details,
                               error: Option<string>)

  /** The result of `schedule_appointment`: the decision with the model's outputs added, or the error record. */
  datatype Response =
    | Scheduled(decision: Decision, mlPrediction: int, noShowProbability: real, showProbability: real,
                riskLevel: string)
    | Failed(error: string)
  {
    /** The `action` key of the result. */
    function Action(): string
    {
      match this
      case Scheduled(d, _, _, _, _) => d.action
      case Failed(_) => "error"
    }
  }

  // ---------------------------------------------------------------------------
  // Wait-time estimate
  // ---------------------------------------------------------------------------

  /** The four estimates, shortest first. */
  const WaitBands: seq<string> := ["1-2 days", "3-5 days", "1-2 weeks", "2-4 weeks"]

  /** The position of an estimate among `WaitBands`. */
  function WaitBand(priority: int): (k: nat)
    ensures k < |WaitBands|
  {
    if priority >= 8 then 0
    else if priority >= 6 then 1
    else if priority >= 4 then 2
    else 3
  }

  /** `_estimate_wait_time`: the band of the priority score. */
  function EstimateWaitTime(priority: int): (s: string)
    ensures s in WaitBands
    ensures s == WaitBands[WaitBand(priority)]
  {
    if priority >= 8 then "1-2 days"
    else if priority >= 6 then "3-5 days"
    else if priority >= 4 then "1-2 weeks"
    else "2-4 weeks"
  }

  /** A higher priority never gets a longer estimate, and each band starts at 8, 6, 4 or below. */
  lemma EstimateWaitTimeMonotone(p1: int, p2: int)
    requires p1 <= p2
    ensures WaitBand(p2) <= WaitBand(p1)
    ensures EstimateWaitTime(p1) == "1-2 days" <==> 8 <= p1
    ensures EstimateWaitTime(p1) == "2-4 weeks" <==> p1 < 4
  {
  }

  /** The priority a strategy gives (0..5) never earns the shortest estimate. */
  lemma StrategyNeverShortestWait(level: RiskLevel, slotAvailable: bool, slotCapacity: int)
    ensures EstimateWaitTime(GetSchedulingStrategy(level, slotAvailable, slotCapacity).waitlistPriority) != "1-2 days"
  {
  }

  // ---------------------------------------------------------------------------
  // The action dispatcher
  // ---------------------------------------------------------------------------

  /** The actions the dispatcher books a slot for. */
  const BookingActions: set<string> := {"confirm", "confirm_with_buffer", "reschedule"}

  /** Which arm of `_execute_scheduling_decision` an action takes, with the errors a booking arm reports. */
  datatype Branch = Book(missingError: string, failedError: string) | Queue | Unrecognised

  function DispatchBranch(action: string): (b: Branch)
    ensures b.Book? <==> action in BookingActions
    ensures b.Queue? <==> action == "waitlist"
    ensures b.Book? ==> (b.missingError == "No alternative slot available" <==> action == "reschedule")
  {
    if action == "confirm" || action == "confirm_with_buffer" then
      Book("No suitable slot available", "Failed to schedule appointment")
    else if action == "reschedule" then
      Book("No alternative slot available", "Failed to reschedule appointment")
    else if action == "waitlist" then Queue
    else Unrecognised
  }

  /**
   * Of the six actions the strategy table gives, the dispatcher books for
   * LOW risk and for MEDIUM risk with an open slot, and reports every other
   * one as unknown; none is "waitlist", so a strategy never reaches the
   * waitlist arm.
   */
  lemma StrategyDispatch(level: RiskLevel, slotAvailable: bool, slotCapacity: int)
    ensures var b := DispatchBranch(GetSchedulingStrategy(level, slotAvailable, slotCapacity).action);
            && (b.Book? <==> level == Low || (level == Medium && SlotOpen(slotAvailable, slotCapacity)))
            && (b.Unrecognised? <==> level == High || (level == Medium && !SlotOpen(slotAvailable, slotCapacity)))
            && !b.Queue?
  {
    StrategyActions(level, slotAvailable, slotCapacity);
  }

  /** The strategy depends on the slot only through whether it is open. */
  lemma StrategyByOpen(level: RiskLevel, slotAvailable: bool, slotCapacity: int)
    ensures GetSchedulingStrategy(level, slotAvailable, slotCapacity)
            == GetSchedulingStrategy(level, SlotOpen(slotAvailable, slotCapacity), 1)
  {
  }

  /** The booking keys an arm adds besides the slot. */
  function BookingExtra(req: Request, strategy: Strategy): Extra
  {
    if strategy.action == "confirm" then Buffered(strategy.bufferTime)
    else if strategy.action == "confirm_with_buffer" then
      BufferedConfirmed(strategy.bufferTime, strategy.requiresConfirmation)
    else Rescheduled(req.preferredDoctor, req.preferredDate, req.preferredTime)
  }

  /**
   * The result `_execute_scheduling_decision` builds, given the slot it was
   * handed (if any) and whether booking that slot succeeded.
   */
  function Decide(req: Request, strategy: Strategy, slot: Option<SlotInfo>, booked: bool, p: real): (d: Decision)
    ensures d.action == strategy.action && d.strategy == strategy && d.riskLevel == strategy.riskLevel
    ensures d.patientId == RequestPatient(req) && d.noShowProbability == p
    ensures var b := DispatchBranch(strategy.action);
            && (d.details.Assigned? <==> b.Book? && slot.Some? && booked)
            && (d.details.Queued? <==> b.Queue?)
            && (d.success <==> d.details.Assigned? || d.details.Queued?)
            && (d.error.None? <==> d.success)
    ensures d.details.Assigned? ==> d.details.slot == slot.value && d.details.extra == BookingExtra(req, strategy)
    ensures d.details.Queued? ==>
              d.details == Queued(strategy.waitlistPriority, EstimateWaitTime(strategy.waitlistPriority))
    ensures var b := DispatchBranch(strategy.action);
            && (b.Book? && slot.None? ==> d.error == Some(b.missingError))
            && (b.Book? && slot.Some? && !booked ==> d.error == Some(b.failedError))
            && (b.Unrecognised? ==> d.error == Some("Unknown action: " + strategy.action))
  {
    var base := Decision(true, RequestPatient(req), strategy.action, strategy.riskLevel, p, strategy, Plain, None);
    match DispatchBranch(strategy.action)
    case Book(missing, failed) =>
      if slot.None? then base.(success := false, error := Some(missing))
      else if booked then base.(details := Assigned(slot.value, BookingExtra(req, strategy)))
      else base.(success := false, error := Some(failed))
    case Queue =>
      base.(details := Queued(strategy.waitlistPriority, EstimateWaitTime(strategy.waitlistPriority)))
    case Unrecognised =>
      base.(success := false, error := Some("Unknown action: " + strategy.action))
  }

  /** The three strategy actions the dispatcher does not know fail with "Unknown action". */
  lemma UnknownStrategyActions(req: Request, strategy: Strategy, slot: Option<SlotInfo>, booked: bool, p: real)
    requires strategy.action in {"confirm_with_extended_buffer", "reschedule_optimal", "waitlist_high_priority"}
    ensures var d := Decide(req, strategy, slot, booked, p);
            !d.success && d.error == Some("Unknown action: " + strategy.action) && d.details == Plain
  {
  }

  /** The dispatcher's report of a slot. */
  function Info(s: DoctorSlot): SlotInfo
    reads s
  {
    SlotInfo(s.doctorId, s.startTime, s.endTime)
  }

  /** The optional slot as the dispatcher sees it. */
  function InfoOf(slot: Option<DoctorSlot>): (r: Option<SlotInfo>)
    reads if slot.Some? then {slot.value} else {}
    ensures r.Some? <==> slot.Some?
  {
    match slot
    case None => None
    case Some(s) => Some(Info(s))
  }

  // ---------------------------------------------------------------------------
  // Availability
  // ---------------------------------------------------------------------------

  /** The preferred doctor's slots with a place left on the preferred day; none for an unknown doctor. */
  function PreferredOpenings(slots: map<string, seq<DoctorSlot>>, doctorId: string, date: int): seq<DoctorSlot>
    reads if doctorId in slots then set s | s in slots[doctorId] else {}
  {
    if doctorId in slots then AvailableOn(slots[doctorId], Date(date)) else []
  }

  /** `best` is what `find_optimal_slot` returns for the candidate list `cands`. */
  ghost predicate BestOf(best: Option<DoctorSlot>, cands: seq<DoctorSlot>, preferredDate: Option<int>,
                         preferredTime: Option<string>, risk: RiskLevel, urgency: int)
    reads set s | s in cands
  {
    && (best.None? <==> cands == [])
    && (best.Some? ==> exists i :: IsFirstBest(cands, i, preferredDate, preferredTime, risk, urgency) && cands[i] == best.value)
  }

  /** A slot in a doctor's list of a well-formed optimizer is one of its listed slots. */
  lemma ListedMember(order: seq<string>, slots: map<string, seq<DoctorSlot>>,
                     position: map<DoctorSlot, (string, int)>, d: string, s: DoctorSlot)
    requires Indexed(order, slots, position) && d in slots && s in slots[d]
    ensures s in position
  {
    var i :| 0 <= i < |slots[d]| && slots[d][i] == s;
  }

  /** Every slot the scan visits sits in some doctor's list, so a well-formed optimizer lists it. */
  lemma {:induction false} ScanOrderListed(order: seq<string>, slots: map<string, seq<DoctorSlot>>,
                                           position: map<DoctorSlot, (string, int)>, preferredDoctor: Option<string>)
    requires forall d, i :: d in slots && 0 <= i < |slots[d]| ==> slots[d][i] in position
    ensures forall s :: s in ScanOrder(order, slots, preferredDoctor) ==> s in position
    decreases |order|
  {
    if order != [] {
      ScanOrderListed(order[..|order| - 1], slots, position, preferredDoctor);
    }
  }

  // ---------------------------------------------------------------------------
  // Waitlist auto-fill
  // ---------------------------------------------------------------------------

  /** The result of `process_waitlist_fill`, timestamp left out. */
  datatype FillResult = AutoFillDisabled | Filled(filledSlots: nat, patientsContacted: nat)

  // ---------------------------------------------------------------------------
  // Configuration
  // ---------------------------------------------------------------------------

  /** A configuration value; a setting is on by Python truthiness. */
  datatype ConfigValue = Flag(flag: bool) | Number(number: int) | Text(text: string)
  {
    predicate IsOn()
    {
      match this
      case Flag(b) => b
      case Number(n) => n != 0
      case Text(t) => t != ""
    }
  }

  const AutoOptimize: string := "auto_optimize_schedule"
  const AutoFill: string := "enable_waitlist_auto_fill"

  /** The settings a new scheduler starts with. */
  const DefaultConfig: map<string, ConfigValue> :=
    map[AutoOptimize := Flag(true), AutoFill := Flag(true),
        "max_waitlist_size" := Number(100), "contact_retry_attempts" := Number(3)]

  /** The settings after `update_configuration`: a given value replaces a known key's, unknown keys are ignored. */
  function Overlay(config: map<string, ConfigValue>, updates: map<string, ConfigValue>): (r: map<string, ConfigValue>)
    ensures r.Keys == config.Keys
  {
    map k | k in config :: if k in updates then updates[k] else config[k]
  }

  /** Updating never adds a key, keeps every key not updated and takes every known key's new value. */
  lemma OverlayEffect(config: map<string, ConfigValue>, updates: map<string, ConfigValue>, k: string)
    ensures k in Overlay(config, updates) <==> k in config
    ensures k in config && k !in updates ==> Overlay(config, updates)[k] == config[k]
    ensures k in config && k in updates ==> Overlay(config, updates)[k] == updates[k]
  {
  }

  /** Applying the same update twice is applying it once, and an empty update changes nothing. */
  lemma OverlayIdempotent(config: map<string, ConfigValue>, updates: map<string, ConfigValue>)
    ensures Overlay(Overlay(config, updates), updates) == Overlay(config, updates)
    ensures Overlay(config, map[]) == config
  {
  }

  // ---------------------------------------------------------------------------
  // Recommendations
  // ---------------------------------------------------------------------------

  /** The result of `get_patient_recommendations`. */
  datatype Recommendation =
    | Confirmed(appointmentTime: int, doctorId: string, advice: seq<string>)
    | OnWaitlist(priorityScore: int, estimatedWaitTime: string, advice: seq<string>)
    | NotFound(advice: seq<string>)

  // ---------------------------------------------------------------------------
  // The scheduler
  // ---------------------------------------------------------------------------

  class AppointmentScheduler {
    const assessor: RiskAssessor
    const optimizer: SlotOptimizer
    const manager: WaitlistManager
    var config: map<string, ConfigValue>

    /** Both components are well formed and the configuration has its four keys. */
    ghost predicate Valid()
      reads this, optimizer, manager, manager.waitlist
    {
      && optimizer.Valid()
      && manager.Valid()
      && config.Keys == DefaultConfig.Keys
    }

    /** A scheduler with the given thresholds, or the default ones, and empty components. */
    constructor (thresholds: Option<RiskAssessor>)
      ensures Valid() && fresh(optimizer) && fresh(manager)
      ensures assessor == thresholds.GetOr(DefaultAssessor) && config == DefaultConfig
      ensures optimizer.doctorSlots == map[] && optimizer.slotAssignments == map[]
      ensures manager.waitlist == [] && manager.patientRecords == map[]
    {
      assessor := thresholds.GetOr(DefaultAssessor);
      optimizer := new SlotOptimizer();
      manager := new WaitlistManager();
      config := DefaultConfig;
    }

    /**
     * What `_check_slot_availability` finds for `req`: `available` exactly
     * when the preferred doctor has a slot with a place left on the preferred
     * date, `slot` then the first of them; otherwise `slot` is the
     * optimizer's best slot for LOW risk and urgency 1.
     */
    ghost predicate Checked(req: Request, available: bool, slot: Option<DoctorSlot>)
      requires optimizer.Valid()
      reads optimizer, optimizer.Listed()
    {
      var asked := Truthy(req.preferredDoctor) && req.preferredDate.Some?;
      var openings := if asked then PreferredOpenings(optimizer.doctorSlots, req.preferredDoctor.value, req.preferredDate.value) else [];
      var scan := ScanOrder(optimizer.doctorOrder, optimizer.doctorSlots, req.preferredDoctor);
      ScanOrderListed(optimizer.doctorOrder, optimizer.doctorSlots, optimizer.slotPosition, req.preferredDoctor);
      AvailableInMembers(scan);
      && (available <==> openings != [])
      && (available ==> slot == Some(openings[0]))
      && (!available ==> BestOf(slot, AvailableIn(scan), req.preferredDate, req.preferredTime, Low, 1))
    }

    /**
     * `_check_slot_availability`: with both a preferred doctor and a date,
     * the first of that doctor's open slots that day if there is one;
     * otherwise not available, with the optimizer's best slot for LOW risk
     * and urgency 1.
     */
    method CheckSlotAvailability(req: Request) returns (available: bool, slot: Option<DoctorSlot>)
      requires optimizer.Valid()
      ensures Checked(req, available, slot)
      ensures slot.Some? ==> slot.value in optimizer.Listed() && slot.value.IsAvailable()
    {
      if Truthy(req.preferredDoctor) && req.preferredDate.Some? {
        var openings := optimizer.GetDoctorAvailability(req.preferredDoctor.value, req.preferredDate.value);
        if openings != [] {
          ListedMember(optimizer.doctorOrder, optimizer.doctorSlots, optimizer.slotPosition, req.preferredDoctor.value, openings[0]);
          return true, Some(openings[0]);
        }
      }
      slot := optimizer.FindOptimalSlot(RequestPatient(req), req.preferredDoctor, req.preferredDate, req.preferredTime, Low, 1);
      available := false;
      if slot.Some? {
        ghost var scan := ScanOrder(optimizer.doctorOrder, optimizer.doctorSlots, req.preferredDoctor);
        AvailableInMembers(scan);
        ScanOrderListed(optimizer.doctorOrder, optimizer.doctorSlots, optimizer.slotPosition, req.preferredDoctor);
      }
    }

    /**
     * `_execute_scheduling_decision`: the booking arms book the slot handed
     * in, with the strategy's buffer; the waitlist arm and the unknown
     * actions book nothing.  The result is `Decide` of what happened.
     */
    method ExecuteSchedulingDecision(req: Request, strategy: Strategy, slot: Option<DoctorSlot>, p: real)
      returns (d: Decision)
      requires optimizer.Valid()
      modifies optimizer, SlotSet(slot)
      ensures optimizer.Valid()
      ensures optimizer.doctorSlots == old(optimizer.doctorSlots) && optimizer.doctorOrder == old(optimizer.doctorOrder)
      ensures optimizer.slotPosition == old(optimizer.slotPosition)
      ensures var tried := DispatchBranch(strategy.action).Book? && slot.Some?;
              && d == Decide(req, strategy, old(InfoOf(slot)), tried && old(slot.value.IsAvailable()), p)
              && optimizer.slotAssignments
                 == (if d.details.Assigned? then old(optimizer.slotAssignments)[RequestPatient(req) := slot.value]
                     else old(optimizer.slotAssignments))
              && (slot.Some? && !d.details.Assigned? ==>
                    && slot.value.patients == old(slot.value.patients)
                    && slot.value.currentCapacity == old(slot.value.currentCapacity)
                    && slot.value.bufferTime == old(slot.value.bufferTime))
              && (slot.Some? ==> slot.value.endTime == old(slot.value.endTime) && slot.value.maxCapacity == old(slot.value.maxCapacity))
              && (d.details.Assigned? ==>
                    && slot.value.patients == old(slot.value.patients) + [RequestPatient(req)]
                    && slot.value.currentCapacity == old(slot.value.currentCapacity) + 1
                    && slot.value.bufferTime == (if old(slot.value.bufferTime) < strategy.bufferTime then strategy.bufferTime
                                                 else old(slot.value.bufferTime)))
      ensures optimizer.ViewMap()
              == if d.details.Assigned?
                 then Rebooked(old(optimizer.ViewMap()), optimizer.doctorSlots, slot.value, RequestPatient(req), strategy.bufferTime)
                 else old(optimizer.ViewMap())
    {
      var booked := false;
      if DispatchBranch(strategy.action).Book? && slot.Some? {
        booked := optimizer.ScheduleAppointment(RequestPatient(req), slot.value, strategy.bufferTime);
      }
      d := Decide(req, strategy, InfoOf(slot), booked, p);
    }

    /**
     * `_add_to_waitlist`: the request's patient goes on the waitlist with the
     * given probability, urgency 1 and no notes unless the request says
     * otherwise.
     */
    method AddToWaitlist(req: Request, p: real, now: int) returns (ok: bool)
      requires Valid()
      modifies manager
      ensures Valid()
      ensures ok <==> RequestPatient(req) !in old(manager.patientRecords)
      ensures !ok ==> manager.waitlist == old(manager.waitlist) && manager.patientRecords == old(manager.patientRecords)
                      && manager.contactSchedule == old(manager.contactSchedule)
      ensures ok ==> var id := RequestPatient(req);
                     && id in manager.patientRecords
                     && manager.patientRecords[id].Entered(id, p, req.urgencyScore.GetOr(1), now, req.preferredDoctor,
                                                            req.preferredDate, req.medicalNotes.GetOr(""))
                     && AddedTo(old(manager.waitlist), old(manager.patientRecords), old(manager.contactSchedule),
                                manager.waitlist, manager.patientRecords, manager.contactSchedule,
                                id, manager.patientRecords[id], now + MinutesPerDay)
    {
      ok := manager.AddPatient(RequestPatient(req), p, req.urgencyScore.GetOr(1), req.preferredDoctor,
                               req.preferredDate, req.medicalNotes.GetOr(""), now);
    }

    /** The checked slot as a set: the objects booking into it may change. */
    function SlotSet(slot: Option<DoctorSlot>): set<DoctorSlot>
    {
      if slot.Some? then {slot.value} else {}
    }

    /** What `get_scheduling_strategy` is given for the checked slot: its places left, or 0 without one. */
    function CapacityOf(slot: Option<DoctorSlot>): (c: int)
      reads SlotSet(slot)
      ensures slot.Some? ==> (c > 0 <==> slot.value.IsAvailable())
      ensures slot.None? ==> c == 0
    {
      if slot.Some? then slot.value.AvailableCapacity() else 0
    }

    /**
     * The decision `schedule_appointment` takes for the risk tier `level`
     * after the slot check gave `available` and `slot`, with `capacity`
     * places left in it: it is made with the strategy of that tier for
     * exactly that check, it never queues the patient, and it succeeds
     * exactly when it booked the patient into `slot`, the bookings `after`
     * otherwise being `before`.
     */
    ghost predicate Acted(d: Decision, req: Request, p: real, level: RiskLevel,
                          available: bool, slot: Option<DoctorSlot>, capacity: int,
                          before: map<string, DoctorSlot>, after: map<string, DoctorSlot>)
    {
      && d.riskLevel == level.Value() && d.noShowProbability == p && d.patientId == RequestPatient(req)
      && d.strategy == GetSchedulingStrategy(level, available, capacity)
      && !d.details.Queued? && d.action != "waitlist"
      && (d.success <==> d.details.Assigned?)
      && (d.success ==> slot.Some? && after == before[RequestPatient(req) := slot.value])
      && (!d.success ==> after == before)
    }

    /**
     * What `schedule_appointment` reports once both model calls returned,
     * `p` and `fp`: the decision for the tier of `p` and the slot check,
     * with the model's outputs and the tier added.
     */
    ghost predicate Reported(r: Response, req: Request, p: real, fp: FullPrediction,
                             available: bool, slot: Option<DoctorSlot>, capacity: int,
                             before: map<string, DoctorSlot>, after: map<string, DoctorSlot>)
    {
      var level := AssessRisk(assessor, p);
      && r.Scheduled?
      && r.riskLevel == level.Value()
      && r.mlPrediction == fp.prediction
      && r.noShowProbability == fp.noShowProbability && r.showProbability == fp.showProbability
      && Acted(r.decision, req, p, level, available, slot, capacity, before, after)
    }

    /**
     * `schedule_appointment`: a model call that raises gives the error
     * record and changes nothing, since both calls come first.  Otherwise
     * the tier of the probability and the slot check choose the strategy,
     * the dispatcher acts on it, and the schedule is optimized when that is
     * switched on.  No strategy action is "waitlist", so the waitlist is
     * never touched.
     */
    method ScheduleAppointment(prediction: Oracle<real>, full: Oracle<FullPrediction>, req: Request, now: int)
      returns (r: Response, ghost available: bool, ghost slot: Option<DoctorSlot>)
      requires Valid()
      modifies optimizer, optimizer.Listed()
      ensures Valid()
      ensures r.Failed? <==> prediction.Raised? || full.Raised?
      ensures prediction.Raised? ==> r == Failed(prediction.message)
      ensures prediction.Returned? && full.Raised? ==> r == Failed(full.message)
      ensures r.Failed? ==> unchanged(optimizer) && unchanged(optimizer.Listed())
      ensures optimizer.doctorSlots == old(optimizer.doctorSlots) && optimizer.doctorOrder == old(optimizer.doctorOrder)
      ensures slot.Some? ==> slot.value in old(optimizer.Listed())
      ensures r.Scheduled? ==>
                && old(allocated(slot))
                && old(Checked(req, available, slot))
                && Reported(r, req, prediction.value, full.value, available, slot, old(CapacityOf(slot)),
                            old(optimizer.slotAssignments), optimizer.slotAssignments)
      ensures r.Scheduled? ==>
                var booked := if r.decision.success && slot.Some?
                              then Rebooked(old(optimizer.ViewMap()), optimizer.doctorSlots, slot.value, RequestPatient(req),
                                            r.decision.strategy.bufferTime)
                              else old(optimizer.ViewMap());
                optimizer.ViewMap() == if config[AutoOptimize].IsOn() then MergePassAll(booked) else booked
    {
      if prediction.Raised? {
        return Failed(prediction.message), false, None;
      }
      if full.Raised? {
        return Failed(full.message), false, None;
      }
      r, available, slot := Proceed(req, prediction.value, full.value);
    }

    /** `schedule_appointment` after both model calls returned. */
    method Proceed(req: Request, p: real, fp: FullPrediction)
      returns (r: Response, ghost available: bool, ghost slot: Option<DoctorSlot>)
      requires Valid()
      modifies optimizer, optimizer.Listed()
      ensures Valid()
      ensures optimizer.doctorSlots == old(optimizer.doctorSlots) && optimizer.doctorOrder == old(optimizer.doctorOrder)
      ensures slot.Some? ==> slot.value in old(optimizer.Listed())
      ensures old(Checked(req, available, slot))
      ensures Reported(r, req, p, fp, available, slot, old(CapacityOf(slot)), old(optimizer.slotAssignments), optimizer.slotAssignments)
      ensures var booked := if r.decision.success && slot.Some?
                            then Rebooked(old(optimizer.ViewMap()), optimizer.doctorSlots, slot.value, RequestPatient(req),
                                          r.decision.strategy.bufferTime)
                            else old(optimizer.ViewMap());
              optimizer.ViewMap() == if config[AutoOptimize].IsOn() then MergePassAll(booked) else booked
    {
      var level := AssessRisk(assessor, p);
      var decision;
      decision, available, slot := ActOnRisk(req, p, level);
      MaybeOptimize();
      r := Scheduled(decision, fp.prediction, fp.noShowProbability, fp.showProbability, level.Value());
    }

    /**
     * The end of `schedule_appointment`: the optimize pass runs exactly when
     * it is switched on; the slot lists and the bookings stay as they are.
     */
    method MaybeOptimize()
      requires Valid()
      modifies optimizer.Listed()
      ensures Valid()
      ensures config[AutoOptimize].IsOn() ==> optimizer.ViewMap() == MergePassAll(old(optimizer.ViewMap()))
      ensures !config[AutoOptimize].IsOn() ==> unchanged(optimizer.Listed()) && optimizer.ViewMap() == old(optimizer.ViewMap())
    {
      if config[AutoOptimize].IsOn() {
        var _ := optimizer.OptimizeSchedule();
      }
      StillValid(manager);
    }

    /**
     * The middle of `schedule_appointment`: the slot check, the strategy for
     * the risk tier `level` and that slot, and the dispatcher acting on it.
     */
    method ActOnRisk(req: Request, p: real, level: RiskLevel)
      returns (decision: Decision, ghost available: bool, ghost slot: Option<DoctorSlot>)
      requires optimizer.Valid()
      modifies optimizer, optimizer.Listed()
      ensures optimizer.Valid()
      ensures optimizer.doctorSlots == old(optimizer.doctorSlots) && optimizer.doctorOrder == old(optimizer.doctorOrder)
      ensures optimizer.slotPosition == old(optimizer.slotPosition)
      ensures slot.Some? ==> slot.value in old(optimizer.Listed())
      ensures old(Checked(req, available, slot))
      ensures Acted(decision, req, p, level, available, slot, old(CapacityOf(slot)),
                    old(optimizer.slotAssignments), optimizer.slotAssignments)
      ensures optimizer.ViewMap()
              == if decision.success && slot.Some?
                 then Rebooked(old(optimizer.ViewMap()), optimizer.doctorSlots, slot.value, RequestPatient(req),
                               decision.strategy.bufferTime)
                 else old(optimizer.ViewMap())
    {
      ghost var before := optimizer.ViewMap();
      var open, checked := CheckSlotAvailability(req);
      assert optimizer.ViewMap() == before;
      assert optimizer.slotAssignments == old(optimizer.slotAssignments);
      assert CapacityOf(checked) == old(CapacityOf(checked));
      decision := Dispatch(req, p, level, open, checked);
      available, slot := open, checked;
    }

    /** The strategy for the risk tier `level` and the checked slot, and the dispatcher acting on it. */
    method Dispatch(req: Request, p: real, level: RiskLevel, available: bool, slot: Option<DoctorSlot>)
      returns (decision: Decision)
      requires optimizer.Valid()
      requires slot.Some? ==> slot.value in optimizer.Listed()
      modifies optimizer, optimizer.Listed()
      ensures optimizer.Valid()
      ensures optimizer.doctorSlots == old(optimizer.doctorSlots) && optimizer.doctorOrder == old(optimizer.doctorOrder)
      ensures optimizer.slotPosition == old(optimizer.slotPosition)
      ensures Acted(decision, req, p, level, available, slot, old(CapacityOf(slot)),
                    old(optimizer.slotAssignments), optimizer.slotAssignments)
      ensures optimizer.ViewMap()
              == if decision.success && slot.Some?
                 then Rebooked(old(optimizer.ViewMap()), optimizer.doctorSlots, slot.value, RequestPatient(req),
                               decision.strategy.bufferTime)
                 else old(optimizer.ViewMap())
    {
      var capacity := CapacityOf(slot);
      var strategy := GetSchedulingStrategy(level, available, capacity);
      StrategyDispatch(level, available, capacity);
      decision := ExecuteSchedulingDecision(req, strategy, slot, p);
      // `_add_to_waitlist` would run for a "waitlist" action; `StrategyDispatch` shows no strategy has it.
    }

    /** The scheduler's state as the auto-fill pass sees it. */
    ghost function Snap(): Snapshot
      reads this, optimizer, optimizer.Listed(), manager
    {
      Snapshot(map s | s in optimizer.slotPosition.Keys :: View(s), manager.patientRecords, optimizer.slotAssignments,
               manager.waitlist, optimizer.doctorSlots, optimizer.doctorOrder, optimizer.slotPosition)
    }

    /**
     * `process_waitlist_fill`: when auto-fill is switched off, nothing
     * changes.  Otherwise every slot of every doctor, in the doctors' order,
     * that has a place left goes to the waitlisted patient picked for it, who
     * is booked and taken off the waitlist; `log` lists the slots filled with
     * their patients.  Each slot takes at most one patient, no patient is
     * booked twice, and a slot left unfilled is full or suits no patient
     * still waiting.  No patient is contacted.
     */
    method ProcessWaitlistFill(now: int) returns (r: FillResult, ghost log: FillLog)
      requires Valid()
      modifies optimizer, optimizer.Listed(), manager, manager.waitlist
      ensures Valid()
      ensures r == if config[AutoFill].IsOn() then Filled(|log|, 0) else AutoFillDisabled
      ensures !config[AutoFill].IsOn() ==> log == [] && unchanged(manager) && unchanged(optimizer)
      ensures optimizer.doctorSlots == old(optimizer.doctorSlots) && optimizer.doctorOrder == old(optimizer.doctorOrder)
      ensures optimizer.slotPosition == old(optimizer.slotPosition)
      ensures LogDistinct(log)
      ensures forall k :: 0 <= k < |log| ==>
                && log[k].0 in old(optimizer.Listed()) && HasPlace(old(View(log[k].0))) && log[k].1 in old(manager.patientRecords)
                && Suits(old(manager.patientRecords)[log[k].1], old(optimizer.slotPosition)[log[k].0].0, log[k].0.startTime)
      ensures forall s :: s in old(optimizer.Listed()) ==> View(s) == After(old(View(s)), BookedInto(log, s))
      ensures manager.patientRecords == old(manager.patientRecords) - Ids(log)
      ensures optimizer.slotAssignments == Assign(old(optimizer.slotAssignments), log)
      ensures forall e :: e in manager.waitlist ==> e in old(manager.waitlist)
      ensures config[AutoFill].IsOn() ==>
                forall d, j ::
                  && d in optimizer.doctorSlots && 0 <= j < |optimizer.doctorSlots[d]|
                  && BookedInto(log, optimizer.doctorSlots[d][j]) == None && optimizer.doctorSlots[d][j].IsAvailable()
                  ==> forall e :: e in manager.waitlist ==> !Suits(e, d, optimizer.doctorSlots[d][j].startTime)
    {
      log := [];
      if !config[AutoFill].IsOn() {
        return AutoFillDisabled, log;
      }
      ghost var start := Snap();
      var filled := 0;
      NothingFilled(start);
      var di := 0;
      while di < |optimizer.doctorOrder|
        invariant Valid() && Progress(start, Snap(), log, filled, di, 0)
      {
        filled, log := FillDoctor(di, filled, now, start, log);
        di := di + 1;
      }
      AllFilled(start, Snap(), log, filled, di);
      r := Filled(filled, 0);
    }

    /** Before the pass nothing is filled. */
    lemma NothingFilled(start: Snapshot)
      requires Valid() && start == Snap()
      ensures Progress(start, Snap(), [], 0, 0, 0)
    {
      assert manager.patientRecords - {} == manager.patientRecords;
    }

    /** The inner loop of `process_waitlist_fill`: every slot of the doctor at `di`, in list order. */
    method FillDoctor(di: int, filled: int, now: int, ghost start: Snapshot, ghost log: FillLog)
      returns (filledAfter: int, ghost logAfter: FillLog)
      requires Valid() && Progress(start, Snap(), log, filled, di, 0) && di < |start.order|
      modifies optimizer, optimizer.Listed(), manager, set e | e in start.entries
      ensures Valid() && Progress(start, Snap(), logAfter, filledAfter, di + 1, 0)
    {
      var slots := optimizer.doctorSlots[optimizer.doctorOrder[di]];
      filledAfter, logAfter := filled, log;
      var i := 0;
      while i < |slots|
        invariant slots == start.slots[start.order[di]]
        invariant Valid() && Progress(start, Snap(), logAfter, filledAfter, di, i)
      {
        filledAfter, logAfter := FillAt(di, i, filledAfter, now, start, logAfter);
        i := i + 1;
      }
      DoctorFilled(start, Snap(), logAfter, filledAfter, di, i);
    }

    /** One turn of the inner loop: slot `i` of the doctor at `di`. */
    method FillAt(di: int, i: int, filled: int, now: int, ghost start: Snapshot, ghost log: FillLog)
      returns (filledAfter: int, ghost logAfter: FillLog)
      requires Valid() && Progress(start, Snap(), log, filled, di, i)
      requires di < |start.order| && i < |start.slots[start.order[di]]|
      modifies optimizer, optimizer.Listed(), manager, set e | e in start.entries
      ensures Valid() && Progress(start, Snap(), logAfter, filledAfter, di, i + 1)
    {
      ghost var cur := Snap();
      var d := optimizer.doctorOrder[di];
      var slot := optimizer.doctorSlots[d][i];
      SlotAt(start, cur, log, filled, di, i);
      var placed, pool := FillSlot(slot, d, now);
      FillStep(start, cur, Snap(), log, filled, di, i, placed);
      if placed.Some? {
        filledAfter, logAfter := filled + 1, log + [(slot, placed.value)];
      } else {
        filledAfter, logAfter := filled, log;
      }
    }

    /**
     * One slot of `process_waitlist_fill`: an available slot goes to the
     * waitlisted patient `find_optimal_patient_for_slot` picks for it, who is
     * booked with the default buffer and taken off the waitlist.  `pool` is
     * the refreshed waitlist the pick was made from.
     */
    method FillSlot(slot: DoctorSlot, doctorId: string, now: int) returns (placed: Option<string>, ghost pool: seq<WaitlistEntry>)
      requires Valid() && slot in optimizer.Listed()
      modifies optimizer, slot, manager, manager.waitlist
      ensures Valid() && slot in old(Snap()).views && SlotFilled(old(Snap()), Snap(), slot, doctorId, placed)
      ensures placed.Some? ==>
                exists k :: FirstBest(pool, k, Some(slot.startTime), doctorId, slot.startTime) && pool[k].patientId == placed.value
    {
      pool := manager.waitlist;
      if slot.IsAvailable() {
        placed, pool := FillOpenSlot(slot, doctorId, now);
      } else {
        placed := None;
      }
    }

    /** `FillSlot` for a slot with a place left. */
    method FillOpenSlot(slot: DoctorSlot, doctorId: string, now: int) returns (placed: Option<string>, ghost pool: seq<WaitlistEntry>)
      requires Valid() && slot in optimizer.Listed() && slot.IsAvailable()
      modifies optimizer, slot, manager, manager.waitlist
      ensures Valid()
      ensures optimizer.doctorSlots == old(optimizer.doctorSlots) && optimizer.doctorOrder == old(optimizer.doctorOrder)
      ensures optimizer.slotPosition == old(optimizer.slotPosition)
      ensures View(slot) == if placed.Some? then Booked(old(View(slot)), placed.value) else old(View(slot))
      ensures placed.Some? ==>
                placed.value in old(manager.patientRecords) && Suits(old(manager.patientRecords)[placed.value], doctorId, slot.startTime)
      ensures optimizer.slotAssignments
              == if placed.Some? then old(optimizer.slotAssignments)[placed.value := slot] else old(optimizer.slotAssignments)
      ensures manager.patientRecords
              == if placed.Some? then old(manager.patientRecords) - {placed.value} else old(manager.patientRecords)
      ensures forall e :: e in manager.waitlist ==> e in old(manager.waitlist)
      ensures placed.Some? ==>
                exists k :: FirstBest(pool, k, Some(slot.startTime), doctorId, slot.startTime) && pool[k].patientId == placed.value
      ensures placed.None? ==> forall e :: e in manager.waitlist ==> !Suits(e, doctorId, slot.startTime)
    {
      var best;
      best, pool := PickFor(slot, doctorId, now);
      if best.None? {
        return None, pool;
      }
      ghost var k :| FirstBest(pool, k, Some(slot.startTime), doctorId, slot.startTime) && pool[k] == best.value;
      placed := BookFromWaitlist(slot, best.value);
      Members(manager.waitlist, pool);
    }

    /** The pick half of `FillSlot`: `find_optimal_patient_for_slot` on the slot's start, for its doctor and date. */
    method PickFor(slot: DoctorSlot, doctorId: string, now: int) returns (best: Option<WaitlistEntry>, ghost pool: seq<WaitlistEntry>)
      requires Valid()
      modifies manager, manager.waitlist
      ensures Valid() && pool == manager.waitlist && manager.patientRecords == old(manager.patientRecords)
      ensures forall e :: e in pool ==> e in old(manager.waitlist)
      ensures best.None? ==> forall e :: e in pool ==> !Suits(e, doctorId, slot.startTime)
      ensures best.Some? ==>
                && best.value in pool
                && exists k :: FirstBest(pool, k, Some(slot.startTime), doctorId, slot.startTime) && pool[k] == best.value
    {
      ghost var entries := manager.waitlist;
      best := manager.FindOptimalPatientForSlot(Some(slot.startTime), doctorId, slot.startTime, now);
      pool := manager.waitlist;
      Members(pool, entries);
    }

    /**
     * The booking half of `FillSlot`: the waitlisted entry `e` is booked into
     * the open `slot` with the default buffer, which cannot fail, and then
     * taken off the waitlist.
     */
    method BookFromWaitlist(slot: DoctorSlot, e: WaitlistEntry) returns (placed: Option<string>)
      requires Valid() && slot in optimizer.Listed() && slot.IsAvailable() && e in manager.waitlist
      modifies optimizer, slot, manager
      ensures Valid()
      ensures placed == Some(e.patientId) && e.patientId in old(manager.patientRecords)
      ensures old(manager.patientRecords)[e.patientId] == e
      ensures optimizer.doctorSlots == old(optimizer.doctorSlots) && optimizer.doctorOrder == old(optimizer.doctorOrder)
      ensures optimizer.slotPosition == old(optimizer.slotPosition)
      ensures View(slot) == Booked(old(View(slot)), e.patientId)
      ensures optimizer.slotAssignments == old(optimizer.slotAssignments)[e.patientId := slot]
      ensures manager.patientRecords == old(manager.patientRecords) - {e.patientId}
      ensures multiset(manager.waitlist) <= multiset(old(manager.waitlist))
    {
      EntryRecorded(manager.waitlist, manager.patientRecords, e);
      var id := e.patientId;
      var ok := optimizer.ScheduleAppointment(id, slot, 0);
      StillValid(manager);
      if ok {
        var _ := manager.RemovePatient(id);
      }
      placed := Some(id);
    }

    /**
     * `update_configuration`: each given value replaces the value of a key
     * the configuration already has; other keys are ignored.  It always
     * reports success.
     */
    method UpdateConfiguration(updates: map<string, ConfigValue>) returns (ok: bool)
      requires Valid()
      modifies this
      ensures Valid()
      ensures ok && config == Overlay(old(config), updates)
    {
      var pending := updates.Keys;
      while pending != {}
        invariant pending <= updates.Keys && config.Keys == old(config).Keys
        invariant forall k :: k in config ==> config[k] == (if k in updates && k !in pending then updates[k] else old(config)[k])
        decreases |pending|
      {
        var k :| k in pending;
        if k in config {
          config := config[k := updates[k]];
        }
        pending := pending - {k};
      }
      ok := true;
    }

    /**
     * `get_patient_recommendations`: a booked patient is reported as
     * confirmed, before a waitlisted one, before one the scheduler does not know.
     */
    function GetPatientRecommendations(patientId: string): (r: Recommendation)
      reads optimizer, manager, optimizer.slotAssignments.Values, manager.patientRecords.Values
      ensures r.Confirmed? <==> patientId in optimizer.slotAssignments
      ensures r.OnWaitlist? <==> patientId !in optimizer.slotAssignments && patientId in manager.patientRecords
      ensures r.NotFound? <==> patientId !in optimizer.slotAssignments && patientId !in manager.patientRecords
      ensures r.Confirmed? ==> var s := optimizer.slotAssignments[patientId];
                               r.appointmentTime == s.startTime && r.doctorId == s.doctorId
      ensures r.OnWaitlist? ==> r.priorityScore == manager.patientRecords[patientId].priorityScore
                                && r.estimatedWaitTime == EstimateWaitTime(r.priorityScore)
      ensures |r.advice| == 3
    {
      if patientId in optimizer.slotAssignments then
        var s := optimizer.slotAssignments[patientId];
        Confirmed(s.startTime, s.doctorId,
                  ["Arrive 15 minutes early", "Bring photo ID and insurance card", "Complete pre-appointment forms online"])
      else if patientId in manager.patientRecords then
        var e := manager.patientRecords[patientId];
        OnWaitlist(e.priorityScore, EstimateWaitTime(e.priorityScore),
                   ["Respond promptly to contact attempts", "Consider alternative appointment times",
                    "Update contact information if needed"])
      else
        NotFound(["Contact hospital to schedule appointment", "Provide complete medical history",
                  "Specify preferred appointment times"])
    }
  }
}
