# Hospital appointment scheduler: allocation and decision core

A Dafny model of the core of a hospital appointment scheduler. The
scheduler takes a patient's predicted probability of not showing up and
decides whether to book, buffer, reschedule or queue the appointment. The
model covers six parts:

- **Risk assessor** (module `RiskAssessment`). It maps the no-show
  probability to a low, medium or high tier and picks a per-tier
  scheduling strategy. It also lists interventions, computes the waitlist
  priority (1..10) and builds the risk summary.
- **Slot optimizer** (module `Slots`). A `DoctorSlot` class holds capacity,
  bookings and buffer time. A `SlotOptimizer` class generates weekday
  slot grids per doctor and scores and picks the best open slot. It also
  books, cancels and reschedules, reports availability and statistics, and
  runs the adjacent-slot merge pass.
- **Waitlist manager** (modules `WaitlistEntries`, `Heapq`, `Waitlist`). A
  `WaitlistEntry` class recomputes its priority score. A `WaitlistManager`
  class keeps a binary max-heap of entries (CPython's `heapq` algorithms
  over the entries' `__lt__`), a record per patient and a contact
  schedule. It adds, removes, re-prioritises, lists top patients, matches
  a patient to a slot and reschedules contact.
- **Scheduler** (modules `Scheduler`, `WaitlistFill`). An
  `AppointmentScheduler` class composes the three parts above. It covers
  the availability check, the action dispatcher, the whole
  `schedule_appointment` flow, adding to the waitlist and the wait-time
  estimate. It also covers the waitlist auto-fill pass over every
  doctor's slots, the configuration update and the per-patient
  recommendations.
- **Console decision** (module `ConsoleBooking`). This is the console
  booking tool's `make_ai_decision`.
- **98-feature record** (module `PatientFeatures`). This is the sample
  input record for the prediction model: 17 basic features and 81
  one-hot neighbourhood flags, plus `set_neighbourhood`.

Representation choices:

- **Time** is an integer count of minutes from a Monday midnight (module
  `Clock`). Dates, hours and weekdays derive from it. The current time
  (`datetime.now()`) is a parameter `now`.
- **Probabilities and slot scores** are `real`. The priority formulas are
  computed in exact integer tenths, and Python's `int()` is truncation
  toward zero (`RiskAssessment.TruncTenths`). Slot scores are exact, so
  the floating-point rounding of `buffer_time * 0.05` and `* 0.1` is not
  modelled. That rounding could only change which of two tied slots
  `FindOptimalSlot` picks at medium or high risk. The scheduler always
  scores slots at low risk, where every term is exact in binary floating
  point.
- **Prediction model calls** are inputs. The model is an `Oracle` that
  either returns a value or raises an exception with a message.
- **Objects the Python code updates in place** are Dafny classes:
  `DoctorSlot`, `SlotOptimizer`, `WaitlistEntry`, `WaitlistManager` and
  `AppointmentScheduler`. Their lists and dictionaries are `seq` and `map`
  fields, and their loops are `while` loops with invariants.

The scheduler (`Hospital_Ai_schedulers/ai_agent.py`) imports a
`slot_optimizer` module. The model follows
`Hospital_AI_System_Production/ai_agent_core/slot_optimizer.py`.

Where the code and its design notes disagree, the model follows the code.
The risk assessor's medium- and high-risk strategies emit
`confirm_with_extended_buffer`, `reschedule_optimal` and
`waitlist_high_priority`. The dispatcher in `_execute_scheduling_decision`
recognises none of these. As a result:

- these appointments end as "Unknown action" failures
  (`Scheduler.UnknownStrategyActions`, `Scheduler.StrategyDispatch`);
- the dispatcher's "waitlist" branch, and with it `_add_to_waitlist`, is
  never reached from `schedule_appointment`.

The model keeps both facts as stated behaviour rather than repairing them.

## Model

| member | source | states |
|---|---|---|
| Clock.Hour | Hospital_AI_System_Production/ai_agent_core/slot_optimizer.py:196-203 | the hour of day used for time-of-day matching lies in 0..23 |
| Clock.Weekday | Hospital_AI_System_Production/ai_agent_core/slot_optimizer.py:106-107 | the weekday used to skip weekends lies in 0..6 (0 is Monday) |
| Clock.Midnight | Hospital_AI_System_Production/ai_agent_core/slot_optimizer.py:104-119 | the day's midnight lies at most one day before the time and on the same date |
| Clock.AtHour | Hospital_AI_System_Production/ai_agent_core/slot_optimizer.py:108-119 | replacing the hour keeps the date and yields exactly the requested hour |
| Clock.DateProximity | Hospital_AI_System_Production/ai_agent_core/slot_optimizer.py:190-193 | the date bonus lies in 0..10; it is 0 without a preferred date, 10 exactly on the same date, and 0 exactly at 10 or more days apart |
| RiskAssessment.AssessRisk | Hospital_Ai_schedulers/risk_assessor.py:51-68 | low exactly when p <= low threshold, medium exactly when low < p <= medium threshold, high exactly when p exceeds both; boundaries go to the lower tier |
| RiskAssessment.AssessRiskIgnoresHighThreshold | Hospital_Ai_schedulers/risk_assessor.py:32-68 | the configured high threshold never influences the tier |
| RiskAssessment.AssessRiskMonotone | Hospital_Ai_schedulers/risk_assessor.py:51-68 | with ordered thresholds a higher probability never gets a lower tier |
| RiskAssessment.GetSchedulingStrategy | Hospital_Ai_schedulers/risk_assessor.py:70-165 | the tier name is carried; confirmation is required exactly above low risk; buffer is 15 minutes per tier step when the slot is open (available with capacity > 0) and 0 otherwise; waitlist priority is 2 per tier step plus 1 for a closed slot; the action is a confirm action exactly when the slot is open |
| RiskAssessment.LowRiskStrategy | Hospital_Ai_schedulers/risk_assessor.py:104-123 | low risk confirms an open slot with no buffer and no confirmation, and reschedules otherwise with priority 1 |
| RiskAssessment.MediumRiskStrategy | Hospital_Ai_schedulers/risk_assessor.py:125-144 | medium risk confirms with a 15-minute buffer when open, otherwise reschedules optimally with priority 3; always requires confirmation |
| RiskAssessment.HighRiskStrategy | Hospital_Ai_schedulers/risk_assessor.py:146-165 | high risk confirms with a 30-minute buffer when open, otherwise goes to the high-priority waitlist with priority 5; always requires confirmation |
| RiskAssessment.StrategyActions | Hospital_Ai_schedulers/risk_assessor.py:70-165 | the action of each tier for an open and for a closed slot |
| RiskAssessment.StrategyInterventionsIgnoreSlot | Hospital_Ai_schedulers/risk_assessor.py:104-165 | interventions and the confirmation flag depend on the tier only, never on the slot |
| RiskAssessment.GetInterventionRecommendations | Hospital_Ai_schedulers/risk_assessor.py:167-199 | 3 interventions for low, 4 for medium, 6 for high risk |
| RiskAssessment.TruncTenths | Hospital_Ai_schedulers/risk_assessor.py:232 | Python's int() on tenths: the quotient truncated toward zero, for both signs |
| RiskAssessment.Clamp | Hospital_Ai_schedulers/risk_assessor.py:234 | the result lies in the range and equals the input inside it, the nearer bound outside it |
| RiskAssessment.RiskBase | Hospital_Ai_schedulers/risk_assessor.py:216-224 | the base priority is 1, 3 or 5 for low, medium and high risk |
| RiskAssessment.CalculateWaitlistPriority | Hospital_Ai_schedulers/risk_assessor.py:201-234 | the waitlist priority always lies in 1..10 |
| RiskAssessment.TruncTenthsMonotone | Hospital_Ai_schedulers/risk_assessor.py:232 | truncation preserves order |
| RiskAssessment.ClampMonotone | Hospital_Ai_schedulers/risk_assessor.py:234 | clamping preserves order |
| RiskAssessment.WaitlistPriorityMonotoneInUrgency | Hospital_Ai_schedulers/risk_assessor.py:201-234 | more urgency never lowers the waitlist priority |
| RiskAssessment.WaitlistPriorityWaitingTime | Hospital_Ai_schedulers/risk_assessor.py:201-234 | waiting longer never lowers the priority, and the waiting bonus stops growing at 7 days |
| RiskAssessment.WaitlistPriorityMonotoneInRisk | Hospital_Ai_schedulers/risk_assessor.py:201-234 | with ordered thresholds and non-negative urgency a higher probability never lowers the priority |
| RiskAssessment.WaitlistPriorityIsFloor | Hospital_Ai_schedulers/risk_assessor.py:201-234 | for non-negative inputs the priority is the clamped floor of the tenths sum |
| RiskAssessment.GetRiskSummary | Hospital_Ai_schedulers/risk_assessor.py:236-283 | the summary carries the probability, the tier's name, its interventions, description, recommendation and monitoring frequency |
| RiskAssessment.LowRiskFreeSlotScenario | Hospital_Ai_schedulers/risk_assessor.py:51-123 | a 0.2 probability is low risk and is confirmed with no buffer in a free slot |
| RiskAssessment.MediumRiskNoSlotScenario | Hospital_Ai_schedulers/risk_assessor.py:51-144 | a 0.5 probability is medium risk; with no slot it is rescheduled optimally with priority 3 |
| RiskAssessment.HighRiskNoSlotScenario | Hospital_Ai_schedulers/risk_assessor.py:51-165 | a 0.9 probability is high risk; with no slot it goes to the high-priority waitlist with no buffer |
| RiskAssessment.BoundariesGoToLowerTier | Hospital_Ai_schedulers/risk_assessor.py:51-68 | a probability equal to a threshold falls in the lower tier |
| Slots.RemoveFirst | Hospital_AI_System_Production/ai_agent_core/slot_optimizer.py:44-50 | list.remove: an absent element changes nothing, a present one loses exactly one occurrence |
| Slots.DoctorSlot.constructor | Hospital_AI_System_Production/ai_agent_core/slot_optimizer.py:17-33 | a new slot is empty, has no buffer and keeps the given times, capacity and type |
| Slots.DoctorSlot.IsAvailable | Hospital_AI_System_Production/ai_agent_core/slot_optimizer.py:52-58 | a slot is available exactly when it has remaining capacity |
| Slots.DoctorSlot.AddPatient | Hospital_AI_System_Production/ai_agent_core/slot_optimizer.py:35-42 | adds exactly when available: appends the patient, counts one more booking and raises the buffer to the larger value; otherwise nothing changes; validity and the capacity bound are kept |
| Slots.DoctorSlot.RemovePatient | Hospital_AI_System_Production/ai_agent_core/slot_optimizer.py:44-50 | removes exactly when the patient is listed: drops the first occurrence and counts one booking fewer; otherwise nothing changes |
| Slots.TilesCount | Hospital_AI_System_Production/ai_agent_core/slot_optimizer.py:121-132 | a day's interval is cut into the fewest slots of the duration that cover it |
| Slots.TilesContiguous | Hospital_AI_System_Production/ai_agent_core/slot_optimizer.py:121-132 | the slots start at the day start, each lasts the duration, starts before the day end and ends where the next begins |
| Slots.DayTilesCount | Hospital_AI_System_Production/ai_agent_core/slot_optimizer.py:107-132 | a weekday with end hour after start hour gets the covering number of slots, otherwise none |
| Slots.WeekendOnlyRangeIsEmpty | Hospital_AI_System_Production/ai_agent_core/slot_optimizer.py:104-134 | a date range inside one weekend produces no slots |
| Slots.TimeOfDayBonus | Hospital_AI_System_Production/ai_agent_core/slot_optimizer.py:195-203 | 5 points exactly when a preferred time band is given and the slot's hour lies in it, else 0 |
| Slots.BufferBonus | Hospital_AI_System_Production/ai_agent_core/slot_optimizer.py:205-211 | no bonus for low risk, buffer/20 for medium, buffer/10 for high risk |
| Slots.ScoreShifts | Hospital_AI_System_Production/ai_agent_core/slot_optimizer.py:181-219 | each urgency point adds 2 to the score, each free place 0.5 |
| Slots.ScoreWithoutPreferences | Hospital_AI_System_Production/ai_agent_core/slot_optimizer.py:181-219 | with no preferences and low risk the score is 2 per urgency point plus 0.5 per free place |
| Slots.ScoreBounds | Hospital_AI_System_Production/ai_agent_core/slot_optimizer.py:181-219 | the date and time bonuses add between 0 and 15 to the buffer, urgency and capacity terms |
| Slots.Views | Hospital_AI_System_Production/ai_agent_core/slot_optimizer.py:326-353 | the value view of each slot of a list, position by position |
| Slots.MergePass | Hospital_AI_System_Production/ai_agent_core/slot_optimizer.py:340-350 | slot k absorbs slot k+1 exactly when the source's test holds for their values before the pass; every test reads slots the pass has not yet changed, so merges do not cascade |
| Slots.MergeCountBound | Hospital_AI_System_Production/ai_agent_core/slot_optimizer.py:340-350 | a list of n slots counts at most n-1 merges |
| Slots.MergePassKeeps | Hospital_AI_System_Production/ai_agent_core/slot_optimizer.py:340-350 | merging keeps each slot's start, bookings and buffer, only extends its end, and a merged slot's capacity is at most 3 |
| Slots.AbsorbCanBreakCapacity | Hospital_AI_System_Production/ai_agent_core/slot_optimizer.py:345-349 | a merge leaves more bookings than capacity exactly when the earlier slot had more than 3 bookings |
| Slots.MergePassCounterexample | Hospital_AI_System_Production/ai_agent_core/slot_optimizer.py:340-350 | a 4-booking slot followed by an empty adjacent slot ends with capacity 3 and 4 bookings |
| Slots.AvailableInMembers | Hospital_AI_System_Production/ai_agent_core/slot_optimizer.py:162-172 | the candidates are exactly the available slots of the scanned list |
| Slots.AvailableOn | Hospital_AI_System_Production/ai_agent_core/slot_optimizer.py:284-298 | the availability list holds exactly the available slots on the given date |
| Slots.Statistics | Hospital_AI_System_Production/ai_agent_core/slot_optimizer.py:300-324 | counts every slot, and available capacity is total minus used capacity |
| Slots.StatisticsBounds | Hospital_AI_System_Production/ai_agent_core/slot_optimizer.py:300-324 | occupied slots are between 0 and the total and at most the used capacity; available capacity is non-negative while no slot is over capacity |
| Slots.PickBest | Hospital_AI_System_Production/ai_agent_core/slot_optimizer.py:174-179 | returns the first candidate of maximal score, which is what a stable descending sort puts first |
| Slots.ScanAvailable | Hospital_AI_System_Production/ai_agent_core/slot_optimizer.py:160-172 | the loop collects the available slots of the considered doctors in doctor order |
| Slots.ScanStatistics | Hospital_AI_System_Production/ai_agent_core/slot_optimizer.py:300-324 | the loop's totals equal the statistics of all slots in doctor order |
| Slots.StatisticsConcat | Hospital_AI_System_Production/ai_agent_core/slot_optimizer.py:300-324 | statistics of two lists add up |
| Slots.AvailableInConcat | Hospital_AI_System_Production/ai_agent_core/slot_optimizer.py:162-172 | collecting available slots distributes over concatenation |
| Slots.CollectAvailable | Hospital_AI_System_Production/ai_agent_core/slot_optimizer.py:167-172 | the inner loop collects the available slots of one doctor in order |
| Slots.TallySlots | Hospital_AI_System_Production/ai_agent_core/slot_optimizer.py:308-313 | the inner loop's totals equal the statistics of one doctor's slots |
| Slots.MergeStart | Hospital_AI_System_Production/ai_agent_core/slot_optimizer.py:333-339 | before the merge loop nothing is merged and the count is 0 |
| Slots.MergedAll | Hospital_AI_System_Production/ai_agent_core/slot_optimizer.py:340-350 | after the merge loop the slots hold the merge pass of their old values and the count is the pass's merge count |
| Slots.MergeSlots | Hospital_AI_System_Production/ai_agent_core/slot_optimizer.py:340-350 | merging one doctor's slots in place leaves their values equal to the merge pass and returns its merge count |
| Slots.MergeTest | Hospital_AI_System_Production/ai_agent_core/slot_optimizer.py:341-350 | one merge step keeps the loop invariant |
| Slots.MergePassAll | Hospital_AI_System_Production/ai_agent_core/slot_optimizer.py:326-353 | every doctor's list is merged independently and no doctor is added or lost |
| Slots.ScanOrderStep | Hospital_AI_System_Production/ai_agent_core/slot_optimizer.py:163-172 | scanning one more doctor appends that doctor's slots when considered |
| Slots.MergeTotalStep | Hospital_AI_System_Production/ai_agent_core/slot_optimizer.py:340-350 | the total merge count grows by each doctor's count |
| Slots.AvailableInStep | Hospital_AI_System_Production/ai_agent_core/slot_optimizer.py:167-172 | one more slot is appended to the candidates exactly when available |
| Slots.AvailableOnStep | Hospital_AI_System_Production/ai_agent_core/slot_optimizer.py:284-298 | one more slot is appended to the day's availability exactly when available on that date |
| Slots.StatisticsStep | Hospital_AI_System_Production/ai_agent_core/slot_optimizer.py:308-313 | one more slot adds one slot, its capacities and one occupied slot when booked |
| Slots.NewSlotAt | Hospital_AI_System_Production/ai_agent_core/slot_optimizer.py:121-132 | each generated slot belongs to the doctor and takes its time pair and capacity |
| Slots.NewSlotsExtend | Hospital_AI_System_Production/ai_agent_core/slot_optimizer.py:121-132 | appending a new slot extends the generated list |
| Slots.NewSlotsConcat | Hospital_AI_System_Production/ai_agent_core/slot_optimizer.py:104-134 | generated lists of consecutive days concatenate |
| Slots.ScheduleSplit | Hospital_AI_System_Production/ai_agent_core/slot_optimizer.py:104-134 | the first n days' slots followed by the rest of the range are the slots of the whole range |
| Slots.ScheduleTimesStep | Hospital_AI_System_Production/ai_agent_core/slot_optimizer.py:104-134 | a date range's slots are the first day's slots followed by the rest of the range |
| Slots.IndexedNewDoctor | Hospital_AI_System_Production/ai_agent_core/slot_optimizer.py:101-102 | registering a new doctor with no slots keeps the slot index consistent |
| Slots.IndexedAppend | Hospital_AI_System_Production/ai_agent_core/slot_optimizer.py:125-131 | appending a fresh slot at the end of a doctor's list keeps the index consistent |
| Slots.IndexedDistinct | Hospital_AI_System_Production/ai_agent_core/slot_optimizer.py:75-137 | a doctor's slots are pairwise distinct objects |
| Slots.IndexedDisjoint | Hospital_AI_System_Production/ai_agent_core/slot_optimizer.py:75-137 | two doctors never share a slot object |
| Slots.SlotOptimizer.constructor | Hospital_AI_System_Production/ai_agent_core/slot_optimizer.py:75-81 | a new optimizer has no doctors, slots or bookings |
| Slots.SlotOptimizer.AddDoctorSchedule | Hospital_AI_System_Production/ai_agent_core/slot_optimizer.py:83-137 | a new doctor is registered last; the doctor's list grows by newly allocated slots, one per weekday tile of the date range with the given capacity; bookings are unchanged |
| Slots.SlotOptimizer.AddDays | Hospital_AI_System_Production/ai_agent_core/slot_optimizer.py:104-134 | the day loop appends exactly the range's weekday tiles, as newly allocated slots |
| Slots.SlotOptimizer.WalkDays | Hospital_AI_System_Production/ai_agent_core/slot_optimizer.py:104-134 | the day loop walks every day up to the first one past the end date, keeping its invariant, and the slots it makes are newly allocated |
| Slots.SlotOptimizer.NoDaysWalked | Hospital_AI_System_Production/ai_agent_core/slot_optimizer.py:101-104 | the day loop's invariant holds before the first day |
| Slots.SlotOptimizer.AllDaysWalked | Hospital_AI_System_Production/ai_agent_core/slot_optimizer.py:104-137 | after the last day the doctor's list holds all the range's slots |
| Slots.SlotOptimizer.AddNextDay | Hospital_AI_System_Production/ai_agent_core/slot_optimizer.py:105-134 | one day's step keeps the day loop's invariant |
| Slots.SlotOptimizer.AddDay | Hospital_AI_System_Production/ai_agent_core/slot_optimizer.py:107-132 | a weekend day adds nothing; a weekday adds that day's tiles |
| Slots.SlotOptimizer.AddDaySlots | Hospital_AI_System_Production/ai_agent_core/slot_optimizer.py:121-132 | the slot loop appends one newly allocated slot per tile of the day |
| Slots.SlotOptimizer.AddSlot | Hospital_AI_System_Production/ai_agent_core/slot_optimizer.py:124-131 | appends one fresh empty slot with the given times and capacity to the doctor's list |
| Slots.SlotOptimizer.OptimizeSchedule | Hospital_AI_System_Production/ai_agent_core/slot_optimizer.py:326-353 | every doctor's slots end equal to the merge pass of their old values; the result counts all merges and reports 0 for the other two counters |
| Slots.SlotOptimizer.NoneMerged | Hospital_AI_System_Production/ai_agent_core/slot_optimizer.py:333-339 | the doctor loop's invariant holds before the first doctor |
| Slots.SlotOptimizer.AllMerged | Hospital_AI_System_Production/ai_agent_core/slot_optimizer.py:340-353 | after the last doctor all lists are merged and the count is the total |
| Slots.SlotOptimizer.MergeDoctor | Hospital_AI_System_Production/ai_agent_core/slot_optimizer.py:340-350 | merging one doctor keeps the doctor loop's invariant and returns that doctor's merge count |
| Slots.SlotOptimizer.ScheduleAppointment | Hospital_AI_System_Production/ai_agent_core/slot_optimizer.py:221-241 | books exactly when the slot is available: appends the patient, counts the booking, raises the buffer and records the assignment, overwriting an earlier one; otherwise nothing changes; every doctor's slot views are the old ones with only that slot's view admitting the patient (`Rebooked`), or all unchanged |
| Slots.RebookList | Hospital_AI_System_Production/ai_agent_core/slot_optimizer.py:35-42 | a doctor's slot views after one booking: same length, the booked slot's positions admit the patient with the raised buffer, every other position is unchanged |
| Slots.RebookedFrom | Hospital_AI_System_Production/ai_agent_core/slot_optimizer.py:221-241 | views that agree position by position with one booking into the slot are exactly `Rebooked` of the old views, or the old views when nothing was booked |
| Slots.SlotOptimizer.CancelAppointment | Hospital_AI_System_Production/ai_agent_core/slot_optimizer.py:266-282 | succeeds exactly for a booked patient: the booking is dropped and the patient's first occurrence is removed from the slot; otherwise nothing changes |
| Slots.SlotOptimizer.RescheduleAppointment | Hospital_AI_System_Production/ai_agent_core/slot_optimizer.py:243-264 | the old booking is always released first; the new slot takes the patient exactly when it then has room, and the assignment moves only on success |
| Slots.SlotOptimizer.GetDoctorAvailability | Hospital_AI_System_Production/ai_agent_core/slot_optimizer.py:284-298 | an unknown doctor has none; otherwise exactly the doctor's available slots on that date, in order |
| Slots.SlotOptimizer.FindOptimalSlot | Hospital_AI_System_Production/ai_agent_core/slot_optimizer.py:139-179 | none exactly when no considered doctor has an available slot; otherwise the first available slot of maximal score |
| Slots.SlotOptimizer.GetSlotStatistics | Hospital_AI_System_Production/ai_agent_core/slot_optimizer.py:300-324 | the statistics of all slots of all doctors |
| WaitlistEntries.RiskBonus | Hospital_Ai_schedulers/waitlist_manager.py:63-69 | the entry's risk bonus is 0, 1 or 2 by tier |
| WaitlistEntries.EntryPriority | Hospital_Ai_schedulers/waitlist_manager.py:43-72 | an entry's priority always lies in 1..10 |
| WaitlistEntries.EntryPriorityIsFloorPlusBonus | Hospital_Ai_schedulers/waitlist_manager.py:43-72 | the entry's priority is the assessor's tenths sum truncated, plus the risk bonus, clamped |
| WaitlistEntries.EntryPriorityAtLeastAssessor | Hospital_Ai_schedulers/waitlist_manager.py:43-72 | the entry's priority is never below the assessor's and equals it for low risk |
| WaitlistEntries.EntryPriorityDiffersFromAssessor | Hospital_Ai_schedulers/waitlist_manager.py:43-72 | for probability 0.9, urgency 1 and no wait the entry computes 3 while the assessor computes 1 |
| WaitlistEntries.EntryPriorityWaiting | Hospital_Ai_schedulers/waitlist_manager.py:43-72 | waiting longer never lowers the entry's priority, and it stops rising at 7 days |
| WaitlistEntries.EntryPriorityUrgency | Hospital_Ai_schedulers/waitlist_manager.py:43-72 | more urgency never lowers the entry's priority |
| WaitlistEntries.EntryPriorityRisk | Hospital_Ai_schedulers/waitlist_manager.py:43-72 | a higher probability never lowers the entry's priority |
| WaitlistEntries.WaitlistEntry.constructor | Hospital_Ai_schedulers/waitlist_manager.py:20-41 | a new entry keeps its inputs, has waited 0 days, has no contact yet and a current priority score |
| WaitlistEntries.WaitlistEntry.CalculatePriorityScore | Hospital_Ai_schedulers/waitlist_manager.py:43-72 | recomputes the stored score from the current fields and changes nothing else |
| WaitlistEntries.WaitlistEntry.UpdateWaitingTime | Hospital_Ai_schedulers/waitlist_manager.py:74-77 | the waiting days become the days since entry and the score is recomputed |
| WaitlistEntries.WaitlistEntry.RecordContactAttempt | Hospital_Ai_schedulers/waitlist_manager.py:79-82 | the contact time becomes now and the attempt count grows by one; the score is kept |
| WaitlistEntries.BeforeIsStrict | Hospital_Ai_schedulers/waitlist_manager.py:84-86 | the heap order (higher score first) is irreflexive, transitive and asymmetric |
| WaitlistEntries.HourBonus | Hospital_Ai_schedulers/waitlist_manager.py:265-276 | 3 points exactly when the slot starts between 9:00 and 20:59, else 0 |
| WaitlistEntries.RiskMatchBonus | Hospital_Ai_schedulers/waitlist_manager.py:278-284 | 5, 3 or 0 points for high, medium or low risk |
| WaitlistEntries.MatchScoreBounds | Hospital_Ai_schedulers/waitlist_manager.py:250-286 | for priority 1..10 the match score lies between twice the priority and that plus 18 |
| WaitlistEntries.MatchScorePriority | Hospital_Ai_schedulers/waitlist_manager.py:250-286 | each priority point adds exactly 2 to the match score |
| WaitlistEntries.MatchScoreRisk | Hospital_Ai_schedulers/waitlist_manager.py:250-286 | a higher probability never lowers the match score |
| WaitlistEntries.SuitableCloseness | Hospital_Ai_schedulers/waitlist_manager.py:228-241 | a suitable entry with a preferred date is at most a week off, so its date bonus is at least 3 |
| Heapq.DescendsFromRoot | Hospital_Ai_schedulers/waitlist_manager.py:154 | every heap position descends from the root |
| Heapq.OrderedFromAll | Hospital_Ai_schedulers/waitlist_manager.py:154 | the partial heap order from the root with no hole is the heap property |
| Heapq.HeapRootIsMax | Hospital_Ai_schedulers/waitlist_manager.py:188-202 | the first entry of a heap has the highest score |
| Heapq.HeapPrefixNotSorted | Hospital_Ai_schedulers/waitlist_manager.py:200-202 | a valid heap whose second entry scores below its third: a heap prefix need not be sorted |
| Heapq.SiftDownStep | Hospital_Ai_schedulers/waitlist_manager.py:154 | moving a lower parent down keeps the sift-toward-root invariant |
| Heapq.SwappedOrder | Hospital_Ai_schedulers/waitlist_manager.py:154 | swapping an out-of-order child with its parent moves the hole up one level |
| Heapq.SiftDown | Hospital_Ai_schedulers/waitlist_manager.py:154 | heapq's _siftdown restores the order from the start position and keeps the contents |
| Heapq.SiftDownDone | Hospital_Ai_schedulers/waitlist_manager.py:154 | placing the new item where the walk stops restores the order and the contents |
| Heapq.DescendStep | Hospital_Ai_schedulers/waitlist_manager.py:180 | moving the larger child up keeps the leaf-ward walk's invariant |
| Heapq.DescendOrder | Hospital_Ai_schedulers/waitlist_manager.py:180 | moving the larger child up keeps the order around the hole |
| Heapq.SiftUp | Hospital_Ai_schedulers/waitlist_manager.py:180 | heapq's _siftup orders the subtree at a position and keeps the contents |
| Heapq.AtLeaf | Hospital_Ai_schedulers/waitlist_manager.py:180 | at a leaf the moved item fills the hole with the order kept up to it |
| Heapq.HeapPush | Hospital_Ai_schedulers/waitlist_manager.py:154 | heappush keeps the heap property and adds exactly the new entry |
| Heapq.Heapify | Hospital_Ai_schedulers/waitlist_manager.py:180 | heapify yields a heap with exactly the same entries |
| Heapq.Without | Hospital_Ai_schedulers/waitlist_manager.py:177-180 | the filtered list keeps only entries of other patients |
| Heapq.WithoutOne | Hospital_Ai_schedulers/waitlist_manager.py:177-180 | when one entry holds the patient's id, filtering removes exactly its occurrences |
| Waitlist.TrackedAdd | Hospital_Ai_schedulers/waitlist_manager.py:141-156 | appending a new patient's entry keeps heap and records in step |
| Waitlist.TrackedRemove | Hospital_Ai_schedulers/waitlist_manager.py:175-182 | filtering a patient out keeps heap and records in step and drops exactly that entry |
| Waitlist.RefreshAll | Hospital_Ai_schedulers/waitlist_manager.py:382-388 | every entry's waiting time and score are brought up to date |
| Waitlist.PickPatient | Hospital_Ai_schedulers/waitlist_manager.py:204-248 | none exactly when no entry suits the doctor and date; otherwise the first suitable entry of maximal match score |
| Waitlist.Due | Hospital_Ai_schedulers/waitlist_manager.py:324-338 | the due contacts are the scheduled ones whose time has come, with their times |
| Waitlist.ScheduledDue | Hospital_Ai_schedulers/waitlist_manager.py:324-338 | a rescheduled patient is due exactly when the new time has come; other patients are unaffected |
| Waitlist.DueGrows | Hospital_Ai_schedulers/waitlist_manager.py:324-338 | a later time never has fewer due contacts |
| Waitlist.ContactDelay | Hospital_Ai_schedulers/waitlist_manager.py:357-372 | the delay lies in 1..7 days and is 1 day after a failed contact |
| Waitlist.ContactDelayRisk | Hospital_Ai_schedulers/waitlist_manager.py:357-372 | after success a higher probability never waits longer, a failure never waits longer than a success, and 7 days is exactly the low-risk delay |
| Waitlist.AddConsistent | Hospital_Ai_schedulers/waitlist_manager.py:141-158 | adding a new patient's entry to the heap, records and contacts keeps the manager consistent |
| Waitlist.RemoveConsistent | Hospital_Ai_schedulers/waitlist_manager.py:175-184 | removing a patient from all three keeps the manager consistent and drops exactly the patient's entry |
| Waitlist.RebuiltConsistent | Hospital_Ai_schedulers/waitlist_manager.py:319 | re-heapifying the same entries keeps the manager consistent |
| Waitlist.SliceEnd | Hospital_Ai_schedulers/waitlist_manager.py:202 | Python's slice end for [:count], negative counts included |
| Waitlist.EntryRecorded | Hospital_Ai_schedulers/waitlist_manager.py:97-114 | every heap entry is the record of its own patient |
| Waitlist.WaitlistManager.constructor | Hospital_Ai_schedulers/waitlist_manager.py:108-114 | a new manager has an empty heap, no records and no contacts |
| Waitlist.WaitlistManager.ScheduleContact | Hospital_Ai_schedulers/waitlist_manager.py:377-380 | the patient's next contact is now plus the delay in days; nothing else changes |
| Waitlist.WaitlistManager.AddPatient | Hospital_Ai_schedulers/waitlist_manager.py:116-160 | fails and changes nothing exactly when the patient is already listed; otherwise a fresh entry with the given data is pushed, recorded and scheduled for contact in one day |
| Waitlist.WaitlistManager.RemovePatient | Hospital_Ai_schedulers/waitlist_manager.py:162-186 | fails and changes nothing exactly for an unknown patient; otherwise the record, contact and exactly the patient's entry go |
| Waitlist.WaitlistManager.UpdateAllWaitingTimes | Hospital_Ai_schedulers/waitlist_manager.py:382-388 | every entry is refreshed and the heap rebuilt with the same entries |
| Waitlist.WaitlistManager.GetTopPatients | Hospital_Ai_schedulers/waitlist_manager.py:188-202 | after the refresh, the first count entries of the heap (Python slice semantics), the first being the highest scored |
| Waitlist.WaitlistManager.FindOptimalPatientForSlot | Hospital_Ai_schedulers/waitlist_manager.py:204-248 | after the refresh, none exactly when no entry suits; otherwise the first suitable entry of maximal match score |
| Waitlist.WaitlistManager.UpdatePatientPriority | Hospital_Ai_schedulers/waitlist_manager.py:288-322 | fails exactly for an unknown patient; otherwise the given probability and urgency replace the old ones, the score is recomputed and the heap rebuilt |
| Waitlist.WaitlistManager.GetContactSchedule | Hospital_Ai_schedulers/waitlist_manager.py:324-338 | the contacts due now |
| Waitlist.WaitlistManager.RecordContactAttempt | Hospital_Ai_schedulers/waitlist_manager.py:340-375 | fails exactly for an unknown patient; otherwise the attempt is counted at now and the next contact is scheduled by outcome and risk |
| WaitlistFill.IdsMembers | Hospital_Ai_schedulers/ai_agent.py:291-310 | a patient is in the fill log's ids exactly when some log entry names them |
| WaitlistFill.NotBookedInto | Hospital_Ai_schedulers/ai_agent.py:291-310 | a slot the log never names has no fill |
| WaitlistFill.LoggedBookedInto | Hospital_Ai_schedulers/ai_agent.py:291-310 | a slot logged once is filled with the patient logged for it |
| WaitlistFill.AssignEffect | Hospital_Ai_schedulers/ai_agent.py:291-310 | the bookings after the pass map each logged patient to the slot and keep all others |
| WaitlistFill.SlotAt | Hospital_Ai_schedulers/ai_agent.py:291-293 | the slot under the loop indices is listed and still as it was at the start |
| WaitlistFill.Appended | Hospital_Ai_schedulers/ai_agent.py:299-310 | logging one more fill extends the ids, the slot's fill and the bookings by it |
| WaitlistFill.VisitedNext | Hospital_Ai_schedulers/ai_agent.py:291-293 | advancing the inner index visits exactly one more slot |
| WaitlistFill.FillStep | Hospital_Ai_schedulers/ai_agent.py:292-310 | one slot's step keeps the fill pass's invariant |
| WaitlistFill.LoggedBooked | Hospital_Ai_schedulers/ai_agent.py:299-310 | a fill keeps the log distinct and made from open slots and waiting patients who suit the slot's doctor and day |
| WaitlistFill.HoldsBooked | Hospital_Ai_schedulers/ai_agent.py:299-310 | a fill keeps the slot, record and booking state equal to the log's effect |
| WaitlistFill.MaximalBooked | Hospital_Ai_schedulers/ai_agent.py:299-310 | a fill keeps every visited open slot without a suitable patient |
| WaitlistFill.HoldsPassed | Hospital_Ai_schedulers/ai_agent.py:293-299 | a slot passed over leaves the state equal to the log's effect |
| WaitlistFill.MaximalPassed | Hospital_Ai_schedulers/ai_agent.py:293-299 | a slot passed over is full or has no suitable patient |
| WaitlistFill.DoctorFilled | Hospital_Ai_schedulers/ai_agent.py:291-292 | after a doctor's last slot the pass moves to the next doctor |
| WaitlistFill.AllFilled | Hospital_Ai_schedulers/ai_agent.py:291-317 | after the last doctor the invariant speaks of every slot |
| Scheduler.WaitBand | Hospital_Ai_schedulers/ai_agent.py:271-280 | the estimate's position among the four bands |
| Scheduler.EstimateWaitTime | Hospital_Ai_schedulers/ai_agent.py:271-280 | one of the four estimates, the one of the priority's band |
| Scheduler.EstimateWaitTimeMonotone | Hospital_Ai_schedulers/ai_agent.py:271-280 | a higher priority never gets a longer estimate; "1-2 days" exactly from 8, "2-4 weeks" exactly below 4 |
| Scheduler.StrategyNeverShortestWait | Hospital_Ai_schedulers/ai_agent.py:88-96 | no strategy's waitlist priority reaches the "1-2 days" band |
| Scheduler.DispatchBranch | Hospital_Ai_schedulers/ai_agent.py:169-248 | booking branch exactly for confirm, confirm_with_buffer and reschedule, queue branch exactly for waitlist, with the reschedule branch's own missing-slot error |
| Scheduler.StrategyDispatch | Hospital_Ai_schedulers/ai_agent.py:88-96 | the dispatcher books for low risk and for medium risk with an open slot, reports an unknown action otherwise, and never queues |
| Scheduler.StrategyByOpen | Hospital_Ai_schedulers/ai_agent.py:88-91 | the strategy depends on the slot only through whether it is open |
| Scheduler.Decide | Hospital_Ai_schedulers/ai_agent.py:149-250 | the decision carries the strategy, tier, patient and probability; succeeds exactly on a booking that went through or on queueing; carries the branch's error otherwise |
| Scheduler.UnknownStrategyActions | Hospital_Ai_schedulers/ai_agent.py:246-248 | the assessor's three other actions always end as "Unknown action" failures |
| Scheduler.InfoOf | Hospital_Ai_schedulers/ai_agent.py:176-181 | slot details are reported exactly when there is a slot |
| Scheduler.Overlay | Hospital_Ai_schedulers/ai_agent.py:334-345 | updating the configuration never adds a key |
| Scheduler.OverlayEffect | Hospital_Ai_schedulers/ai_agent.py:334-345 | a known key takes the new value, an unknown key is ignored, other keys are kept |
| Scheduler.OverlayIdempotent | Hospital_Ai_schedulers/ai_agent.py:334-345 | updating twice with the same values is updating once, and an empty update changes nothing |
| Scheduler.AppointmentScheduler.constructor | Hospital_Ai_schedulers/ai_agent.py:33-59 | a new scheduler has the given or default thresholds, the default configuration, and an empty optimizer and waitlist |
| Scheduler.AppointmentScheduler.CheckSlotAvailability | Hospital_Ai_schedulers/ai_agent.py:125-147 | available exactly when the preferred doctor has an open slot on the preferred date, then the first one; otherwise the best slot over all considered doctors scored as low risk with urgency 1 |
| Scheduler.AppointmentScheduler.CapacityOf | Hospital_Ai_schedulers/ai_agent.py:88-91 | positive exactly when the checked slot has a place left, 0 without a slot |
| Scheduler.AppointmentScheduler.ExecuteSchedulingDecision | Hospital_Ai_schedulers/ai_agent.py:149-250 | the decision is the dispatcher's for the strategy and slot, and the booking is recorded, the patient appended to the slot, its count raised by one and its buffer raised to the strategy's exactly when it was assigned; otherwise the slot is unchanged; every other slot's view is unchanged (`Rebooked`) |
| Scheduler.AppointmentScheduler.AddToWaitlist | Hospital_Ai_schedulers/ai_agent.py:252-269 | adds exactly when the patient is not waiting yet, with urgency 1 and empty notes by default |
| Scheduler.AppointmentScheduler.ScheduleAppointment | Hospital_Ai_schedulers/ai_agent.py:61-123 | a raising model call gives the error record and changes nothing; otherwise the decision made with the strategy for the probability's tier and the slot check's result and capacity, never queued, succeeding exactly when the patient was booked into the checked slot, with the model's outputs added; the slot views are the old ones with the booking admitted into the checked slot (or unchanged without one), passed through the merge pass when it is switched on |
| Scheduler.AppointmentScheduler.Proceed | Hospital_Ai_schedulers/ai_agent.py:82-114 | after both model calls, the reported decision for the probability's tier and the slot check, booking only the checked slot; the slot views are the old ones with that booking admitted, then merged when the optimize pass is on |
| Scheduler.AppointmentScheduler.MaybeOptimize | Hospital_Ai_schedulers/ai_agent.py:110-112 | when switched on every doctor's slots become the merge pass of their old values; otherwise no slot changes; bookings and lists are kept |
| Scheduler.AppointmentScheduler.ActOnRisk | Hospital_Ai_schedulers/ai_agent.py:82-96 | the slot check's result (the first preferred opening, or the best slot otherwise) and the decision made with the strategy for the tier and that result, booking the patient into exactly that slot or changing no booking; the slot views change only by that booking (`Rebooked`) |
| Scheduler.AppointmentScheduler.Dispatch | Hospital_Ai_schedulers/ai_agent.py:88-108 | the strategy is the tier's for the checked availability and the slot's places left (0 without a slot); the decision books the patient into exactly that slot or changes no booking, and never takes the waitlist branch; on success the slot views are the old ones with the patient admitted into that slot with the strategy's buffer, otherwise all unchanged |
| Scheduler.AppointmentScheduler.ProcessWaitlistFill | Hospital_Ai_schedulers/ai_agent.py:282-317 | disabled: changes nothing; otherwise fills open slots in doctor and slot order, each slot taking at most one patient per pass: a distinct waiting patient who suits the slot's doctor and day; removes exactly the filled patients, books exactly them, reports their count; an open slot that took no patient suits no patient still waiting (a slot that took one may stay open) |
| Scheduler.AppointmentScheduler.NothingFilled | Hospital_Ai_schedulers/ai_agent.py:287-291 | the fill invariant holds before the first doctor |
| Scheduler.AppointmentScheduler.FillDoctor | Hospital_Ai_schedulers/ai_agent.py:291-310 | one doctor's slots keep the fill invariant |
| Scheduler.AppointmentScheduler.FillAt | Hospital_Ai_schedulers/ai_agent.py:292-310 | one slot's step keeps the fill invariant |
| Scheduler.AppointmentScheduler.FillSlot | Hospital_Ai_schedulers/ai_agent.py:293-310 | a full slot is passed over; an open one is filled with the best suitable patient or left with no suitable patient |
| Scheduler.AppointmentScheduler.FillOpenSlot | Hospital_Ai_schedulers/ai_agent.py:295-310 | an open slot gets the first suitable patient of maximal match score, who suits the slot's doctor and day, leaves the waitlist and is booked; with none the slot is unchanged and no patient suits |
| Scheduler.AppointmentScheduler.PickFor | Hospital_Ai_schedulers/ai_agent.py:295-297 | the manager's choice for the slot after the refresh, records unchanged |
| Scheduler.AppointmentScheduler.BookFromWaitlist | Hospital_Ai_schedulers/ai_agent.py:299-308 | the patient is booked into the slot and removed from the waitlist |
| Scheduler.AppointmentScheduler.UpdateConfiguration | Hospital_Ai_schedulers/ai_agent.py:334-345 | succeeds, and the configuration becomes the overlay of the given values on known keys |
| Scheduler.AppointmentScheduler.GetPatientRecommendations | Hospital_Ai_schedulers/ai_agent.py:413-459 | confirmed with the slot's time and doctor exactly when booked; otherwise on the waitlist with its score and estimate exactly when waiting; otherwise not found; always three pieces of advice |
| ConsoleBooking.MakeAiDecision | Hospital_AI_System_Production/interactive_booking.py:125-180 | succeeds exactly when a slot is available, and then takes a confirm action; no buffer without a slot; an unrecognised tier confirms or queues as standard |
| ConsoleBooking.NoSlotActions | Hospital_AI_System_Production/interactive_booking.py:125-180 | without a slot the tiers queue as standard, priority and urgent |
| ConsoleBooking.AgreesWithAssessorWhenAvailable | Hospital_AI_System_Production/interactive_booking.py:125-180 | with an available slot the console takes the assessor's action and buffer for the tier |
| ConsoleBooking.IgnoresPreferredTime | Hospital_AI_System_Production/interactive_booking.py:125-180 | the preferred time never changes the decision |
| PatientFeatures.NeighbourhoodKey | Hospital_AI_System_Production/ai_agent_core/correct_patient_data_98_features.py:132 | the key is the neighbourhood prefix followed by the name |
| PatientFeatures.NeighbourhoodKeys | Hospital_AI_System_Production/ai_agent_core/correct_patient_data_98_features.py:32-112 | one key per name, position by position |
| PatientFeatures.NamesAToCDistinct | Hospital_AI_System_Production/ai_agent_core/correct_patient_data_98_features.py:32-112 | the names from A to C are distinct |
| PatientFeatures.NamesDToHDistinct | Hospital_AI_System_Production/ai_agent_core/correct_patient_data_98_features.py:32-112 | the names from D to H are distinct |
| PatientFeatures.NamesIToJDistinct | Hospital_AI_System_Production/ai_agent_core/correct_patient_data_98_features.py:32-112 | the names from I to J are distinct |
| PatientFeatures.NamesMToPDistinct | Hospital_AI_System_Production/ai_agent_core/correct_patient_data_98_features.py:32-112 | the names from M to P are distinct |
| PatientFeatures.NamesRDistinct | Hospital_AI_System_Production/ai_agent_core/correct_patient_data_98_features.py:32-112 | the names starting with R are distinct |
| PatientFeatures.NamesSADistinct | Hospital_AI_System_Production/ai_agent_core/correct_patient_data_98_features.py:32-112 | the names starting with SA are distinct |
| PatientFeatures.NamesSEToSODistinct | Hospital_AI_System_Production/ai_agent_core/correct_patient_data_98_features.py:32-112 | the names from SE to SO are distinct |
| PatientFeatures.NamesSDistinct | Hospital_AI_System_Production/ai_agent_core/correct_patient_data_98_features.py:32-112 | the names starting with S are distinct |
| PatientFeatures.NamesTToVDistinct | Hospital_AI_System_Production/ai_agent_core/correct_patient_data_98_features.py:32-112 | the names from T to V are distinct |
| PatientFeatures.NeighbourhoodNamesDistinct | Hospital_AI_System_Production/ai_agent_core/correct_patient_data_98_features.py:32-112 | the 81 neighbourhood names are distinct and start with A..V |
| PatientFeatures.BasicKeysDistinct | Hospital_AI_System_Production/ai_agent_core/correct_patient_data_98_features.py:11-31 | the 17 basic keys are distinct and none is a neighbourhood key |
| PatientFeatures.BasicKeysListed | Hospital_AI_System_Production/ai_agent_core/correct_patient_data_98_features.py:11-31 | the basic keys are distinct |
| PatientFeatures.BasicKeysNotNeighbourhood | Hospital_AI_System_Production/ai_agent_core/correct_patient_data_98_features.py:11-31 | no basic key carries the neighbourhood prefix |
| PatientFeatures.NeighbourhoodKeyShape | Hospital_AI_System_Production/ai_agent_core/correct_patient_data_98_features.py:128 | a neighbourhood key starts with the prefix |
| PatientFeatures.NeighbourhoodKeysDistinct | Hospital_AI_System_Production/ai_agent_core/correct_patient_data_98_features.py:32-112 | distinct names give distinct keys |
| PatientFeatures.FeatureKeysDistinct | Hospital_AI_System_Production/ai_agent_core/correct_patient_data_98_features.py:9-113 | the 98 feature keys are distinct |
| PatientFeatures.RecordOf | Hospital_AI_System_Production/ai_agent_core/correct_patient_data_98_features.py:9-113 | the record has exactly the listed keys, neighbourhood flags 0 and the basic values otherwise |
| PatientFeatures.PrefixedKeys | Hospital_AI_System_Production/ai_agent_core/correct_patient_data_98_features.py:32-112 | every generated key is a neighbourhood key |
| PatientFeatures.RecordSizes | Hospital_AI_System_Production/ai_agent_core/correct_patient_data_98_features.py:9-113 | the record has as many keys as listed, and as many neighbourhood keys as names |
| PatientFeatures.GetCorrectPatientData | Hospital_AI_System_Production/ai_agent_core/correct_patient_data_98_features.py:9-113 | 98 features, 81 of them neighbourhood flags all 0, the basic features with their sample values, every basic key present |
| PatientFeatures.SampleKeyFacts | Hospital_AI_System_Production/ai_agent_core/correct_patient_data_98_features.py:9-113 | the sample record has 98 keys, 81 of them neighbourhood flags |
| PatientFeatures.ResetNeighbourhoods | Hospital_AI_System_Production/ai_agent_core/correct_patient_data_98_features.py:126-129 | every neighbourhood flag becomes 0 and every other feature is kept |
| PatientFeatures.SetNeighbourhood | Hospital_AI_System_Production/ai_agent_core/correct_patient_data_98_features.py:115-139 | the loop's result is the record with all flags cleared and the named flag set when present |
| PatientFeatures.WithNeighbourhoodKeepsBasics | Hospital_AI_System_Production/ai_agent_core/correct_patient_data_98_features.py:115-139 | setting a neighbourhood keeps the keys and every basic feature |
| PatientFeatures.WithNeighbourhoodOneHot | Hospital_AI_System_Production/ai_agent_core/correct_patient_data_98_features.py:115-139 | afterwards only the named flag can be 1, so at most one flag is set |
| PatientFeatures.WithNeighbourhoodLastWins | Hospital_AI_System_Production/ai_agent_core/correct_patient_data_98_features.py:115-139 | setting a second neighbourhood erases the first |
| PatientFeatures.SetTwiceIsSetOnce | Hospital_AI_System_Production/ai_agent_core/correct_patient_data_98_features.py:115-139 | setting the same neighbourhood twice is setting it once |
| PatientFeatures.NeighbourhoodLookupIsCaseSensitive | Hospital_AI_System_Production/ai_agent_core/correct_patient_data_98_features.py:132-134 | "CENTRO" is a known neighbourhood but "centro" is not, so a lower-case name sets no flag |
| PatientFeatures.SampleHasCentro | Hospital_AI_System_Production/ai_agent_core/correct_patient_data_98_features.py:32-112 | the sample record has a CENTRO flag |
| PatientFeatures.SampleNeighbourhoodInitials | Hospital_AI_System_Production/ai_agent_core/correct_patient_data_98_features.py:32-112 | every neighbourhood name in the sample starts with a letter from A to V |
| PatientFeatures.PrefixedInitials | Hospital_AI_System_Production/ai_agent_core/correct_patient_data_98_features.py:32-112 | keys of names starting in A..V have that initial after the prefix |

## Left out

- The prediction model (`ml_integration.py`) is not part of this model. Its two predictions are inputs that either return a value or raise.
- Logging, console messages (such as the two that `set_neighbourhood` prints at Hospital_AI_System_Production/ai_agent_core/correct_patient_data_98_features.py:135 and 137), timestamps in results, and `datetime.now()` are not modelled. The current time is the parameter `now`, and results carry no timestamp.
- The JSON and CSV exports are left out as output formatting: `export_schedule_data`, `export_waitlist`, `_convert_to_csv` and the optimizer's export.
- `get_waitlist_statistics`, `get_system_status` and the `utilization_rate` in the slot statistics are left out. They are floating-point averages and reports that no decision depends on.
- `handle_appointment_cancellation`, `_find_cancelled_slot_info` and `_attempt_waitlist_fill_for_slot` are left out. They are stubs that find no slot and fill nothing.
- The console tool's input prompts, `process_ai_decision` and `main` are interactive I/O. Only `make_ai_decision` is modelled.
- The `__main__` demonstration of the 98-feature file is left out.
- `Hospital_Ai_schedulers/slot_optimizer.py` is not part of this model. The Production optimizer is modelled in its place.
- Python's dynamic typing is not modelled. Requests are records of optional fields, and configuration values are booleans, integers or text read by truthiness.
- Exceptions other than the prediction model's, such as a missing key in the model's output, are not modelled.
- Waitlist.WaitlistManager.Valid: the manager's invariant covers the heap order, the patient records and the contact keys. It does not cover each entry's stored score being current. Each operation states the scores it refreshes instead (`Entered`, `Refreshed`, `Valid` of the touched entry).
- Waitlist.WaitlistManager.GetTopPatients: states the slice of the heap and that its first entry is the highest. It does not state an order among the rest, because a heap gives none (`Heapq.HeapPrefixNotSorted`).
- The result's `no_show_probability`: the source's result dictionary has one such key. `result.update` (Hospital_Ai_schedulers/ai_agent.py:99-104) overwrites the decision's value with the full prediction's. `Scheduled` keeps both: the decision's `noShowProbability` is the value from the first model call, and the result's key is `Scheduled.noShowProbability`, the full prediction's.
- Slots.SlotOptimizer.AddDoctorSchedule: requires a positive slot duration. For a duration of 0 or less, the slot loop (Hospital_AI_System_Production/ai_agent_core/slot_optimizer.py:121-132) never ends on a weekday whose opening hour is before its closing hour, so there is no final state to describe. The same inputs end without a slot when the range has no such weekday, and the model does not cover that terminating case either.
- Scheduler.AppointmentScheduler.ProcessWaitlistFill: does not state the refreshed waiting times and scores of the remaining entries, or the order of the rebuilt heap, beyond the entries being a subset. `patientsContacted` is always 0, as in the code.
- PatientFeatures.SetNeighbourhood: returns the updated record instead of mutating the caller's dictionary in place, so aliasing of that dictionary is not modelled.
- Integer widths do not arise: Python integers are unbounded, as are Dafny's.
