/**
 * Doctor slots and the slot optimizer: per-doctor lists of time slots with a
 * capacity and an occupant list, the patient-to-slot bookings, schedule
 * generation, best-slot scoring, booking, cancelling, rescheduling, the
 * availability query, the merge pass and the integer utilisation counts.
 */
module Slots {
  import opened Wrappers
  import opened Clock
  import opened RiskAssessment

  // ---------------------------------------------------------------------------
  // Doctor slots
  // ---------------------------------------------------------------------------

  /** The position of the first occurrence of `x` (`list.index`). */
  function FirstIndex(s: seq<string>, x: string): (i: nat)
    requires x in s
    ensures i < |s| && s[i] == x && x !in s[..i]
  {
    if s[0] == x then 0
    else
      var j := FirstIndex(s[1..], x);
      assert s[..j + 1] == [s[0]] + s[1..][..j];
      j + 1
  }

  /** `list.remove(x)`: drops the first occurrence of `x`, if there is one. */
  function RemoveFirst(s: seq<string>, x: string): (r: seq<string>)
    ensures x !in s ==> r == s
    ensures x in s ==> |r| == |s| - 1 && multiset(r) == multiset(s) - multiset{x}
  {
    if x in s then
      var i := FirstIndex(s, x);
      assert s == s[..i] + [x] + s[i + 1..];
      s[..i] + s[i + 1..]
    else s
  }

  class DoctorSlot {
    const doctorId: string
    const startTime: int
    var endTime: int
    var maxCapacity: int
    var currentCapacity: int
    const slotType: string
    var patients: seq<string>
    var bufferTime: int

    /** The occupancy counter counts the occupants. */
    predicate Valid()
      reads this
    {
      currentCapacity == |patients|
    }

    /** The occupancy does not exceed the capacity; booking keeps this, the merge pass may not. */
    predicate WithinCapacity()
      reads this
    {
      currentCapacity <= maxCapacity
    }

    constructor (doctorId: string, startTime: int, endTime: int, maxCapacity: int, slotType: string)
      ensures this.doctorId == doctorId && this.startTime == startTime && this.endTime == endTime
      ensures this.maxCapacity == maxCapacity && this.slotType == slotType
      ensures currentCapacity == 0 && patients == [] && bufferTime == 0
      ensures Valid()
    {
      this.doctorId := doctorId;
      this.startTime := startTime;
      this.endTime := endTime;
      this.maxCapacity := maxCapacity;
      this.slotType := slotType;
      currentCapacity := 0;
      patients := [];
      bufferTime := 0;
    }

    function IsAvailable(): (b: bool)
      reads this
      ensures b <==> AvailableCapacity() > 0
    {
      currentCapacity < maxCapacity
    }

    function AvailableCapacity(): int
      reads this
    {
      maxCapacity - currentCapacity
    }

    /** The length of the slot; instants are whole minutes, so the division by 60 is exact. */
    function DurationMinutes(): int
      reads this
    {
      endTime - startTime
    }

    /** Books `patientId` when a place is left, raising the buffer to at least `buffer`. */
    method AddPatient(patientId: string, buffer: int) returns (added: bool)
      modifies this
      ensures added == old(IsAvailable())
      ensures added ==>
                patients == old(patients) + [patientId] &&
                currentCapacity == old(currentCapacity) + 1 &&
                bufferTime == (if old(bufferTime) < buffer then buffer else old(bufferTime))
      ensures !added ==>
                patients == old(patients) && currentCapacity == old(currentCapacity) &&
                bufferTime == old(bufferTime)
      ensures endTime == old(endTime) && maxCapacity == old(maxCapacity)
      ensures View(this) == if added then Admitted(old(View(this)), patientId, buffer) else old(View(this))
      ensures old(Valid()) ==> Valid()
      ensures old(WithinCapacity()) ==> WithinCapacity()
    {
      if currentCapacity < maxCapacity {
        patients := patients + [patientId];
        currentCapacity := currentCapacity + 1;
        if bufferTime < buffer {
          bufferTime := buffer;
        }
        added := true;
      } else {
        added := false;
      }
    }

    /** Drops the first occurrence of `patientId`, if the slot holds the patient. */
    method RemovePatient(patientId: string) returns (removed: bool)
      modifies this
      ensures removed == (patientId in old(patients))
      ensures removed ==>
                patients == RemoveFirst(old(patients), patientId) &&
                currentCapacity == old(currentCapacity) - 1
      ensures !removed ==> patients == old(patients) && currentCapacity == old(currentCapacity)
      ensures endTime == old(endTime) && maxCapacity == old(maxCapacity) && bufferTime == old(bufferTime)
      ensures old(Valid()) ==> Valid()
      ensures old(WithinCapacity()) ==> WithinCapacity()
    {
      if patientId in patients {
        patients := RemoveFirst(patients, patientId);
        currentCapacity := currentCapacity - 1;
        removed := true;
      } else {
        removed := false;
      }
    }
  }

  // ---------------------------------------------------------------------------
  // Schedule generation, as a function of the arguments
  // ---------------------------------------------------------------------------

  /** The (start, end) pairs of back-to-back tiles of `duration` from `from` while the start is before `until`. */
  function Tiles(from: int, until: int, duration: int): seq<(int, int)>
    requires duration > 0
    decreases until - from
  {
    if from < until then [(from, from + duration)] + Tiles(from + duration, until, duration) else []
  }

  /** The slots of one day: tiles over the working hours on a weekday, none on Saturday or Sunday. */
  function DayTiles(day: int, startHour: int, endHour: int, duration: int): seq<(int, int)>
    requires 0 <= startHour < 24 && 0 <= endHour < 24 && duration > 0
  {
    if Weekday(day) < 5 then Tiles(AtHour(day, startHour), AtHour(day, endHour), duration) else []
  }

  /** The slot times `add_doctor_schedule` appends, day by day from `current` while not after `endDate`. */
  function ScheduleTimes(current: int, endDate: int, startHour: int, endHour: int, duration: int): seq<(int, int)>
    requires 0 <= startHour < 24 && 0 <= endHour < 24 && duration > 0
    decreases endDate - current
  {
    if current <= endDate then
      DayTiles(current, startHour, endHour, duration) + ScheduleTimes(current + MinutesPerDay, endDate, startHour, endHour, duration)
    else []
  }

  /** The slot times of the first `days` days from `startDate`. */
  function ScheduleDays(startDate: int, days: nat, startHour: int, endHour: int, duration: int): seq<(int, int)>
    requires 0 <= startHour < 24 && 0 <= endHour < 24 && duration > 0
  {
    if days == 0 then []
    else ScheduleDays(startDate, days - 1, startHour, endHour, duration)
         + DayTiles(startDate + (days - 1) * MinutesPerDay, startHour, endHour, duration)
  }

  /**
   * A span of `until - from > 0` minutes holds `ceil((until - from) / duration)`
   * tiles, the last one possibly overrunning: the count `c` is the one with
   * `(c - 1) * duration < until - from <= c * duration`.
   */
  lemma {:induction false} TilesCount(from: int, until: int, duration: int)
    requires duration > 0
    ensures from >= until ==> Tiles(from, until, duration) == []
    ensures from < until ==>
              var c := |Tiles(from, until, duration)|;
              (c - 1) * duration < until - from <= c * duration
    decreases until - from
  {
    if from < until {
      TilesCount(from + duration, until, duration);
      var c := |Tiles(from + duration, until, duration)|;
      assert (c + 1) * duration == c * duration + duration;
      assert c * duration == (c - 1) * duration + duration;
    }
  }

  /** Each tile lasts `duration`, starts before `until`, and starts where the previous one ended. */
  lemma {:induction false} TilesContiguous(from: int, until: int, duration: int)
    requires duration > 0
    ensures var t := Tiles(from, until, duration);
            && (|t| > 0 ==> t[0].0 == from)
            && (forall k :: 0 <= k < |t| ==> t[k].1 == t[k].0 + duration && from <= t[k].0 < until)
            && (forall k :: 0 <= k < |t| - 1 ==> t[k].1 == t[k + 1].0)
    decreases until - from
  {
    if from < until {
      TilesContiguous(from + duration, until, duration);
      var rest := Tiles(from + duration, until, duration);
      var t := Tiles(from, until, duration);
      assert forall k :: 1 <= k < |t| ==> t[k] == rest[k - 1];
    }
  }

  /**
   * A weekday yields `ceil((endHour - startHour) * 60 / duration)` slots, and
   * none when the working hours are empty.
   */
  lemma DayTilesCount(day: int, startHour: int, endHour: int, duration: int)
    requires 0 <= startHour < 24 && 0 <= endHour < 24 && duration > 0
    requires Weekday(day) < 5
    ensures endHour <= startHour ==> DayTiles(day, startHour, endHour, duration) == []
    ensures startHour < endHour ==>
              var c := |DayTiles(day, startHour, endHour, duration)|;
              (c - 1) * duration < (endHour - startHour) * MinutesPerHour <= c * duration
  {
    TilesCount(AtHour(day, startHour), AtHour(day, endHour), duration);
  }

  /** A range whose every day falls on a Saturday or Sunday yields no slots at all. */
  lemma {:induction false} WeekendOnlyRangeIsEmpty(current: int, endDate: int, startHour: int, endHour: int, duration: int)
    requires 0 <= startHour < 24 && 0 <= endHour < 24 && duration > 0
    requires 5 <= Weekday(current)
    requires endDate < Midnight(current) + (7 - Weekday(current)) * MinutesPerDay
    ensures ScheduleTimes(current, endDate, startHour, endHour, duration) == []
    decreases endDate - current
  {
    if current <= endDate {
      var next := current + MinutesPerDay;
      assert Date(next) == Date(current) + 1 by {
        assert next == Midnight(current) + (current - Midnight(current)) + MinutesPerDay;
      }
      if next <= endDate {
        assert Weekday(current) == 5;
        assert Weekday(next) == 6;
        assert Midnight(next) == Midnight(current) + MinutesPerDay;
        WeekendOnlyRangeIsEmpty(next, endDate, startHour, endHour, duration);
      }
    }
  }

  // ---------------------------------------------------------------------------
  // Slot scoring
  // ---------------------------------------------------------------------------

  /** The requested coarse band of the day contains the hour. */
  predicate InBand(preferredTime: string, hour: int)
  {
    || (preferredTime == "morning" && 9 <= hour <= 12)
    || (preferredTime == "afternoon" && 13 <= hour <= 17)
    || (preferredTime == "evening" && 18 <= hour <= 20)
  }

  function TimeOfDayBonus(slotStart: int, preferredTime: Option<string>): (b: int)
    ensures b == 0 || b == 5
    ensures b == 5 <==> preferredTime.Some? && InBand(preferredTime.value, Hour(slotStart))
  {
    if Truthy(preferredTime) && InBand(preferredTime.value, Hour(slotStart)) then 5 else 0
  }

  /** High-risk patients gain a tenth of the buffer minutes, medium-risk a twentieth, low-risk nothing. */
  function BufferBonus(bufferTime: int, risk: RiskLevel): (b: real)
    ensures risk == Low ==> b == 0.0
    ensures risk == Medium ==> 20.0 * b == bufferTime as real
    ensures risk == High ==> 10.0 * b == bufferTime as real
  {
    match risk
    case High => bufferTime as real * 0.1
    case Medium => bufferTime as real * 0.05
    case Low => 0.0
  }

  /** `_calculate_slot_score` over the slot's start, buffer and free places. */
  function Score(slotStart: int, bufferTime: int, availableCapacity: int, preferredDate: Option<int>,
                 preferredTime: Option<string>, risk: RiskLevel, urgency: int): real
  {
    (DateProximity(slotStart, preferredDate) + TimeOfDayBonus(slotStart, preferredTime)) as real
    + BufferBonus(bufferTime, risk) + (urgency * 2) as real + availableCapacity as real * 0.5
  }

  function SlotScore(slot: DoctorSlot, preferredDate: Option<int>, preferredTime: Option<string>,
                     risk: RiskLevel, urgency: int): real
    reads slot
  {
    Score(slot.startTime, slot.bufferTime, slot.AvailableCapacity(), preferredDate, preferredTime, risk, urgency)
  }

  /**
   * Urgency adds the same amount to every slot's score, so it never changes
   * which slot scores best; each free place is worth half a point.
   */
  lemma ScoreShifts(start: int, buffer: int, cap: int, date: Option<int>, time: Option<string>,
                    risk: RiskLevel, u: int, k: int)
    ensures Score(start, buffer, cap, date, time, risk, u + k) == Score(start, buffer, cap, date, time, risk, u) + (2 * k) as real
    ensures Score(start, buffer, cap + k, date, time, risk, u) == Score(start, buffer, cap, date, time, risk, u) + k as real * 0.5
  {
  }

  /** Without preferences a low-risk patient's score is twice the urgency plus half the free places. */
  lemma ScoreWithoutPreferences(start: int, buffer: int, cap: int, u: int)
    ensures Score(start, buffer, cap, None, None, Low, u) == (2 * u) as real + cap as real * 0.5
  {
  }

  /** The score stays within the sum of its largest parts. */
  lemma ScoreBounds(start: int, buffer: int, cap: int, date: Option<int>, time: Option<string>,
                    risk: RiskLevel, u: int)
    requires 0 <= buffer
    ensures var base := BufferBonus(buffer, risk) + (2 * u) as real + cap as real * 0.5;
            base <= Score(start, buffer, cap, date, time, risk, u) <= base + 15.0
  {
  }

  // ---------------------------------------------------------------------------
  // The merge pass, on snapshots of the slots
  // ---------------------------------------------------------------------------

  /** The mutable state of a slot, with its start. */
  datatype SlotView = SlotView(startTime: int, endTime: int, maxCapacity: int, currentCapacity: int,
                               patients: seq<string>, bufferTime: int)

  function View(s: DoctorSlot): SlotView
    reads s
  {
    SlotView(s.startTime, s.endTime, s.maxCapacity, s.currentCapacity, s.patients, s.bufferTime)
  }

  function Views(xs: seq<DoctorSlot>): (vs: seq<SlotView>)
    reads set s | s in xs
    ensures |vs| == |xs|
    ensures forall k :: 0 <= k < |xs| ==> vs[k] == View(xs[k])
  {
    seq(|xs|, k reads set s | s in xs requires 0 <= k < |xs| => View(xs[k]))
  }

  /** A slot view after `add_patient(id, buffer)` went through: one more occupant, the buffer raised to at least `buffer`. */
  function Admitted(v: SlotView, id: string, buffer: int): SlotView
  {
    v.(currentCapacity := v.currentCapacity + 1, patients := v.patients + [id],
       bufferTime := if v.bufferTime < buffer then buffer else v.bufferTime)
  }

  /**
   * The views `vs` of the list `xs` once `id` was admitted into the slot
   * object `s`, with buffer `buffer`: the view at each position holding `s`
   * is admitted, every other view is kept.
   */
  function RebookList(vs: seq<SlotView>, xs: seq<DoctorSlot>, s: DoctorSlot, id: string, buffer: int): (r: seq<SlotView>)
    ensures |r| == |vs|
    ensures forall k :: 0 <= k < |vs| ==>
              r[k] == if k < |xs| && xs[k] == s then Admitted(vs[k], id, buffer) else vs[k]
    decreases |vs|
  {
    if vs == [] then []
    else
      var n := |vs| - 1;
      RebookList(vs[..n], xs, s, id, buffer) + [if n < |xs| && xs[n] == s then Admitted(vs[n], id, buffer) else vs[n]]
  }

  /** Each doctor's views `vm` of the lists `slots` once `id` was admitted into the slot object `s`, wherever it is listed. */
  function Rebooked(vm: map<string, seq<SlotView>>, slots: map<string, seq<DoctorSlot>>, s: DoctorSlot,
                    id: string, buffer: int): (r: map<string, seq<SlotView>>)
    ensures r.Keys == vm.Keys
  {
    map d | d in vm :: RebookList(vm[d], if d in slots then slots[d] else [], s, id, buffer)
  }

  /** An empty slot right after a non-full slot ending where it starts is absorbed by that slot. */
  predicate CanAbsorb(prev: SlotView, next: SlotView)
  {
    next.currentCapacity == 0 && prev.endTime == next.startTime && prev.currentCapacity < prev.maxCapacity
  }

  function Absorb(prev: SlotView, next: SlotView): SlotView
  {
    var cap := if prev.maxCapacity + 1 < 3 then prev.maxCapacity + 1 else 3;
    prev.(endTime := next.endTime, maxCapacity := cap)
  }

  /** Slot `k` after the pass: slot `k + 1` decides whether `k` absorbs it. */
  function MergedAt(vs: seq<SlotView>, k: int): SlotView
    requires 0 <= k < |vs|
  {
    if k + 1 < |vs| && CanAbsorb(vs[k], vs[k + 1]) then Absorb(vs[k], vs[k + 1]) else vs[k]
  }

  /** The whole pass over one doctor's list; every test reads slots the pass has not yet changed. */
  function MergePass(vs: seq<SlotView>): (r: seq<SlotView>)
    ensures |r| == |vs|
    ensures forall k :: 0 <= k < |vs| ==> r[k] == MergedAt(vs, k)
  {
    seq(|vs|, k requires 0 <= k < |vs| => MergedAt(vs, k))
  }

  /** The number of slots absorbed among the first `n` of the list. */
  function MergeCount(vs: seq<SlotView>, n: int): (c: nat)
    requires 0 <= n <= |vs|
  {
    if n <= 1 then 0
    else MergeCount(vs, n - 1) + (if CanAbsorb(vs[n - 2], vs[n - 1]) then 1 else 0)
  }

  /** At most every slot but the first is absorbed. */
  lemma {:induction false} MergeCountBound(vs: seq<SlotView>, n: int)
    requires 0 <= n <= |vs|
    ensures MergeCount(vs, n) <= (if n == 0 then 0 else n - 1)
  {
    if n > 1 {
      MergeCountBound(vs, n - 1);
    }
  }

  /**
   * The pass keeps every slot, its start, occupants and buffer, never lowers
   * the end of a slot of non-negative length, and caps a grown capacity at 3.
   */
  lemma MergePassKeeps(vs: seq<SlotView>)
    requires forall k :: 0 <= k < |vs| ==> vs[k].startTime <= vs[k].endTime
    ensures var r := MergePass(vs);
            forall k :: 0 <= k < |vs| ==>
              && r[k].startTime == vs[k].startTime
              && r[k].currentCapacity == vs[k].currentCapacity
              && r[k].patients == vs[k].patients
              && r[k].bufferTime == vs[k].bufferTime
              && vs[k].endTime <= r[k].endTime
              && (r[k] != vs[k] ==> r[k].maxCapacity <= 3)
  {
  }

  /**
   * Absorbing a slot leaves the absorber over capacity exactly when it already
   * held more than three patients: its capacity is cut to 3.
   */
  lemma AbsorbCanBreakCapacity(prev: SlotView, next: SlotView)
    requires CanAbsorb(prev, next)
    ensures Absorb(prev, next).maxCapacity < Absorb(prev, next).currentCapacity <==> prev.currentCapacity > 3
  {
  }

  /** For instance a slot of capacity 5 holding 4 patients ends with capacity 3. */
  lemma MergePassCounterexample()
    ensures var r := MergePass([SlotView(0, 30, 5, 4, ["a", "b", "c", "d"], 0), SlotView(30, 60, 1, 0, [], 0)]);
            r[0].maxCapacity == 3 && r[0].currentCapacity == 4
  {
  }

  // ---------------------------------------------------------------------------
  // Scan order and filters
  // ---------------------------------------------------------------------------

  /** A doctor's slots are scanned unless a preferred doctor is given and differs. */
  predicate Considered(doctorId: string, preferredDoctor: Option<string>)
  {
    !(Truthy(preferredDoctor) && doctorId != preferredDoctor.value)
  }

  /** The slots of the doctors in `order`, doctor after doctor, each in list order. */
  function ScanOrder(order: seq<string>, slots: map<string, seq<DoctorSlot>>, preferredDoctor: Option<string>): seq<DoctorSlot>
  {
    if order == [] then []
    else
      var d := order[|order| - 1];
      ScanOrder(order[..|order| - 1], slots, preferredDoctor) +
      (if Considered(d, preferredDoctor) && d in slots then slots[d] else [])
  }

  /** The slots with a place left, in order. */
  function AvailableIn(xs: seq<DoctorSlot>): (r: seq<DoctorSlot>)
    reads set s | s in xs
  {
    if xs == [] then []
    else AvailableIn(xs[..|xs| - 1]) + (if xs[|xs| - 1].IsAvailable() then [xs[|xs| - 1]] else [])
  }

  /** Exactly the slots of `xs` that have a place left are kept. */
  lemma {:induction false} AvailableInMembers(xs: seq<DoctorSlot>)
    ensures forall k :: 0 <= k < |AvailableIn(xs)| ==> AvailableIn(xs)[k] in xs && AvailableIn(xs)[k].IsAvailable()
    ensures forall k :: 0 <= k < |xs| && xs[k].IsAvailable() ==> xs[k] in AvailableIn(xs)
    decreases |xs|
  {
    if xs != [] {
      AvailableInMembers(xs[..|xs| - 1]);
      assert forall k :: 0 <= k < |xs| - 1 ==> xs[..|xs| - 1][k] == xs[k];
    }
  }

  /** The slots starting on `day` with a place left, in order. */
  function AvailableOn(xs: seq<DoctorSlot>, day: int): (r: seq<DoctorSlot>)
    reads set s | s in xs
    ensures forall k :: 0 <= k < |r| ==> r[k] in xs && Date(r[k].startTime) == day && r[k].IsAvailable()
    ensures forall k :: 0 <= k < |xs| && Date(xs[k].startTime) == day && xs[k].IsAvailable() ==> xs[k] in r
  {
    if xs == [] then []
    else
      var s := xs[|xs| - 1];
      AvailableOn(xs[..|xs| - 1], day) + (if Date(s.startTime) == day && s.IsAvailable() then [s] else [])
  }

  /** `i` is the first position of a highest score in `xs`. */
  predicate IsFirstBest(xs: seq<DoctorSlot>, i: int, preferredDate: Option<int>, preferredTime: Option<string>,
                        risk: RiskLevel, urgency: int)
    reads set s | s in xs
  {
    && 0 <= i < |xs|
    && (forall j :: 0 <= j < |xs| ==>
          SlotScore(xs[j], preferredDate, preferredTime, risk, urgency) <= SlotScore(xs[i], preferredDate, preferredTime, risk, urgency))
    && (forall j :: 0 <= j < i ==>
          SlotScore(xs[j], preferredDate, preferredTime, risk, urgency) < SlotScore(xs[i], preferredDate, preferredTime, risk, urgency))
  }

  // ---------------------------------------------------------------------------
  // Utilisation counts
  // ---------------------------------------------------------------------------

  datatype SlotStatistics = SlotStatistics(totalSlots: int, occupiedSlots: int, totalCapacity: int,
                                           usedCapacity: int, availableCapacity: int)

  /** The counts over a list of slots. */
  function Statistics(xs: seq<DoctorSlot>): (st: SlotStatistics)
    reads set s | s in xs
    ensures st.totalSlots == |xs|
    ensures st.availableCapacity == st.totalCapacity - st.usedCapacity
  {
    if xs == [] then SlotStatistics(0, 0, 0, 0, 0)
    else
      var st := Statistics(xs[..|xs| - 1]);
      var s := xs[|xs| - 1];
      var total := st.totalCapacity + s.maxCapacity;
      var used := st.usedCapacity + s.currentCapacity;
      SlotStatistics(st.totalSlots + 1, st.occupiedSlots + (if s.currentCapacity > 0 then 1 else 0),
                     total, used, total - used)
  }

  /**
   * Over slots whose counters count their occupants, no more slots are occupied
   * than exist or than places are used; when every slot is within capacity no
   * more places are used than exist.
   */
  lemma {:induction false} StatisticsBounds(xs: seq<DoctorSlot>)
    requires forall s :: s in xs ==> s.Valid()
    ensures var st := Statistics(xs);
            0 <= st.occupiedSlots <= st.totalSlots && st.occupiedSlots <= st.usedCapacity
    ensures (forall s :: s in xs ==> s.WithinCapacity()) ==> Statistics(xs).availableCapacity >= 0
  {
    if xs != [] {
      var init := xs[..|xs| - 1];
      assert forall s :: s in init ==> s in xs;
      assert xs[|xs| - 1] in xs;
      StatisticsBounds(init);
    }
  }

  /**
   * The selection of `find_optimal_slot`: the position of the highest score,
   * the first one when several tie.
   */
  method PickBest(cands: seq<DoctorSlot>, preferredDate: Option<int>, preferredTime: Option<string>,
                  risk: RiskLevel, urgency: int) returns (bi: int)
    requires cands != []
    ensures IsFirstBest(cands, bi, preferredDate, preferredTime, risk, urgency)
  {
    bi := 0;
    var best := SlotScore(cands[0], preferredDate, preferredTime, risk, urgency);
    var j := 1;
    while j < |cands|
      invariant 0 <= bi < j <= |cands|
      invariant best == SlotScore(cands[bi], preferredDate, preferredTime, risk, urgency)
      invariant forall k :: 0 <= k < j ==> SlotScore(cands[k], preferredDate, preferredTime, risk, urgency) <= best
      invariant forall k :: 0 <= k < bi ==> SlotScore(cands[k], preferredDate, preferredTime, risk, urgency) < best
    {
      var score := SlotScore(cands[j], preferredDate, preferredTime, risk, urgency);
      if score > best {
        bi, best := j, score;
      }
      j := j + 1;
    }
  }

  /**
   * The collection loop of `find_optimal_slot`: every slot with a place left,
   * doctor after doctor in `order`.
   */
  method ScanAvailable(order: seq<string>, slots: map<string, seq<DoctorSlot>>, preferredDoctor: Option<string>)
    returns (cands: seq<DoctorSlot>)
    requires forall d :: d in order ==> d in slots
    ensures cands == AvailableIn(ScanOrder(order, slots, preferredDoctor))
  {
    cands := [];
    var di := 0;
    while di < |order|
      invariant 0 <= di <= |order|
      invariant cands == AvailableIn(ScanOrder(order[..di], slots, preferredDoctor))
    {
      var d := order[di];
      ScanOrderStep(order, slots, preferredDoctor, di);
      ghost var prefix := ScanOrder(order[..di], slots, preferredDoctor);
      if Considered(d, preferredDoctor) {
        assert cands == AvailableIn(prefix);
        var more := CollectAvailable(slots[d]);
        assert cands == AvailableIn(prefix);
        AvailableInConcat(prefix, slots[d]);
        assert cands + more == AvailableIn(prefix + slots[d]);
        cands := cands + more;
      } else {
        assert prefix + [] == prefix;
      }
      di := di + 1;
    }
    assert order[..di] == order;
  }

  /** The loop of `get_slot_statistics`: the counts over every doctor's slots in `order`. */
  method ScanStatistics(order: seq<string>, slots: map<string, seq<DoctorSlot>>) returns (st: SlotStatistics)
    requires forall d :: d in order ==> d in slots
    ensures st == Statistics(ScanOrder(order, slots, None))
  {
    st := SlotStatistics(0, 0, 0, 0, 0);
    var di := 0;
    while di < |order|
      invariant 0 <= di <= |order|
      invariant st == Statistics(ScanOrder(order[..di], slots, None))
    {
      var d := order[di];
      ScanOrderStep(order, slots, None, di);
      ghost var prefix := ScanOrder(order[..di], slots, None);
      assert st == Statistics(prefix);
      var counts := TallySlots(slots[d]);
      assert st == Statistics(prefix);
      StatisticsConcat(prefix, slots[d]);
      assert AddCounts(st, counts) == Statistics(prefix + slots[d]);
      st := AddCounts(st, counts);
      di := di + 1;
    }
    assert order[..di] == order;
  }

  /** The counts of two lists laid end to end. */
  function AddCounts(a: SlotStatistics, b: SlotStatistics): SlotStatistics
  {
    var total := a.totalCapacity + b.totalCapacity;
    var used := a.usedCapacity + b.usedCapacity;
    SlotStatistics(a.totalSlots + b.totalSlots, a.occupiedSlots + b.occupiedSlots, total, used, total - used)
  }

  /** Counting two lists one after the other is adding their counts. */
  lemma {:induction false} StatisticsConcat(xs: seq<DoctorSlot>, ys: seq<DoctorSlot>)
    ensures Statistics(xs + ys) == AddCounts(Statistics(xs), Statistics(ys))
    decreases |ys|
  {
    if ys == [] {
      assert xs + ys == xs;
    } else {
      var n := |ys| - 1;
      StatisticsConcat(xs, ys[..n]);
      assert (xs + ys)[..|xs| + n] == xs + ys[..n];
      assert (xs + ys)[|xs| + n] == ys[n];
    }
  }

  /** Filtering two lists one after the other is filtering each. */
  lemma {:induction false} AvailableInConcat(xs: seq<DoctorSlot>, ys: seq<DoctorSlot>)
    ensures AvailableIn(xs + ys) == AvailableIn(xs) + AvailableIn(ys)
    decreases |ys|
  {
    if ys == [] {
      assert xs + ys == xs;
    } else {
      var n := |ys| - 1;
      AvailableInConcat(xs, ys[..n]);
      assert (xs + ys)[..|xs| + n] == xs + ys[..n];
      assert (xs + ys)[|xs| + n] == ys[n];
    }
  }

  /** The inner loop of `find_optimal_slot`: one doctor's slots with a place left, in order. */
  method CollectAvailable(slots: seq<DoctorSlot>) returns (r: seq<DoctorSlot>)
    ensures r == AvailableIn(slots)
  {
    r := [];
    var i := 0;
    while i < |slots|
      invariant 0 <= i <= |slots|
      invariant r == AvailableIn(slots[..i])
    {
      AvailableInStep(slots, i);
      if slots[i].IsAvailable() {
        r := r + [slots[i]];
      }
      i := i + 1;
    }
    assert slots[..i] == slots;
  }

  /** The inner loop of `get_slot_statistics`: the counts over one doctor's slots. */
  method TallySlots(slots: seq<DoctorSlot>) returns (st: SlotStatistics)
    ensures st == Statistics(slots)
  {
    var totalSlots, occupiedSlots, totalCapacity, usedCapacity := 0, 0, 0, 0;
    var i := 0;
    while i < |slots|
      invariant 0 <= i <= |slots|
      invariant SlotStatistics(totalSlots, occupiedSlots, totalCapacity, usedCapacity, totalCapacity - usedCapacity)
             == Statistics(slots[..i])
    {
      var slot := slots[i];
      StatisticsStep(slots, i);
      totalSlots := totalSlots + 1;
      totalCapacity := totalCapacity + slot.maxCapacity;
      usedCapacity := usedCapacity + slot.currentCapacity;
      if slot.currentCapacity > 0 {
        occupiedSlots := occupiedSlots + 1;
      }
      i := i + 1;
    }
    assert slots[..i] == slots;
    st := SlotStatistics(totalSlots, occupiedSlots, totalCapacity, usedCapacity, totalCapacity - usedCapacity);
  }

  /**
   * The state of the merge pass over `slots` before position `i`: every slot
   * whose successor has been compared holds its merged view, the others their
   * views `vs` from before the pass.
   */
  ghost predicate MergedUpTo(slots: seq<DoctorSlot>, vs: seq<SlotView>, i: int)
    reads set s | s in slots
  {
    && |vs| == |slots| && 0 <= i <= |slots|
    && forall k :: 0 <= k < |slots| ==> View(slots[k]) == (if k + 1 < i then MergedAt(vs, k) else vs[k])
  }

  /** No slot occurs twice in `slots`. */
  predicate Distinct(slots: seq<DoctorSlot>)
  {
    forall i, j :: 0 <= i < j < |slots| ==> slots[i] != slots[j]
  }

  /** The state of the merge loop after `i` tests, `count` of which merged. */
  ghost predicate Merging(slots: seq<DoctorSlot>, vs: seq<SlotView>, i: int, count: int)
    reads set s | s in slots
  {
    MergedUpTo(slots, vs, i) && count == MergeCount(vs, i)
  }

  /** Before the first test every slot holds its view from before the pass. */
  lemma MergeStart(slots: seq<DoctorSlot>, vs: seq<SlotView>)
    requires vs == Views(slots)
    ensures Merging(slots, vs, 0, 0)
  {
  }

  /** After the last test every slot holds its merged view. */
  lemma MergedAll(slots: seq<DoctorSlot>, vs: seq<SlotView>, count: int)
    requires Merging(slots, vs, |slots|, count)
    ensures Views(slots) == MergePass(vs) && count == MergeCount(vs, |slots|)
  {
    assert forall k :: 0 <= k < |slots| ==> Views(slots)[k] == MergePass(vs)[k];
  }

  /**
   * The inner loop of `optimize_schedule` over one doctor's list: an empty
   * slot right after a non-full slot that ends where it starts is absorbed by
   * that slot, which takes over its end and gains one place, up to 3.
   */
  method MergeSlots(slots: seq<DoctorSlot>, ghost vs: seq<SlotView>) returns (count: int)
    requires Distinct(slots) && vs == Views(slots)
    modifies set s | s in slots
    ensures Views(slots) == MergePass(vs)
    ensures count == MergeCount(vs, |slots|)
  {
    MergeStart(slots, vs);
    count := 0;
    var i := 0;
    while i < |slots|
      invariant Merging(slots, vs, i, count)
      decreases |slots| - i
    {
      count := MergeTest(slots, i, vs, count);
      i := i + 1;
    }
    MergedAll(slots, vs, count);
  }

  /** One turn of the merge loop: slot `i` is compared with slot `i - 1`. */
  method MergeTest(slots: seq<DoctorSlot>, i: int, ghost vs: seq<SlotView>, count: int) returns (count': int)
    requires Distinct(slots) && i < |slots| && Merging(slots, vs, i, count)
    modifies set s | s in slots
    ensures Merging(slots, vs, i + 1, count')
  {
    count' := count;
    var slot := slots[i];
    assert View(slot) == vs[i];
    if slot.currentCapacity == 0 && i > 0 {
      var prev := slots[i - 1];
      assert View(prev) == vs[i - 1];
      if prev.endTime == slot.startTime && prev.currentCapacity < prev.maxCapacity {
        prev.endTime := slot.endTime;
        prev.maxCapacity := if prev.maxCapacity + 1 < 3 then prev.maxCapacity + 1 else 3;
        count' := count' + 1;
        assert View(prev) == MergedAt(vs, i - 1);
      }
    }
  }

  // ---------------------------------------------------------------------------
  // The optimizer
  // ---------------------------------------------------------------------------

  /** The dictionary `optimize_schedule` returns; only the first count is ever raised. */
  datatype OptimizationResults = OptimizationResults(slotsOptimized: int, capacityImprovement: int, conflictsResolved: int)

  /** Each doctor's views after the merge pass. */
  function MergePassAll(vm: map<string, seq<SlotView>>): (r: map<string, seq<SlotView>>)
    ensures r.Keys == vm.Keys
    ensures forall d :: d in vm ==> r[d] == MergePass(vm[d])
  {
    map d | d in vm :: MergePass(vm[d])
  }

  /** The slots the pass absorbs over the doctors of `order`. */
  function MergeTotal(order: seq<string>, vm: map<string, seq<SlotView>>): nat
  {
    if order == [] then 0
    else
      var d := order[|order| - 1];
      MergeTotal(order[..|order| - 1], vm) + (if d in vm then MergeCount(vm[d], |vm[d]|) else 0)
  }

  /** Lists of the doctors in `order` that `ScanOrder` concatenates; with every doctor, all slots. */
  lemma ScanOrderStep(order: seq<string>, slots: map<string, seq<DoctorSlot>>, preferredDoctor: Option<string>, n: int)
    requires 0 <= n < |order|
    ensures ScanOrder(order[..n + 1], slots, preferredDoctor)
         == ScanOrder(order[..n], slots, preferredDoctor) +
            (if Considered(order[n], preferredDoctor) && order[n] in slots then slots[order[n]] else [])
  {
    assert order[..n + 1][..n] == order[..n];
  }

  lemma MergeTotalStep(order: seq<string>, vm: map<string, seq<SlotView>>, n: int)
    requires 0 <= n < |order|
    ensures MergeTotal(order[..n + 1], vm)
         == MergeTotal(order[..n], vm) + (if order[n] in vm then MergeCount(vm[order[n]], |vm[order[n]]|) else 0)
  {
    assert order[..n + 1][..n] == order[..n];
  }

  lemma AvailableInStep(xs: seq<DoctorSlot>, n: int)
    requires 0 <= n < |xs|
    ensures AvailableIn(xs[..n + 1]) == AvailableIn(xs[..n]) + (if xs[n].IsAvailable() then [xs[n]] else [])
  {
    assert xs[..n + 1][..n] == xs[..n];
  }

  lemma AvailableOnStep(xs: seq<DoctorSlot>, day: int, n: int)
    requires 0 <= n < |xs|
    ensures AvailableOn(xs[..n + 1], day)
         == AvailableOn(xs[..n], day) + (if Date(xs[n].startTime) == day && xs[n].IsAvailable() then [xs[n]] else [])
  {
    assert xs[..n + 1][..n] == xs[..n];
  }

  lemma StatisticsStep(xs: seq<DoctorSlot>, n: int)
    requires 0 <= n < |xs|
    ensures var st := Statistics(xs[..n]);
            var x := xs[n];
            Statistics(xs[..n + 1]) ==
              SlotStatistics(st.totalSlots + 1, st.occupiedSlots + (if x.currentCapacity > 0 then 1 else 0),
                             st.totalCapacity + x.maxCapacity, st.usedCapacity + x.currentCapacity,
                             st.totalCapacity + x.maxCapacity - (st.usedCapacity + x.currentCapacity))
  {
    assert xs[..n + 1][..n] == xs[..n];
  }

  /** The fields of a slot `add_doctor_schedule` has just created for `doctorId` at `times`. */
  predicate IsNewSlot(s: DoctorSlot, doctorId: string, times: (int, int), maxCapacity: int)
    reads s
  {
    && s.doctorId == doctorId && s.startTime == times.0 && s.endTime == times.1
    && s.maxCapacity == maxCapacity && s.currentCapacity == 0 && s.patients == [] && s.bufferTime == 0
    && s.slotType == "consultation"
  }

  /** `made[k]` is a slot just created for `doctorId` at `times[k]`, for every `k`. */
  predicate AreNewSlots(made: seq<DoctorSlot>, doctorId: string, times: seq<(int, int)>, maxCapacity: int)
    reads set s | s in made
    decreases |made|
  {
    && |made| == |times|
    && (|made| > 0 ==>
          && AreNewSlots(made[..|made| - 1], doctorId, times[..|times| - 1], maxCapacity)
          && IsNewSlot(made[|made| - 1], doctorId, times[|times| - 1], maxCapacity))
  }

  /** What `AreNewSlots` says about one position. */
  lemma {:induction false} NewSlotAt(made: seq<DoctorSlot>, doctorId: string, times: seq<(int, int)>,
                                     maxCapacity: int, k: int)
    requires AreNewSlots(made, doctorId, times, maxCapacity) && 0 <= k < |made|
    ensures k < |times| && IsNewSlot(made[k], doctorId, times[k], maxCapacity)
    decreases |made|
  {
    if k < |made| - 1 {
      NewSlotAt(made[..|made| - 1], doctorId, times[..|times| - 1], maxCapacity, k);
    }
  }

  lemma NewSlotsExtend(made: seq<DoctorSlot>, slot: DoctorSlot, doctorId: string, times: seq<(int, int)>,
                       t: (int, int), maxCapacity: int)
    requires AreNewSlots(made, doctorId, times, maxCapacity) && IsNewSlot(slot, doctorId, t, maxCapacity)
    ensures AreNewSlots(made + [slot], doctorId, times + [t], maxCapacity)
  {
    assert (made + [slot])[..|made|] == made;
    assert (times + [t])[..|times|] == times;
  }

  lemma {:induction false} NewSlotsConcat(made: seq<DoctorSlot>, more: seq<DoctorSlot>, doctorId: string,
                                          times: seq<(int, int)>, moreTimes: seq<(int, int)>, maxCapacity: int)
    requires AreNewSlots(made, doctorId, times, maxCapacity) && AreNewSlots(more, doctorId, moreTimes, maxCapacity)
    ensures AreNewSlots(made + more, doctorId, times + moreTimes, maxCapacity)
    decreases |more|
  {
    if more == [] {
      assert made + more == made && times + moreTimes == times;
    } else {
      var n := |more| - 1;
      NewSlotsConcat(made, more[..n], doctorId, times, moreTimes[..n], maxCapacity);
      assert (made + more)[..|made| + n] == made + more[..n];
      assert (times + moreTimes)[..|times| + n] == times + moreTimes[..n];
    }
  }

  lemma ConcatAssoc<T>(a: seq<T>, b: seq<T>, c: seq<T>)
    ensures a + b + c == a + (b + c)
  {
  }

  /**
   * The days already walked followed by the days still to walk are the whole
   * schedule, as long as no walked day is past `endDate`.
   */
  lemma {:induction false} ScheduleSplit(startDate: int, days: nat, endDate: int,
                                         startHour: int, endHour: int, duration: int)
    requires 0 <= startHour < 24 && 0 <= endHour < 24 && duration > 0
    requires days == 0 || startDate + (days - 1) * MinutesPerDay <= endDate
    ensures ScheduleDays(startDate, days, startHour, endHour, duration)
            + ScheduleTimes(startDate + days * MinutesPerDay, endDate, startHour, endHour, duration)
         == ScheduleTimes(startDate, endDate, startHour, endHour, duration)
  {
    if days == 0 {
      var rest := ScheduleTimes(startDate, endDate, startHour, endHour, duration);
      assert ScheduleDays(startDate, days, startHour, endHour, duration) + rest == rest;
    } else {
      var previous := startDate + (days - 1) * MinutesPerDay;
      DayAfter(startDate, days);
      ScheduleSplit(startDate, days - 1, endDate, startHour, endHour, duration);
      var rest := ScheduleTimes(previous + MinutesPerDay, endDate, startHour, endHour, duration);
      var day := DayTiles(previous, startHour, endHour, duration);
      var before := ScheduleDays(startDate, days - 1, startHour, endHour, duration);
      ScheduleTimesStep(previous, endDate, startHour, endHour, duration);
      ConcatAssoc(before, day, rest);
    }
  }

  /** The day after day `days - 1` of a walk from `startDate` is day `days`, and the one before it day `days - 2`. */
  /** The slots of the first `days` days followed by those of the next day are the slots of `days + 1` days. */
  lemma NextDaySlots(made: seq<DoctorSlot>, dayMade: seq<DoctorSlot>, doctorId: string, startDate: int, days: nat,
                     current: int, startHour: int, endHour: int, duration: int, maxCapacity: int)
    requires 0 <= startHour < 24 && 0 <= endHour < 24 && duration > 0 && current == startDate + days * MinutesPerDay
    requires AreNewSlots(made, doctorId, ScheduleDays(startDate, days, startHour, endHour, duration), maxCapacity)
    requires AreNewSlots(dayMade, doctorId, DayTiles(current, startHour, endHour, duration), maxCapacity)
    ensures AreNewSlots(made + dayMade, doctorId, ScheduleDays(startDate, days + 1, startHour, endHour, duration), maxCapacity)
  {
    DayAfter(startDate, days + 1);
    NewSlotsConcat(made, dayMade, doctorId, ScheduleDays(startDate, days, startHour, endHour, duration),
                   DayTiles(current, startHour, endHour, duration), maxCapacity);
  }

  lemma DayAfter(startDate: int, days: int)
    ensures startDate + (days - 1) * MinutesPerDay + MinutesPerDay == startDate + days * MinutesPerDay
    ensures startDate + (days - 2) * MinutesPerDay == startDate + (days - 1) * MinutesPerDay - MinutesPerDay
  {
  }

  /** A day not after `endDate` contributes its tiles ahead of the later days. */
  lemma ScheduleTimesStep(current: int, endDate: int, startHour: int, endHour: int, duration: int)
    requires 0 <= startHour < 24 && 0 <= endHour < 24 && duration > 0 && current <= endDate
    ensures ScheduleTimes(current, endDate, startHour, endHour, duration)
         == DayTiles(current, startHour, endHour, duration)
            + ScheduleTimes(current + MinutesPerDay, endDate, startHour, endHour, duration)
  {
  }

  /** Appending nothing to a listed key leaves the map as it was. */
  lemma AppendedNothing<K, V>(m: map<K, seq<V>>, k: K)
    requires k in m
    ensures m == m[k := m[k] + []]
  {
    assert m[k] + [] == m[k];
  }

  /** One more batch appended to a doctor's list, as one update of the map. */
  lemma AppendedStep<K, V>(base: map<K, seq<V>>, k: K, prefix: seq<V>, made: seq<V>, more: seq<V>,
                           before: map<K, seq<V>>, after: map<K, seq<V>>)
    requires before == base[k := prefix + made]
    requires k in before && after == before[k := before[k] + more]
    ensures after == base[k := prefix + (made + more)]
  {
    assert prefix + made + more == prefix + (made + more);
  }

  /**
   * When every slot listed in `slots` shows in `after` the view recorded for
   * it in `before`, with `id` admitted into `slot` if `ok`, then `after` is
   * `before` rebooked, or `before` itself when nothing was booked.
   */
  lemma RebookedFrom(slots: map<string, seq<DoctorSlot>>, before: map<string, seq<SlotView>>,
                     after: map<string, seq<SlotView>>, ok: bool, slot: DoctorSlot, id: string, buffer: int)
    requires before.Keys == slots.Keys && after.Keys == slots.Keys
    requires forall d :: d in slots ==> |before[d]| == |slots[d]| && |after[d]| == |slots[d]|
    requires forall d, k :: d in slots && 0 <= k < |slots[d]| ==>
               after[d][k] == if ok && slots[d][k] == slot then Admitted(before[d][k], id, buffer) else before[d][k]
    ensures after == if ok then Rebooked(before, slots, slot, id, buffer) else before
  {
    var r := if ok then Rebooked(before, slots, slot, id, buffer) else before;
    forall d | d in after
      ensures after[d] == r[d]
    {
      assert |after[d]| == |r[d]|;
      forall k | 0 <= k < |after[d]|
        ensures after[d][k] == r[d][k]
      {
      }
    }
  }

  /**
   * The shape the slot optimizer keeps: `order` lists each key of `slots` once,
   * and `position` maps every listed slot to its (doctor, index) place, so no
   * slot object is listed twice.
   */
  ghost predicate Indexed(order: seq<string>, slots: map<string, seq<DoctorSlot>>,
                          position: map<DoctorSlot, (string, int)>)
  {
    && (forall i, j :: 0 <= i < j < |order| ==> order[i] != order[j])
    && (forall d :: d in slots <==> d in order)
    && (forall d, i :: d in slots && 0 <= i < |slots[d]| ==>
          slots[d][i] in position && position[slots[d][i]] == (d, i))
  }

  /** A new doctor with an empty list goes to the end of the order. */
  lemma IndexedNewDoctor(order: seq<string>, slots: map<string, seq<DoctorSlot>>,
                         position: map<DoctorSlot, (string, int)>, d: string)
    requires Indexed(order, slots, position) && d !in slots
    ensures Indexed(order + [d], slots[d := []], position)
  {
    assert forall i :: 0 <= i < |order| ==> (order + [d])[i] == order[i];
  }

  /** Appending a slot not listed yet to one doctor's list keeps the shape. */
  lemma IndexedAppend(order: seq<string>, slots: map<string, seq<DoctorSlot>>,
                      position: map<DoctorSlot, (string, int)>, d: string, s: DoctorSlot)
    requires Indexed(order, slots, position) && d in slots && s !in position
    ensures Indexed(order, slots[d := slots[d] + [s]], position[s := (d, |slots[d]|)])
  {
    var slots' := slots[d := slots[d] + [s]];
    var position' := position[s := (d, |slots[d]|)];
    forall e, i | e in slots' && 0 <= i < |slots'[e]|
      ensures slots'[e][i] in position' && position'[slots'[e][i]] == (e, i)
    {
      if e == d && i == |slots[d]| {
      } else {
        assert slots'[e][i] == slots[e][i];
      }
    }
  }

  /** No slot is listed twice within one doctor's list. */
  lemma IndexedDistinct(order: seq<string>, slots: map<string, seq<DoctorSlot>>,
                        position: map<DoctorSlot, (string, int)>, d: string)
    requires Indexed(order, slots, position) && d in slots
    ensures forall i, j :: 0 <= i < j < |slots[d]| ==> slots[d][i] != slots[d][j]
  {
    forall i, j | 0 <= i < j < |slots[d]|
      ensures slots[d][i] != slots[d][j]
    {
      assert position[slots[d][i]] == (d, i) && position[slots[d][j]] == (d, j);
    }
  }

  /** No slot is listed under two doctors. */
  lemma IndexedDisjoint(order: seq<string>, slots: map<string, seq<DoctorSlot>>,
                        position: map<DoctorSlot, (string, int)>, d: string, e: string)
    requires Indexed(order, slots, position) && d in slots && e in slots && d != e
    ensures forall s :: s in slots[e] ==> s !in slots[d]
  {
    forall s | s in slots[e]
      ensures s !in slots[d]
    {
      var j :| 0 <= j < |slots[e]| && slots[e][j] == s;
      assert position[s] == (e, j);
      forall i | 0 <= i < |slots[d]|
        ensures slots[d][i] != s
      {
        assert position[slots[d][i]] == (d, i);
      }
    }
  }

  class SlotOptimizer {
    var doctorSlots: map<string, seq<DoctorSlot>>
    /** The doctors in the order they were first given a schedule: the dictionary's iteration order. */
    var doctorOrder: seq<string>
    var slotAssignments: map<string, DoctorSlot>
    /** Where each listed slot sits: its doctor and its index in that doctor's list. */
    ghost var slotPosition: map<DoctorSlot, (string, int)>

    /** The slots in the doctors' lists. */
    ghost function Listed(): set<DoctorSlot>
      reads this
    {
      slotPosition.Keys
    }

    ghost function Repr(): set<object>
      reads this
    {
      {this} + slotPosition.Keys + slotAssignments.Values
    }

    /** The doctor order lists each key of the slot map once and every listed slot sits at exactly one position. */
    ghost predicate Valid()
      reads this
    {
      Indexed(doctorOrder, doctorSlots, slotPosition)
    }

    /** The slot `patientId` is booked into, as a set of at most one slot. */
    function AssignedSlot(patientId: string): set<DoctorSlot>
      reads this
    {
      if patientId in slotAssignments then {slotAssignments[patientId]} else {}
    }

    /** Each doctor's slot views. */
    ghost function ViewMap(): map<string, seq<SlotView>>
      requires Valid()
      reads this, slotPosition.Keys
    {
      map d | d in doctorSlots :: Views(doctorSlots[d])
    }

    constructor ()
      ensures Valid() && fresh(Repr())
      ensures doctorSlots == map[] && doctorOrder == [] && slotAssignments == map[]
    {
      doctorSlots := map[];
      doctorOrder := [];
      slotAssignments := map[];
      slotPosition := map[];
    }

    /**
     * Appends to the doctor's list one fresh empty slot per tile of the working
     * hours of every weekday from `startDate` while not after `endDate`; a new
     * doctor goes to the end of the doctor order.
     */
    method AddDoctorSchedule(doctorId: string, startDate: int, endDate: int, startHour: int, endHour: int,
                             duration: int, maxCapacity: int)
      returns (ghost made: seq<DoctorSlot>)
      requires Valid()
      requires 0 <= startHour < 24 && 0 <= endHour < 24 && duration > 0
      modifies this
      ensures Valid()
      ensures doctorOrder == if doctorId in old(doctorSlots) then old(doctorOrder) else old(doctorOrder) + [doctorId]
      ensures doctorSlots == old(doctorSlots)[doctorId := (if doctorId in old(doctorSlots) then old(doctorSlots[doctorId]) else []) + made]
      ensures AreNewSlots(made, doctorId, ScheduleTimes(startDate, endDate, startHour, endHour, duration), maxCapacity)
      ensures forall s :: s in made ==> fresh(s)
      ensures slotAssignments == old(slotAssignments)
    {
      ghost var prior := if doctorId in doctorSlots then doctorSlots[doctorId] else [];
      if doctorId !in doctorSlots {
        IndexedNewDoctor(doctorOrder, doctorSlots, slotPosition, doctorId);
        doctorSlots := doctorSlots[doctorId := []];
        doctorOrder := doctorOrder + [doctorId];
      }
      ghost var before := doctorSlots;
      assert prior + [] == prior;
      assert before == old(doctorSlots)[doctorId := prior];
      made := AddDays(doctorId, startDate, endDate, startHour, endHour, duration, maxCapacity);
      AppendedStep(old(doctorSlots), doctorId, prior, [], made, before, doctorSlots);
    }

    /**
     * The state of the outer loop of `add_doctor_schedule` after `days` days,
     * at date `current`: the doctor's list is its old `prefix` followed by the
     * slots `made`, one for each slot time of those days, and the doctor order
     * and the bookings are still `order` and `assignments`.
     */
    ghost predicate DaysWalked(doctorId: string, startDate: int, days: nat, current: int, startHour: int, endHour: int,
                               duration: int, maxCapacity: int, base: map<string, seq<DoctorSlot>>,
                               prefix: seq<DoctorSlot>, made: seq<DoctorSlot>,
                               order: seq<string>, assignments: map<string, DoctorSlot>)
      requires 0 <= startHour < 24 && 0 <= endHour < 24 && duration > 0
      reads this, set s | s in made
    {
      && current == startDate + days * MinutesPerDay
      && Valid()
      && doctorSlots == base[doctorId := prefix + made]
      && doctorOrder == order && slotAssignments == assignments
      && AreNewSlots(made, doctorId, ScheduleDays(startDate, days, startHour, endHour, duration), maxCapacity)
    }

    /** The outer loop of `add_doctor_schedule`, for a doctor already in the slot map. */
    method AddDays(doctorId: string, startDate: int, endDate: int, startHour: int, endHour: int,
                   duration: int, maxCapacity: int)
      returns (ghost made: seq<DoctorSlot>)
      requires Valid() && doctorId in doctorSlots
      requires 0 <= startHour < 24 && 0 <= endHour < 24 && duration > 0
      modifies this
      ensures Valid()
      ensures doctorSlots == old(doctorSlots)[doctorId := old(doctorSlots[doctorId]) + made]
      ensures doctorOrder == old(doctorOrder) && slotAssignments == old(slotAssignments)
      ensures AreNewSlots(made, doctorId, ScheduleTimes(startDate, endDate, startHour, endHour, duration), maxCapacity)
      ensures forall s :: s in made ==> fresh(s)
    {
      ghost var base := doctorSlots;
      ghost var prefix := doctorSlots[doctorId];
      ghost var order := doctorOrder;
      ghost var assignments := slotAssignments;
      ghost var days, current;
      made, days, current := WalkDays(doctorId, startDate, endDate, startHour, endHour, duration, maxCapacity);
      AllDaysWalked(doctorId, startDate, endDate, days, current, startHour, endHour, duration, maxCapacity,
                    base, prefix, made, order, assignments);
    }

    /**
     * The days of the outer loop of `add_doctor_schedule`: every day from
     * `startDate` to the first day past `endDate` is walked, and the slots
     * made on the way are newly allocated.
     */
    method WalkDays(doctorId: string, startDate: int, endDate: int, startHour: int, endHour: int,
                    duration: int, maxCapacity: int)
      returns (ghost made: seq<DoctorSlot>, ghost days: nat, current: int)
      requires Valid() && doctorId in doctorSlots
      requires 0 <= startHour < 24 && 0 <= endHour < 24 && duration > 0
      modifies this
      ensures DaysWalked(doctorId, startDate, days, current, startHour, endHour, duration, maxCapacity,
                         old(doctorSlots), old(doctorSlots[doctorId]), made, old(doctorOrder), old(slotAssignments))
      ensures current > endDate && (days == 0 || current - MinutesPerDay <= endDate)
      ensures forall s :: s in made ==> fresh(s)
    {
      ghost var base := doctorSlots;
      ghost var prefix := doctorSlots[doctorId];
      ghost var order := doctorOrder;
      ghost var assignments := slotAssignments;
      days := 0;
      made := [];
      current := startDate;
      NoDaysWalked(doctorId, startDate, startHour, endHour, duration, maxCapacity);
      while current <= endDate
        invariant days == 0 || current - MinutesPerDay <= endDate
        invariant DaysWalked(doctorId, startDate, days, current, startHour, endHour, duration, maxCapacity,
                             base, prefix, made, order, assignments)
        invariant forall s :: s in made ==> fresh(s)
        decreases endDate - current
      {
        ghost var dayMade := AddNextDay(doctorId, current, startHour, endHour, duration, maxCapacity,
                                        startDate, days, base, prefix, made, order, assignments);
        made := made + dayMade;
        days := days + 1;
        current := current + MinutesPerDay;
      }
    }

    /** Before the first day the doctor's list is as it was. */
    lemma NoDaysWalked(doctorId: string, startDate: int, startHour: int, endHour: int, duration: int, maxCapacity: int)
      requires Valid() && doctorId in doctorSlots
      requires 0 <= startHour < 24 && 0 <= endHour < 24 && duration > 0
      ensures DaysWalked(doctorId, startDate, 0, startDate, startHour, endHour, duration, maxCapacity,
                         doctorSlots, doctorSlots[doctorId], [], doctorOrder, slotAssignments)
    {
      AppendedNothing(doctorSlots, doctorId);
    }

    /** Once the walk is past `endDate`, the slots made are those of the whole schedule. */
    lemma AllDaysWalked(doctorId: string, startDate: int, endDate: int, days: nat, current: int, startHour: int,
                        endHour: int, duration: int, maxCapacity: int, base: map<string, seq<DoctorSlot>>,
                        prefix: seq<DoctorSlot>, made: seq<DoctorSlot>,
                        order: seq<string>, assignments: map<string, DoctorSlot>)
      requires 0 <= startHour < 24 && 0 <= endHour < 24 && duration > 0
      requires DaysWalked(doctorId, startDate, days, current, startHour, endHour, duration, maxCapacity,
                          base, prefix, made, order, assignments)
      requires current > endDate && (days == 0 || current - MinutesPerDay <= endDate)
      ensures Valid() && doctorSlots == base[doctorId := prefix + made]
      ensures doctorOrder == order && slotAssignments == assignments
      ensures AreNewSlots(made, doctorId, ScheduleTimes(startDate, endDate, startHour, endHour, duration), maxCapacity)
    {
      DayAfter(startDate, days);
      ScheduleSplit(startDate, days, endDate, startHour, endHour, duration);
      assert ScheduleTimes(current, endDate, startHour, endHour, duration) == [];
      assert ScheduleDays(startDate, days, startHour, endHour, duration) + []
          == ScheduleDays(startDate, days, startHour, endHour, duration);
    }

    /** One turn of the outer loop of `add_doctor_schedule`, with the loop's bookkeeping carried along. */
    method AddNextDay(doctorId: string, current: int, startHour: int, endHour: int, duration: int, maxCapacity: int,
                      ghost startDate: int, ghost days: nat, ghost base: map<string, seq<DoctorSlot>>,
                      ghost prefix: seq<DoctorSlot>, ghost made: seq<DoctorSlot>,
                      ghost order: seq<string>, ghost assignments: map<string, DoctorSlot>)
      returns (ghost dayMade: seq<DoctorSlot>)
      requires 0 <= startHour < 24 && 0 <= endHour < 24 && duration > 0
      requires DaysWalked(doctorId, startDate, days, current, startHour, endHour, duration, maxCapacity,
                          base, prefix, made, order, assignments)
      modifies this
      ensures DaysWalked(doctorId, startDate, days + 1, current + MinutesPerDay, startHour, endHour, duration,
                         maxCapacity, base, prefix, made + dayMade, order, assignments)
      ensures forall s :: s in dayMade ==> fresh(s)
    {
      ghost var before := doctorSlots;
      dayMade := AddDay(doctorId, current, startHour, endHour, duration, maxCapacity);
      AppendedStep(base, doctorId, prefix, made, dayMade, before, doctorSlots);
      NextDaySlots(made, dayMade, doctorId, startDate, days, current, startHour, endHour, duration, maxCapacity);
    }

    /** One day of `add_doctor_schedule`: the day's tiles on a weekday, nothing on a weekend day. */
    method AddDay(doctorId: string, day: int, startHour: int, endHour: int, duration: int, maxCapacity: int)
      returns (ghost made: seq<DoctorSlot>)
      requires Valid() && doctorId in doctorSlots
      requires 0 <= startHour < 24 && 0 <= endHour < 24 && duration > 0
      modifies this
      ensures Valid()
      ensures doctorSlots == old(doctorSlots)[doctorId := old(doctorSlots[doctorId]) + made]
      ensures doctorOrder == old(doctorOrder) && slotAssignments == old(slotAssignments)
      ensures AreNewSlots(made, doctorId, DayTiles(day, startHour, endHour, duration), maxCapacity)
      ensures forall s :: s in made ==> fresh(s)
    {
      if Weekday(day) < 5 {
        made := AddDaySlots(doctorId, AtHour(day, startHour), AtHour(day, endHour), duration, maxCapacity);
      } else {
        made := [];
        assert old(doctorSlots[doctorId]) + made == old(doctorSlots[doctorId]);
      }
    }

    /** The inner loop of `add_doctor_schedule`: one day's slots, back to back from `from` while before `until`. */
    method AddDaySlots(doctorId: string, from: int, until: int, duration: int, maxCapacity: int)
      returns (ghost made: seq<DoctorSlot>)
      requires Valid() && doctorId in doctorSlots && duration > 0
      modifies this
      ensures Valid()
      ensures doctorSlots == old(doctorSlots)[doctorId := old(doctorSlots[doctorId]) + made]
      ensures doctorOrder == old(doctorOrder) && slotAssignments == old(slotAssignments)
      ensures AreNewSlots(made, doctorId, Tiles(from, until, duration), maxCapacity)
      ensures forall s :: s in made ==> fresh(s)
    {
      ghost var t := Tiles(from, until, duration);
      ghost var done: seq<(int, int)> := [];
      made := [];
      ghost var base := doctorSlots;
      ghost var prefix := doctorSlots[doctorId];
      assert prefix + made == prefix;
      assert doctorSlots == base[doctorId := prefix];
      var slotStart := from;
      while slotStart < until
        invariant done + Tiles(slotStart, until, duration) == t
        invariant Valid()
        invariant doctorSlots == base[doctorId := prefix + made]
        invariant doctorOrder == old(doctorOrder) && slotAssignments == old(slotAssignments)
        invariant AreNewSlots(made, doctorId, done, maxCapacity)
        invariant forall s :: s in made ==> fresh(s)
        decreases until - slotStart
      {
        var slotEnd := slotStart + duration;
        assert done + [(slotStart, slotEnd)] + Tiles(slotEnd, until, duration) == t by {
          assert Tiles(slotStart, until, duration) == [(slotStart, slotEnd)] + Tiles(slotEnd, until, duration);
        }
        ghost var before := doctorSlots;
        ghost var slot := AddSlot(doctorId, slotStart, slotEnd, maxCapacity);
        AppendedStep(base, doctorId, prefix, made, [slot], before, doctorSlots);
        NewSlotsExtend(made, slot, doctorId, done, (slotStart, slotEnd), maxCapacity);
        made := made + [slot];
        done := done + [(slotStart, slotEnd)];
        slotStart := slotEnd;
      }
      assert done + [] == done;
    }

    /** One iteration of the inner loop: a new empty consultation slot appended to the doctor's list. */
    method AddSlot(doctorId: string, startTime: int, endTime: int, maxCapacity: int) returns (ghost slot: DoctorSlot)
      requires Valid() && doctorId in doctorSlots
      modifies this
      ensures Valid()
      ensures fresh(slot) && IsNewSlot(slot, doctorId, (startTime, endTime), maxCapacity)
      ensures doctorSlots == old(doctorSlots)[doctorId := old(doctorSlots[doctorId]) + [slot]]
      ensures doctorOrder == old(doctorOrder) && slotAssignments == old(slotAssignments)
    {
      var s := new DoctorSlot(doctorId, startTime, endTime, maxCapacity, "consultation");
      IndexedAppend(doctorOrder, doctorSlots, slotPosition, doctorId, s);
      slotPosition := slotPosition[s := (doctorId, |doctorSlots[doctorId]|)];
      doctorSlots := doctorSlots[doctorId := doctorSlots[doctorId] + [s]];
      slot := s;
    }

    /**
     * The state of the loop of `optimize_schedule` over the doctors: the
     * first `di` doctors' lists have had their merge pass, which absorbed
     * `optimized` slots, and the others still hold their views `vm` from
     * before it.
     */
    ghost predicate MergedDoctors(vm: map<string, seq<SlotView>>, di: int, optimized: int)
      requires Valid()
      reads this, Listed()
    {
      && 0 <= di <= |doctorOrder| && vm.Keys == doctorSlots.Keys
      && optimized == MergeTotal(doctorOrder[..di], vm)
      && forall j :: 0 <= j < |doctorOrder| ==>
           Views(doctorSlots[doctorOrder[j]])
           == (if j < di then MergePass(vm[doctorOrder[j]]) else vm[doctorOrder[j]])
    }

    /** Removes the slot gaps `optimize_schedule` finds, doctor after doctor, and counts the slots absorbed. */
    method OptimizeSchedule() returns (results: OptimizationResults)
      requires Valid()
      modifies Listed()
      ensures Valid()
      ensures ViewMap() == MergePassAll(old(ViewMap()))
      ensures results == OptimizationResults(MergeTotal(doctorOrder, old(ViewMap())), 0, 0)
    {
      ghost var vm := ViewMap();
      NoneMerged();
      var optimized := 0;
      var di := 0;
      while di < |doctorOrder|
        invariant MergedDoctors(vm, di, optimized)
      {
        var count := MergeDoctor(di, vm, optimized);
        optimized := optimized + count;
        di := di + 1;
      }
      AllMerged(vm, optimized);
      results := OptimizationResults(optimized, 0, 0);
    }

    /** Before the loop no list has been merged. */
    lemma NoneMerged()
      requires Valid()
      ensures MergedDoctors(ViewMap(), 0, 0)
    {
      forall j | 0 <= j < |doctorOrder|
        ensures doctorOrder[j] in doctorSlots
      {
        assert doctorOrder[j] in doctorOrder;
      }
    }

    /** After the loop every list has been merged, and the count covers every doctor. */
    lemma AllMerged(vm: map<string, seq<SlotView>>, optimized: int)
      requires Valid() && MergedDoctors(vm, |doctorOrder|, optimized)
      ensures ViewMap() == MergePassAll(vm)
      ensures optimized == MergeTotal(doctorOrder, vm)
    {
      assert doctorOrder[..|doctorOrder|] == doctorOrder;
      forall d | d in doctorSlots
        ensures Views(doctorSlots[d]) == MergePass(vm[d])
      {
        var j :| 0 <= j < |doctorOrder| && doctorOrder[j] == d;
      }
    }

    /** One doctor of `optimize_schedule`: the merge pass over the list of the doctor at `di`. */
    method MergeDoctor(di: int, ghost vm: map<string, seq<SlotView>>, ghost optimized: int) returns (count: int)
      requires Valid() && 0 <= di < |doctorOrder| && MergedDoctors(vm, di, optimized)
      modifies Listed()
      ensures MergedDoctors(vm, di + 1, optimized + count)
      ensures count == MergeCount(vm[doctorOrder[di]], |vm[doctorOrder[di]]|)
    {
      var d := doctorOrder[di];
      assert d in doctorSlots;
      IndexedDistinct(doctorOrder, doctorSlots, slotPosition, d);
      forall j | 0 <= j < |doctorOrder| && j != di
        ensures forall s :: s in doctorSlots[doctorOrder[j]] ==> s !in doctorSlots[d]
      {
        IndexedDisjoint(doctorOrder, doctorSlots, slotPosition, d, doctorOrder[j]);
      }
      assert Distinct(doctorSlots[d]);
      MergeTotalStep(doctorOrder, vm, di);
      count := MergeSlots(doctorSlots[d], vm[d]);
    }

    /** Books `patientId` into `slot` when it has a place left, recording the booking. */
    method ScheduleAppointment(patientId: string, slot: DoctorSlot, bufferTime: int) returns (ok: bool)
      requires Valid()
      modifies this, slot
      ensures Valid()
      ensures ok == old(slot.IsAvailable())
      ensures ok ==>
                && slot.patients == old(slot.patients) + [patientId]
                && slot.currentCapacity == old(slot.currentCapacity) + 1
                && slot.bufferTime == (if old(slot.bufferTime) < bufferTime then bufferTime else old(slot.bufferTime))
      ensures !ok ==>
                slot.patients == old(slot.patients) && slot.currentCapacity == old(slot.currentCapacity) &&
                slot.bufferTime == old(slot.bufferTime)
      ensures slot.endTime == old(slot.endTime) && slot.maxCapacity == old(slot.maxCapacity)
      ensures slotAssignments == if ok then old(slotAssignments)[patientId := slot] else old(slotAssignments)
      ensures doctorSlots == old(doctorSlots) && doctorOrder == old(doctorOrder) && slotPosition == old(slotPosition)
      ensures ViewMap() == if ok then Rebooked(old(ViewMap()), doctorSlots, slot, patientId, bufferTime) else old(ViewMap())
    {
      ghost var before := ViewMap();
      ok := slot.AddPatient(patientId, bufferTime);
      if ok {
        slotAssignments := slotAssignments[patientId := slot];
      }
      ghost var after := ViewMap();
      forall d, k | d in doctorSlots && 0 <= k < |doctorSlots[d]|
        ensures after[d][k] == if ok && doctorSlots[d][k] == slot then Admitted(before[d][k], patientId, bufferTime) else before[d][k]
      {
        assert doctorSlots[d][k] in old(Listed());
        assert before[d][k] == old(View(doctorSlots[d][k]));
        assert after[d][k] == View(doctorSlots[d][k]);
      }
      RebookedFrom(doctorSlots, before, after, ok, slot, patientId, bufferTime);
    }

    /**
     * Drops the booking of `patientId`, taking the patient out of the booked
     * slot; reports whether there was a booking.
     */
    method CancelAppointment(patientId: string) returns (ok: bool)
      requires Valid()
      modifies this, AssignedSlot(patientId)
      ensures Valid()
      ensures ok == (patientId in old(slotAssignments))
      ensures slotAssignments == old(slotAssignments) - {patientId}
      ensures ok ==>
                var s := old(slotAssignments[patientId]);
                && s.patients == RemoveFirst(old(s.patients), patientId)
                && s.currentCapacity == old(s.currentCapacity) - (if patientId in old(s.patients) then 1 else 0)
                && s.endTime == old(s.endTime) && s.maxCapacity == old(s.maxCapacity) && s.bufferTime == old(s.bufferTime)
      ensures doctorSlots == old(doctorSlots) && doctorOrder == old(doctorOrder) && slotPosition == old(slotPosition)
    {
      if patientId in slotAssignments {
        var slot := slotAssignments[patientId];
        var removed := slot.RemovePatient(patientId);
        slotAssignments := slotAssignments - {patientId};
        ok := true;
      } else {
        ok := false;
      }
    }

    /**
     * Takes `patientId` out of the booked slot, if any, then books the patient
     * into `newSlot`.  A failed booking leaves the old booking recorded though
     * the patient has left that slot.
     */
    method RescheduleAppointment(patientId: string, newSlot: DoctorSlot, bufferTime: int) returns (ok: bool)
      requires Valid()
      modifies this, newSlot, AssignedSlot(patientId)
      ensures Valid()
      ensures var booked := patientId in old(slotAssignments);
              var freed := booked && old(slotAssignments[patientId]) == newSlot && patientId in old(newSlot.patients);
              var patients := if freed then RemoveFirst(old(newSlot.patients), patientId) else old(newSlot.patients);
              var occupied := old(newSlot.currentCapacity) - (if freed then 1 else 0);
              && ok == (occupied < old(newSlot.maxCapacity))
              && newSlot.patients == patients + (if ok then [patientId] else [])
              && newSlot.currentCapacity == occupied + (if ok then 1 else 0)
              && newSlot.bufferTime == (if ok && old(newSlot.bufferTime) < bufferTime then bufferTime else old(newSlot.bufferTime))
              && newSlot.endTime == old(newSlot.endTime) && newSlot.maxCapacity == old(newSlot.maxCapacity)
      ensures patientId in old(slotAssignments) && old(slotAssignments[patientId]) != newSlot ==>
                var s := old(slotAssignments[patientId]);
                && s.patients == RemoveFirst(old(s.patients), patientId)
                && s.currentCapacity == old(s.currentCapacity) - (if patientId in old(s.patients) then 1 else 0)
                && s.endTime == old(s.endTime) && s.maxCapacity == old(s.maxCapacity) && s.bufferTime == old(s.bufferTime)
      ensures slotAssignments == if ok then old(slotAssignments)[patientId := newSlot] else old(slotAssignments)
      ensures doctorSlots == old(doctorSlots) && doctorOrder == old(doctorOrder) && slotPosition == old(slotPosition)
    {
      if patientId in slotAssignments {
        var oldSlot := slotAssignments[patientId];
        var removed := oldSlot.RemovePatient(patientId);
      }
      ok := ScheduleAppointment(patientId, newSlot, bufferTime);
    }

    /** The doctor's slots starting on the day of `date` that have a place left, in list order. */
    method GetDoctorAvailability(doctorId: string, date: int) returns (r: seq<DoctorSlot>)
      ensures doctorId !in doctorSlots ==> r == []
      ensures doctorId in doctorSlots ==> r == AvailableOn(doctorSlots[doctorId], Date(date))
    {
      if doctorId !in doctorSlots {
        return [];
      }
      var slots := doctorSlots[doctorId];
      var target := Date(date);
      r := [];
      var i := 0;
      while i < |slots|
        invariant 0 <= i <= |slots|
        invariant r == AvailableOn(slots[..i], target)
      {
        AvailableOnStep(slots, target, i);
        if Date(slots[i].startTime) == target && slots[i].IsAvailable() {
          r := r + [slots[i]];
        }
        i := i + 1;
      }
      assert slots[..i] == slots;
    }

    /**
     * The slot with a place left that scores highest, the first such in scan
     * order (doctor after doctor, each list in order) when several tie, as a
     * stable sort by descending score puts it; none when no slot has a place.
     */
    method FindOptimalSlot(patientId: string, preferredDoctor: Option<string>, preferredDate: Option<int>,
                           preferredTime: Option<string>, risk: RiskLevel, urgency: int)
      returns (best: Option<DoctorSlot>)
      requires Valid()
      ensures var cands := AvailableIn(ScanOrder(doctorOrder, doctorSlots, preferredDoctor));
              && (best.None? <==> cands == [])
              && (best.Some? ==>
                    exists i :: IsFirstBest(cands, i, preferredDate, preferredTime, risk, urgency) && cands[i] == best.value)
    {
      assert forall d :: d in doctorOrder ==> d in doctorSlots;
      ghost var scan := AvailableIn(ScanOrder(doctorOrder, doctorSlots, preferredDoctor));
      var cands := ScanAvailable(doctorOrder, doctorSlots, preferredDoctor);
      assert cands == scan;
      if cands == [] {
        return None;
      }
      var bi := PickBest(cands, preferredDate, preferredTime, risk, urgency);
      assert AvailableIn(ScanOrder(doctorOrder, doctorSlots, preferredDoctor)) == cands;
      best := Some(cands[bi]);
    }

    /** The utilisation counts over every listed slot. */
    method GetSlotStatistics() returns (st: SlotStatistics)
      requires Valid()
      ensures st == Statistics(ScanOrder(doctorOrder, doctorSlots, None))
    {
      st := ScanStatistics(doctorOrder, doctorSlots);
    }
  }
}
