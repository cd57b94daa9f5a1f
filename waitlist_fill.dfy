/**
 * The auto-fill pass of the appointment scheduler as values: what a slot
 * looks like once booked, the log of the slots filled, and the state the
 * pass reaches after each slot, with the lemmas that carry it from one slot
 * to the next.
 */
module WaitlistFill {
  import opened Wrappers
  import opened Slots
  import opened WaitlistEntries

  /** A slot view with a place left, as `is_available` tests it. */
  predicate HasPlace(v: SlotView)
  {
    v.currentCapacity < v.maxCapacity
  }

  /** A slot view after `schedule_appointment(id, slot)` booked `id` with the default buffer of 0 minutes. */
  function Booked(v: SlotView, id: string): SlotView
  {
    Admitted(v, id, 0)
  }

  /** The state the auto-fill pass works on, as values: each listed slot's view, the records, the bookings, the waitlist and the slot lists. */
  datatype Snapshot = Snapshot(views: map<DoctorSlot, SlotView>, records: map<string, WaitlistEntry>,
                               bookings: map<string, DoctorSlot>, entries: seq<WaitlistEntry>,
                               slots: map<string, seq<DoctorSlot>>, order: seq<string>,
                               position: map<DoctorSlot, (string, int)>)

  /**
   * The slot at position `pos` has been visited once the pass reaches slot
   * `i` of the doctor at `di`: its doctor comes earlier in `order`, or it
   * comes earlier in that doctor's list.
   */
  ghost predicate Visited(order: seq<string>, pos: (string, int), di: int, i: int)
  {
    || (0 <= di <= |order| && pos.0 in order[..di])
    || (0 <= di < |order| && pos.0 == order[di] && pos.1 < i)
  }

  /** A record of the pass: the slots filled, in order, each with the patient booked into it. */
  type FillLog = seq<(DoctorSlot, string)>

  /** The patients the log booked. */
  function Ids(log: FillLog): set<string>
  {
    if log == [] then {} else Ids(log[..|log| - 1]) + {log[|log| - 1].1}
  }

  /** The patient the log booked into `s`, if any (the last one). */
  function BookedInto(log: FillLog, s: DoctorSlot): Option<string>
  {
    if log == [] then None
    else if log[|log| - 1].0 == s then Some(log[|log| - 1].1)
    else BookedInto(log[..|log| - 1], s)
  }

  /** The bookings `m` after each logged patient was booked into the logged slot, in order. */
  function Assign(m: map<string, DoctorSlot>, log: FillLog): map<string, DoctorSlot>
  {
    if log == [] then m else Assign(m, log[..|log| - 1])[log[|log| - 1].1 := log[|log| - 1].0]
  }

  /** A slot view after the pass, given the patient it booked into the slot, if any. */
  function After(v: SlotView, b: Option<string>): SlotView
  {
    match b
    case None => v
    case Some(id) => Booked(v, id)
  }

  /** No slot and no patient appears twice in the log. */
  ghost predicate LogDistinct(log: FillLog)
  {
    forall k, l :: 0 <= k < l < |log| ==> log[k].0 != log[l].0 && log[k].1 != log[l].1
  }

  /** `Ids` holds exactly the logged patients. */
  lemma {:induction false} IdsMembers(log: FillLog, id: string)
    ensures id in Ids(log) <==> exists k :: 0 <= k < |log| && log[k].1 == id
  {
    if log != [] {
      var init := log[..|log| - 1];
      IdsMembers(init, id);
      if id in Ids(init) {
        var k :| 0 <= k < |init| && init[k].1 == id;
        assert log[k].1 == id;
      }
      if exists k :: 0 <= k < |log| && log[k].1 == id {
        var k :| 0 <= k < |log| && log[k].1 == id;
        if k < |init| {
          assert init[k].1 == id;
        }
      }
    }
  }

  /** A slot the log never names has no patient booked into it. */
  lemma {:induction false} NotBookedInto(log: FillLog, s: DoctorSlot)
    requires forall k :: 0 <= k < |log| ==> log[k].0 != s
    ensures BookedInto(log, s) == None
  {
    if log != [] {
      var init := log[..|log| - 1];
      assert forall k :: 0 <= k < |init| ==> init[k] == log[k];
      NotBookedInto(init, s);
    }
  }

  /** A logged slot holds its own logged patient, when the log names no slot twice. */
  lemma {:induction false} LoggedBookedInto(log: FillLog, k: int)
    requires 0 <= k < |log| && LogDistinct(log)
    ensures BookedInto(log, log[k].0) == Some(log[k].1)
  {
    var last := |log| - 1;
    if k < last {
      var init := log[..last];
      assert forall j :: 0 <= j < |init| ==> init[j] == log[j];
      assert log[k].0 != log[last].0;
      LoggedBookedInto(init, k);
    }
  }

  /**
   * The bookings the log makes: each logged patient is booked into its
   * logged slot, and every other patient keeps the booking of `m`.
   */
  lemma {:induction false} AssignEffect(m: map<string, DoctorSlot>, log: FillLog, id: string)
    requires LogDistinct(log)
    ensures id in Assign(m, log) <==> id in m || id in Ids(log)
    ensures id !in Ids(log) && id in m ==> Assign(m, log)[id] == m[id]
    ensures forall k :: 0 <= k < |log| && log[k].1 == id ==> id in Assign(m, log) && Assign(m, log)[id] == log[k].0
  {
    if log != [] {
      var init := log[..|log| - 1];
      assert forall j :: 0 <= j < |init| ==> init[j] == log[j];
      assert LogDistinct(init);
      AssignEffect(m, init, id);
      IdsMembers(init, id);
      forall k | 0 <= k < |init| && log[k].1 == id
        ensures log[|log| - 1].1 != id
      {
      }
    }
  }

  /**
   * The state `cur` of `process_waitlist_fill` on reaching slot `i` of the
   * doctor at `di`, having filled the `filled` slots of `log`, from the
   * state `start`.
   */
  ghost predicate Progress(start: Snapshot, cur: Snapshot, log: FillLog, filled: int, di: int, i: int)
  {
    && Shape(start, cur, di, i)
    && Logged(start, log, filled, di, i)
    && Holds(start, cur, log)
    && Maximal(start, cur, log, di, i)
  }

  /** The slot lists are as the pass found them, and the pass is at slot `i` of the doctor at `di`. */
  ghost predicate Shape(start: Snapshot, cur: Snapshot, di: int, i: int)
  {
    && Indexed(start.order, start.slots, start.position) && start.views.Keys == start.position.Keys
    && cur.slots == start.slots && cur.order == start.order && cur.position == start.position
    && 0 <= di <= |start.order| && (di < |start.order| ==> 0 <= i <= |start.slots[start.order[di]]|)
  }

  /**
   * The `filled` bookings of `log` went to distinct slots and distinct
   * patients; each slot had been visited and had a place left, each patient
   * was on record and suits the slot's doctor and day.
   */
  ghost predicate Logged(start: Snapshot, log: FillLog, filled: int, di: int, i: int)
    requires start.views.Keys == start.position.Keys
  {
    && filled == |log| && LogDistinct(log)
    && forall k :: 0 <= k < |log| ==>
         && log[k].0 in start.views && HasPlace(start.views[log[k].0])
         && Visited(start.order, start.position[log[k].0], di, i) && log[k].1 in start.records
         && Suits(start.records[log[k].1], start.position[log[k].0].0, log[k].0.startTime)
  }

  /**
   * Each slot shows the booking the log made into it, if any, and is
   * otherwise as it was; the logged patients left the records and were
   * booked; the waitlist only lost entries.
   */
  ghost predicate Holds(start: Snapshot, cur: Snapshot, log: FillLog)
  {
    && cur.views.Keys == start.views.Keys
    && (forall s :: s in start.views ==> cur.views[s] == After(start.views[s], BookedInto(log, s)))
    && cur.records == start.records - Ids(log)
    && cur.bookings == Assign(start.bookings, log)
    && (forall e :: e in cur.entries ==> e in start.entries)
  }

  /** Every visited slot left unfilled is full or suits no patient still waiting. */
  ghost predicate Maximal(start: Snapshot, cur: Snapshot, log: FillLog, di: int, i: int)
    requires Indexed(start.order, start.slots, start.position) && start.views.Keys == start.position.Keys
  {
    forall d, j ::
      && d in start.slots && 0 <= j < |start.slots[d]| && Visited(start.order, (d, j), di, i)
      && BookedInto(log, start.slots[d][j]) == None
      ==> (!HasPlace(start.views[start.slots[d][j]]) ||
           forall e :: e in cur.entries ==> !Suits(e, d, start.slots[d][j].startTime))
  }

  /** The slot at `i` of the doctor at `di` is listed there, and the pass has not reached or filled it yet. */
  lemma SlotAt(start: Snapshot, cur: Snapshot, log: FillLog, filled: int, di: int, i: int)
    requires Progress(start, cur, log, filled, di, i) && di < |start.order| && i < |start.slots[start.order[di]]|
    ensures var s := start.slots[start.order[di]][i];
            && s in start.views && start.position[s] == (start.order[di], i)
            && !Visited(start.order, (start.order[di], i), di, i)
            && (forall k :: 0 <= k < |log| ==> log[k].0 != s)
            && BookedInto(log, s) == None
  {
    var d := start.order[di];
    var s := start.slots[d][i];
    assert d in start.slots;
    forall k | 0 <= k < di
      ensures start.order[k] != d
    {
    }
    NotBookedInto(log, s);
  }

  /**
   * One slot of the pass: from `cur`, `FillSlot` on the slot at `i` of the
   * doctor at `di` led to `next`, booking `placed` if anything.
   */
  ghost predicate SlotFilled(cur: Snapshot, next: Snapshot, slot: DoctorSlot, doctorId: string, placed: Option<string>)
    requires slot in cur.views
  {
    && next.slots == cur.slots && next.order == cur.order && next.position == cur.position
    && next.views.Keys == cur.views.Keys
    && (forall s :: s in cur.views ==> next.views[s] == if s == slot then After(cur.views[slot], placed) else cur.views[s])
    && (placed.Some? ==> HasPlace(cur.views[slot]) && placed.value in cur.records
                         && Suits(cur.records[placed.value], doctorId, slot.startTime))
    && next.bookings == (if placed.Some? then cur.bookings[placed.value := slot] else cur.bookings)
    && next.records == (if placed.Some? then cur.records - {placed.value} else cur.records)
    && (forall e :: e in next.entries ==> e in cur.entries)
    && (placed.None? && HasPlace(cur.views[slot]) ==> forall e :: e in next.entries ==> !Suits(e, doctorId, slot.startTime))
  }

  /** Appending a booking to the log adds its patient, books its slot and assigns the patient to it. */
  lemma Appended(m: map<string, DoctorSlot>, log: FillLog, slot: DoctorSlot, id: string)
    ensures Ids(log + [(slot, id)]) == Ids(log) + {id}
    ensures forall s :: BookedInto(log + [(slot, id)], s) == if s == slot then Some(id) else BookedInto(log, s)
    ensures Assign(m, log + [(slot, id)]) == Assign(m, log)[id := slot]
  {
    assert (log + [(slot, id)])[..|log|] == log;
  }

  /** Moving from slot `i` to slot `i + 1` of the doctor at `di` visits that one slot and no other. */
  lemma VisitedNext(start: Snapshot, di: int, i: int)
    requires Indexed(start.order, start.slots, start.position)
    requires 0 <= di < |start.order| && start.order[di] in start.slots && 0 <= i < |start.slots[start.order[di]]|
    ensures forall d, j ::
              && d in start.slots && 0 <= j < |start.slots[d]|
              && Visited(start.order, (d, j), di, i + 1) && !Visited(start.order, (d, j), di, i)
              ==> start.slots[d][j] == start.slots[start.order[di]][i]
  {
    forall d, j | d in start.slots && 0 <= j < |start.slots[d]| && Visited(start.order, (d, j), di, i + 1)
                  && !Visited(start.order, (d, j), di, i)
      ensures start.slots[d][j] == start.slots[start.order[di]][i]
    {
      assert start.position[start.slots[d][j]] == (d, j);
      assert start.position[start.slots[start.order[di]][i]] == (start.order[di], i);
    }
  }

  /** A turn of the inner loop keeps `Progress`, one slot further on. */
  lemma FillStep(start: Snapshot, cur: Snapshot, next: Snapshot, log: FillLog, filled: int, di: int, i: int,
                 placed: Option<string>)
    requires Progress(start, cur, log, filled, di, i) && di < |start.order| && i < |start.slots[start.order[di]]|
    requires start.slots[start.order[di]][i] in cur.views
    requires SlotFilled(cur, next, start.slots[start.order[di]][i], start.order[di], placed)
    ensures placed.Some? ==>
              Progress(start, next, log + [(start.slots[start.order[di]][i], placed.value)], filled + 1, di, i + 1)
    ensures placed.None? ==> Progress(start, next, log, filled, di, i + 1)
  {
    var d := start.order[di];
    var slot := start.slots[d][i];
    SlotAt(start, cur, log, filled, di, i);
    VisitedNext(start, di, i);
    assert cur.views[slot] == start.views[slot];
    if placed.Some? {
      var id := placed.value;
      LoggedBooked(start, log, filled, di, i, id);
      HoldsBooked(start, cur, next, log, slot, d, id);
      MaximalBooked(start, cur, next, log, di, i, id);
    } else {
      HoldsPassed(start, cur, next, log, slot, d);
      MaximalPassed(start, cur, next, log, di, i);
    }
  }

  /** A booking into the slot at `i` of the doctor at `di` extends the log as `Logged` demands. */
  lemma LoggedBooked(start: Snapshot, log: FillLog, filled: int, di: int, i: int, id: string)
    requires start.views.Keys == start.position.Keys && Logged(start, log, filled, di, i)
    requires 0 <= di < |start.order| && start.order[di] in start.slots && 0 <= i < |start.slots[start.order[di]]|
    requires var slot := start.slots[start.order[di]][i];
             && slot in start.views && start.position[slot] == (start.order[di], i) && HasPlace(start.views[slot])
             && (forall k :: 0 <= k < |log| ==> log[k].0 != slot)
    requires id in start.records && id !in Ids(log)
    requires Suits(start.records[id], start.order[di], start.slots[start.order[di]][i].startTime)
    ensures Logged(start, log + [(start.slots[start.order[di]][i], id)], filled + 1, di, i + 1)
  {
    var slot := start.slots[start.order[di]][i];
    var after := log + [(slot, id)];
    IdsMembers(log, id);
    forall k | 0 <= k < |after|
      ensures && after[k].0 in start.views && HasPlace(start.views[after[k].0])
              && Visited(start.order, start.position[after[k].0], di, i + 1) && after[k].1 in start.records
              && Suits(start.records[after[k].1], start.position[after[k].0].0, after[k].0.startTime)
    {
      if k < |log| {
        assert after[k] == log[k];
      }
    }
    forall k, l | 0 <= k < l < |after|
      ensures after[k].0 != after[l].0 && after[k].1 != after[l].1
    {
      if l < |log| {
        assert after[k] == log[k] && after[l] == log[l];
      } else {
        assert after[k] == log[k];
      }
    }
  }

  /** A booking of `id` into `slot` keeps `Holds` with the booking logged. */
  lemma HoldsBooked(start: Snapshot, cur: Snapshot, next: Snapshot, log: FillLog, slot: DoctorSlot, d: string, id: string)
    requires Holds(start, cur, log) && slot in start.views && BookedInto(log, slot) == None
    requires SlotFilled(cur, next, slot, d, Some(id))
    ensures Holds(start, next, log + [(slot, id)])
  {
    Appended(start.bookings, log, slot, id);
  }

  /** A booking into the slot at `i` of the doctor at `di` keeps `Maximal` one slot further on. */
  lemma MaximalBooked(start: Snapshot, cur: Snapshot, next: Snapshot, log: FillLog, di: int, i: int, id: string)
    requires Indexed(start.order, start.slots, start.position) && start.views.Keys == start.position.Keys
    requires Maximal(start, cur, log, di, i)
    requires 0 <= di < |start.order| && start.order[di] in start.slots && 0 <= i < |start.slots[start.order[di]]|
    requires forall d, j ::
               && d in start.slots && 0 <= j < |start.slots[d]|
               && Visited(start.order, (d, j), di, i + 1) && !Visited(start.order, (d, j), di, i)
               ==> start.slots[d][j] == start.slots[start.order[di]][i]
    requires forall e :: e in next.entries ==> e in cur.entries
    ensures Maximal(start, next, log + [(start.slots[start.order[di]][i], id)], di, i + 1)
  {
    Appended(start.bookings, log, start.slots[start.order[di]][i], id);
  }

  /** A slot left unfilled keeps `Holds` as it is. */
  lemma HoldsPassed(start: Snapshot, cur: Snapshot, next: Snapshot, log: FillLog, slot: DoctorSlot, d: string)
    requires Holds(start, cur, log) && slot in start.views
    requires SlotFilled(cur, next, slot, d, None)
    ensures Holds(start, next, log)
  {
  }

  /** A slot left unfilled keeps `Maximal` one slot further on: it was full or suits nobody left. */
  lemma MaximalPassed(start: Snapshot, cur: Snapshot, next: Snapshot, log: FillLog, di: int, i: int)
    requires Indexed(start.order, start.slots, start.position) && start.views.Keys == start.position.Keys
    requires Maximal(start, cur, log, di, i)
    requires 0 <= di < |start.order| && start.order[di] in start.slots && 0 <= i < |start.slots[start.order[di]]|
    requires forall d, j ::
               && d in start.slots && 0 <= j < |start.slots[d]|
               && Visited(start.order, (d, j), di, i + 1) && !Visited(start.order, (d, j), di, i)
               ==> start.slots[d][j] == start.slots[start.order[di]][i]
    requires var slot := start.slots[start.order[di]][i];
             && slot in cur.views && cur.views[slot] == start.views[slot]
             && SlotFilled(cur, next, slot, start.order[di], None)
    ensures Maximal(start, next, log, di, i + 1)
  {
  }

  /** Having visited all of a doctor's slots is having reached the next doctor. */
  lemma DoctorFilled(start: Snapshot, cur: Snapshot, log: FillLog, filled: int, di: int, i: int)
    requires 0 <= di < |start.order| && start.order[di] in start.slots && i == |start.slots[start.order[di]]|
    requires Progress(start, cur, log, filled, di, i)
    ensures Progress(start, cur, log, filled, di + 1, 0)
  {
    assert start.order[..di + 1] == start.order[..di] + [start.order[di]];
    forall k | 0 <= k < |log|
      ensures Visited(start.order, start.position[log[k].0], di + 1, 0)
    {
    }
    forall d, j | d in start.slots && 0 <= j < |start.slots[d]|
      ensures Visited(start.order, (d, j), di, i) <==> Visited(start.order, (d, j), di + 1, 0)
    {
    }
  }

  /** After the last doctor every slot has been visited. */
  lemma AllFilled(start: Snapshot, cur: Snapshot, log: FillLog, filled: int, di: int)
    requires di == |start.order| && Progress(start, cur, log, filled, di, 0)
    ensures forall d, j :: d in start.slots && 0 <= j < |start.slots[d]| && BookedInto(log, start.slots[d][j]) == None ==>
              !HasPlace(start.views[start.slots[d][j]]) ||
              forall e :: e in cur.entries ==> !Suits(e, d, start.slots[d][j].startTime)
  {
    assert start.order[..|start.order|] == start.order;
    forall d, j | d in start.slots && 0 <= j < |start.slots[d]|
      ensures Visited(start.order, (d, j), |start.order|, 0)
    {
      assert d in start.order;
    }
  }
}
