/**
 * The waitlist manager: a heap of entries (`waitlist`), the entry of each
 * patient id (`patientRecords`) and the next contact time of each patient
 * (`contactSchedule`), kept in step by every operation.
 */
module Waitlist {
  import opened Wrappers
  import opened Clock
  import opened RiskAssessment
  import opened WaitlistEntries
  import opened Heapq

  // ---------------------------------------------------------------------------
  // Records and the heap hold the same entries
  // ---------------------------------------------------------------------------

  /**
   * Each record is filed under its own patient id, and the heap holds each
   * recorded entry exactly once.
   */
  ghost predicate Tracked(xs: seq<WaitlistEntry>, records: map<string, WaitlistEntry>)
  {
    && (forall id :: id in records ==> records[id].patientId == id)
    && multiset(xs) == multiset(records.Values)
  }

  /** Filing a value under a new key adds it to the values. */
  lemma ValuesAdd<K, V>(m: map<K, V>, k: K, v: V)
    requires k !in m
    ensures m[k := v].Values == m.Values + {v}
  {
    var r := m[k := v];
    forall x | x in r.Values
      ensures x in m.Values + {v}
    {
      var j :| j in r && r[j] == x;
      if j != k {
        assert m[j] == x;
      }
    }
    forall x | x in m.Values + {v}
      ensures x in r.Values
    {
      if x == v {
        assert r[k] == v;
      } else {
        var j :| j in m && m[j] == x;
        assert r[j] == x;
      }
    }
  }

  /** Dropping the only key of a value drops the value. */
  lemma ValuesRemove<K, V>(m: map<K, V>, k: K)
    requires k in m
    requires forall j :: j in m && m[j] == m[k] ==> j == k
    ensures (m - {k}).Values == m.Values - {m[k]}
  {
    var r := m - {k};
    forall x | x in m.Values - {m[k]}
      ensures x in r.Values
    {
      var j :| j in m && m[j] == x;
      assert r[j] == x;
    }
  }

  lemma MultisetAddNew<T>(s: set<T>, x: T)
    requires x !in s
    ensures multiset(s + {x}) == multiset(s) + multiset{x}
  {
  }

  lemma MultisetRemove<T>(s: set<T>, x: T)
    ensures multiset(s - {x}) == multiset(s)[x := 0]
  {
  }

  /** A list that holds each member of a set exactly once has no repeated entry. */
  lemma DistinctFromSet<T>(xs: seq<T>, s: set<T>)
    requires multiset(xs) == multiset(s)
    ensures forall i, j :: 0 <= i < j < |xs| ==> xs[i] != xs[j]
  {
    forall i, j | 0 <= i < j < |xs|
      ensures xs[i] != xs[j]
    {
      CountedTwice(xs, i, j);
    }
  }

  lemma CountedTwice<T>(xs: seq<T>, i: int, j: int)
    requires 0 <= i < j < |xs|
    ensures xs[i] == xs[j] ==> multiset(xs)[xs[i]] >= 2
  {
    if xs[i] == xs[j] {
      assert xs == xs[..j] + xs[j..];
      assert xs[i] in multiset(xs[..j]);
    }
  }

  /** Filing a new entry under a new id adds exactly that entry to the tracked ones. */
  lemma TrackedAdd(xs: seq<WaitlistEntry>, records: map<string, WaitlistEntry>, id: string, e: WaitlistEntry)
    requires Tracked(xs, records) && id !in records && e !in records.Values
    requires e.patientId == id
    ensures Tracked(xs + [e], records[id := e])
  {
    ValuesAdd(records, id, e);
    MultisetAddNew(records.Values, e);
    assert multiset(xs + [e]) == multiset(xs) + multiset{e};
  }

  /** Keeping every entry but the one of `id` drops exactly that record. */
  lemma TrackedRemove(xs: seq<WaitlistEntry>, records: map<string, WaitlistEntry>, id: string)
    requires Tracked(xs, records) && id in records
    ensures Tracked(Without(xs, id), records - {id})
    ensures multiset(Without(xs, id)) == multiset(xs)[records[id] := 0]
  {
    var e := records[id];
    forall k | 0 <= k < |xs| && xs[k].patientId == id
      ensures xs[k] == e
    {
      assert xs[k] in multiset(records.Values);
      var j :| j in records && records[j] == xs[k];
    }
    WithoutOne(xs, id, e);
    ValuesRemove(records, id);
    MultisetRemove(records.Values, e);
  }

  // ---------------------------------------------------------------------------
  // Refreshing every entry
  // ---------------------------------------------------------------------------

  /** `update_waiting_time` has run on `e` at `now`: only the days waited and the priority changed. */
  twostate predicate Refreshed(e: WaitlistEntry, now: int)
    reads e
  {
    && e.Valid()
    && e.waitingDays == DaysElapsed(e.entryDate, now)
    && e.noShowProbability == old(e.noShowProbability) && e.urgencyScore == old(e.urgencyScore)
    && e.lastContactDate == old(e.lastContactDate) && e.contactAttempts == old(e.contactAttempts)
  }

  /** The loop of `_update_all_waiting_times`: `update_waiting_time` on every entry in list order. */
  method RefreshAll(xs: seq<WaitlistEntry>, now: int)
    requires forall i, j :: 0 <= i < j < |xs| ==> xs[i] != xs[j]
    modifies xs
    ensures forall e :: e in xs ==> Refreshed(e, now)
  {
    for i := 0 to |xs|
      invariant forall k :: 0 <= k < i ==> Refreshed(xs[k], now)
      invariant forall k :: i <= k < |xs| ==> unchanged(xs[k])
    {
      xs[i].UpdateWaitingTime(now);
    }
  }

  // ---------------------------------------------------------------------------
  // Matching a patient to a free slot
  // ---------------------------------------------------------------------------

  /**
   * Position `k` holds the chosen entry: it suits the slot, no suitable entry
   * scores higher, and every suitable entry before it scores strictly lower
   * (the stable descending sort keeps the earliest of equal scores first).
   */
  ghost predicate FirstBest(xs: seq<WaitlistEntry>, k: int, slotStart: Option<int>, doctorId: string, slotDate: int)
    reads xs
  {
    && 0 <= k < |xs| && Suits(xs[k], doctorId, slotDate)
    && (forall j :: 0 <= j < |xs| && Suits(xs[j], doctorId, slotDate) ==>
          EntryMatchScore(xs[j], slotStart, slotDate) <= EntryMatchScore(xs[k], slotStart, slotDate))
    && (forall j :: 0 <= j < k && Suits(xs[j], doctorId, slotDate) ==>
          EntryMatchScore(xs[j], slotStart, slotDate) < EntryMatchScore(xs[k], slotStart, slotDate))
  }

  /**
   * The filter, the scoring and the stable sort of `find_optimal_patient_for_slot`
   * on an already refreshed list: nothing when no entry suits the slot,
   * otherwise the first entry of the highest score among those that do.
   */
  method PickPatient(xs: seq<WaitlistEntry>, slotStart: Option<int>, doctorId: string, slotDate: int)
    returns (best: Option<WaitlistEntry>)
    ensures best.None? <==> forall k :: 0 <= k < |xs| ==> !Suits(xs[k], doctorId, slotDate)
    ensures best.Some? ==> exists k :: FirstBest(xs, k, slotStart, doctorId, slotDate) && xs[k] == best.value
  {
    best := None;
    var bestIndex := -1;
    var bestScore := 0;
    for i := 0 to |xs|
      invariant best.None? <==> forall k :: 0 <= k < i ==> !Suits(xs[k], doctorId, slotDate)
      invariant best.None? ==> bestIndex == -1
      invariant best.Some? ==> 0 <= bestIndex < i && xs[bestIndex] == best.value
      invariant best.Some? ==> bestScore == EntryMatchScore(xs[bestIndex], slotStart, slotDate)
      invariant best.Some? ==> FirstBest(xs[..i], bestIndex, slotStart, doctorId, slotDate)
    {
      var e := xs[i];
      if Suits(e, doctorId, slotDate) {
        var score := EntryMatchScore(e, slotStart, slotDate);
        if best.None? || score > bestScore {
          best := Some(e);
          bestIndex := i;
          bestScore := score;
        }
      }
      assert xs[..i + 1][..i] == xs[..i];
    }
    assert xs[..|xs|] == xs;
  }

  // ---------------------------------------------------------------------------
  // Contacts
  // ---------------------------------------------------------------------------

  /** The patients whose next contact is due at `now`, with that contact time. */
  function Due(schedule: map<string, int>, now: int): (due: map<string, int>)
    ensures due.Keys <= schedule.Keys
    ensures forall id :: id in due ==> due[id] == schedule[id] <= now
  {
    map id | id in schedule && schedule[id] <= now :: schedule[id]
  }

  /** A patient is due exactly from the scheduled time on. */
  lemma ScheduledDue(schedule: map<string, int>, id: string, at: int, now: int)
    ensures id in Due(schedule[id := at], now) <==> at <= now
    ensures forall other :: other != id ==> (other in Due(schedule[id := at], now) <==> other in Due(schedule, now))
  {
  }

  /** Whoever is due stays due as time passes, until rescheduled. */
  lemma DueGrows(schedule: map<string, int>, t1: int, t2: int)
    requires t1 <= t2
    ensures Due(schedule, t1).Keys <= Due(schedule, t2).Keys
  {
  }

  /**
   * The days until the next contact after an attempt: by tier after a
   * successful one (1 for HIGH, 3 for MEDIUM, 7 for LOW), 1 after a failed one.
   */
  function ContactDelay(success: bool, p: real): (d: int)
    ensures 1 <= d <= 7
    ensures !success ==> d == 1
  {
    if success then
      match AssessRisk(DefaultAssessor, p)
      case High => 1
      case Medium => 3
      case Low => 7
    else 1
  }

  /** After a successful contact a riskier patient is called again no later; a failure always retries first. */
  lemma ContactDelayRisk(p1: real, p2: real)
    requires p1 <= p2
    ensures ContactDelay(true, p2) <= ContactDelay(true, p1)
    ensures ContactDelay(false, p1) <= ContactDelay(true, p2)
    ensures ContactDelay(true, p1) == 7 <==> AssessRisk(DefaultAssessor, p1) == Low
  {
    AssessRiskMonotone(DefaultAssessor, p1, p2);
  }

  // ---------------------------------------------------------------------------
  // The manager
  // ---------------------------------------------------------------------------

  /** The three parts of a manager's state agree: see `WaitlistManager.Valid`. */
  ghost predicate Consistent(heap: seq<WaitlistEntry>, records: map<string, WaitlistEntry>, contacts: map<string, int>)
    reads heap
  {
    && IsHeap(heap)
    && Tracked(heap, records)
    && contacts.Keys == records.Keys
  }

  /**
   * The state after `add_patient` of entry `e` under `id`: the record filed,
   * the entry added to the heap, and the first contact at `at`.
   */
  ghost predicate AddedTo(heap: seq<WaitlistEntry>, records: map<string, WaitlistEntry>, contacts: map<string, int>,
                          heap': seq<WaitlistEntry>, records': map<string, WaitlistEntry>, contacts': map<string, int>,
                          id: string, e: WaitlistEntry, at: int)
  {
    && records' == records[id := e]
    && multiset(heap') == multiset(heap) + multiset{e}
    && contacts' == contacts[id := at]
  }

  /** `add_patient` keeps the parts in step. */
  lemma AddConsistent(heap: seq<WaitlistEntry>, records: map<string, WaitlistEntry>, contacts: map<string, int>,
                      id: string, e: WaitlistEntry, pushed: seq<WaitlistEntry>, at: int)
    requires Consistent(heap, records, contacts) && id !in records && e !in records.Values
    requires e.patientId == id
    requires IsHeap(pushed) && multiset(pushed) == multiset(heap) + multiset{e}
    ensures Consistent(pushed, records[id := e], contacts[id := at])
  {
    TrackedAdd(heap, records, id, e);
    assert multiset(pushed) == multiset(heap + [e]);
  }

  /** `remove_patient` keeps the parts in step. */
  lemma RemoveConsistent(heap: seq<WaitlistEntry>, records: map<string, WaitlistEntry>, contacts: map<string, int>,
                         id: string, rebuilt: seq<WaitlistEntry>)
    requires Consistent(heap, records, contacts) && id in records
    requires IsHeap(rebuilt) && multiset(rebuilt) == multiset(Without(heap, id))
    ensures Consistent(rebuilt, records - {id}, contacts - {id})
    ensures multiset(rebuilt) == multiset(heap)[records[id] := 0]
  {
    TrackedRemove(heap, records, id);
  }

  /**
   * Heapifying again after priorities were recomputed in place keeps the
   * parts in step: records and contacts are untouched and the heap holds the
   * same entries in heap order of their new priorities.
   */
  lemma RebuiltConsistent(heap: seq<WaitlistEntry>, records: map<string, WaitlistEntry>, contacts: map<string, int>,
                          rebuilt: seq<WaitlistEntry>)
    requires forall id :: id in records ==> records[id].patientId == id
    requires multiset(heap) == multiset(records.Values) && contacts.Keys == records.Keys
    requires IsHeap(rebuilt) && multiset(rebuilt) == multiset(heap)
    ensures Consistent(rebuilt, records, contacts)
  {
  }

  /** The end of Python's slice `xs[:count]` on a list of length `n`. */
  function SliceEnd(count: int, n: nat): (k: nat)
    ensures k <= n
    ensures 0 <= count <= n ==> k == count
    ensures n <= count ==> k == n
    ensures count < 0 ==> k == n - Min(-count, n)
  {
    if count >= 0 then Min(count, n)
    else if n + count < 0 then 0
    else n + count
  }

  /** A list whose entries the other list holds at least as often has no entry the other lacks. */
  lemma Members<T>(xs: seq<T>, ys: seq<T>)
    requires multiset(xs) <= multiset(ys)
    ensures forall e :: e in xs ==> e in ys
  {
    forall e | e in xs
      ensures e in ys
    {
      assert e in multiset(xs);
    }
  }

  /** An entry on a tracked heap is the record filed under its own patient id. */
  lemma EntryRecorded(heap: seq<WaitlistEntry>, records: map<string, WaitlistEntry>, e: WaitlistEntry)
    requires Tracked(heap, records) && e in heap
    ensures e.patientId in records && records[e.patientId] == e
  {
    assert e in multiset(records.Values);
    var id :| id in records && records[id] == e;
  }

  /** A manager stays well formed while neither it nor any entry on its waitlist changes. */
  twostate lemma StillValid(m: WaitlistManager)
    requires old(m.Valid()) && unchanged(m)
    requires forall e :: e in m.waitlist ==> unchanged(e)
    ensures m.Valid()
  {
    forall c | 0 < c < |m.waitlist|
      ensures m.waitlist[Parent(c)].priorityScore >= m.waitlist[c].priorityScore
    {
      assert m.waitlist[c] in m.waitlist && m.waitlist[Parent(c)] in m.waitlist;
      assert old(m.waitlist[Parent(c)].priorityScore >= m.waitlist[c].priorityScore);
    }
  }

  class WaitlistManager {
    var waitlist: seq<WaitlistEntry>
    var patientRecords: map<string, WaitlistEntry>
    var contactSchedule: map<string, int>

    /** The heap is in heap order, holds exactly the recorded entries, and every patient has a next contact. */
    ghost predicate Valid()
      reads this, waitlist
    {
      Consistent(waitlist, patientRecords, contactSchedule)
    }

    /** An empty waitlist. */
    constructor ()
      ensures Valid()
      ensures waitlist == [] && patientRecords == map[] && contactSchedule == map[]
    {
      waitlist := [];
      patientRecords := map[];
      contactSchedule := map[];
    }

    /** `_schedule_contact`: the next contact of the patient is `daysDelay` days after `now`. */
    method ScheduleContact(patientId: string, daysDelay: int, now: int)
      modifies this
      ensures contactSchedule == old(contactSchedule)[patientId := now + daysDelay * MinutesPerDay]
      ensures waitlist == old(waitlist) && patientRecords == old(patientRecords)
    {
      contactSchedule := contactSchedule[patientId := now + daysDelay * MinutesPerDay];
    }

    /**
     * `add_patient`: refused, changing nothing, for an id already recorded;
     * otherwise a new entry entered at `now` is recorded, pushed on the heap
     * and given a first contact one day later (`_schedule_contact(id, 1)`,
     * written out here as the same map update `ScheduleContact` makes).
     */
    method AddPatient(patientId: string, p: real, urgency: int, preferredDoctor: Option<string>,
                      preferredDate: Option<int>, medicalNotes: string, now: int) returns (ok: bool)
      requires Valid()
      modifies this
      ensures Valid()
      ensures ok <==> patientId !in old(patientRecords)
      ensures !ok ==> waitlist == old(waitlist) && patientRecords == old(patientRecords) && contactSchedule == old(contactSchedule)
      ensures ok ==> patientId in patientRecords && fresh(patientRecords[patientId])
      ensures ok ==> patientRecords[patientId].Entered(patientId, p, urgency, now, preferredDoctor, preferredDate, medicalNotes)
      ensures ok ==> AddedTo(old(waitlist), old(patientRecords), old(contactSchedule),
                             waitlist, patientRecords, contactSchedule, patientId, patientRecords[patientId], now + MinutesPerDay)
    {
      if patientId in patientRecords {
        return false;
      }
      var entry := new WaitlistEntry(patientId, p, urgency, now, preferredDoctor, preferredDate, medicalNotes);
      var heap, records, contacts := waitlist, patientRecords, contactSchedule;
      var pushed := HeapPush(heap, entry);
      AddConsistent(heap, records, contacts, patientId, entry, pushed, now + 1 * MinutesPerDay);
      waitlist, patientRecords, contactSchedule := pushed, records[patientId := entry], contacts[patientId := now + 1 * MinutesPerDay];
      ok := true;
    }

    /**
     * `remove_patient`: refused, changing nothing, for an unknown id;
     * otherwise the patient's record, heap entry and contact are dropped and
     * the remaining entries are heapified again.
     */
    method RemovePatient(patientId: string) returns (ok: bool)
      requires Valid()
      modifies this
      ensures Valid()
      ensures ok <==> patientId in old(patientRecords)
      ensures !ok ==> waitlist == old(waitlist) && patientRecords == old(patientRecords) && contactSchedule == old(contactSchedule)
      ensures ok ==> && patientRecords == old(patientRecords) - {patientId}
                     && contactSchedule == old(contactSchedule) - {patientId}
                     && multiset(waitlist) == multiset(old(waitlist))[old(patientRecords)[patientId] := 0]
    {
      if patientId !in patientRecords {
        return false;
      }
      var heap, records, contacts := waitlist, patientRecords, contactSchedule;
      var kept := Without(heap, patientId);
      var rebuilt := Heapify(kept);
      RemoveConsistent(heap, records, contacts, patientId, rebuilt);
      waitlist, patientRecords, contactSchedule := rebuilt, records - {patientId}, contacts - {patientId};
      ok := true;
    }
  
    /**
     * `_update_all_waiting_times`: every entry's days waited and priority are
     * recomputed at `now`, and the heap is rebuilt over the same entries.
     */
    method UpdateAllWaitingTimes(now: int)
      requires Valid()
      modifies this, waitlist
      ensures Valid()
      ensures patientRecords == old(patientRecords) && contactSchedule == old(contactSchedule)
      ensures multiset(waitlist) == multiset(old(waitlist))
      ensures forall e :: e in old(waitlist) ==> Refreshed(e, now)
    {
      var heap, records, contacts := waitlist, patientRecords, contactSchedule;
      DistinctFromSet(heap, records.Values);
      RefreshAll(heap, now);
      var rebuilt := Heapify(heap);
      RebuiltConsistent(heap, records, contacts, rebuilt);
      waitlist := rebuilt;
    }

    /**
     * `get_top_patients`: after refreshing every entry, the first `count`
     * entries of the heap list (Python's slice, so a negative count drops
     * entries from the end).  Only the first is promised to rank highest.
     */
    method GetTopPatients(count: int, now: int) returns (top: seq<WaitlistEntry>)
      requires Valid()
      modifies this, waitlist
      ensures Valid()
      ensures patientRecords == old(patientRecords) && contactSchedule == old(contactSchedule)
      ensures multiset(waitlist) == multiset(old(waitlist))
      ensures forall e :: e in old(waitlist) ==> Refreshed(e, now)
      ensures top == waitlist[..SliceEnd(count, |waitlist|)]
      ensures |top| > 0 ==> forall e :: e in waitlist ==> top[0].priorityScore >= e.priorityScore
    {
      UpdateAllWaitingTimes(now);
      top := waitlist[..SliceEnd(count, |waitlist|)];
      forall e | e in waitlist && |top| > 0
        ensures top[0].priorityScore >= e.priorityScore
      {
        var i :| 0 <= i < |waitlist| && waitlist[i] == e;
        HeapRootIsMax(waitlist, i);
      }
    }

    /**
     * `find_optimal_patient_for_slot`: nothing on an empty waitlist;
     * otherwise every entry is refreshed and the result is the first entry of
     * the highest match score among those suited to the slot, or nothing.
     */
    method FindOptimalPatientForSlot(slotStart: Option<int>, doctorId: string, slotDate: int, now: int)
      returns (best: Option<WaitlistEntry>)
      requires Valid()
      modifies this, waitlist
      ensures Valid()
      ensures patientRecords == old(patientRecords) && contactSchedule == old(contactSchedule)
      ensures multiset(waitlist) == multiset(old(waitlist))
      ensures forall e :: e in old(waitlist) ==> Refreshed(e, now)
      ensures best.None? <==> forall k :: 0 <= k < |waitlist| ==> !Suits(waitlist[k], doctorId, slotDate)
      ensures best.Some? ==> exists k :: FirstBest(waitlist, k, slotStart, doctorId, slotDate) && waitlist[k] == best.value
    {
      if |waitlist| == 0 {
        return None;
      }
      UpdateAllWaitingTimes(now);
      best := PickPatient(waitlist, slotStart, doctorId, slotDate);
    }

    /**
     * `update_patient_priority`: refused, changing nothing, for an unknown
     * id; otherwise the supplied factors replace the entry's, its priority is
     * recomputed and the heap rebuilt.  The days waited are not refreshed.
     */
    method UpdatePatientPriority(patientId: string, newProbability: Option<real>, newUrgency: Option<int>)
      returns (ok: bool)
      requires Valid()
      modifies this, if patientId in patientRecords then {patientRecords[patientId]} else {}
      ensures Valid()
      ensures ok <==> patientId in old(patientRecords)
      ensures patientRecords == old(patientRecords) && contactSchedule == old(contactSchedule)
      ensures multiset(waitlist) == multiset(old(waitlist))
      ensures !ok ==> waitlist == old(waitlist)
      ensures ok ==> var e := patientRecords[patientId];
                     && e.noShowProbability == newProbability.GetOr(old(e.noShowProbability))
                     && e.urgencyScore == newUrgency.GetOr(old(e.urgencyScore))
                     && e.waitingDays == old(e.waitingDays)
                     && e.lastContactDate == old(e.lastContactDate) && e.contactAttempts == old(e.contactAttempts)
                     && e.Valid()
    {
      if patientId !in patientRecords {
        return false;
      }
      var heap, records, contacts := waitlist, patientRecords, contactSchedule;
      var entry := records[patientId];
      if newProbability.Some? {
        entry.noShowProbability := newProbability.value;
      }
      if newUrgency.Some? {
        entry.urgencyScore := newUrgency.value;
      }
      entry.CalculatePriorityScore();
      var rebuilt := Heapify(heap);
      RebuiltConsistent(heap, records, contacts, rebuilt);
      waitlist := rebuilt;
      ok := true;
    }

    /**
     * `get_contact_schedule`: the patients whose next contact is due at
     * `now`, with its time.
     */
    method GetContactSchedule(now: int) returns (due: map<string, int>)
      ensures due == Due(contactSchedule, now)
    {
      due := map[];
      var pending := contactSchedule.Keys;
      while pending != {}
        invariant pending <= contactSchedule.Keys
        invariant forall id :: id in due <==> id in contactSchedule && id !in pending && contactSchedule[id] <= now
        invariant forall id :: id in due ==> due[id] == contactSchedule[id]
        decreases |pending|
      {
        var id :| id in pending;
        if now >= contactSchedule[id] {
          due := due[id := contactSchedule[id]];
        }
        pending := pending - {id};
      }
    }

    /**
     * `record_contact_attempt`: refused, changing nothing, for an unknown id;
     * otherwise the attempt is counted on the entry and the next contact is
     * scheduled `ContactDelay` days after `now`.
     */
    method RecordContactAttempt(patientId: string, success: bool, now: int) returns (ok: bool)
      requires Valid()
      modifies this, if patientId in patientRecords then {patientRecords[patientId]} else {}
      ensures Valid()
      ensures ok <==> patientId in old(patientRecords)
      ensures waitlist == old(waitlist) && patientRecords == old(patientRecords)
      ensures !ok ==> contactSchedule == old(contactSchedule)
      ensures ok ==> var e := patientRecords[patientId];
                     && contactSchedule == old(contactSchedule)[patientId := now + ContactDelay(success, e.noShowProbability) * MinutesPerDay]
                     && e.contactAttempts == old(e.contactAttempts) + 1 && e.lastContactDate == now
                     && e.noShowProbability == old(e.noShowProbability) && e.urgencyScore == old(e.urgencyScore)
                     && e.waitingDays == old(e.waitingDays) && e.priorityScore == old(e.priorityScore)
    {
      if patientId !in patientRecords {
        return false;
      }
      var entry := patientRecords[patientId];
      entry.RecordContactAttempt(now);
      ScheduleContact(patientId, ContactDelay(success, entry.noShowProbability), now);
      ok := true;
    }
  }
}
