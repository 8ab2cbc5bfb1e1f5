/** The appointment slot allocator (src/components/AppointmentsCalendar.tsx),
    local branch: a fixed table of half-hour slots, the availability of a
    slot on the selected day, booking with a conflict check and soft
    cancellation, over the array stored under "dentclinic-appointments". */
module Appointments {
  import opened Lists
  import opened Text
  import opened Storage
  import Patients

  const AppointmentsKey := "dentclinic-appointments"

  datatype Status = Scheduled | Completed | Cancelled

  datatype Appointment = Appointment(
    id: string,
    patientName: string,
    patientId: Option<string>,
    date: string,   // the calendar day, "YYYY-MM-DD"
    time: string,   // a slot label, "HH:MM"
    createdAt: string,
    status: Status,
    notes: Option<string>)

  datatype BookingOutcome = MissingPatientName | SlotTaken | Booked

  // ------------------------------------------------------------ the slots

  /** `TIME_SLOTS`. */
  const TimeSlots: seq<string> := [
    "08:00", "08:30", "09:00", "09:30", "10:00", "10:30", "11:00", "11:30",
    "13:00", "13:30", "14:00", "14:30", "15:00", "15:30", "16:00", "16:30", "17:00", "17:30"
  ]

  function Digit(c: char): int {
    c as int - '0' as int
  }

  /** Minutes since midnight of an "HH:MM" label. */
  function Minutes(slot: string): int
    requires |slot| == 5
  {
    (Digit(slot[0]) * 10 + Digit(slot[1])) * 60 + Digit(slot[3]) * 10 + Digit(slot[4])
  }

  /** Where slot `i` lies: eight morning slots from 08:00, then ten
      afternoon slots from 13:00, thirty minutes apart. */
  function SlotStart(i: int): int {
    if i < 8 then 8 * 60 + 30 * i else 13 * 60 + 30 * (i - 8)
  }

  lemma SlotMinutes(i: int)
    requires 0 <= i < |TimeSlots|
    ensures |TimeSlots[i]| == 5 && TimeSlots[i][2] == ':'
    ensures Minutes(TimeSlots[i]) == SlotStart(i)
  {
    if i == 0 { assert TimeSlots[0] == "08:00"; }
    else if i == 1 { assert TimeSlots[1] == "08:30"; }
    else if i == 2 { assert TimeSlots[2] == "09:00"; }
    else if i == 3 { assert TimeSlots[3] == "09:30"; }
    else if i == 4 { assert TimeSlots[4] == "10:00"; }
    else if i == 5 { assert TimeSlots[5] == "10:30"; }
    else if i == 6 { assert TimeSlots[6] == "11:00"; }
    else if i == 7 { assert TimeSlots[7] == "11:30"; }
    else if i == 8 { assert TimeSlots[8] == "13:00"; }
    else if i == 9 { assert TimeSlots[9] == "13:30"; }
    else if i == 10 { assert TimeSlots[10] == "14:00"; }
    else if i == 11 { assert TimeSlots[11] == "14:30"; }
    else if i == 12 { assert TimeSlots[12] == "15:00"; }
    else if i == 13 { assert TimeSlots[13] == "15:30"; }
    else if i == 14 { assert TimeSlots[14] == "16:00"; }
    else if i == 15 { assert TimeSlots[15] == "16:30"; }
    else if i == 16 { assert TimeSlots[16] == "17:00"; }
    else { assert TimeSlots[17] == "17:30"; }
  }

  /** The slot table: eighteen "HH:MM" labels in strictly increasing order,
      on the half hour, from 08:00 to 11:30 and from 13:00 to 17:30, with
      nothing in the lunch hour. */
  lemma TimeSlotsShape()
    ensures |TimeSlots| == 18
    ensures forall i :: 0 <= i < |TimeSlots| ==> |TimeSlots[i]| == 5 && TimeSlots[i][2] == ':'
    ensures forall i, j :: 0 <= i < j < |TimeSlots| ==> Minutes(TimeSlots[i]) < Minutes(TimeSlots[j])
    ensures forall i :: 0 <= i < |TimeSlots| ==>
              Minutes(TimeSlots[i]) % 30 == 0
              && (8 * 60 <= Minutes(TimeSlots[i]) <= 11 * 60 + 30
                  || 13 * 60 <= Minutes(TimeSlots[i]) <= 17 * 60 + 30)
  {
    forall i | 0 <= i < |TimeSlots| ensures |TimeSlots[i]| == 5 && Minutes(TimeSlots[i]) == SlotStart(i) && TimeSlots[i][2] == ':' {
      SlotMinutes(i);
    }
  }

  // --------------------------------------------------- the day's schedule

  /** Not cancelled: the record still holds its slot. */
  predicate Live(a: Appointment) {
    a.status != Cancelled
  }

  /** `a` is a live appointment at the given day and time. */
  predicate Holds(a: Appointment, date: string, time: string) {
    a.date == date && a.time == time && Live(a)
  }

  /** The local branch of `fetchAppointments`: the stored appointments of
      the selected day, in stored order. */
  function DayAppointments(all: seq<Appointment>, date: string): (day: seq<Appointment>)
    ensures forall i :: 0 <= i < |day| ==> day[i].date == date
    ensures forall a :: multiset(day)[a] == if a.date == date then multiset(all)[a] else 0
  {
    Filter(all, (a: Appointment) => a.date == date)
  }

  /** The day view lists its appointments in the order they are stored. */
  lemma DayAppointmentsKeepOrder(all: seq<Appointment>, date: string)
    ensures IsSubsequence(DayAppointments(all, date), all)
  {
    FilterIsSubsequence(all, (a: Appointment) => a.date == date);
  }

  /** `isTimeSlotAvailable`: no live appointment of the day has this time. */
  function IsTimeSlotAvailable(day: seq<Appointment>, time: string): (free: bool)
    ensures free <==> forall i :: 0 <= i < |day| ==> !(day[i].time == time && Live(day[i]))
  {
    !Any(day, (a: Appointment) => a.time == time && Live(a))
  }

  /** `getAppointmentAtTime`: the first live appointment of the day at this
      time, found exactly when the slot is not available. */
  function GetAppointmentAtTime(day: seq<Appointment>, time: string): (r: Option<Appointment>)
    ensures r.Some? <==> !IsTimeSlotAvailable(day, time)
    ensures r.Some? ==> r.value in day && r.value.time == time && Live(r.value)
    ensures r.Some? ==> exists i :: 0 <= i < |day| && day[i] == r.value
                          && forall j :: 0 <= j < i ==> !(day[j].time == time && Live(day[j]))
  {
    Find(day, (a: Appointment) => a.time == time && Live(a))
  }

  /** The conflict check of the booking: the first stored live
      appointment at this day and time. */
  function FindConflict(all: seq<Appointment>, date: string, time: string): (r: Option<Appointment>)
    ensures r.Some? <==> exists i :: 0 <= i < |all| && Holds(all[i], date, time)
    ensures r.Some? ==> r.value in all && Holds(r.value, date, time)
  {
    Find(all, (a: Appointment) => Holds(a, date, time))
  }

  /** Availability on the day's list agrees with the store-wide conflict
      check: the grid and the booking agree on which slots are free. */
  lemma AvailabilityMatchesStore(all: seq<Appointment>, date: string, time: string)
    ensures IsTimeSlotAvailable(DayAppointments(all, date), time) <==> FindConflict(all, date, time).None?
  {
    var day := DayAppointments(all, date);
    if FindConflict(all, date, time).Some? {
      var i :| 0 <= i < |all| && Holds(all[i], date, time);
      assert multiset(all)[all[i]] > 0;
      assert all[i] in day;
    }
    if !IsTimeSlotAvailable(day, time) {
      var i :| 0 <= i < |day| && day[i].time == time && Live(day[i]);
      assert multiset(day)[day[i]] > 0;
      assert day[i] in all;
    }
  }

  // ------------------------------------------------------------- booking

  /** At most one live appointment per (date, time). */
  ghost predicate NoDoubleBooking(all: seq<Appointment>) {
    forall i, j :: 0 <= i < j < |all| && Live(all[i]) && Live(all[j]) ==>
      !(all[i].date == all[j].date && all[i].time == all[j].time)
  }

  /** The id each stored record carries. */
  function IdOf(a: Appointment): string {
    a.id
  }

  /** The record a successful booking appends. */
  function NewAppointment(id: string, patientName: string, date: string, time: string,
                          notes: string, createdAt: string): Appointment {
    Appointment(id, patientName, None, date, time, createdAt, Scheduled, Some(notes))
  }

  /** Appending a live appointment at a free (date, time) keeps the store
      free of double bookings. */
  lemma BookingKeepsNoDoubleBooking(all: seq<Appointment>, a: Appointment)
    requires NoDoubleBooking(all)
    requires FindConflict(all, a.date, a.time).None?
    ensures NoDoubleBooking(all + [a])
  {
    var r := all + [a];
    forall i, j | 0 <= i < j < |r| && Live(r[i]) && Live(r[j])
      ensures !(r[i].date == r[j].date && r[i].time == r[j].time)
    {
      if j == |all| {
        assert r[i] == all[i] && !Holds(all[i], a.date, a.time);
      }
    }
  }

  /** Once booked, the slot shows as taken and a second booking of it is
      refused. */
  lemma BookedSlotIsTaken(all: seq<Appointment>, a: Appointment)
    requires Live(a)
    ensures !IsTimeSlotAvailable(DayAppointments(all + [a], a.date), a.time)
    ensures FindConflict(all + [a], a.date, a.time) == Some(a) || FindConflict(all, a.date, a.time).Some?
  {
    var r := all + [a];
    assert Holds(r[|all|], a.date, a.time);
    AvailabilityMatchesStore(r, a.date, a.time);
    if FindConflict(all, a.date, a.time).None? {
      assert forall i :: 0 <= i < |all| ==> r[i] == all[i];
    }
  }

  lemma BookingKeepsIdsUnique(all: seq<Appointment>, a: Appointment)
    requires UniqueIds(all, IdOf) && a.id !in Ids(all, IdOf)
    ensures UniqueIds(all + [a], IdOf)
  {
    var r := all + [a];
    forall i, j | 0 <= i < j < |r| ensures r[i].id != r[j].id {
      if j == |all| {
        assert r[i] == all[i] && all[i] in all;
      }
    }
  }

  // -------------------------------------------------------- cancellation

  /** The cancel branch's `map`: every record with the id gets status
      cancelled, everything else stays. */
  function AfterCancel(all: seq<Appointment>, id: string): (r: seq<Appointment>)
    ensures |r| == |all|
    ensures forall i :: 0 <= i < |all| && all[i].id == id ==> r[i] == all[i].(status := Cancelled)
    ensures forall i :: 0 <= i < |all| && all[i].id != id ==> r[i] == all[i]
  {
    Map(all, (a: Appointment) => if a.id == id then a.(status := Cancelled) else a)
  }

  /** Cancelling twice is cancelling once. */
  lemma CancelIdempotent(all: seq<Appointment>, id: string)
    ensures AfterCancel(AfterCancel(all, id), id) == AfterCancel(all, id)
  {
    var once := AfterCancel(all, id);
    var twice := AfterCancel(once, id);
    assert forall i :: 0 <= i < |all| ==> twice[i] == once[i];
  }

  /** Cancelling only frees slots. */
  lemma CancelKeepsNoDoubleBooking(all: seq<Appointment>, id: string)
    requires NoDoubleBooking(all)
    ensures NoDoubleBooking(AfterCancel(all, id))
  {
    var r := AfterCancel(all, id);
    assert forall i :: 0 <= i < |r| && Live(r[i]) ==> r[i] == all[i];
  }

  /** After a cancel, a slot is free exactly when every live record that
      held it carried the cancelled id. */
  lemma CancelFreesSlot(all: seq<Appointment>, id: string, date: string, time: string)
    ensures IsTimeSlotAvailable(DayAppointments(AfterCancel(all, id), date), time)
            <==> forall i :: 0 <= i < |all| && Holds(all[i], date, time) ==> all[i].id == id
  {
    var r := AfterCancel(all, id);
    AvailabilityMatchesStore(r, date, time);
    assert forall i :: 0 <= i < |all| ==> (Holds(r[i], date, time) <==> Holds(all[i], date, time) && all[i].id != id);
  }

  /** With no double booking, cancelling the appointment shown in a slot
      frees that slot. */
  lemma CancelledSlotBecomesFree(all: seq<Appointment>, k: int)
    requires NoDoubleBooking(all)
    requires 0 <= k < |all| && Live(all[k])
    ensures IsTimeSlotAvailable(DayAppointments(AfterCancel(all, all[k].id), all[k].date), all[k].time)
  {
    CancelFreesSlot(all, all[k].id, all[k].date, all[k].time);
    forall i | 0 <= i < |all| && Holds(all[i], all[k].date, all[k].time)
      ensures i == k
    {
    }
  }

  // ------------------------------------------------------ patient search

  /** `searchPatients`: a blank term gives no suggestions; otherwise the
      patients whose lower-cased name includes the lower-cased term. */
  function SearchPatients(patients: seq<Patients.Patient>, term: string): (r: seq<Patients.Patient>)
    ensures IsBlank(term) ==> r == []
    ensures !IsBlank(term) ==>
              forall p :: multiset(r)[p] ==
                if Contains(ToLower(p.name), ToLower(term)) then multiset(patients)[p] else 0
  {
    if IsBlank(term) then []
    else Filter(patients, (p: Patients.Patient) => Contains(ToLower(p.name), ToLower(term)))
  }

  /** Suggestions are listed in the registry's order. */
  lemma SuggestionsKeepOrder(patients: seq<Patients.Patient>, term: string)
    ensures IsSubsequence(SearchPatients(patients, term), patients)
  {
    if !IsBlank(term) {
      FilterIsSubsequence(patients, (p: Patients.Patient) => Contains(ToLower(p.name), ToLower(term)));
    }
  }

  /** Every suggestion is also a hit of the registry's search box. */
  lemma SuggestionsAreRegistryHits(patients: seq<Patients.Patient>, term: string)
    ensures forall p :: p in SearchPatients(patients, term) ==> p in Patients.FilteredPatients(patients, term)
  {
    var r := SearchPatients(patients, term);
    forall p | p in r ensures p in Patients.FilteredPatients(patients, term) {
      assert multiset(r)[p] > 0;
      assert Patients.MatchesSearch(p, term);
      assert multiset(Patients.FilteredPatients(patients, term))[p] > 0;
    }
  }

  // ------------------------------------------------------ the operations

  /** `handleScheduleAppointment`, local branch. `date` is the selected day,
      `time` the slot that was clicked, `id` and `createdAt` stand for
      `generateId()` and the current time. */
  method ScheduleAppointment(key: StorageKey<Appointment>, patientName: string, date: string,
                             time: string, notes: string, id: string, createdAt: string)
    returns (outcome: BookingOutcome)
    requires key.name == AppointmentsKey
    requires id !in Ids(key.Loaded(), IdOf)
    modifies key
    ensures IsBlank(patientName) ==> outcome == MissingPatientName && key.entry == old(key.entry)
    ensures !IsBlank(patientName) && FindConflict(old(key.Loaded()), date, time).Some? ==>
              outcome == SlotTaken && key.entry == old(key.entry)
    ensures !IsBlank(patientName) && FindConflict(old(key.Loaded()), date, time).None? ==>
              outcome == Booked
              && key.entry == Present(old(key.Loaded()) + [NewAppointment(id, patientName, date, time, notes, createdAt)])
    ensures NoDoubleBooking(old(key.Loaded())) ==> NoDoubleBooking(key.Loaded())
    ensures UniqueIds(old(key.Loaded()), IdOf) ==> UniqueIds(key.Loaded(), IdOf)
    ensures outcome == Booked ==> !IsTimeSlotAvailable(DayAppointments(key.Loaded(), date), time)
  {
    if IsBlank(patientName) {
      return MissingPatientName;
    }
    var allAppointments := key.Loaded();
    var conflictingAppointment := FindConflict(allAppointments, date, time);
    if conflictingAppointment.Some? {
      return SlotTaken;
    }
    var newAppointment := NewAppointment(id, patientName, date, time, notes, createdAt);
    var updatedAppointments := allAppointments + [newAppointment];
    if NoDoubleBooking(allAppointments) {
      BookingKeepsNoDoubleBooking(allAppointments, newAppointment);
    }
    if UniqueIds(allAppointments, IdOf) {
      BookingKeepsIdsUnique(allAppointments, newAppointment);
    }
    BookedSlotIsTaken(allAppointments, newAppointment);
    key.Save(updatedAppointments);
    outcome := Booked;
  }

  /** `handleCancelAppointment`, local branch; `selected` is the id of the
      appointment whose cancel button was pressed, if any. */
  method CancelAppointment(key: StorageKey<Appointment>, selected: Option<string>)
    requires key.name == AppointmentsKey
    modifies key
    ensures selected.None? ==> key.entry == old(key.entry)
    ensures selected.Some? ==> key.entry == Present(AfterCancel(old(key.Loaded()), selected.value))
    ensures NoDoubleBooking(old(key.Loaded())) ==> NoDoubleBooking(key.Loaded())
  {
    if selected.None? {
      return;
    }
    var allAppointments := key.Loaded();
    var updatedAppointments := AfterCancel(allAppointments, selected.value);
    if NoDoubleBooking(allAppointments) {
      CancelKeepsNoDoubleBooking(allAppointments, selected.value);
    }
    key.Save(updatedAppointments);
  }

  /** The booking scenario: Maria takes 09:00 on 2024-06-10, João is
      refused the same slot, and after Maria's appointment is cancelled
      João's booking goes through. */
  lemma BookingScenario()
    ensures
      var maria := NewAppointment("m", "Maria Silva", "2024-06-10", "09:00", "", "t0");
      var joao := NewAppointment("j", "João Souza", "2024-06-10", "09:00", "", "t1");
      var s1 := [] + [maria];
      var s2 := AfterCancel(s1, "m");
      && FindConflict([], "2024-06-10", "09:00").None?
      && FindConflict(s1, "2024-06-10", "09:00").Some?
      && FindConflict(s2, "2024-06-10", "09:00").None?
      && NoDoubleBooking(s2 + [joao])
  {
    var maria := NewAppointment("m", "Maria Silva", "2024-06-10", "09:00", "", "t0");
    var joao := NewAppointment("j", "João Souza", "2024-06-10", "09:00", "", "t1");
    var s1 := [] + [maria];
    var s2 := AfterCancel(s1, "m");
    assert Holds(s1[0], "2024-06-10", "09:00");
    assert s2[0] == maria.(status := Cancelled);
    BookingKeepsNoDoubleBooking(s2, joao);
  }
}
