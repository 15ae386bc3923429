/**
 * The doctor's day view (src/pages/Schedule.tsx): the slots of the selected date, in order of
 * start time, with a count per status and a colour per status.
 */
module Schedule {
  import opened Wrappers
  import opened Records
  import Seqs

  /** An entry of the schedule page: a slot with the booked patient's details. */
  datatype ScheduleSlot = ScheduleSlot(
    id: string,
    date: string,
    startTime: string,
    endTime: string,
    status: SlotStatus,
    patientName: Option<string>,
    patientPhone: Option<string>,
    notes: Option<string>)

  /** `filteredSchedule`: the slots whose date is the selected date, in table order. */
  function DaySlots(schedule: seq<ScheduleSlot>, date: string): (r: seq<ScheduleSlot>)
    ensures forall s :: s in r <==> s in schedule && s.date == date
  {
    Seqs.Filter((s: ScheduleSlot) => s.date == date, schedule)
  }

  /** The order of `a.start_time.localeCompare(b.start_time)` on zero-padded 'HH:MM' times. */
  predicate StartsNoLater(a: ScheduleSlot, b: ScheduleSlot)
  {
    Seqs.LexLeq(a.startTime, b.startTime)
  }

  /** The cards the page renders: the day's slots sorted by start time. */
  function DayView(schedule: seq<ScheduleSlot>, date: string): seq<ScheduleSlot>
  {
    Seqs.SortBy(DaySlots(schedule, date), StartsNoLater)
  }

  lemma StartsNoLaterIsTotalPreorder()
    ensures Seqs.TotalPreorder(StartsNoLater)
  {
    forall a, b
      ensures StartsNoLater(a, b) || StartsNoLater(b, a)
    {
      Seqs.LexLeqTotal(a.startTime, b.startTime);
    }
    forall a, b, c | StartsNoLater(a, b) && StartsNoLater(b, c)
      ensures StartsNoLater(a, c)
    {
      Seqs.LexLeqTransitive(a.startTime, b.startTime, c.startTime);
    }
  }

  /** The day view is exactly the day's slots (as a multiset), ordered by start time. */
  lemma DayViewCorrect(schedule: seq<ScheduleSlot>, date: string)
    ensures multiset(DayView(schedule, date)) == multiset(DaySlots(schedule, date))
    ensures forall s :: s in DayView(schedule, date) <==> s in schedule && s.date == date
    ensures forall i, j :: 0 <= i < j < |DayView(schedule, date)| ==>
              Seqs.LexLeq(DayView(schedule, date)[i].startTime, DayView(schedule, date)[j].startTime)
  {
    var view := DayView(schedule, date);
    StartsNoLaterIsTotalPreorder();
    Seqs.SortBySorted(DaySlots(schedule, date), StartsNoLater);
    forall s
      ensures s in view <==> s in DaySlots(schedule, date)
    {
      assert s in view <==> s in multiset(view);
    }
  }

  /** The number of the given slots that have status `status`. */
  function CountStatus(slots: seq<ScheduleSlot>, status: SlotStatus): nat
  {
    |Seqs.Filter((s: ScheduleSlot) => s.status == status, slots)|
  }

  /** Status is three-valued, so the three summary cards add up to the number of slots of the day. */
  lemma {:induction false} StatusCountsAddUp(slots: seq<ScheduleSlot>)
    ensures CountStatus(slots, Available) + CountStatus(slots, Booked) + CountStatus(slots, Blocked) == |slots|
  {
    if slots != [] {
      StatusCountsAddUp(slots[1..]);
    }
  }

  /** `getStatusColor`: a class for each of the three statuses and gray for anything else. */
  function StatusColor(status: string): (r: string)
    ensures r == GrayBadge <==> status !in {"available", "booked", "blocked"}
  {
    if status == "available" then "bg-green-100 text-green-800"
    else if status == "booked" then "bg-blue-100 text-blue-800"
    else if status == "blocked" then "bg-red-100 text-red-800"
    else GrayBadge
  }

  /** The three statuses get three different colours. */
  lemma StatusColorsDistinct(a: SlotStatus, b: SlotStatus)
    ensures a != b ==> StatusColor(a.Name()) != StatusColor(b.Name())
  {
  }

  /** What a slot's card shows under its header. */
  datatype CardBody =
    | PatientDetails(name: Option<string>, phone: Option<string>, notes: Option<string>)
    | AvailableNote
    | BlockedNote

  function SlotCardBody(slot: ScheduleSlot): (r: CardBody)
    ensures r.PatientDetails? <==> slot.status == Booked
    ensures r.PatientDetails? ==> r == PatientDetails(slot.patientName, slot.patientPhone, slot.notes)
  {
    match slot.status
    case Booked => PatientDetails(slot.patientName, slot.patientPhone, slot.notes)
    case Available => AvailableNote
    case Blocked => BlockedNote
  }
}
