/**
 * The dialog in which a patient books one of a doctor's open slots
 * (src/components/BookAppointmentDialog.tsx).
 */
module BookAppointment {
  import opened Wrappers
  import opened Records
  import opened Strings
  import Seqs
  import Database

  /** The most slots the dialog offers. */
  const SlotLimit: nat := 20

  /** The conditions of the slot query: this doctor's, 'available', dated today or later. */
  predicate Offerable(s: Slot, doctorId: string, today: string)
  {
    s.doctorId == doctorId && s.status == Available && Seqs.LexLeq(today, s.date)
  }

  /** `.order('date').order('start_time')`: by date, then by start time. */
  predicate SlotOrder(a: Slot, b: Slot)
  {
    (Seqs.LexLeq(a.date, b.date) && a.date != b.date) ||
    (a.date == b.date && Seqs.LexLeq(a.startTime, b.startTime))
  }

  lemma SlotOrderIsTotalPreorder()
    ensures Seqs.TotalPreorder(SlotOrder)
  {
    forall a, b
      ensures SlotOrder(a, b) || SlotOrder(b, a)
    {
      Seqs.LexLeqTotal(a.date, b.date);
      Seqs.LexLeqTotal(a.startTime, b.startTime);
    }
    forall a, b, c | SlotOrder(a, b) && SlotOrder(b, c)
      ensures SlotOrder(a, c)
    {
      if a.date != b.date && b.date != c.date {
        Seqs.LexLeqTransitive(a.date, b.date, c.date);
        if a.date == c.date {
          Seqs.LexLeqAntisymmetric(a.date, b.date);
        }
      } else if a.date == b.date && b.date == c.date {
        Seqs.LexLeqTransitive(a.startTime, b.startTime, c.startTime);
      }
    }
  }

  /** `fetchAvailableTimeSlots`: the offerable slots in (date, start time) order, at most 20. */
  function OfferedSlots(slots: seq<Slot>, doctorId: string, today: string): seq<Slot>
  {
    Seqs.Take(Seqs.SortBy(Seqs.Filter((s: Slot) => Offerable(s, doctorId, today), slots), SlotOrder), SlotLimit)
  }

  /** Every offered slot is offerable, the list is in (date, start time) order and holds at most
      20 slots; it holds every offerable slot when there are at most 20, and a slot left out comes
      no earlier than any offered one. */
  lemma OfferedSlotsCorrect(slots: seq<Slot>, doctorId: string, today: string)
    ensures |OfferedSlots(slots, doctorId, today)| <= SlotLimit
    ensures multiset(OfferedSlots(slots, doctorId, today)) <=
              multiset(Seqs.Filter((s: Slot) => Offerable(s, doctorId, today), slots))
    ensures forall s :: s in OfferedSlots(slots, doctorId, today) ==> s in slots && Offerable(s, doctorId, today)
    ensures forall i, j :: 0 <= i < j < |OfferedSlots(slots, doctorId, today)| ==>
              SlotOrder(OfferedSlots(slots, doctorId, today)[i], OfferedSlots(slots, doctorId, today)[j])
    ensures forall s :: s in slots && Offerable(s, doctorId, today) && s !in OfferedSlots(slots, doctorId, today) ==>
              |OfferedSlots(slots, doctorId, today)| == SlotLimit &&
              forall t :: t in OfferedSlots(slots, doctorId, today) ==> SlotOrder(t, s)
  {
    var matching := Seqs.Filter((s: Slot) => Offerable(s, doctorId, today), slots);
    var sorted := Seqs.SortBy(matching, SlotOrder);
    var offered := OfferedSlots(slots, doctorId, today);
    SlotOrderIsTotalPreorder();
    Seqs.SortBySorted(matching, SlotOrder);
    Seqs.TakeSorted(sorted, SlotLimit, SlotOrder);
    Seqs.TakeSubMultiset(sorted, SlotLimit);
    forall s | s in offered
      ensures s in slots && Offerable(s, doctorId, today)
    {
      assert s in multiset(sorted);
    }
    forall s | s in slots && Offerable(s, doctorId, today)
      ensures s in sorted
    {
      assert s in multiset(matching);
    }
  }

  /** The appointment `handleBookAppointment` inserts. */
  function NewAppointment(id: string, doctorId: string, patientId: string, slot: Slot, notes: string): (a: Appointment)
    ensures a.doctorId == doctorId && a.patientId == patientId
    ensures a.appointmentDate == slot.date + "T" + slot.startTime
    ensures a.durationMinutes == 30 && a.status == Scheduled
    ensures a.patientNotes.None? <==> IsBlank(notes)
    ensures a.patientNotes.Some? ==> a.patientNotes.value == Trim(notes)
    ensures a.notes.None? && a.doctorNotes.None?
  {
    BlankIffTrimEmpty(notes);
    Appointment(id, doctorId, patientId, slot.date + "T" + slot.startTime, 30, Scheduled,
                None, OrNull(Trim(notes)), None)
  }

  /** `update({ status: 'booked' }).eq('id', slot.id)`, issued only when the slot takes a single
      appointment; any other slot row is untouched. */
  function MarkBooked(rows: seq<Slot>, slot: Slot): (r: seq<Slot>)
    ensures |r| == |rows|
    ensures forall i :: 0 <= i < |rows| ==>
              r[i] == if slot.maxAppointments == 1 && rows[i].id == slot.id then rows[i].(status := Booked) else rows[i]
  {
    if slot.maxAppointments != 1 || rows == [] then rows
    else [if rows[0].id == slot.id then rows[0].(status := Booked) else rows[0]] + MarkBooked(rows[1..], slot)
  }

  /** The tables after a successful booking: the appointment is appended and, when the slot
      update succeeds, the slot's rows are marked 'booked' if it takes a single appointment. */
  function AfterBooking(db: Database.Snapshot, appointment: Appointment, slot: Slot, updateOk: bool): (r: Database.Snapshot)
    ensures r.appointments == db.appointments + [appointment]
    ensures r.slots == if updateOk then MarkBooked(db.slots, slot) else db.slots
    ensures r.announcements == db.announcements && r.prescriptions == db.prescriptions && r.profiles == db.profiles
  {
    db.(appointments := db.appointments + [appointment],
        slots := if updateOk then MarkBooked(db.slots, slot) else db.slots)
  }

  datatype BookingResult = Rejected | InsertFailed | BookedOk

  class BookingDialog {
    var selected: Option<Slot>
    var notes: string
    var open: bool

    constructor ()
      ensures selected == None && notes == "" && !open
    {
      selected := None;
      notes := "";
      open := false;
    }

    /** A click on one of the offered slots. */
    method Select(slot: Slot)
      modifies this
      ensures selected == Some(slot) && notes == old(notes) && open == old(open)
    {
      selected := Some(slot);
    }

    method EditNotes(text: string)
      modifies this
      ensures notes == text && selected == old(selected) && open == old(open)
    {
      notes := text;
    }

    /** `handleBookAppointment`. `insertOk` is the backend's answer to the appointment insert and
        `updateOk` its answer to the slot update, whose error the dialog ignores. On success the
        selection and the notes are cleared and the dialog closes. */
    method Book(doctorId: string, user: Option<string>, role: Option<Role>, db: Database.Tables,
                insertOk: bool, updateOk: bool, newId: string) returns (result: BookingResult)
      modifies this, db
      ensures result == Rejected <==> (old(selected).None? || user.None? || role != Some(Patient))
      ensures result == InsertFailed <==> (old(selected).Some? && user.Some? && role == Some(Patient) && !insertOk)
      ensures result != BookedOk ==> db.View() == old(db.View())
      ensures result != BookedOk ==> selected == old(selected) && notes == old(notes) && open == old(open)
      ensures result == BookedOk ==> (old(selected).Some? && user.Some? &&
                db.View() == AfterBooking(old(db.View()), NewAppointment(newId, doctorId, user.value, old(selected).value, old(notes)),
                                          old(selected).value, updateOk))
      ensures result == BookedOk ==> selected.None? && notes == "" && !open
    {
      if selected.None? || user.None? || role != Some(Patient) {
        result := Rejected;
      } else if !insertOk {
        result := InsertFailed;
      } else {
        var after := AfterBooking(db.View(), NewAppointment(newId, doctorId, user.value, selected.value, notes),
                                  selected.value, updateOk);
        db.appointments, db.slots := after.appointments, after.slots;
        selected, notes, open := None, "", false;
        result := BookedOk;
      }
    }
  }

  /** Booking flips the chosen slot to 'booked' exactly when it takes a single appointment. */
  lemma BookingFlipsOnlySingleSlots(rows: seq<Slot>, slot: Slot, i: int)
    requires 0 <= i < |rows| && rows[i].id == slot.id
    ensures MarkBooked(rows, slot)[i].status == if slot.maxAppointments == 1 then Booked else rows[i].status
  {
  }
}
