/**
 * The dialog that edits or deletes one slot of the doctor's schedule
 * (src/components/EditTimeSlotDialog.tsx).
 */
module EditTimeSlot {
  import opened Wrappers
  import opened Records
  import opened Strings
  import Seqs
  import Database

  /** The form the dialog fills from a slot: a booked slot is re-opened as available, and a
      missing note becomes ''. */
  function FormFromSlot(slot: Slot): (f: SlotForm)
    ensures f.date == slot.date && f.startTime == slot.startTime && f.endTime == slot.endTime
    ensures f.status == Available <==> slot.status != Blocked
    ensures f.notes == OrEmpty(slot.notes)
  {
    SlotForm(slot.date, slot.startTime, slot.endTime,
             if slot.status == Booked then Available else slot.status,
             OrEmpty(slot.notes))
  }

  /** The columns `handleSubmit` writes: date, times, status and notes ('' as null); the id, the
      doctor and the capacity of the row are kept. */
  function ApplyForm(row: Slot, f: SlotForm): (r: Slot)
    ensures r.id == row.id && r.doctorId == row.doctorId && r.maxAppointments == row.maxAppointments
    ensures r.date == f.date && r.startTime == f.startTime && r.endTime == f.endTime
    ensures r.status == f.status && r.notes == OrNull(f.notes)
  {
    row.(date := f.date, startTime := f.startTime, endTime := f.endTime,
         status := f.status, notes := OrNull(f.notes))
  }

  /** Saving an untouched form changes a row only by re-opening a booked slot and turning an
      empty note into null. */
  lemma SaveUntouchedForm(slot: Slot)
    ensures ApplyForm(slot, FormFromSlot(slot)) ==
            slot.(status := if slot.status == Booked then Available else slot.status,
                  notes := if Truthy(slot.notes) then slot.notes else None)
  {
    OrNullOrEmpty(slot.notes);
  }

  /** `update(form).eq('id', id)` on `doctor_schedules`. */
  function UpdateById(rows: seq<Slot>, id: string, f: SlotForm): (r: seq<Slot>)
    ensures |r| == |rows|
    ensures forall i :: 0 <= i < |rows| && rows[i].id != id ==> r[i] == rows[i]
    ensures forall i :: 0 <= i < |rows| && rows[i].id == id ==> r[i] == ApplyForm(rows[i], f)
  {
    if rows == [] then []
    else [if rows[0].id == id then ApplyForm(rows[0], f) else rows[0]] + UpdateById(rows[1..], id, f)
  }

  /** `delete().eq('id', id)` on `doctor_schedules`: every other row stays, in order. */
  function DeleteById(rows: seq<Slot>, id: string): (r: seq<Slot>)
    ensures forall s :: s in r <==> s in rows && s.id != id
  {
    Seqs.Filter((s: Slot) => s.id != id, rows)
  }

  /** The rows left keep their order: deleting from a table in two parts deletes from each. */
  lemma DeleteKeepsOrder(a: seq<Slot>, b: seq<Slot>, id: string)
    ensures DeleteById(a + b, id) == DeleteById(a, id) + DeleteById(b, id)
  {
    Seqs.FilterConcat((s: Slot) => s.id != id, a, b);
  }

  /** The delete button is disabled for a booked slot. */
  predicate DeleteEnabled(slot: Slot)
  {
    slot.status != Booked
  }

  /** Saving the form loaded from a booked slot writes 'available' to that slot's rows. */
  lemma BookedSlotReopens(rows: seq<Slot>, slot: Slot)
    requires slot.status == Booked
    ensures forall s :: s in UpdateById(rows, slot.id, FormFromSlot(slot)) && s.id == slot.id ==>
              s.status == Available
  {
    var r := UpdateById(rows, slot.id, FormFromSlot(slot));
    forall s | s in r && s.id == slot.id
      ensures s.status == Available
    {
      var i :| 0 <= i < |r| && r[i] == s;
    }
  }

  class EditSlotDialog {
    var form: SlotForm
    var open: bool

    constructor (open: bool)
      ensures form == SlotForm("", "", "", Available, "") && this.open == open
    {
      form := SlotForm("", "", "", Available, "");
      this.open := open;
    }

    /** The effect that runs when the `slot` prop changes. */
    method LoadSlot(slot: Option<Slot>)
      modifies this
      ensures form == if slot.Some? then FormFromSlot(slot.value) else old(form)
      ensures open == old(open)
    {
      if slot.Some? {
        form := FormFromSlot(slot.value);
      }
    }

    /** The status selector; it is disabled while the slot is booked. */
    method SelectStatus(slot: Slot, status: FormStatus)
      modifies this
      ensures form == if slot.status == Booked then old(form) else old(form).(status := status)
      ensures open == old(open)
    {
      if slot.status != Booked {
        form := form.(status := status);
      }
    }

    /** The date, time and notes inputs. */
    method EditFields(date: string, startTime: string, endTime: string, notes: string)
      modifies this
      ensures form == old(form).(date := date, startTime := startTime, endTime := endTime, notes := notes)
      ensures open == old(open)
    {
      form := form.(date := date, startTime := startTime, endTime := endTime, notes := notes);
    }

    /** The form's submission: the browser first refuses a form with an empty date or time or a
        date before today (so a past-dated slot cannot be saved unless its date is moved), then
        `handleSubmit` needs a slot; `writeOk` is the backend's answer to the update. The dialog
        closes and `onSuccess` fires (`notified`) only when the update succeeds. */
    method Submit(slot: Option<Slot>, db: Database.Tables, writeOk: bool, today: string) returns (notified: bool)
      modifies this, db
      ensures form == old(form)
      ensures notified <==> InputsAccepted(form, today) && slot.Some? && writeOk
      ensures notified ==> !open && db.View() == old(db.View()).(slots := UpdateById(old(db.slots), slot.value.id, form))
      ensures !notified ==> open == old(open) && db.View() == old(db.View())
    {
      notified := false;
      if !InputsAccepted(form, today) || slot.None? {
        return;
      }
      if writeOk {
        db.slots := UpdateById(db.slots, slot.value.id, form);
        notified := true;
        open := false;
      }
    }

    /** A click on the delete control, confirmed: `handleDelete` behind a button that is disabled
        for a booked slot. */
    method ClickDelete(slot: Option<Slot>, db: Database.Tables, writeOk: bool) returns (notified: bool)
      modifies this, db
      ensures form == old(form)
      ensures notified <==> slot.Some? && DeleteEnabled(slot.value) && writeOk
      ensures notified ==> !open && db.View() == old(db.View()).(slots := DeleteById(old(db.slots), slot.value.id))
      ensures !notified ==> open == old(open) && db.View() == old(db.View())
    {
      notified := false;
      if slot.None? || !DeleteEnabled(slot.value) {
        return;
      }
      if writeOk {
        db.slots := DeleteById(db.slots, slot.value.id);
        notified := true;
        open := false;
      }
    }
  }
}
