/**
 * The dialog that adds a slot to the signed-in doctor's schedule
 * (src/components/AddTimeSlotDialog.tsx).
 */
module AddTimeSlot {
  import opened Wrappers
  import opened Records
  import opened Strings
  import Database

  /** The initial form: the selected date (or today when none is given), 09:00 to 09:30,
      available, no notes. */
  function DefaultForm(selectedDate: Option<string>, today: string): (f: SlotForm)
    ensures f.date == if Truthy(selectedDate) then selectedDate.value else today
    ensures f.startTime == "09:00" && f.endTime == "09:30"
    ensures f.status == Available && f.notes == ""
  {
    SlotForm(if Truthy(selectedDate) then selectedDate.value else today, "09:00", "09:30", Available, "")
  }

  /** The row `handleSubmit` inserts; `id` and `maxAppointments` are the column defaults the
      database fills in. A new slot is never booked. */
  function NewSlotRow(id: string, doctorId: string, f: SlotForm, maxAppointments: int): (r: Slot)
    ensures r.doctorId == doctorId && r.id == id && r.maxAppointments == maxAppointments
    ensures r.date == f.date && r.startTime == f.startTime && r.endTime == f.endTime
    ensures r.status == f.status && r.status != Booked
    ensures r.notes.None? <==> f.notes == ""
    ensures r.notes.Some? ==> r.notes.value == f.notes
  {
    Slot(id, doctorId, f.date, f.startTime, f.endTime, f.status, maxAppointments, OrNull(f.notes))
  }

  class AddSlotDialog {
    var form: SlotForm
    var open: bool

    /** The form's first state takes the `selectedDate` prop as it is when the dialog mounts. */
    constructor (selectedDate: Option<string>, today: string, open: bool)
      ensures form == DefaultForm(selectedDate, today) && this.open == open
    {
      form := DefaultForm(selectedDate, today);
      this.open := open;
    }

    /** The inputs and the status selector: they set the form, whose type keeps 'booked' out. */
    method Edit(f: SlotForm)
      modifies this
      ensures form == f && open == old(open)
    {
      form := f;
    }

    /** The form's submission: the browser first refuses a form with an empty date or time or a
        date before today, then `handleSubmit` does nothing without a signed-in user; `writeOk` is
        the backend's answer to the insert. On success the dialog closes, `onSuccess` fires
        (`notified`) and the form goes back to its defaults, built from the `selectedDate` prop
        as it is at that moment; otherwise the form is kept. */
    method Submit(user: Option<string>, db: Database.Tables, writeOk: bool,
                  newId: string, maxDefault: int, selectedDate: Option<string>, today: string)
      returns (notified: bool)
      modifies this, db
      ensures notified <==> InputsAccepted(old(form), today) && user.Some? && writeOk
      ensures notified ==> db.View() == old(db.View()).(slots := old(db.slots) + [NewSlotRow(newId, user.value, old(form), maxDefault)])
      ensures notified ==> !open && form == DefaultForm(selectedDate, today)
      ensures !notified ==> db.View() == old(db.View()) && form == old(form) && open == old(open)
    {
      notified := false;
      if !InputsAccepted(form, today) || user.None? {
        return;
      }
      if writeOk {
        db.slots := db.slots + [NewSlotRow(newId, user.value, form, maxDefault)];
        notified := true;
        open := false;
        form := DefaultForm(selectedDate, today);
      }
    }
  }
}
