/**
 * The hosted database as the dialogs see it: one in-memory sequence of rows per table. The
 * dialogs write these tables directly, as their `insert` / `update` / `delete` calls do.
 */
module Database {
  import opened Records

  /** The contents of every table at one moment. */
  datatype Snapshot = Snapshot(
    slots: seq<Slot>,
    appointments: seq<Appointment>,
    announcements: seq<Announcement>,
    prescriptions: seq<Prescription>,
    profiles: seq<Profile>)

  class Tables {
    var slots: seq<Slot>
    var appointments: seq<Appointment>
    var announcements: seq<Announcement>
    var prescriptions: seq<Prescription>
    var profiles: seq<Profile>

    function View(): Snapshot
      reads this
    {
      Snapshot(slots, appointments, announcements, prescriptions, profiles)
    }

    constructor (initial: Snapshot)
      ensures View() == initial
    {
      slots := initial.slots;
      appointments := initial.appointments;
      announcements := initial.announcements;
      prescriptions := initial.prescriptions;
      profiles := initial.profiles;
    }
  }
}
