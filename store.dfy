/** The shared appointment store: one list of appointments that every writer
    replaces as a whole. Persisting the list to the browser's local storage is
    not part of this model; the in-memory list is the source of truth. */
module Store {
  import opened Timeline

  /** The demo appointment the store starts with when nothing was persisted. */
  function SeedAppointment(now: int): (a: Appointment)
    ensures a.start == now && Duration(a) == 60 * MinuteMs
    ensures a.severity == None && a.hospital == None && a.topic == None
  {
    Appointment("Telehealth appointment", "Scheduled via MedLink", now, now + HourMs, None, None, None)
  }

  class AppointmentStore {
    var appointments: seq<Appointment>

    /** Loads the persisted list; `stored` is `None` when nothing usable was
        persisted (no entry, an empty entry or one that fails to parse), in which
        case the store starts with the single demo appointment. */
    constructor Load(stored: Option<seq<Appointment>>, now: int)
      ensures stored.Some? ==> appointments == stored.value
      ensures stored.None? ==> appointments == [SeedAppointment(now)]
    {
      appointments := if stored.Some? then stored.value else [SeedAppointment(now)];
    }

    /** Replaces the whole list. */
    method Commit(newList: seq<Appointment>)
      modifies this
      ensures appointments == newList
    {
      appointments := newList;
    }
  }
}
