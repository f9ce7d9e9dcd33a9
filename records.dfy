/** The stored form of each entity (the dictionaries `to_dict` builds and
    `_load_data` reads back) and the plain values a live object holds apart
    from its links to other objects. An `Option` field is either one that
    loading reads with `.get`, where `None` stands for an absent key (a key
    stored as JSON `null` is not modelled), or an identifier read with `[]`,
    where `None` stands for JSON `null` (an object's identifier is `None`
    until one is assigned). */
module Records {
  import opened Base

  const SCHEDULED := "Scheduled"
  const RESCHEDULED := "Rescheduled"
  const COMPLETED := "Completed"
  const CANCELLED := "Cancelled"

  const DEFAULT_DURATION := 30

  /** A doctor's `working_hours` dictionary; `'%H:%M'` strings become minutes. */
  datatype WorkingHours = WorkingHours(start: MinuteOfDay, end: MinuteOfDay, days: seq<string>)

  /** 09:00 to 17:00, Monday to Friday. */
  const DEFAULT_WORKING_HOURS := WorkingHours(9 * 60, 17 * 60, ["Monday", "Tuesday", "Wednesday", "Thursday", "Friday"])

  // ---- Stored records ----

  datatype PersonRecord = PersonRecord(name: string, contact: string, id: Option<string>)

  /** `Patient.to_dict`: the person's keys updated with age, activity and history identifiers. */
  datatype PatientRecord = PatientRecord(
    person: PersonRecord, age: Option<int>, isActive: Option<bool>, medicalHistory: seq<Option<string>>)

  /** `Doctor.to_dict`: the person's keys updated with specialization, hours and roster identifiers. */
  datatype DoctorRecord = DoctorRecord(
    person: PersonRecord, specialization: Option<string>, workingHours: Option<WorkingHours>,
    appointments: seq<Option<string>>)

  /** `Appointment.to_dict`: the patient and doctor appear by identifier only. */
  datatype AppointmentRecord = AppointmentRecord(
    id: Option<string>, patientId: Option<string>, doctorId: Option<string>, datetime: Timestamp,
    duration: Option<int>, status: string, notes: Option<string>)

  /** The whole stored document; a missing top-level key reads as an empty list. */
  datatype Document = Document(
    patients: seq<PatientRecord>, doctors: seq<DoctorRecord>, appointments: seq<AppointmentRecord>)

  // ---- Values held by live objects, links aside ----

  datatype PatientState = PatientState(
    id: Option<string>, name: string, contact: string, age: Option<int>, isActive: bool)

  datatype DoctorState = DoctorState(
    id: Option<string>, name: string, contact: string, specialization: Option<string>, workingHours: WorkingHours)

  datatype AppointmentState = AppointmentState(
    id: Option<string>, datetime: Timestamp, duration: int, status: string, notes: string)

  /** Why reading a record can raise. */
  datatype LoadError = MissingArgument(parameter: string)

  // ---- Reading records back ----

  /** `Person.from_dict` for a class whose constructor takes (name, contact):
      the person's three keys. */
  function PersonFromDict(r: PersonRecord): (string, string, Option<string>)
  {
    (r.name, r.contact, r.id)
  }

  /** `Patient.from_dict`, then `age` and `is_active` read with `.get`
      (`is_active` defaults to true). */
  function PatientFromDict(r: PatientRecord): (p: PatientState)
    ensures p.id == r.person.id && p.name == r.person.name && p.contact == r.person.contact && p.age == r.age
    ensures p.isActive <==> r.isActive != Some(false)
  {
    var (name, contact, id) := PersonFromDict(r.person);
    PatientState(id, name, contact, r.age, if r.isActive.Some? then r.isActive.value else true)
  }

  /** `Doctor.from_dict` as written: the inherited `from_dict` calls the class
      with `name` and `contact` only, while `Doctor`'s constructor (line 56
      of `medical_schedular.py`) also requires `specialization`, so the call
      raises `TypeError` whatever the record holds. */
  function DoctorFromDictAsWritten(r: DoctorRecord): (result: Result<DoctorState, LoadError>)
    ensures result.Err?
  {
    Err(MissingArgument("specialization"))
  }

  /** `Doctor.from_dict` with the constructor given the stored specialization,
      then `specialization` and `working_hours` read with `.get` (the hours
      default to 09:00 to 17:00, Monday to Friday). */
  function DoctorFromDict(r: DoctorRecord): (d: DoctorState)
    ensures d.id == r.person.id && d.name == r.person.name && d.contact == r.person.contact
    ensures d.specialization == r.specialization
    ensures d.workingHours == if r.workingHours.Some? then r.workingHours.value else DEFAULT_WORKING_HOURS
  {
    var (name, contact, id) := PersonFromDict(r.person);
    DoctorState(id, name, contact, r.specialization,
                if r.workingHours.Some? then r.workingHours.value else DEFAULT_WORKING_HOURS)
  }

  /** The fields the loader copies into a rebuilt appointment: `duration`
      defaults to 30 and `notes` to the empty string. */
  function AppointmentFromDict(r: AppointmentRecord): (a: AppointmentState)
    ensures a.id == r.id && a.datetime == r.datetime && a.status == r.status
    ensures r.duration.None? ==> a.duration == DEFAULT_DURATION
    ensures r.duration.Some? ==> a.duration == r.duration.value
    ensures a.notes == if r.notes.Some? then r.notes.value else ""
  {
    AppointmentState(r.id, r.datetime, if r.duration.Some? then r.duration.value else DEFAULT_DURATION,
                     r.status, if r.notes.Some? then r.notes.value else "")
  }

  // ---- Writing records ----

  function PersonToDict(name: string, contact: string, id: Option<string>): (r: PersonRecord)
    ensures PersonFromDict(r) == (name, contact, id)
  {
    PersonRecord(name, contact, id)
  }

  /** `Patient.to_dict`: reading the record back gives the same patient. */
  function PatientToDict(s: PatientState, history: seq<Option<string>>): (r: PatientRecord)
    ensures PatientFromDict(r) == s
    ensures r.medicalHistory == history && r.isActive.Some?
  {
    PatientRecord(PersonToDict(s.name, s.contact, s.id), s.age, Some(s.isActive), history)
  }

  /** `Doctor.to_dict`: reading the record back (with the corrected
      `from_dict`) gives the same doctor. */
  function DoctorToDict(s: DoctorState, roster: seq<Option<string>>): (r: DoctorRecord)
    ensures DoctorFromDict(r) == s
    ensures r.appointments == roster && r.workingHours.Some?
  {
    DoctorRecord(PersonToDict(s.name, s.contact, s.id), s.specialization, Some(s.workingHours), roster)
  }

  /** `Appointment.to_dict`: the appointment's own fields read back unchanged,
      and the links are stored as the two identifiers. */
  function AppointmentToDict(s: AppointmentState, patientId: Option<string>, doctorId: Option<string>): (r: AppointmentRecord)
    ensures AppointmentFromDict(r) == s
    ensures r.patientId == patientId && r.doctorId == doctorId
    ensures r.duration.Some? && r.notes.Some?
  {
    AppointmentRecord(s.id, patientId, doctorId, s.datetime, Some(s.duration), s.status, Some(s.notes))
  }
}
