# Medical appointment scheduler — a Dafny model

This project models the scheduling engine of `medical_schedular.py`, a
clinic's appointment scheduler. The engine keeps three lists: the patients,
the doctors and the appointments. Each appointment links back to its patient
and its doctor. The patient's `medical_history` and the doctor's roster
(`appointments`) hold the appointment in turn.

The model covers these parts of the engine:

- **Identifiers.** New identifiers are `P`, `D` or `A` followed by one more
  than the largest numeric suffix in use.
- **Availability.** A doctor is available at a time when no roster entry has
  exactly that timestamp.
- **Scheduling.** `schedule_appointment` runs five checks in a fixed order.
- **Lifecycle.** An appointment can be rescheduled, completed or cancelled.
- **Queries.** The model covers the lookups by identifier, the appointment
  views and the status statistics.
- **Codec.** Every entity has a stored record form. Loading a stored document
  rebuilds the objects and relinks each appointment record to its patient and
  its doctor.

The modules follow the layers of the program:

| file | module | contents |
|---|---|---|
| `base.dfy` | `Base` | `Option`, `Result`, timestamps (day ordinal and second of day), weekday names |
| `pyint.dfy` | `PyInt` | Python's `int()` on a string and `str()` of a natural number, and the round trip between them |
| `ids.dfy` | `Ids` | the identifier allocation loop (`AllocateId`), specified by `NextId` and `MaxSuffix` |
| `records.dfy` | `Records` | the dictionaries `to_dict` builds and `from_dict` reads back |
| `entities.dfy` | `Entities` | the classes `Patient`, `Doctor` and `Appointment`, and the appointment lifecycle |
| `stats.dfy` | `Tallies` | the status tally of `get_statistics` |
| `codec.dfy` | `Codec` | loading and saving over stored documents, on values |
| `hospital.dfy` | `Hospital` | the class `HospitalSystem` |

`HospitalSystem` keeps an invariant, `Linked`, with four parts:

- No object is registered twice.
- Every appointment's patient and doctor are registered.
- Each patient's history is exactly that patient's appointments, in list order.
- Each roster holds only the doctor's own registered appointments, with no repeats.

Adding a patient or a doctor, scheduling an appointment and loading all
preserve `Linked`. A second invariant, `NoDoubleBookings`, says that no
roster has two entries at one timestamp. Scheduling, rescheduling, adding a
doctor and cancelling all keep it.

Three behaviours of the source shape what the model can state:

- No status is terminal. `reschedule` is guarded only by the doctor's
  availability, and `complete` is not guarded at all, so a cancelled or
  completed appointment can be rescheduled or completed again.
- Being on the doctor's roster does not follow the status. `cancel` takes
  the appointment off the roster; the model proves that, once cancelled, an
  appointment is off a roster that had no repeats. Completing it afterwards
  leaves it off the roster with status `Completed`. Loading rebuilds every
  appointment through the constructor, which puts it on its doctor's roster
  whatever its status (`Hospital.HospitalSystem.LoadedOnRosters`,
  `Codec.CancelledRejoinsRoster`).
- Loading, as written, fails on every doctor record (see "## Findings");
  `Codec.LoadAsWritten` models that behaviour. The rest of the model uses
  the corrected `Doctor.from_dict`. With it, loading a document and saving
  right away writes `Codec.Reload` of it
  (`Hospital.HospitalSystem.SaveAfterLoad`), and one reload is a fixed point
  (`Codec.ReloadIdempotent`). Saving a store whose identifiers are unique
  and loading the result gives back the same patients, doctors and
  appointments (`Hospital.HospitalSystem.SaveLoadRoundTrip`); only the
  rosters are rebuilt, with cancelled appointments back on them.

## Model

| member | source | states |
|---|---|---|
| Base.DayName | medical_schedular.py:214-215 | the weekday name is one of the seven English names, and is Saturday or Sunday exactly on the last two weekdays |
| PyInt.Decimal | medical_schedular.py:159 | the text of a number is a non-empty digit string without a leading zero |
| PyInt.DecimalValue | medical_schedular.py:159 | the digits of the text of `n` evaluate to `n` |
| PyInt.ParseInt | medical_schedular.py:152 | `int()` raises on a blank string; after dropping surrounding white space (not the ASCII separators U+001C to U+001F), it reads a digit literal, with single underscores allowed between digits, as its value, and a minus sign before one as its negation |
| PyInt.ParseDecimal | medical_schedular.py:152-159 | `int()` on the text of `n` gives back `n` (with no limit on the number of digits), so an allocated suffix parses on the next allocation |
| PyInt.DecimalInjective | medical_schedular.py:159 | distinct numbers have distinct texts |
| Ids.AllocateId | medical_schedular.py:148-159 | the ID loop returns the prefix followed by one more than the largest suffix, an ID that no live object has; an empty list gives `P1`, `D1` or `A1` |
| Ids.NextId | medical_schedular.py:159 | the new ID is the prefix followed by one or more decimal digits |
| Ids.MaxSuffixIsLargest | medical_schedular.py:148-156 | `max_id` is at least every suffix `int()` accepts, and it is one of them or 0 |
| Ids.NextIdSuffix | medical_schedular.py:152-159 | the new ID's suffix parses to one more than `max_id` |
| Ids.NextIdFresh | medical_schedular.py:148-159 | the new ID differs from every live ID of the list |
| Ids.IgnoredIdDoesNotMatter | medical_schedular.py:150-156 | inserting an ID with another prefix, a missing ID or a non-numeric suffix anywhere in the list leaves the next ID unchanged |
| Ids.IgnoredIdKeepsMax | medical_schedular.py:150-156 | such an ID leaves `max_id` unchanged |
| Ids.SequentialAllocation | medical_schedular.py:148-160 | n allocations into an empty list hand out 1 to n with no gap, and the next one is n+1 |
| Ids.FindIndex | medical_schedular.py:165-169 | the position of the first entry equal to the ID, with no earlier match; `None` exactly when no entry matches |
| Records.PersonToDict | medical_schedular.py:18-23 | reading the person's record back gives its name, contact and ID |
| Records.PatientToDict | medical_schedular.py:46-53 | reading the patient's record back gives the same patient; the history IDs are stored as given, and `is_active` is present |
| Records.DoctorToDict | medical_schedular.py:76-83 | reading the doctor's record back (with the corrected `from_dict`) gives the same doctor; the roster IDs and working hours are stored |
| Records.AppointmentToDict | medical_schedular.py:128-137 | reading the record back gives the same ID, time, duration, status and notes; the patient and doctor are stored by ID |
| Records.DoctorFromDictAsWritten | medical_schedular.py:25-29 | the inherited `from_dict` raises on every doctor record, whatever it holds, because `Doctor`'s constructor (line 56) also requires `specialization` |
| Records.PatientFromDict | medical_schedular.py:290-293 | the patient gets the record's name, contact, ID and age, and is active unless `is_active` is stored as false |
| Records.DoctorFromDict | medical_schedular.py:296-300 | (corrected `from_dict`) the doctor gets the record's name, contact, ID and specialization, and the stored working hours or, when absent, 09:00 to 17:00, Monday to Friday |
| Records.AppointmentFromDict | medical_schedular.py:310-315 | the appointment keeps the record's ID, time and status; a missing duration becomes 30 and missing notes become empty |
| Entities.Patient.constructor | medical_schedular.py:32-36 | a new patient has no ID, is active and has an empty history |
| Entities.Patient.AddToHistory | medical_schedular.py:43-44 | the appointment is appended to the history |
| Entities.Doctor.constructor | medical_schedular.py:56-64 | a new doctor has no ID, the default hours 09:00 to 17:00, Monday to Friday, and an empty roster |
| Entities.Doctor.IsAvailable | medical_schedular.py:70-74 | free exactly when no roster entry has that timestamp; durations play no part |
| Entities.FreeAt | medical_schedular.py:70-74 | the scan returns false exactly when some entry has the timestamp |
| Entities.Appointment.constructor | medical_schedular.py:86-96 | a new appointment is `Scheduled`, has empty notes and no ID, and is appended once to the history and once to the roster |
| Entities.Appointment.Reschedule | medical_schedular.py:98-105 | moves exactly when the doctor is free at the new time, and then becomes `Rescheduled`; otherwise nothing changes; moving to its own time fails while it is on the roster; distinct roster timestamps are kept |
| Entities.Appointment.Complete | medical_schedular.py:107-110 | always sets `Completed` and the notes, whatever the status; nothing else changes |
| Entities.Appointment.Cancel | medical_schedular.py:112-116 | sets `Cancelled` and removes the first roster entry that is this appointment; on a roster without repeats it is then off the roster, which still has no repeats; distinct roster timestamps are kept; the history and the global list are untouched |
| Entities.RemoveFirst | medical_schedular.py:114-115 | `list.remove`: drops the first occurrence when present, leaves the list alone otherwise |
| Entities.IndexOf | medical_schedular.py:115 | the first occurrence of an entry |
| Entities.RemoveFirstWithoutRepeats | medical_schedular.py:114-115 | on a list without repeats the removal takes the entry out entirely and creates no repeat |
| Entities.RemoveFirstTwice | medical_schedular.py:112-116 | on a roster without repeats a second cancellation leaves the roster as the first left it |
| Entities.DropKeepsDistinct | medical_schedular.py:115 | dropping an entry from distinct entries leaves distinct entries without it |
| Entities.DropKeepsTimesDistinct | medical_schedular.py:115 | dropping a roster entry keeps roster timestamps distinct |
| Entities.AppendKeepsTimesDistinct | medical_schedular.py:204-218 | appending at a time the roster is free at keeps roster timestamps distinct |
| Tallies.TallyKeys | medical_schedular.py:329-331 | a status is a key of the count exactly when some appointment has it |
| Tallies.TallyCounts | medical_schedular.py:329-331 | the count of a status is the number of appointments with it |
| Tallies.FirstAppearancesMembers | medical_schedular.py:341-342 | the report lists every status that occurs, and no other |
| Tallies.FirstAppearancesDistinct | medical_schedular.py:341-342 | the report lists each status once |
| Tallies.FirstAppearancesOrdered | medical_schedular.py:329-342 | the report lists statuses in the order of the first appointment that has each |
| Tallies.TallyTotal | medical_schedular.py:327-342 | the counts in the report add up to the number of appointments |
| Codec.Relink | medical_schedular.py:303-317 | at most one appointment per record, each pointing at a loaded patient and doctor |
| Codec.Step | medical_schedular.py:304-317 | a record yields an appointment exactly when both its patient ID and doctor ID resolve |
| Codec.RelinkAppend | medical_schedular.py:303-317 | relinking goes record by record: a concatenation relinks to the concatenation |
| Codec.RelinkSnoc | medical_schedular.py:303-317 | one more record adds its own step at the end |
| Codec.RelinkPrefix | medical_schedular.py:303-317 | after record j the loop holds the links before it and its own |
| Codec.RelinkDropsUnresolved | medical_schedular.py:304-307 | a record with an unresolved patient or doctor ID is dropped, and its neighbours relink as if it were absent |
| Codec.RelinkKeepsResolved | medical_schedular.py:304-317 | a resolving record is kept in place, linked to the first patient and doctor carrying its IDs, with its ID, time and status unchanged and the defaults for a missing duration and notes |
| Codec.RelinkWithoutDoctors | medical_schedular.py:303-307 | with no doctors loaded every appointment record is dropped |
| Codec.RelinkFirstCarriers | medical_schedular.py:304-305 | every relinked appointment points at the first patient and the first doctor with the stored IDs |
| Codec.SavedAppointments | medical_schedular.py:267 | one stored record per appointment |
| Codec.SavedAppointmentsAt | medical_schedular.py:267 | the record saved for each appointment holds its fields and the IDs of the patient and the doctor it points at |
| Codec.Saved | medical_schedular.py:263-268 | one record per patient, doctor and appointment, and the patients and doctors read back from it are the ones saved |
| Codec.LoadPatients | medical_schedular.py:290-294 | one patient per patient record |
| Codec.LoadDoctors | medical_schedular.py:296-301 | one doctor per doctor record |
| Codec.Links | medical_schedular.py:303-317 | no more appointments load than there are records, each linked to a loaded patient and doctor |
| Codec.Reload | medical_schedular.py:263-317 | a save right after a load keeps the number of patients and doctors and writes at most as many appointments |
| Codec.ReloadKeepsPeople | medical_schedular.py:290-301 | every patient and doctor survives a save and a load field by field |
| Codec.CancelledRejoinsRoster | medical_schedular.py:310-311 | a cancelled appointment that relinks is back on its doctor's stored roster |
| Codec.ReloadIdempotent | medical_schedular.py:263-317 | reloading a reloaded document gives it back unchanged |
| Codec.RelinkSaved | medical_schedular.py:303-317 | relinking the appointment records of a save gives back the appointments saved |
| Codec.StepSaved | medical_schedular.py:304-313 | the saved record of one appointment relinks to that appointment |
| Codec.FirstCarriersSplit | medical_schedular.py:304-305 | the first-carrier property holds for every part of a list of links |
| Codec.LoadAll | medical_schedular.py:296-301 | a loading loop succeeds with one entry per record exactly when no record's reader raises |
| Codec.LoadAsWritten | medical_schedular.py:277-322 | as written, a load keeps the document's patients, and whenever there is a doctor record it ends with no doctor and no appointment |
| Codec.LoadAsWrittenLosesDoctors | medical_schedular.py:277-322 | as written, a load keeps its patients but no doctor and no appointment, for every document |
| Codec.LoadAsWrittenCounterexample | medical_schedular.py:25-29 | one patient, one doctor and one appointment load as written to the patient alone; corrected, they reload to themselves |
| Hospital.OfPatientMembers | medical_schedular.py:43-44 | the history selection holds exactly the appointments of that patient |
| Hospital.OfDoctorMembers | medical_schedular.py:245-248 | the doctor selection holds exactly the appointments with that doctor |
| Hospital.OnDayMembers | medical_schedular.py:249-252 | the day selection holds exactly the appointments on that date |
| Hospital.OfPatientWithoutRepeats | medical_schedular.py:241-244 | the history of a patient has no repeats when the global list has none |
| Hospital.OnDayWithoutRepeats | medical_schedular.py:249-252 | the day view has no repeats when the global list has none |
| Hospital.OfPatientAbsent | medical_schedular.py:158-160 | a patient with no appointments has an empty history selection |
| Hospital.NewAppointment | medical_schedular.py:310-315 | the rebuilt appointment holds the given fields and is appended to the history and the roster |
| Hospital.PatientFromRecord | medical_schedular.py:290-294 | a new patient holding the fields read from the record, with an empty history |
| Hospital.DoctorFromRecord | medical_schedular.py:296-301 | a new doctor holding the fields read from the record (the corrected `from_dict`), with an empty roster |
| Hospital.HospitalSystem.PatientWithId | medical_schedular.py:165-169 | found exactly when some patient has the ID, and then it is the first such patient |
| Hospital.HospitalSystem.DoctorWithId | medical_schedular.py:189-193 | found exactly when some doctor has the ID, and then it is the first such doctor |
| Hospital.HospitalSystem.FindPatientById | medical_schedular.py:165-169 | the scan returns the first patient with the ID, or `None` |
| Hospital.HospitalSystem.FindDoctorById | medical_schedular.py:189-193 | the scan returns the first doctor with the ID, or `None` |
| Hospital.HospitalSystem.AddPatient | medical_schedular.py:147-163 | the new patient has the next `P` ID, which no patient had, is active with an empty history, and is appended last; the objects stay linked |
| Hospital.HospitalSystem.EnrolPatient | medical_schedular.py:159-160 | setting the ID and appending a patient without appointments keeps the objects linked |
| Hospital.HospitalSystem.AddDoctor | medical_schedular.py:171-187 | the new doctor has the next `D` ID, which no doctor had, the default hours and an empty roster, and is appended last; the objects stay linked and no double booking appears |
| Hospital.HospitalSystem.EnrolDoctor | medical_schedular.py:183-184 | setting the ID and appending a doctor with an empty roster keeps the objects linked and creates no double booking |
| Hospital.HospitalSystem.EnrolmentKeepsRosters | medical_schedular.py:183-184 | registering a doctor with an empty roster keeps the links and creates no double booking |
| Hospital.HospitalSystem.ScheduleAppointment | medical_schedular.py:195-234 | failures come in order: unknown patient, unknown doctor, doctor busy, outside working hours, not a working day; on failure no list changes; on success the appointment is booked |
| Hospital.HospitalSystem.Book | medical_schedular.py:218-231 | a new `Scheduled` 30-minute appointment with the next `A` ID is appended once to the global list, the history and the roster; nothing else changes |
| Hospital.HospitalSystem.Attach | medical_schedular.py:218-231 | a new appointment holding the given fields is appended once to each of the three lists; no other list and no other object's fields change |
| Hospital.HospitalSystem.StatesKept | medical_schedular.py:218-231 | objects whose fields are kept keep the lists of their fields |
| Hospital.HospitalSystem.AttachKeepsLinked | medical_schedular.py:218-231 | attaching a new appointment keeps the objects linked |
| Hospital.HospitalSystem.AttachKeepsTimesApart | medical_schedular.py:204-231 | attaching at a time the doctor was free at keeps the links and creates no double booking |
| Hospital.HospitalSystem.AttachKeepsRostersMatch | medical_schedular.py:310-317 | attaching a new appointment keeps every doctor's roster equal to that doctor's appointments |
| Hospital.HospitalSystem.ViewsAreRegistered | medical_schedular.py:236-252 | on linked objects every view lists registered appointments, each once |
| Hospital.HospitalSystem.ViewAppointments | medical_schedular.py:236-252 | an unknown filter, or a `patient` or `doctor` filter with a falsy ID, selects nothing; the `today` view holds exactly the appointments dated that day |
| Hospital.HospitalSystem.ViewsSelect | medical_schedular.py:236-252 | `all` is the global list; `patient` is that patient's appointments in booking order; `doctor` holds only that doctor's appointments; `today` holds exactly that day's appointments; a falsy or unknown ID, or an unknown filter, selects nothing |
| Hospital.HospitalSystem.GetStatistics | medical_schedular.py:324-342 | the three totals, the count of each status, and the statuses in order of first appearance |
| Hospital.HospitalSystem.constructor | medical_schedular.py:139-145 | the lists start empty, or hold exactly what loading the stored document builds with the corrected `from_dict` (the behaviour as written is `Codec.LoadAsWritten`): its patients, its doctors and its relinked appointments, each doctor's roster being that doctor's appointments in order; either way the objects are linked, and after loading a save writes `Codec.Reload` of the document |
| Hospital.HospitalSystem.LoadData | medical_schedular.py:277-317 | (corrected `from_dict`) after loading, the objects are linked and are exactly the patients, doctors and relinked appointments of the document; each doctor's roster is that doctor's appointments in order, cancelled ones included; a save right after writes `Codec.Reload` of the document |
| Hospital.HospitalSystem.LoadPeople | medical_schedular.py:285-301 | (corrected `from_dict`) the lists are reset; the patients and doctors are rebuilt, new, from their records, with no appointments |
| Hospital.HospitalSystem.NothingBookedIsLinked | medical_schedular.py:285-301 | patients and doctors without appointments are linked |
| Hospital.HospitalSystem.LoadPatientRecords | medical_schedular.py:290-294 | one new patient per record, in order, with the record's fields and an empty history |
| Hospital.HospitalSystem.AppendPatient | medical_schedular.py:291-294 | the patient read from the record is appended and differs from those already loaded |
| Hospital.HospitalSystem.LoadDoctorRecords | medical_schedular.py:296-301 | (corrected `from_dict`) one new doctor per record, in order, with the record's fields and an empty roster |
| Hospital.HospitalSystem.AppendDoctor | medical_schedular.py:297-301 | (corrected `from_dict`) the doctor read from the record is appended and differs from those already loaded |
| Hospital.HospitalSystem.RelinkRecords | medical_schedular.py:303-317 | the appointment loop builds exactly the relinked appointments, keeps the objects linked, keeps each doctor's roster equal to that doctor's appointments, and leaves the patients' and doctors' fields alone |
| Hospital.HospitalSystem.RelinkRecord | medical_schedular.py:304-317 | one record is attached to the first patient and doctor with its IDs, or dropped when either is missing; each doctor's roster stays that doctor's appointments |
| Hospital.HospitalSystem.AttachExtendsRelinked | medical_schedular.py:310-317 | attaching the appointment of one more link extends the appointments built so far by it |
| Hospital.HospitalSystem.LoadedOnRosters | medical_schedular.py:310-317 | after loading, every appointment, cancelled ones included, is on its doctor's roster |
| Hospital.HospitalSystem.SaveData | medical_schedular.py:263-268 | the saved document has one record per patient, doctor and appointment |
| Hospital.HospitalSystem.SaveAfterLoad | medical_schedular.py:263-317 | (corrected `from_dict`) saving right after loading a document writes `Codec.Reload` of it |
| Hospital.HospitalSystem.SavedPeopleAfterLoad | medical_schedular.py:265-266 | after loading, the saved patient and doctor records are the ones `Codec.Reload` writes |
| Hospital.HospitalSystem.SavedPatientsAfterLoad | medical_schedular.py:265 | after loading, each saved patient record has the patient's fields and a history of the IDs of its relinked appointments |
| Hospital.HospitalSystem.SavedPatientAt | medical_schedular.py:265 | the same for one patient |
| Hospital.HospitalSystem.SavedDoctorsAfterLoad | medical_schedular.py:266 | after loading, each saved doctor record has the doctor's fields and a roster of the IDs of its relinked appointments |
| Hospital.HospitalSystem.SavedDoctorAt | medical_schedular.py:266 | the same for one doctor |
| Hospital.HospitalSystem.SavedAppointmentsAfterLoad | medical_schedular.py:267 | after loading, the saved appointment records are the ones `Codec.Reload` writes |
| Hospital.HospitalSystem.SavedAppointmentAt | medical_schedular.py:267 | the same for one appointment |
| Hospital.HospitalSystem.SaveLoadRoundTrip | medical_schedular.py:263-317 | with unique IDs, loading what a save writes gives the same patients and doctors, in order, and the same appointments linked to the same patients and doctors |
| Hospital.HospitalSystem.SavedPeopleReadBack | medical_schedular.py:290-301 | the patients and doctors read back from a save have the saved fields and IDs |
| Hospital.HospitalSystem.CarriedIsRelinked | medical_schedular.py:303-317 | links that describe the appointments are the appointments made objects |
| Hospital.PatientRecordsAt | medical_schedular.py:265 | each saved patient record holds that patient's fields and history IDs |
| Hospital.DoctorRecordsAt | medical_schedular.py:266 | each saved doctor record holds that doctor's fields and roster IDs |
| Hospital.AppointmentRecordsOf | medical_schedular.py:267 | each saved appointment record holds its fields and the IDs of its patient and doctor |
| Hospital.AppointmentRecordsSnoc | medical_schedular.py:267 | one more appointment adds its record at the end |
| Hospital.PatientRecordsReadBack | medical_schedular.py:290-294 | reading a saved patient record back gives that patient's fields |
| Hospital.DoctorRecordsReadBack | medical_schedular.py:296-301 | reading a saved doctor record back gives that doctor's fields (corrected `from_dict`) |
| Hospital.HistoryIdsOfObjects | medical_schedular.py:51 | the IDs in a patient's history are the IDs of the links naming that patient |
| Hospital.RosterIdsOfObjects | medical_schedular.py:81 | the IDs on a doctor's roster are the IDs of the links naming that doctor |
| Hospital.FindOwnPatient | medical_schedular.py:165-169 | with unique IDs, looking up a patient's own ID finds that patient |
| Hospital.FindOwnDoctor | medical_schedular.py:189-193 | with unique IDs, looking up a doctor's own ID finds that doctor |
| Hospital.StepSavedObject | medical_schedular.py:304-317 | with unique IDs, the saved record of an appointment relinks to its own patient and doctor |
| Hospital.CarriedBySnoc | medical_schedular.py:303-317 | one more appointment and its link extend a matching pair of lists |
| Hospital.RelinkSavedObjects | medical_schedular.py:303-317 | with unique IDs, relinking the saved appointment records gives back every appointment with its patient, doctor and fields |
| Hospital.WithinHours | medical_schedular.py:207-212 | no time is inside hours that end before they start; the default hours admit exactly 09:00:00 to 17:00:00 |
| Hospital.WorkingDay | medical_schedular.py:214-216 | with the default days, exactly Monday to Friday are working days |

## Left out

- File I/O is not modelled. This covers `open`, `json.dump`, `json.load`, `os.path.exists` and their error handlers. Saving is the pure function `Codec.Saved`. Loading starts from a `Document` value. A missing data file is the constructor's `None` argument.
- The catch-all handler of `_load_data` is modelled only where a doctor record raises (`Codec.LoadAsWritten`). A record missing a required key, which raises `KeyError` in the source, cannot be expressed: record fields read with `[]` are always present.
- Every `print` and every `display_info` string is left out. So are the formatting of `view_appointments` and of the statistics report, and the "No appointments found." message. The model returns the selected list and a `Statistics` value.
- `strftime` and `strptime` text formats are not modelled. Timestamps are a day ordinal and a second of the day. Working hours are minutes. The weekday comes from the ordinal, as `date.weekday()` computes it.
- Microseconds are not modelled. The source's timestamps come from whole-second text.
- `datetime.now()` for the `today` view is passed in as a parameter.
- The interactive menu, `get_datetime_input` and `main` are not part of this model.
- `int()` is modelled with ASCII digits only. Python also accepts other Unicode decimal digits.
- PyInt.ParseInt: has no limit on the number of digits. Python 3.11 and later, and the security releases 3.7.14, 3.8.14, 3.9.14 and 3.10.7, raise `ValueError` on a decimal literal longer than `sys.int_max_str_digits` (4300 by default). Under such an interpreter a stored identifier with a longer suffix is skipped by `add_patient`, `add_doctor` and `schedule_appointment`. The model counts it toward `max_id`. The limit depends on the interpreter and its settings, not on the program, so the model follows the unlimited conversion.
- PyInt.ParseDecimal: holds for every natural only without that limit. Under it, `f"{max_id + 1}"` at medical_schedular.py:159 raises an uncaught `ValueError` once `max_id + 1` has more than 4300 digits, and `int()` rejects such a text. `Ids.NextId` and `Ids.AllocateId` always succeed.
- Identifiers are modelled as optional strings. Stored identifiers of other JSON types are not modelled.
- Stored values of JSON types other than those `_save_data` writes are not modelled. This includes `null` under a key read with `.get` (`is_active`, `working_hours`, `duration`, `notes`): the source then reads `None` rather than the default. In the model `None` stands for an absent key, so `Records.PatientFromDict`, `Records.DoctorFromDict` and `Records.AppointmentFromDict` give the defaults instead.
- Hospital.HospitalSystem.ScheduleAppointment: it looks up the patient and the doctor with `PatientWithId` and `DoctorWithId`. Those are the functions that `FindPatientById` and `FindDoctorById` are proved to return. It does not call the scanning methods themselves. `RelinkRecord` does the same.
- Hospital.HospitalSystem.Book: it allocates the `A` identifier before building the appointment, where the source builds first. The allocation reads only the global list, which building leaves alone, so the result is the same.
- Hospital.HospitalSystem.Attach: it also assigns the status and the notes. On the scheduling path these equal what the constructor already set.
- Rescheduling, completing and cancelling are modelled on the appointment and its doctor. Their effect on the system-wide `Linked` invariant is not stated.
- An appointment being on its doctor's roster exactly when it is not cancelled is not an invariant of the source, so it is not stated. The reasons are given above. The direction that cancelling establishes is proved by `Entities.Appointment.Cancel`. `RostersMatch` (each roster is that doctor's appointments) holds after loading and is broken by cancelling, so it is part of `Loaded` and not of `Linked`.
- `_save_data` is modelled by `Hospital.HospitalSystem.SaveData` without the file write. The mutating methods do not call it, since it changes no object of the model.

## Findings

| source | as written | input that shows it | evidently intended | confidence | as-written member | corrected member |
|---|---|---|---|---|---|---|
| medical_schedular.py:25-29 | `Person.from_dict` builds `cls(data['name'], data['contact'])`. For `Doctor`, whose constructor also requires `specialization` (line 56), this raises `TypeError` on every doctor record. The catch-all at 321-322 swallows it, so no doctor and no appointment is ever loaded. | a document with patient `P1`, doctor `D1` and appointment `A1` between them loads to the patient alone | `Doctor.from_dict` passes the stored specialization, and loading rebuilds the doctors and relinks the appointments | not executed | Codec.LoadAsWrittenCounterexample | Codec.ReloadIdempotent |
