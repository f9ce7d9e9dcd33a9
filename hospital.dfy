/** The hospital system: the registered patients, doctors and appointments,
    registration with fresh identifiers, scheduling with its five checks,
    the appointment views, the statistics, and loading a stored document. */
module Hospital {
  import opened Base
  import opened Ids
  import opened Records
  import opened Entities
  import opened Codec
  import opened Tallies

  // ---- Views on lists of objects ----

  function PatientIdsOf(ps: seq<Patient>): (ids: seq<Option<string>>)
    reads ps`id
    ensures |ids| == |ps| && forall i {:trigger ids[i]} :: 0 <= i < |ps| ==> ids[i] == ps[i].id
  {
    if ps == [] then [] else PatientIdsOf(ps[..|ps| - 1]) + [ps[|ps| - 1].id]
  }

  function DoctorIdsOf(ds: seq<Doctor>): (ids: seq<Option<string>>)
    reads ds`id
    ensures |ids| == |ds| && forall i {:trigger ids[i]} :: 0 <= i < |ds| ==> ids[i] == ds[i].id
  {
    if ds == [] then [] else DoctorIdsOf(ds[..|ds| - 1]) + [ds[|ds| - 1].id]
  }

  function AppointmentIdsOf(appointments: seq<Appointment>): (ids: seq<Option<string>>)
    reads appointments`id
    ensures |ids| == |appointments| && forall i {:trigger ids[i]} :: 0 <= i < |appointments| ==> ids[i] == appointments[i].id
  {
    if appointments == [] then []
    else AppointmentIdsOf(appointments[..|appointments| - 1]) + [appointments[|appointments| - 1].id]
  }

  /** The states of a list of patients, as loading reads them back. */
  function PatientStatesOf(ps: seq<Patient>): (states: seq<PatientState>)
    reads ps`id, ps`name, ps`contact, ps`age, ps`isActive
    ensures |states| == |ps| && forall i {:trigger states[i]} :: 0 <= i < |ps| ==> states[i] == ps[i].State()
  {
    if ps == [] then [] else PatientStatesOf(ps[..|ps| - 1]) + [ps[|ps| - 1].State()]
  }

  function DoctorStatesOf(ds: seq<Doctor>): (states: seq<DoctorState>)
    reads ds`id, ds`name, ds`contact, ds`specialization, ds`workingHours
    ensures |states| == |ds| && forall i {:trigger states[i]} :: 0 <= i < |ds| ==> states[i] == ds[i].State()
  {
    if ds == [] then [] else DoctorStatesOf(ds[..|ds| - 1]) + [ds[|ds| - 1].State()]
  }

  /** The appointments of patient `p`, in the order of the list. */
  function OfPatient(appointments: seq<Appointment>, p: Patient): (r: seq<Appointment>)
    ensures |r| <= |appointments|
  {
    if appointments == [] then []
    else
      var last := appointments[|appointments| - 1];
      OfPatient(appointments[..|appointments| - 1], p) + (if last.patient == p then [last] else [])
  }

  /** The appointments with doctor `d`, in the order of the list. */
  function OfDoctor(appointments: seq<Appointment>, d: Doctor): (r: seq<Appointment>)
    ensures |r| <= |appointments|
  {
    if appointments == [] then []
    else
      var last := appointments[|appointments| - 1];
      OfDoctor(appointments[..|appointments| - 1], d) + (if last.doctor == d then [last] else [])
  }

  /** The appointments on calendar day `day`, in the order of the list. */
  function OnDay(appointments: seq<Appointment>, day: Ordinal): (r: seq<Appointment>)
    reads appointments`datetime
    ensures |r| <= |appointments|
  {
    if appointments == [] then []
    else
      var last := appointments[|appointments| - 1];
      OnDay(appointments[..|appointments| - 1], day) + (if Date(last.datetime) == day then [last] else [])
  }

  /** `OfPatient` keeps exactly the entries that qualify. */
  lemma {:induction false} OfPatientMembers(appointments: seq<Appointment>, p: Patient)
    ensures forall i :: 0 <= i < |OfPatient(appointments, p)| ==> OfPatient(appointments, p)[i] in appointments && OfPatient(appointments, p)[i].patient == p
    ensures forall i :: 0 <= i < |appointments| && appointments[i].patient == p ==> appointments[i] in OfPatient(appointments, p)
  {
    if appointments != [] {
      var front := appointments[..|appointments| - 1];
      OfPatientMembers(front, p);
      assert appointments == front + [appointments[|appointments| - 1]];
    }
  }

  /** `OfDoctor` keeps exactly the entries that qualify. */
  lemma {:induction false} OfDoctorMembers(appointments: seq<Appointment>, d: Doctor)
    ensures forall i :: 0 <= i < |OfDoctor(appointments, d)| ==> OfDoctor(appointments, d)[i] in appointments && OfDoctor(appointments, d)[i].doctor == d
    ensures forall i :: 0 <= i < |appointments| && appointments[i].doctor == d ==> appointments[i] in OfDoctor(appointments, d)
  {
    if appointments != [] {
      var front := appointments[..|appointments| - 1];
      OfDoctorMembers(front, d);
      assert appointments == front + [appointments[|appointments| - 1]];
    }
  }

  /** `OnDay` keeps exactly the entries that qualify. */
  lemma {:induction false} OnDayMembers(appointments: seq<Appointment>, day: Ordinal)
    ensures forall i :: 0 <= i < |OnDay(appointments, day)| ==> OnDay(appointments, day)[i] in appointments && Date(OnDay(appointments, day)[i].datetime) == day
    ensures forall i :: 0 <= i < |appointments| && Date(appointments[i].datetime) == day ==> appointments[i] in OnDay(appointments, day)
  {
    if appointments != [] {
      var front := appointments[..|appointments| - 1];
      OnDayMembers(front, day);
      assert appointments == front + [appointments[|appointments| - 1]];
    }
  }

  lemma {:induction false} OfPatientWithoutRepeats(appointments: seq<Appointment>, p: Patient)
    requires NoDuplicates(appointments)
    ensures NoDuplicates(OfPatient(appointments, p))
  {
    if appointments != [] {
      var front, last := appointments[..|appointments| - 1], appointments[|appointments| - 1];
      OfPatientWithoutRepeats(front, p);
      if last.patient == p {
        OfPatientMembers(front, p);
        NoDuplicatesAppend(OfPatient(front, p), last);
      } else {
        assert OfPatient(appointments, p) == OfPatient(front, p);
      }
    }
  }

  lemma {:induction false} OnDayWithoutRepeats(appointments: seq<Appointment>, day: Ordinal)
    requires NoDuplicates(appointments)
    ensures NoDuplicates(OnDay(appointments, day))
  {
    if appointments != [] {
      var front, last := appointments[..|appointments| - 1], appointments[|appointments| - 1];
      OnDayWithoutRepeats(front, day);
      if Date(last.datetime) == day {
        OnDayMembers(front, day);
        NoDuplicatesAppend(OnDay(front, day), last);
      } else {
        assert OnDay(appointments, day) == OnDay(front, day);
      }
    }
  }

  lemma {:induction false} OfPatientAbsent(appointments: seq<Appointment>, p: Patient)
    requires forall i :: 0 <= i < |appointments| ==> appointments[i].patient != p
    ensures OfPatient(appointments, p) == []
  {
    if appointments != [] {
      OfPatientAbsent(appointments[..|appointments| - 1], p);
    }
  }

  /** The statuses of the appointments, in list order. */
  function StatusesOf(appointments: seq<Appointment>): (statuses: seq<string>)
    reads appointments`status
    ensures |statuses| == |appointments| && forall i {:trigger statuses[i]} :: 0 <= i < |appointments| ==> statuses[i] == appointments[i].status
  {
    if appointments == [] then []
    else StatusesOf(appointments[..|appointments| - 1]) + [appointments[|appointments| - 1].status]
  }

  // ---- What `_save_data` writes ----

  /** `[p.to_dict() for p in self._patients]`: each patient's fields and
      the identifiers of its history. */
  function PatientRecordsOf(ps: seq<Patient>): (records: seq<PatientRecord>)
    reads ps, HistoryFrame(ps)
    ensures |records| == |ps|
  {
    if ps == [] then []
    else
      var p := ps[|ps| - 1];
      PatientRecordsOf(ps[..|ps| - 1]) + [PatientToDict(p.State(), AppointmentIdsOf(p.medicalHistory))]
  }

  /** `[d.to_dict() for d in self._doctors]`: each doctor's fields and the
      identifiers of its roster. */
  function DoctorRecordsOf(ds: seq<Doctor>): (records: seq<DoctorRecord>)
    reads ds, RosterFrame(ds)
    ensures |records| == |ds|
  {
    if ds == [] then []
    else
      var d := ds[|ds| - 1];
      DoctorRecordsOf(ds[..|ds| - 1]) + [DoctorToDict(d.State(), AppointmentIdsOf(d.appointments))]
  }

  function Elements(s: seq<Appointment>): set<Appointment>
  {
    set a | a in s
  }

  /** The appointments on the histories of `ps`. */
  ghost function HistoryFrame(ps: seq<Patient>): set<Appointment>
    reads ps
  {
    if ps == [] then {} else HistoryFrame(ps[..|ps| - 1]) + Elements(ps[|ps| - 1].medicalHistory)
  }

  /** The appointments on the rosters of `ds`. */
  ghost function RosterFrame(ds: seq<Doctor>): set<Appointment>
    reads ds
  {
    if ds == [] then {} else RosterFrame(ds[..|ds| - 1]) + Elements(ds[|ds| - 1].appointments)
  }

  lemma {:induction false} PatientRecordsAt(ps: seq<Patient>, i: nat)
    requires i < |ps|
    ensures PatientRecordsOf(ps)[i] == PatientToDict(ps[i].State(), AppointmentIdsOf(ps[i].medicalHistory))
  {
    var n := |ps| - 1;
    if i < n {
      assert ps[..n][i] == ps[i];
      PatientRecordsAt(ps[..n], i);
    }
  }

  lemma {:induction false} DoctorRecordsAt(ds: seq<Doctor>, j: nat)
    requires j < |ds|
    ensures DoctorRecordsOf(ds)[j] == DoctorToDict(ds[j].State(), AppointmentIdsOf(ds[j].appointments))
  {
    var n := |ds| - 1;
    if j < n {
      assert ds[..n][j] == ds[j];
      DoctorRecordsAt(ds[..n], j);
    }
  }

  /** `[a.to_dict() for a in self._appointments]`: each appointment's fields
      and the identifiers of its patient and its doctor. */
  function AppointmentRecordsOf(all: seq<Appointment>): (records: seq<AppointmentRecord>)
    reads all, set a | a in all :: a.patient, set a | a in all :: a.doctor
    ensures |records| == |all|
    ensures forall k :: 0 <= k < |all| ==> records[k] == AppointmentToDict(all[k].State(), all[k].patient.id, all[k].doctor.id)
  {
    if all == [] then []
    else
      var a := all[|all| - 1];
      AppointmentRecordsOf(all[..|all| - 1]) + [AppointmentToDict(a.State(), a.patient.id, a.doctor.id)]
  }

  /** The history identifiers of patient `ps[i]`, saved from objects that
      carry `links`, are the ones `Codec.Saved` writes for patient `i`. */
  lemma {:induction false} HistoryIdsOfObjects(all: seq<Appointment>, links: seq<Link>, ps: seq<Patient>, i: nat)
    requires |all| == |links| && i < |ps|
    requires forall k :: 0 <= k < |links| ==> links[k].patient < |ps| && all[k].patient == ps[links[k].patient] && all[k].id == links[k].state.id
    requires forall x, y :: 0 <= x < y < |ps| ==> ps[x] != ps[y]
    ensures AppointmentIdsOf(OfPatient(all, ps[i])) == HistoryIds(links, i)
  {
    if all != [] {
      var n := |all| - 1;
      forall k | 0 <= k < n ensures all[..n][k] == all[k] && links[..n][k] == links[k] { }
      HistoryIdsOfObjects(all[..n], links[..n], ps, i);
      var front := OfPatient(all[..n], ps[i]);
      if all[n].patient == ps[i] {
        assert links[n].patient == i;
        assert (front + [all[n]])[..|front|] == front;
      } else {
        assert links[n].patient != i;
      }
    }
  }

  /** The roster identifiers of doctor `ds[j]`, on rosters that are the
      doctors' own appointments, are the ones `Codec.Saved` writes for doctor `j`. */
  lemma {:induction false} RosterIdsOfObjects(all: seq<Appointment>, links: seq<Link>, ds: seq<Doctor>, j: nat)
    requires |all| == |links| && j < |ds|
    requires forall k :: 0 <= k < |links| ==> links[k].doctor < |ds| && all[k].doctor == ds[links[k].doctor] && all[k].id == links[k].state.id
    requires forall x, y :: 0 <= x < y < |ds| ==> ds[x] != ds[y]
    ensures AppointmentIdsOf(OfDoctor(all, ds[j])) == RosterIds(links, j)
  {
    if all != [] {
      var n := |all| - 1;
      forall k | 0 <= k < n ensures all[..n][k] == all[k] && links[..n][k] == links[k] { }
      RosterIdsOfObjects(all[..n], links[..n], ds, j);
      var front := OfDoctor(all[..n], ds[j]);
      if all[n].doctor == ds[j] {
        assert links[n].doctor == j;
        assert (front + [all[n]])[..|front|] == front;
      } else {
        assert links[n].doctor != j;
      }
    }
  }

  /** The appointments `all` are `links` made objects over `ps` and `ds`:
      each belongs to the patient and the doctor at the positions its link
      names and holds its fields. */
  ghost predicate CarriedBy(ps: seq<Patient>, ds: seq<Doctor>, all: seq<Appointment>, links: seq<Link>)
    reads all
  {
    && |links| == |all|
    && forall k :: 0 <= k < |all| ==>
         && links[k].patient < |ps| && links[k].doctor < |ds|
         && ps[links[k].patient] == all[k].patient && ds[links[k].doctor] == all[k].doctor
         && links[k].state == all[k].State()
  }

  /** With no two patients sharing an identifier, looking up a registered
      patient's identifier finds that patient. */
  lemma FindOwnPatient(ps: seq<Patient>, p: Patient)
    requires NoDuplicates(PatientIdsOf(ps)) && p in ps
    ensures FindIndex(PatientIdsOf(ps), p.id) == Some(IndexOf(ps, p))
  {
    var ids, j := PatientIdsOf(ps), IndexOf(ps, p);
    assert ids[j] == p.id;
    var k := FindIndex(ids, p.id).value;
    NoDuplicatesPairwise(ids);
    assert ids[k] == ids[j];
  }

  /** With no two doctors sharing an identifier, looking up a registered
      doctor's identifier finds that doctor. */
  lemma FindOwnDoctor(ds: seq<Doctor>, d: Doctor)
    requires NoDuplicates(DoctorIdsOf(ds)) && d in ds
    ensures FindIndex(DoctorIdsOf(ds), d.id) == Some(IndexOf(ds, d))
  {
    var ids, j := DoctorIdsOf(ds), IndexOf(ds, d);
    assert ids[j] == d.id;
    var k := FindIndex(ids, d.id).value;
    NoDuplicatesPairwise(ids);
    assert ids[k] == ids[j];
  }

  lemma AppointmentRecordsSnoc(all: seq<Appointment>, a: Appointment)
    ensures AppointmentRecordsOf(all + [a]) == AppointmentRecordsOf(all) + [AppointmentToDict(a.State(), a.patient.id, a.doctor.id)]
  {
    assert (all + [a])[..|all|] == all;
  }

  /** The saved record of a registered appointment relinks to its own
      patient and doctor when no two patients and no two doctors share an
      identifier. */
  lemma StepSavedObject(ps: seq<Patient>, ds: seq<Doctor>, a: Appointment)
    requires NoDuplicates(PatientIdsOf(ps)) && NoDuplicates(DoctorIdsOf(ds))
    requires a.patient in ps && a.doctor in ds
    ensures Step(PatientIdsOf(ps), DoctorIdsOf(ds), AppointmentToDict(a.State(), a.patient.id, a.doctor.id))
            == [Link(IndexOf(ps, a.patient), IndexOf(ds, a.doctor), a.State())]
  {
    FindOwnPatient(ps, a.patient);
    FindOwnDoctor(ds, a.doctor);
  }

  /** Reading the saved patients back gives their fields. */
  lemma PatientRecordsReadBack(ps: seq<Patient>)
    ensures forall i :: 0 <= i < |ps| ==> PatientFromDict(PatientRecordsOf(ps)[i]) == ps[i].State()
  {
    forall i | 0 <= i < |ps| ensures PatientFromDict(PatientRecordsOf(ps)[i]) == ps[i].State() {
      PatientRecordsAt(ps, i);
    }
  }

  /** Reading the saved doctors back gives their fields. */
  lemma DoctorRecordsReadBack(ds: seq<Doctor>)
    ensures forall j :: 0 <= j < |ds| ==> DoctorFromDict(DoctorRecordsOf(ds)[j]) == ds[j].State()
  {
    forall j | 0 <= j < |ds| ensures DoctorFromDict(DoctorRecordsOf(ds)[j]) == ds[j].State() {
      DoctorRecordsAt(ds, j);
    }
  }

  lemma CarriedBySnoc(ps: seq<Patient>, ds: seq<Doctor>, all: seq<Appointment>, links: seq<Link>, a: Appointment, link: Link)
    requires CarriedBy(ps, ds, all, links)
    requires link.patient < |ps| && link.doctor < |ds| && ps[link.patient] == a.patient && ds[link.doctor] == a.doctor
    requires link.state == a.State()
    ensures CarriedBy(ps, ds, all + [a], links + [link])
  {
    assert forall k :: 0 <= k < |all| ==> (all + [a])[k] == all[k] && (links + [link])[k] == links[k];
  }

  /** Relinking the saved records of registered appointments, when no two
      patients and no two doctors share an identifier, finds each
      appointment's own patient and doctor and reads back its fields. */
  lemma {:induction false} RelinkSavedObjects(ps: seq<Patient>, ds: seq<Doctor>, all: seq<Appointment>)
    requires NoDuplicates(PatientIdsOf(ps)) && NoDuplicates(DoctorIdsOf(ds))
    requires forall a :: a in all ==> a.patient in ps && a.doctor in ds
    ensures CarriedBy(ps, ds, all, Relink(PatientIdsOf(ps), DoctorIdsOf(ds), AppointmentRecordsOf(all)))
  {
    if all != [] {
      var n := |all| - 1;
      var pids, dids := PatientIdsOf(ps), DoctorIdsOf(ds);
      var front, a := all[..n], all[n];
      assert all == front + [a];
      assert forall x :: x in front ==> x in all;
      RelinkSavedObjects(ps, ds, front);
      var rec := AppointmentToDict(a.State(), a.patient.id, a.doctor.id);
      AppointmentRecordsSnoc(front, a);
      RelinkSnoc(pids, dids, AppointmentRecordsOf(front), rec);
      StepSavedObject(ps, ds, a);
      var link := Link(IndexOf(ps, a.patient), IndexOf(ds, a.doctor), a.State());
      CarriedBySnoc(ps, ds, front, Relink(pids, dids, AppointmentRecordsOf(front)), a, link);
    }
  }

  /** Python truthiness of an identifier argument: present and not empty. */
  predicate Truthy(id: Option<string>)
  {
    id.Some? && id.value != ""
  }

  /** What `get_statistics` reports: the three totals, the count per status,
      and the statuses in the order the report prints them. */
  datatype Statistics = Statistics(
    patients: nat, doctors: nat, appointments: nat, statusCount: map<string, nat>, statusOrder: seq<string>)

  /** `schedule_appointment`'s hours check: the time of day lies between the
      start and the end of the working hours, both included, to the second. */
  predicate WithinHours(hours: WorkingHours, t: Timestamp)
    ensures WithinHours(hours, t) ==> hours.start <= hours.end
    ensures hours == DEFAULT_WORKING_HOURS ==> (WithinHours(hours, t) <==> 9 * 3600 <= t.second <= 17 * 3600)
  {
    hours.start * 60 <= t.second <= hours.end * 60
  }

  /** `schedule_appointment`'s day check: the English weekday name is one of the working days. */
  predicate WorkingDay(hours: WorkingHours, t: Timestamp)
    ensures hours.days == DEFAULT_WORKING_HOURS.days ==> (WorkingDay(hours, t) <==> Weekday(t) < 5)
  {
    DayName(t) in hours.days
  }

  /** Why `schedule_appointment` refuses, in the order it checks. */
  datatype ScheduleError =
    | PatientNotFound(patientId: Option<string>)
    | DoctorNotFound(doctorId: Option<string>)
    | NotAvailable(t: Timestamp)
    | OutsideWorkingHours(hours: WorkingHours)
    | NotWorkingDay(dayName: string)

  /** `Appointment(patient, doctor, datetime, duration)` followed by the
      assignments of the identifier, the status and the notes: a new object
      holding `s` that has joined the patient's history and the doctor's
      roster. */
  method NewAppointment(patient: Patient, doctor: Doctor, s: AppointmentState) returns (a: Appointment)
    modifies patient`medicalHistory, doctor`appointments
    ensures fresh(a) && a.patient == patient && a.doctor == doctor && a.State() == s
    ensures patient.medicalHistory == old(patient.medicalHistory) + [a]
    ensures doctor.appointments == old(doctor.appointments) + [a]
  {
    a := new Appointment(patient, doctor, s.datetime, s.duration);
    a.id := s.id;
    a.status := s.status;
    a.notes := s.notes;
  }

  /** `Patient.from_dict` (the constructor, then the stored identifier),
      then `age` and `is_active` read with `.get`. */
  method PatientFromRecord(r: PatientRecord) returns (patient: Patient)
    ensures fresh(patient) && patient.State() == PatientFromDict(r) && patient.medicalHistory == []
  {
    patient := new Patient(r.person.name, r.person.contact, None);
    patient.id := r.person.id;
    patient.age := r.age;
    patient.isActive := if r.isActive.Some? then r.isActive.value else true;
  }

  /** The corrected `Doctor.from_dict` (the constructor given the stored
      specialization, then the stored identifier), then `specialization`
      and `working_hours` read with `.get`. */
  method DoctorFromRecord(r: DoctorRecord) returns (doctor: Doctor)
    ensures fresh(doctor) && doctor.State() == DoctorFromDict(r) && doctor.appointments == []
  {
    doctor := new Doctor(r.person.name, r.person.contact, r.specialization);
    doctor.id := r.person.id;
    doctor.specialization := r.specialization;
    doctor.workingHours := if r.workingHours.Some? then r.workingHours.value else DEFAULT_WORKING_HOURS;
  }

  class HospitalSystem {
    var patients: seq<Patient>
    var doctors: seq<Doctor>
    var appointments: seq<Appointment>

    function PatientIds(): seq<Option<string>>
      reads this`patients, patients`id
    {
      PatientIdsOf(patients)
    }

    function DoctorIds(): seq<Option<string>>
      reads this`doctors, doctors`id
    {
      DoctorIdsOf(doctors)
    }

    function AppointmentIds(): seq<Option<string>>
      reads this`appointments, appointments`id
    {
      AppointmentIdsOf(appointments)
    }

    /** The objects hang together: nothing registered twice, every
        appointment's patient and doctor registered, each patient's history
        exactly its appointments in list order, and each doctor's roster
        made of its own appointments, without repeats. */
    ghost predicate Linked()
      reads this`patients, this`doctors, this`appointments
      reads patients`medicalHistory, doctors`appointments
    {
      && NoDuplicates(patients) && NoDuplicates(doctors) && NoDuplicates(appointments)
      && Registered(appointments) && HistoriesMatch(appointments) && RostersOwned(appointments)
    }

    ghost predicate Registered(all: seq<Appointment>)
      reads this`patients, this`doctors
    {
      forall a :: a in all ==> a.patient in patients && a.doctor in doctors
    }

    ghost predicate HistoriesMatch(all: seq<Appointment>)
      reads this`patients, patients`medicalHistory
    {
      forall p :: p in patients ==> p.medicalHistory == OfPatient(all, p)
    }

    ghost predicate RostersOwned(all: seq<Appointment>)
      reads this`doctors, doctors`appointments
    {
      forall d :: d in doctors ==> NoDuplicates(d.appointments) && forall a :: a in d.appointments ==> a in all && a.doctor == d
    }

    /** Each doctor's roster is exactly that doctor's appointments in list
        order. Loading establishes this; cancelling breaks it. */
    ghost predicate RostersMatch(all: seq<Appointment>)
      reads this`doctors, doctors`appointments
    {
      forall d :: d in doctors ==> d.appointments == OfDoctor(all, d)
    }

    /** No identifier is shared within a class. */
    ghost predicate UniqueIds()
      reads this`patients, this`doctors, this`appointments, patients`id, doctors`id, appointments`id
    {
      NoDuplicates(PatientIds()) && NoDuplicates(DoctorIds()) && NoDuplicates(AppointmentIds())
    }

    /** No doctor has two roster entries at the same time. */
    ghost predicate NoDoubleBookings()
      requires RostersOwned(appointments)
      reads this`doctors, this`appointments, doctors`appointments, appointments`datetime
    {
      forall d :: d in doctors ==> d.NoDoubleBooking()
    }

    /** The first patient whose identifier is `id`. */
    function PatientWithId(id: Option<string>): (found: Option<Patient>)
      reads this`patients, patients`id
      ensures found.Some? <==> id in PatientIds()
      ensures found.Some? ==> found.value.id == id && exists i :: (0 <= i < |patients| && patients[i] == found.value
                                                                  && forall j :: 0 <= j < i ==> patients[j].id != id)
    {
      match FindIndex(PatientIds(), id)
      case Some(i) =>
        assert forall j :: 0 <= j <= i ==> PatientIds()[j] == patients[j].id;
        assert forall j :: 0 <= j < i ==> PatientIds()[..i][j] == PatientIds()[j];
        Some(patients[i])
      case None => None
    }

    /** The first doctor whose identifier is `id`. */
    function DoctorWithId(id: Option<string>): (found: Option<Doctor>)
      reads this`doctors, doctors`id
      ensures found.Some? <==> id in DoctorIds()
      ensures found.Some? ==> found.value.id == id && exists i :: (0 <= i < |doctors| && doctors[i] == found.value
                                                                  && forall j :: 0 <= j < i ==> doctors[j].id != id)
    {
      match FindIndex(DoctorIds(), id)
      case Some(i) =>
        assert forall j :: 0 <= j <= i ==> DoctorIds()[j] == doctors[j].id;
        assert forall j :: 0 <= j < i ==> DoctorIds()[..i][j] == DoctorIds()[j];
        Some(doctors[i])
      case None => None
    }

    /** `find_patient_by_id`: the scan that returns at the first match. */
    method FindPatientById(id: Option<string>) returns (found: Option<Patient>)
      ensures found == PatientWithId(id)
    {
      var i := 0;
      while i < |patients|
        invariant 0 <= i <= |patients|
        invariant id !in PatientIds()[..i]
      {
        if patients[i].id == id {
          assert PatientIds()[i] == id;
          return Some(patients[i]);
        }
        i := i + 1;
      }
      assert PatientIds()[..i] == PatientIds();
      return None;
    }

    /** `find_doctor_by_id`: the scan that returns at the first match. */
    method FindDoctorById(id: Option<string>) returns (found: Option<Doctor>)
      ensures found == DoctorWithId(id)
    {
      var i := 0;
      while i < |doctors|
        invariant 0 <= i <= |doctors|
        invariant id !in DoctorIds()[..i]
      {
        if doctors[i].id == id {
          assert DoctorIds()[i] == id;
          return Some(doctors[i]);
        }
        i := i + 1;
      }
      assert DoctorIds()[..i] == DoctorIds();
      return None;
    }

    /** `add_patient`: the new patient gets `P` followed by one more than the
        largest `P` number in use, and is registered last. */
    method AddPatient(name: string, contact: string, age: Option<int>) returns (patient: Patient)
      requires Linked()
      modifies this`patients
      ensures Linked()
      ensures fresh(patient) && patients == old(patients) + [patient]
      ensures patient.State() == PatientState(Some(NextId(PATIENT_PREFIX, old(PatientIds()))), name, contact, age, true)
      ensures patient.medicalHistory == []
      ensures PatientIds() == old(PatientIds()) + [patient.id] && patient.id !in old(PatientIds())
    {
      var id := AllocateId(PATIENT_PREFIX, PatientIds());
      patient := new Patient(name, contact, age);
      EnrolPatient(patient, id);
    }

    /** The tail of `add_patient`: the identifier is set and the patient,
        who has no appointments yet, is appended, which keeps the objects linked. */
    method EnrolPatient(patient: Patient, id: string)
      requires Linked() && patient !in patients && patient.medicalHistory == []
      modifies this`patients, patient`id
      ensures Linked()
      ensures patients == old(patients) + [patient] && patient.id == Some(id)
      ensures PatientIds() == old(PatientIds()) + [patient.id]
    {
      patient.id := Some(id);
      patients := patients + [patient];
      NoDuplicatesAppend(old(patients), patient);
      OfPatientAbsent(appointments, patient);
    }

    /** `add_doctor`: the new doctor gets `D` followed by one more than the
        largest `D` number in use, the default working hours, and is
        registered last. */
    method AddDoctor(name: string, contact: string, specialization: Option<string>) returns (doctor: Doctor)
      requires Linked()
      modifies this`doctors
      ensures Linked()
      ensures fresh(doctor) && doctors == old(doctors) + [doctor]
      ensures doctor.State() == DoctorState(Some(NextId(DOCTOR_PREFIX, old(DoctorIds()))), name, contact, specialization, DEFAULT_WORKING_HOURS)
      ensures doctor.appointments == []
      ensures DoctorIds() == old(DoctorIds()) + [doctor.id] && doctor.id !in old(DoctorIds())
      ensures old(NoDoubleBookings()) ==> NoDoubleBookings()
    {
      var id := AllocateId(DOCTOR_PREFIX, DoctorIds());
      doctor := new Doctor(name, contact, specialization);
      EnrolDoctor(doctor, id);
    }

    /** The tail of `add_doctor`: the identifier is set and the doctor, whose
        roster is empty, is appended, which keeps the objects linked and
        creates no double booking. */
    method EnrolDoctor(doctor: Doctor, id: string)
      requires Linked() && doctor !in doctors && doctor.appointments == []
      modifies this`doctors, doctor`id
      ensures Linked()
      ensures doctors == old(doctors) + [doctor] && doctor.id == Some(id)
      ensures DoctorIds() == old(DoctorIds()) + [doctor.id]
      ensures old(NoDoubleBookings()) ==> NoDoubleBookings()
    {
      doctor.id := Some(id);
      doctors := doctors + [doctor];
      EnrolmentKeepsRosters(doctor);
    }

    /** Registering a doctor with an empty roster, and changing nothing else
        that the links read, keeps the objects linked and creates no double
        booking. */
    twostate lemma EnrolmentKeepsRosters(new doctor: Doctor)
      requires old(Linked()) && doctor !in old(doctors) && doctor.appointments == []
      requires doctors == old(doctors) + [doctor] && patients == old(patients) && appointments == old(appointments)
      requires unchanged(patients) && unchanged(old(doctors)) && unchanged(appointments)
      ensures Linked()
      ensures old(NoDoubleBookings()) ==> NoDoubleBookings()
    {
      NoDuplicatesAppend(old(doctors), doctor);
      assert RostersOwned(appointments) by {
        forall d | d in doctors
          ensures NoDuplicates(d.appointments) && forall a :: a in d.appointments ==> a in appointments && a.doctor == d
        {
          if d != doctor { assert d in old(doctors); }
        }
      }
      assert old(NoDoubleBookings()) ==> NoDoubleBookings() by {
        if old(NoDoubleBookings()) {
          forall d | d in doctors ensures d.NoDoubleBooking() {
            if d != doctor { assert d in old(doctors) && old(d.NoDoubleBooking()); }
          }
        }
      }
    }

    /** `schedule_appointment`. The checks run in this order: the patient is
        registered, the doctor is registered, the doctor is free at `t`, the
        time of day is within the working hours, the weekday is a working day.
        The first that fails decides the error, and then no list and no
        appointment changes. When all pass, the appointment is booked. The
        two lookups are the scans of `FindPatientById` and `FindDoctorById`,
        called here by the results those methods are proved to return. */
    method ScheduleAppointment(patientId: Option<string>, doctorId: Option<string>, t: Timestamp)
      returns (result: Result<Appointment, ScheduleError>)
      modifies this`appointments, patients`medicalHistory, doctors`appointments
      ensures old(PatientWithId(patientId)).None? ==> result == Err(PatientNotFound(patientId))
      ensures old(PatientWithId(patientId)).Some? && old(DoctorWithId(doctorId)).None? ==>
                result == Err(DoctorNotFound(doctorId))
      ensures old(PatientWithId(patientId)).Some? && old(DoctorWithId(doctorId)).Some? ==>
                var d := old(DoctorWithId(doctorId)).value;
                && (!old(d.IsAvailable(t)) ==> result == Err(NotAvailable(t)))
                && (old(d.IsAvailable(t)) && !WithinHours(d.workingHours, t) ==> result == Err(OutsideWorkingHours(d.workingHours)))
                && (old(d.IsAvailable(t)) && WithinHours(d.workingHours, t) && !WorkingDay(d.workingHours, t) ==>
                      result == Err(NotWorkingDay(DayName(t))))
                && (old(d.IsAvailable(t)) && WithinHours(d.workingHours, t) && WorkingDay(d.workingHours, t) ==> result.Ok?)
      ensures result.Err? ==> appointments == old(appointments)
      ensures result.Err? ==> forall p :: p in patients ==> p.medicalHistory == old(p.medicalHistory)
      ensures result.Err? ==> forall d :: d in doctors ==> d.appointments == old(d.appointments)
      ensures result.Ok? ==> Booked(old(PatientWithId(patientId)).value, old(DoctorWithId(doctorId)).value, t, result.value)
    {
      var patient := PatientWithId(patientId);
      var doctor := DoctorWithId(doctorId);
      if patient.None? {
        return Err(PatientNotFound(patientId));
      }
      if doctor.None? {
        return Err(DoctorNotFound(doctorId));
      }
      var d := doctor.value;
      if !d.IsAvailable(t) {
        return Err(NotAvailable(t));
      }
      if !WithinHours(d.workingHours, t) {
        return Err(OutsideWorkingHours(d.workingHours));
      }
      if !WorkingDay(d.workingHours, t) {
        return Err(NotWorkingDay(DayName(t)));
      }
      var a := Book(patient.value, d, t);
      return Ok(a);
    }

    /** What a successful `schedule_appointment` changes: a new `Scheduled`
        appointment of 30 minutes for `patient` with `doctor` at `t`, whose
        identifier is `A` followed by one more than the largest `A` number in
        use, is attached. */
    twostate predicate Booked(patient: Patient, doctor: Doctor, t: Timestamp, new a: Appointment)
      reads this, patients, doctors, appointments, patient, doctor, a
    {
      && Attached(patient, doctor, a)
      && a.State() == AppointmentState(Some(NextId(APPOINTMENT_PREFIX, old(AppointmentIds()))), t, DEFAULT_DURATION, SCHEDULED, "")
    }

    /** A new appointment of `patient` with `doctor` is appended once to the
        global list, to the patient's history and to the doctor's roster. No
        other list changes, and no existing appointment does. */
    twostate predicate Attached(patient: Patient, doctor: Doctor, new a: Appointment)
      reads this, patients, doctors, appointments, patient, doctor, a
    {
      && fresh(a) && a.patient == patient && a.doctor == doctor
      && patients == old(patients) && doctors == old(doctors)
      && appointments == old(appointments) + [a]
      && patient.medicalHistory == old(patient.medicalHistory) + [a]
      && doctor.appointments == old(doctor.appointments) + [a]
      && (forall p :: p in patients && p != patient ==> p.medicalHistory == old(p.medicalHistory))
      && (forall d :: d in doctors && d != doctor ==> d.appointments == old(d.appointments))
      && unchanged(appointments[..|old(appointments)|])
    }

    /** The success path of `schedule_appointment`: the appointment is built
        and attached with the next `A` identifier. The identifier scan runs
        first here; it reads only the global list, which building the
        appointment leaves alone, so the identifier is the same as when it
        runs second. */
    method Book(patient: Patient, doctor: Doctor, t: Timestamp) returns (a: Appointment)
      requires patient in patients && doctor in doctors
      modifies this`appointments, patient`medicalHistory, doctor`appointments
      ensures Booked(patient, doctor, t, a)
    {
      var id := AllocateId(APPOINTMENT_PREFIX, AppointmentIds());
      a := Attach(patient, doctor, AppointmentState(Some(id), t, DEFAULT_DURATION, SCHEDULED, ""));
    }

    /** Building an appointment (which joins the history and the roster),
        setting the fields that differ from what the constructor sets, and
        appending it to the global list: `schedule_appointment` sets only the
        identifier (the constructor already made it `Scheduled` with empty
        notes); the loader also sets the stored status and notes. */
    method Attach(patient: Patient, doctor: Doctor, s: AppointmentState) returns (a: Appointment)
      requires patient in patients && doctor in doctors
      modifies this`appointments, patient`medicalHistory, doctor`appointments
      ensures Attached(patient, doctor, a) && a.State() == s
      ensures PatientIds() == old(PatientIds()) && DoctorIds() == old(DoctorIds())
      ensures forall i :: 0 <= i < |patients| ==> patients[i].State() == old(patients[i].State())
      ensures forall i :: 0 <= i < |doctors| ==> doctors[i].State() == old(doctors[i].State())
    {
      a := NewAppointment(patient, doctor, s);
      appointments := appointments + [a];
    }

    /** Objects whose states are kept keep the lists of states. */
    twostate lemma StatesKept()
      requires patients == old(patients) && doctors == old(doctors)
      requires forall i :: 0 <= i < |patients| ==> patients[i].State() == old(patients[i].State())
      requires forall i :: 0 <= i < |doctors| ==> doctors[i].State() == old(doctors[i].State())
      ensures PatientStatesOf(patients) == old(PatientStatesOf(patients)) && DoctorStatesOf(doctors) == old(DoctorStatesOf(doctors))
    {
    }

    /** Attaching keeps the objects linked. */
    twostate lemma AttachKeepsLinked(new patient: Patient, new doctor: Doctor, new a: Appointment)
      requires old(Linked()) && patient in old(patients) && doctor in old(doctors)
      requires Attached(patient, doctor, a)
      ensures Linked()
    {
      var all := old(appointments);
      NoDuplicatesAppend(all, a);
      assert HistoriesMatch(appointments) by {
        forall p | p in patients ensures p.medicalHistory == OfPatient(appointments, p) {
          assert appointments[..|all|] == all;
          assert old(p.medicalHistory) == OfPatient(all, p);
        }
      }
      assert RostersOwned(appointments) by {
        forall d | d in doctors
          ensures NoDuplicates(d.appointments) && forall x :: x in d.appointments ==> x in appointments && x.doctor == d
        {
          assert old(NoDuplicates(d.appointments));
          if d == doctor { NoDuplicatesAppend(old(d.appointments), a); }
        }
      }
    }

    /** Attaching keeps each roster equal to its doctor's appointments. */
    twostate lemma AttachKeepsRostersMatch(new patient: Patient, new doctor: Doctor, new a: Appointment)
      requires old(RostersMatch(appointments)) && patient in old(patients) && doctor in old(doctors)
      requires Attached(patient, doctor, a)
      ensures RostersMatch(appointments)
    {
      var all := old(appointments);
      assert appointments[..|all|] == all;
      forall d | d in doctors ensures d.appointments == OfDoctor(appointments, d) {
        assert old(d.appointments) == OfDoctor(all, d);
      }
    }

    /** Attaching at a time the doctor was free at creates no double booking. */
    twostate lemma AttachKeepsTimesApart(new patient: Patient, doctor: Doctor, t: Timestamp, new a: Appointment)
      requires old(Linked()) && patient in old(patients) && doctor in old(doctors)
      requires old(NoDoubleBookings()) && old(doctor.IsAvailable(t))
      requires Attached(patient, doctor, a) && a.datetime == t
      ensures Linked() && NoDoubleBookings()
    {
      AttachKeepsLinked(patient, doctor, a);
      forall d | d in doctors ensures d.NoDoubleBooking() {
        assert old(d.NoDoubleBooking());
        if d == doctor { AppendKeepsTimesDistinct(old(d.appointments), a); }
      }
    }

    /** `view_appointments`' selection: the whole list, the history of the
        patient or the roster of the doctor found by a non-empty identifier,
        or the appointments on `today`; anything else selects nothing. */
    function ViewAppointments(filterType: string, id: Option<string>, today: Ordinal): (r: seq<Appointment>)
      reads this`patients, this`doctors, this`appointments
      reads patients`id, patients`medicalHistory, doctors`id, doctors`appointments, appointments`datetime
      ensures filterType !in ["all", "patient", "doctor", "today"] ==> r == []
      ensures filterType in ["patient", "doctor"] && !Truthy(id) ==> r == []
      ensures filterType == "today" ==> (forall k :: 0 <= k < |r| ==> r[k] in appointments && Date(r[k].datetime) == today)
      ensures filterType == "today" ==> forall k :: 0 <= k < |appointments| && Date(appointments[k].datetime) == today ==> appointments[k] in r
    {
      if filterType == "all" then appointments
      else if filterType == "patient" && Truthy(id) then
        match PatientWithId(id)
        case Some(p) => p.medicalHistory
        case None => []
      else if filterType == "doctor" && Truthy(id) then
        match DoctorWithId(id)
        case Some(d) => d.appointments
        case None => []
      else if filterType == "today" then OnDayMembers(appointments, today); OnDay(appointments, today)
      else []
    }

    /** On linked objects every view lists registered appointments, each at
        most once. */
    lemma ViewsAreRegistered(filterType: string, id: Option<string>, today: Ordinal)
      requires Linked()
      ensures var r := ViewAppointments(filterType, id, today);
              NoDuplicates(r) && forall k :: 0 <= k < |r| ==> r[k] in appointments
    {
      if filterType == "patient" && Truthy(id) && PatientWithId(id).Some? {
        var p := PatientWithId(id).value;
        OfPatientMembers(appointments, p);
        OfPatientWithoutRepeats(appointments, p);
      } else if filterType == "today" {
        OnDayMembers(appointments, today);
        OnDayWithoutRepeats(appointments, today);
      }
    }

    /** On linked objects the patient view is exactly that patient's
        appointments in booking order, the doctor view holds only that
        doctor's appointments, the day view exactly the appointments on that
        day, and a falsy identifier, an unknown one or an unknown filter
        selects nothing. */
    lemma ViewsSelect(filterType: string, id: Option<string>, today: Ordinal)
      requires Linked()
      ensures var r := ViewAppointments(filterType, id, today);
              && (filterType == "all" ==> r == appointments)
              && (filterType == "patient" ==>
                    if Truthy(id) && PatientWithId(id).Some? then r == OfPatient(appointments, PatientWithId(id).value) else r == [])
              && (filterType == "doctor" ==>
                    if Truthy(id) && DoctorWithId(id).Some? then forall a :: a in r ==> a.doctor == DoctorWithId(id).value else r == [])
              && (filterType == "today" ==>
                    forall a :: a in appointments ==> (a in r <==> Date(a.datetime) == today))
              && (filterType !in ["all", "patient", "doctor", "today"] ==> r == [])
    {
      if filterType == "today" {
        OnDayMembers(appointments, today);
      }
    }

    /** The statuses of the registered appointments. */
    function Statuses(): seq<string>
      reads this`appointments, appointments`status
    {
      StatusesOf(appointments)
    }

    /** `get_statistics`: the totals, and the loop counting appointments by
        status into a dictionary; `order` is the dictionary's insertion order,
        in which the report prints it. */
    method GetStatistics() returns (stats: Statistics)
      ensures stats == Statistics(|patients|, |doctors|, |appointments|, Tally(Statuses()), FirstAppearances(Statuses()))
    {
      var counts: map<string, nat> := map[];
      var order: seq<string> := [];
      ghost var statuses := Statuses();
      for i := 0 to |appointments|
        invariant counts == Tally(statuses[..i])
        invariant order == FirstAppearances(statuses[..i])
      {
        var status := appointments[i].status;
        assert statuses[..i + 1] == statuses[..i] + [status];
        TallyKeys(statuses[..i]);
        if status !in counts {
          order := order + [status];
        }
        counts := counts[status := (if status in counts then counts[status] else 0) + 1];
      }
      assert statuses[..|appointments|] == statuses;
      stats := Statistics(|patients|, |doctors|, |appointments|, counts, order);
    }

    /** `HospitalSystem()`: the lists start empty and, when a stored document
        exists, are loaded from it. */
    constructor (stored: Option<Document>)
      ensures Linked()
      ensures stored.None? ==> patients == [] && doctors == [] && appointments == []
      ensures stored.Some? ==> Loaded(stored.value) && SaveData() == Reload(stored.value)
    {
      patients := [];
      doctors := [];
      appointments := [];
      new;
      if stored.Some? {
        LoadData(stored.value);
      }
    }

    /** The objects are the ones loading `doc` builds: a patient and a doctor
        per record, in record order, with the fields read back from it, and
        one appointment per relinked record, attached to the patient and the
        doctor at the positions the link names and on that doctor's roster. */
    ghost predicate Loaded(doc: Document)
      reads this`patients, this`doctors, this`appointments, patients, doctors, appointments
    {
      && PatientStatesOf(patients) == LoadPatients(doc)
      && DoctorStatesOf(doctors) == LoadDoctors(doc)
      && Relinked(Links(doc))
      && RostersMatch(appointments)
    }

    /** The appointments are `links`, made objects. */
    ghost predicate Relinked(links: seq<Link>)
      reads this`patients, this`doctors, this`appointments, appointments
    {
      |appointments| == |links| && forall k :: 0 <= k < |links| ==> Carries(appointments[k], links[k])
    }

    /** Appointment `a` is `link` made an object: it belongs to the patient and
        the doctor at the positions the link names and holds its fields. */
    ghost predicate Carries(a: Appointment, link: Link)
      reads this`patients, this`doctors, a
    {
      && link.patient < |patients| && link.doctor < |doctors|
      && a.patient == patients[link.patient] && a.doctor == doctors[link.doctor]
      && a.State() == link.state
    }

    /** `_load_data` once the document is read: the three lists are emptied,
        then the patients, the doctors and the appointments are rebuilt in
        turn, with the corrected `Doctor.from_dict`. A save right after
        writes `Codec.Reload(doc)`. */
    method LoadData(doc: Document)
      modifies this`patients, this`doctors, this`appointments
      ensures Linked() && Loaded(doc)
      ensures SaveData() == Reload(doc)
    {
      LoadPeople(doc);
      RelinkRecords(doc.appointments);
      SaveAfterLoad(doc);
    }

    /** The first part of `_load_data`: the lists emptied, then the patients
        and the doctors rebuilt. Nobody has an appointment yet. */
    method LoadPeople(doc: Document)
      modifies this`patients, this`doctors, this`appointments
      ensures Linked() && appointments == [] && RostersMatch(appointments)
      ensures forall i :: 0 <= i < |patients| ==> fresh(patients[i])
      ensures forall j :: 0 <= j < |doctors| ==> fresh(doctors[j])
      ensures PatientStatesOf(patients) == LoadPatients(doc) && DoctorStatesOf(doctors) == LoadDoctors(doc)
      ensures PatientIds() == PatientStateIds(LoadPatients(doc)) && DoctorIds() == DoctorStateIds(LoadDoctors(doc))
    {
      patients := [];
      doctors := [];
      appointments := [];
      LoadPatientRecords(doc.patients);
      LoadDoctorRecords(doc.doctors);
      NothingBookedIsLinked();
    }

    /** Registered patients and doctors without any appointment are linked. */
    lemma NothingBookedIsLinked()
      requires appointments == [] && NoDuplicates(patients) && NoDuplicates(doctors)
      requires forall p :: p in patients ==> p.medicalHistory == []
      requires forall d :: d in doctors ==> d.appointments == []
      ensures Linked()
    {
    }

    /** The patient loop of `_load_data`: each record is read back and the
        patient appended. Each patient is new and has an empty history. */
    method LoadPatientRecords(records: seq<PatientRecord>)
      requires patients == []
      modifies this`patients
      ensures |patients| == |records| && NoDuplicates(patients)
      ensures forall i :: 0 <= i < |records| ==> fresh(patients[i]) && patients[i].State() == PatientFromDict(records[i])
      ensures forall p :: p in patients ==> p.medicalHistory == []
    {
      for i := 0 to |records|
        invariant |patients| == i && NoDuplicates(patients)
        invariant forall k :: 0 <= k < i ==> fresh(patients[k])
        invariant forall k :: 0 <= k < i ==> patients[k].State() == PatientFromDict(records[k])
        invariant forall k :: 0 <= k < i ==> patients[k].medicalHistory == []
      {
        AppendPatient(records[i]);
      }
    }

    /** One pass of the patient loop: the patient read back from `r` is
        appended, and differs from every patient already loaded. */
    method AppendPatient(r: PatientRecord)
      requires NoDuplicates(patients)
      modifies this`patients
      ensures |patients| == |old(patients)| + 1 && patients[..|old(patients)|] == old(patients) && NoDuplicates(patients)
      ensures var p := patients[|old(patients)|]; fresh(p) && p.State() == PatientFromDict(r) && p.medicalHistory == []
    {
      var patient := PatientFromRecord(r);
      NoDuplicatesAppend(patients, patient);
      patients := patients + [patient];
    }

    /** The doctor loop of `_load_data`: each record is read back and the
        doctor appended. Each doctor is new and has an empty roster. */
    method LoadDoctorRecords(records: seq<DoctorRecord>)
      requires doctors == []
      modifies this`doctors
      ensures |doctors| == |records| && NoDuplicates(doctors)
      ensures forall j :: 0 <= j < |records| ==> fresh(doctors[j]) && doctors[j].State() == DoctorFromDict(records[j])
      ensures forall d :: d in doctors ==> d.appointments == []
    {
      for j := 0 to |records|
        invariant |doctors| == j && NoDuplicates(doctors)
        invariant forall k :: 0 <= k < j ==> fresh(doctors[k])
        invariant forall k :: 0 <= k < j ==> doctors[k].State() == DoctorFromDict(records[k])
        invariant forall k :: 0 <= k < j ==> doctors[k].appointments == []
      {
        AppendDoctor(records[j]);
      }
    }

    /** One pass of the doctor loop: the doctor read back from `r` is
        appended, and differs from every doctor already loaded. */
    method AppendDoctor(r: DoctorRecord)
      requires NoDuplicates(doctors)
      modifies this`doctors
      ensures |doctors| == |old(doctors)| + 1 && doctors[..|old(doctors)|] == old(doctors) && NoDuplicates(doctors)
      ensures var d := doctors[|old(doctors)|]; fresh(d) && d.State() == DoctorFromDict(r) && d.appointments == []
    {
      var doctor := DoctorFromRecord(r);
      NoDuplicatesAppend(doctors, doctor);
      doctors := doctors + [doctor];
    }

    /** The appointment loop of `_load_data`, record by record. */
    method RelinkRecords(records: seq<AppointmentRecord>)
      requires Linked() && appointments == [] && RostersMatch(appointments)
      modifies this`appointments, patients`medicalHistory, doctors`appointments
      ensures Linked() && RostersMatch(appointments)
      ensures Relinked(Relink(old(PatientIds()), old(DoctorIds()), records))
      ensures PatientStatesOf(patients) == old(PatientStatesOf(patients)) && DoctorStatesOf(doctors) == old(DoctorStatesOf(doctors))
    {
      ghost var patientIds, doctorIds := PatientIds(), DoctorIds();
      ghost var ps, ds := PatientStatesOf(patients), DoctorStatesOf(doctors);
      for j := 0 to |records|
        invariant Linked() && RostersMatch(appointments) && PatientIds() == patientIds && DoctorIds() == doctorIds
        invariant PatientStatesOf(patients) == ps && DoctorStatesOf(doctors) == ds
        invariant Relinked(Relink(patientIds, doctorIds, records[..j]))
      {
        RelinkRecord(records, j);
      }
      assert records[..|records|] == records;
    }

    /** One pass of the appointment loop: record `j` is rebuilt with its
        stored fields and attached to the first patient and the first doctor
        carrying its identifiers, or dropped when either is missing. */
    method RelinkRecord(records: seq<AppointmentRecord>, j: nat)
      requires j < |records| && Linked() && RostersMatch(appointments) && Relinked(Relink(PatientIds(), DoctorIds(), records[..j]))
      modifies this`appointments, patients`medicalHistory, doctors`appointments
      ensures Linked() && RostersMatch(appointments) && PatientIds() == old(PatientIds()) && DoctorIds() == old(DoctorIds())
      ensures Relinked(Relink(PatientIds(), DoctorIds(), records[..j + 1]))
      ensures PatientStatesOf(patients) == old(PatientStatesOf(patients)) && DoctorStatesOf(doctors) == old(DoctorStatesOf(doctors))
    {
      RelinkPrefix(PatientIds(), DoctorIds(), records, j);
      ghost var links := Relink(PatientIds(), DoctorIds(), records[..j]);
      var r := records[j];
      var patient := PatientWithId(r.patientId);
      var doctor := DoctorWithId(r.doctorId);
      if patient.Some? && doctor.Some? {
        ghost var link := Link(FindIndex(PatientIds(), r.patientId).value, FindIndex(DoctorIds(), r.doctorId).value, AppointmentFromDict(r));
        assert Step(PatientIds(), DoctorIds(), r) == [link];
        var a := Attach(patient.value, doctor.value, AppointmentFromDict(r));
        AttachKeepsLinked(patient.value, doctor.value, a);
        AttachKeepsRostersMatch(patient.value, doctor.value, a);
        AttachExtendsRelinked(links, link, patient.value, doctor.value, a);
      } else {
        assert links + Step(PatientIds(), DoctorIds(), r) == links;
      }
      StatesKept();
    }

    /** `_save_data`: the document written for the live objects. */
    function SaveData(): (doc: Document)
      reads this, patients, doctors, appointments, HistoryFrame(patients), RosterFrame(doctors)
      reads set a | a in appointments :: a.patient, set a | a in appointments :: a.doctor
      ensures |doc.patients| == |patients| && |doc.doctors| == |doctors| && |doc.appointments| == |appointments|
    {
      Document(PatientRecordsOf(patients), DoctorRecordsOf(doctors), AppointmentRecordsOf(appointments))
    }

    /** Saving right after loading `doc` writes `Codec.Reload(doc)`: the
        model of the stored document and the model of the live objects agree. */
    lemma SaveAfterLoad(doc: Document)
      requires Linked() && Loaded(doc)
      ensures SaveData() == Reload(doc)
    {
      SavedPeopleAfterLoad(doc);
      SavedAppointmentsAfterLoad(doc);
    }

    lemma SavedPeopleAfterLoad(doc: Document)
      requires Linked() && Loaded(doc)
      ensures PatientRecordsOf(patients) == Reload(doc).patients
      ensures DoctorRecordsOf(doctors) == Reload(doc).doctors
    {
      SavedPatientsAfterLoad(doc);
      SavedDoctorsAfterLoad(doc);
    }

    lemma SavedPatientsAfterLoad(doc: Document)
      requires NoDuplicates(patients) && HistoriesMatch(appointments)
      requires PatientStatesOf(patients) == LoadPatients(doc) && Relinked(Links(doc))
      ensures PatientRecordsOf(patients) == Reload(doc).patients
    {
      forall i | 0 <= i < |patients| ensures PatientRecordsOf(patients)[i] == Reload(doc).patients[i] {
        SavedPatientAt(doc, i);
      }
    }

    /** The `i`-th patient's saved record is the one `Codec.Reload(doc)`
        writes: the same fields, and a history listing the identifiers of
        the links naming position `i`. */
    lemma SavedPatientAt(doc: Document, i: nat)
      requires NoDuplicates(patients) && HistoriesMatch(appointments)
      requires PatientStatesOf(patients) == LoadPatients(doc) && Relinked(Links(doc))
      requires i < |patients|
      ensures PatientRecordsOf(patients)[i] == Reload(doc).patients[i]
    {
      var links := Links(doc);
      NoDuplicatesPairwise(patients);
      assert forall k :: 0 <= k < |links| ==> Carries(appointments[k], links[k]);
      PatientRecordsAt(patients, i);
      HistoryIdsOfObjects(appointments, links, patients, i);
    }

    lemma SavedDoctorsAfterLoad(doc: Document)
      requires NoDuplicates(doctors) && RostersMatch(appointments)
      requires DoctorStatesOf(doctors) == LoadDoctors(doc) && Relinked(Links(doc))
      ensures DoctorRecordsOf(doctors) == Reload(doc).doctors
    {
      forall j | 0 <= j < |doctors| ensures DoctorRecordsOf(doctors)[j] == Reload(doc).doctors[j] {
        SavedDoctorAt(doc, j);
      }
    }

    /** The `j`-th doctor's saved record is the one `Codec.Reload(doc)`
        writes: the same fields, and a roster listing the identifiers of
        the links naming position `j`. */
    lemma SavedDoctorAt(doc: Document, j: nat)
      requires NoDuplicates(doctors) && RostersMatch(appointments)
      requires DoctorStatesOf(doctors) == LoadDoctors(doc) && Relinked(Links(doc))
      requires j < |doctors|
      ensures DoctorRecordsOf(doctors)[j] == Reload(doc).doctors[j]
    {
      var links := Links(doc);
      NoDuplicatesPairwise(doctors);
      assert forall k :: 0 <= k < |links| ==> Carries(appointments[k], links[k]);
      DoctorRecordsAt(doctors, j);
      RosterIdsOfObjects(appointments, links, doctors, j);
    }

    lemma SavedAppointmentsAfterLoad(doc: Document)
      requires PatientStatesOf(patients) == LoadPatients(doc) && DoctorStatesOf(doctors) == LoadDoctors(doc)
      requires Relinked(Links(doc))
      ensures AppointmentRecordsOf(appointments) == Reload(doc).appointments
    {
      var ps, ds, links := LoadPatients(doc), LoadDoctors(doc), Links(doc);
      forall k | 0 <= k < |links| ensures AppointmentRecordsOf(appointments)[k] == SavedAppointments(ps, ds, links)[k] {
        SavedAppointmentAt(ps, ds, links, k);
      }
    }

    /** The record saved for the `k`-th appointment is the one `Codec.Saved`
        writes for the `k`-th link it carries. */
    lemma SavedAppointmentAt(ps: seq<PatientState>, ds: seq<DoctorState>, links: seq<Link>, k: nat)
      requires PatientStatesOf(patients) == ps && DoctorStatesOf(doctors) == ds
      requires Relinked(links) && k < |links|
      ensures forall m :: 0 <= m < |links| ==> links[m].patient < |ps| && links[m].doctor < |ds|
      ensures AppointmentRecordsOf(appointments)[k] == SavedAppointments(ps, ds, links)[k]
    {
      assert forall m :: 0 <= m < |links| ==> Carries(appointments[m], links[m]);
      SavedAppointmentsAt(ps, ds, links, k);
      assert Carries(appointments[k], links[k]);
    }

    /** Loading what a save writes rebuilds the same store: the patients and
        the doctors with the same fields, in the same order, and each
        appointment with the same fields, linked to the same patient and
        doctor. This needs the identifiers to be unique within each class;
        the rosters it rebuilds are the doctors' appointments, cancelled ones
        included. */
    lemma SaveLoadRoundTrip()
      requires Linked() && UniqueIds()
      ensures LoadPatients(SaveData()) == PatientStatesOf(patients)
      ensures LoadDoctors(SaveData()) == DoctorStatesOf(doctors)
      ensures Relinked(Links(SaveData()))
    {
      SavedPeopleReadBack();
      RelinkSavedObjects(patients, doctors, appointments);
      CarriedIsRelinked(Links(SaveData()));
    }

    lemma SavedPeopleReadBack()
      ensures LoadPatients(SaveData()) == PatientStatesOf(patients)
      ensures LoadDoctors(SaveData()) == DoctorStatesOf(doctors)
      ensures PatientStateIds(LoadPatients(SaveData())) == PatientIds()
      ensures DoctorStateIds(LoadDoctors(SaveData())) == DoctorIds()
    {
      PatientRecordsReadBack(patients);
      DoctorRecordsReadBack(doctors);
    }

    lemma CarriedIsRelinked(links: seq<Link>)
      requires CarriedBy(patients, doctors, appointments, links)
      ensures Relinked(links)
    {
    }

    /** After a load every appointment is on its doctor's roster, whatever
        its status: a cancelled one is back on the roster. */
    lemma LoadedOnRosters(doc: Document)
      requires Linked() && Loaded(doc)
      ensures forall a :: a in appointments ==> a in a.doctor.appointments
    {
      forall a | a in appointments ensures a in a.doctor.appointments {
        OfDoctorMembers(appointments, a.doctor);
      }
    }

    /** Attaching the object made of `link` extends the objects made of `links`. */
    twostate lemma AttachExtendsRelinked(links: seq<Link>, new link: Link, new patient: Patient, new doctor: Doctor, new a: Appointment)
      requires old(Relinked(links)) && patient in old(patients) && doctor in old(doctors)
      requires Attached(patient, doctor, a)
      requires link.patient < |patients| && link.doctor < |doctors|
      requires patients[link.patient] == patient && doctors[link.doctor] == doctor && a.State() == link.state
      ensures Relinked(links + [link])
    {
      forall k | 0 <= k < |links| ensures Carries(appointments[k], links[k]) {
        var x := appointments[k];
        assert x == old(appointments)[k] && x in appointments[..|old(appointments)|];
        assert old(Carries(x, links[k]));
        assert x.State() == old(x.State());
      }
    }
  }
}
