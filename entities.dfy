/** The three kinds of live objects and the appointment lifecycle. An
    appointment keeps its patient and its doctor for life; the patient's
    `medicalHistory` and the doctor's `appointments` (the roster) hold the
    appointment back. */
module Entities {
  import opened Base
  import opened Records

  class Patient {
    var id: Option<string>
    var name: string
    var contact: string
    var age: Option<int>
    var medicalHistory: seq<Appointment>
    var isActive: bool

    constructor (name: string, contact: string, age: Option<int>)
      ensures State() == PatientState(None, name, contact, age, true)
      ensures medicalHistory == []
    {
      this.id := None;
      this.name := name;
      this.contact := contact;
      this.age := age;
      this.medicalHistory := [];
      this.isActive := true;
    }

    /** Everything but the history. */
    function State(): PatientState
      reads this`id, this`name, this`contact, this`age, this`isActive
    {
      PatientState(id, name, contact, age, isActive)
    }

    method AddToHistory(appointment: Appointment)
      modifies this`medicalHistory
      ensures medicalHistory == old(medicalHistory) + [appointment]
    {
      medicalHistory := medicalHistory + [appointment];
    }
  }

  class Doctor {
    var id: Option<string>
    var name: string
    var contact: string
    var specialization: Option<string>
    var appointments: seq<Appointment>
    var workingHours: WorkingHours

    constructor (name: string, contact: string, specialization: Option<string>)
      ensures State() == DoctorState(None, name, contact, specialization, DEFAULT_WORKING_HOURS)
      ensures appointments == []
    {
      this.id := None;
      this.name := name;
      this.contact := contact;
      this.specialization := specialization;
      this.appointments := [];
      this.workingHours := DEFAULT_WORKING_HOURS;
    }

    /** Everything but the roster. */
    function State(): DoctorState
      reads this`id, this`name, this`contact, this`specialization, this`workingHours
    {
      DoctorState(id, name, contact, specialization, workingHours)
    }

    /** `is_available`: the doctor is free at `t` exactly when no appointment
        on the roster has timestamp `t`. Only equal timestamps clash; the
        duration plays no part. */
    function IsAvailable(t: Timestamp): (free: bool)
      reads this`appointments, (set a | a in appointments)`datetime
      ensures free <==> forall i :: 0 <= i < |appointments| ==> appointments[i].datetime != t
    {
      FreeAt(appointments, t)
    }

    /** No two roster entries share a timestamp. */
    ghost predicate NoDoubleBooking()
      reads this`appointments, (set a | a in appointments)`datetime
    {
      DistinctTimes(appointments)
    }
  }

  /** The scan in `is_available`: false at the first entry whose timestamp is `t`. */
  function FreeAt(roster: seq<Appointment>, t: Timestamp): (free: bool)
    reads (set a | a in roster)`datetime
    ensures free <==> forall i :: 0 <= i < |roster| ==> roster[i].datetime != t
  {
    if roster == [] then true
    else if roster[0].datetime == t then false
    else FreeAt(roster[1..], t)
  }

  class Appointment {
    const patient: Patient
    const doctor: Doctor
    var datetime: Timestamp
    var duration: int
    var status: string
    var notes: string
    var id: Option<string>

    /** `Appointment.__init__`: a new appointment is `Scheduled`, has empty
        notes and no identifier yet, and is appended to the patient's history
        and to the doctor's roster. */
    constructor (patient: Patient, doctor: Doctor, t: Timestamp, duration: int)
      modifies patient`medicalHistory, doctor`appointments
      ensures this.patient == patient && this.doctor == doctor
      ensures State() == AppointmentState(None, t, duration, SCHEDULED, "")
      ensures patient.medicalHistory == old(patient.medicalHistory) + [this]
      ensures doctor.appointments == old(doctor.appointments) + [this]
    {
      this.patient := patient;
      this.doctor := doctor;
      this.datetime := t;
      this.duration := duration;
      this.status := SCHEDULED;
      this.notes := "";
      this.id := None;
      new;
      patient.AddToHistory(this);
      doctor.appointments := doctor.appointments + [this];
    }

    /** Everything but the two links. */
    function State(): AppointmentState
      reads this`id, this`datetime, this`duration, this`status, this`notes
    {
      AppointmentState(id, datetime, duration, status, notes)
    }

    /** `reschedule`: guarded by the doctor's availability at the new time and
        by nothing else (no working-hours check). On success the time moves
        and the status becomes `Rescheduled`; otherwise nothing changes. An
        appointment still on its doctor's roster cannot be moved to its own
        current time. The roster keeps distinct timestamps. */
    method Reschedule(t: Timestamp) returns (moved: bool)
      modifies this`datetime, this`status
      ensures moved == old(doctor.IsAvailable(t))
      ensures moved ==> datetime == t && status == RESCHEDULED
      ensures !moved ==> datetime == old(datetime) && status == old(status)
      ensures old(this in doctor.appointments && t == datetime) ==> !moved
      ensures old(doctor.NoDoubleBooking()) ==> doctor.NoDoubleBooking()
    {
      moved := doctor.IsAvailable(t);
      if moved {
        datetime := t;
        status := RESCHEDULED;
      }
    }

    /** `complete`: unconditional, also on a cancelled appointment. */
    method Complete(notes: string)
      modifies this`status, this`notes
      ensures status == COMPLETED && this.notes == notes
    {
      status := COMPLETED;
      this.notes := notes;
    }

    /** `cancel`: the status becomes `Cancelled` and the first roster entry
        that is this appointment, if any, is removed. History and the global
        list are untouched. On a roster without repeats the appointment is
        then off the roster, so a second cancellation changes nothing. */
    method Cancel()
      modifies this`status, doctor`appointments
      ensures status == CANCELLED
      ensures old(doctor.NoDoubleBooking()) ==> doctor.NoDoubleBooking()
      ensures doctor.appointments == RemoveFirst(old(doctor.appointments), this)
      ensures old(NoDuplicates(doctor.appointments)) ==> this !in doctor.appointments && NoDuplicates(doctor.appointments)
    {
      status := CANCELLED;
      if this in doctor.appointments {
        var k := IndexOf(doctor.appointments, this);
        DropKeepsTimesDistinct(doctor.appointments, k);
        if NoDuplicates(doctor.appointments) {
          NoDuplicatesPairwise(doctor.appointments);
          DropKeepsDistinct(doctor.appointments, k);
        }
        doctor.appointments := doctor.appointments[..k] + doctor.appointments[k + 1..];
      }
    }
  }

  /** No two entries of `roster` share a timestamp. */
  ghost predicate DistinctTimes(roster: seq<Appointment>)
    reads (set a | a in roster)`datetime
  {
    forall i, j :: 0 <= i < j < |roster| ==> roster[i].datetime != roster[j].datetime
  }

  /** Dropping one entry of a roster keeps its timestamps distinct. */
  lemma DropKeepsTimesDistinct(roster: seq<Appointment>, k: nat)
    requires k < |roster|
    ensures DistinctTimes(roster) ==> DistinctTimes(roster[..k] + roster[k + 1..])
  {
    var r := roster[..k] + roster[k + 1..];
    if DistinctTimes(roster) {
      forall i, j | 0 <= i < j < |r| ensures r[i].datetime != r[j].datetime {
        var i', j' := if i < k then i else i + 1, if j < k then j else j + 1;
        assert r[i] == roster[i'] && r[j] == roster[j'];
      }
    }
  }

  /** Adding an entry at a time the roster is free at keeps the timestamps distinct. */
  lemma AppendKeepsTimesDistinct(roster: seq<Appointment>, x: Appointment)
    requires DistinctTimes(roster) && FreeAt(roster, x.datetime)
    ensures DistinctTimes(roster + [x])
  {
    var r := roster + [x];
    forall i, j | 0 <= i < j < |r| ensures r[i].datetime != r[j].datetime {
      if j == |roster| { assert r[i] == roster[i]; }
      else { assert r[i] == roster[i] && r[j] == roster[j]; }
    }
  }

  /** No entry occurs twice, stated one entry at a time from the end. */
  predicate NoDuplicates<T(==)>(s: seq<T>)
  {
    s == [] || (s[|s| - 1] !in s[..|s| - 1] && NoDuplicates(s[..|s| - 1]))
  }

  /** `NoDuplicates` is the pairwise distinctness of the entries. */
  lemma {:induction false} NoDuplicatesPairwise<T>(s: seq<T>)
    ensures NoDuplicates(s) <==> forall i, j :: 0 <= i < j < |s| ==> s[i] != s[j]
  {
    if s != [] {
      var front, last := s[..|s| - 1], s[|s| - 1];
      NoDuplicatesPairwise(front);
      if forall i, j :: 0 <= i < j < |s| ==> s[i] != s[j] {
        forall i | 0 <= i < |front| ensures front[i] != last { assert s[i] == front[i]; }
      }
    }
  }

  lemma NoDuplicatesAppend<T>(s: seq<T>, x: T)
    requires NoDuplicates(s) && x !in s
    ensures NoDuplicates(s + [x])
  {
    assert (s + [x])[..|s|] == s;
  }

  /** `list.remove(x)` when `x` is present; the list itself when it is not. */
  function RemoveFirst<T(==)>(s: seq<T>, x: T): (r: seq<T>)
    ensures x in s ==> r == s[..IndexOf(s, x)] + s[IndexOf(s, x) + 1..]
    ensures x !in s ==> r == s
  {
    if s == [] then []
    else if s[0] == x then s[1..]
    else
      assert x in s[1..] ==> s[..IndexOf(s, x)] + s[IndexOf(s, x) + 1..] == [s[0]] + (s[1..][..IndexOf(s[1..], x)] + s[1..][IndexOf(s[1..], x) + 1..]);
      [s[0]] + RemoveFirst(s[1..], x)
  }

  /** The first occurrence of `x`. */
  function IndexOf<T(==)>(s: seq<T>, x: T): (k: nat)
    requires x in s
    ensures k < |s| && s[k] == x && x !in s[..k]
  {
    if s[0] == x then 0 else 1 + IndexOf(s[1..], x)
  }

  /** On a list without repeats, removal takes `x` out entirely and creates
      no repeat. */
  lemma RemoveFirstWithoutRepeats<T>(s: seq<T>, x: T)
    requires NoDuplicates(s)
    ensures NoDuplicates(RemoveFirst(s, x)) && x !in RemoveFirst(s, x)
  {
    if x in s {
      NoDuplicatesPairwise(s);
      DropKeepsDistinct(s, IndexOf(s, x));
    }
  }

  /** So on a list without repeats a second removal changes nothing. */
  lemma RemoveFirstTwice<T>(s: seq<T>, x: T)
    requires NoDuplicates(s)
    ensures RemoveFirst(RemoveFirst(s, x), x) == RemoveFirst(s, x)
  {
    RemoveFirstWithoutRepeats(s, x);
  }

  /** Dropping entry `k` of a list of distinct entries leaves distinct
      entries, none of them equal to the one dropped. */
  lemma DropKeepsDistinct<T>(s: seq<T>, k: nat)
    requires k < |s| && forall i, j :: 0 <= i < j < |s| ==> s[i] != s[j]
    ensures NoDuplicates(s[..k] + s[k + 1..]) && s[k] !in s[..k] + s[k + 1..]
  {
    var r := s[..k] + s[k + 1..];
    assert forall i :: 0 <= i < |r| ==> r[i] == s[if i < k then i else i + 1];
    NoDuplicatesPairwise(r);
  }
}
