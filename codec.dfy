/** The persistence codec on stored documents. Loading reads the patients,
    then the doctors, then relinks each appointment record to the first
    patient and the first doctor carrying its stored identifiers, dropping
    the record when either is missing. Rebuilding an appointment re-runs its
    constructor, so it joins the patient's history and the doctor's roster
    whatever its status. `Reload(doc)` is the document a save right after
    loading `doc` writes; `LoadAsWritten(doc)` is the same for the loader as
    the source has it, where every doctor record raises. */
module Codec {
  import opened Base
  import opened Ids
  import opened Records

  /** A relinked appointment: positions of its patient and its doctor in the
      loaded lists, and the fields copied from the record. */
  datatype Link = Link(patient: nat, doctor: nat, state: AppointmentState)

  function PatientStateIds(ps: seq<PatientState>): (ids: seq<Option<string>>)
    ensures |ids| == |ps| && forall i :: 0 <= i < |ps| ==> ids[i] == ps[i].id
  {
    seq(|ps|, i requires 0 <= i < |ps| => ps[i].id)
  }

  function DoctorStateIds(ds: seq<DoctorState>): (ids: seq<Option<string>>)
    ensures |ids| == |ds| && forall i :: 0 <= i < |ds| ==> ids[i] == ds[i].id
  {
    seq(|ds|, i requires 0 <= i < |ds| => ds[i].id)
  }

  /** The relinking loop over the appointment records, record by record. */
  function Relink(patientIds: seq<Option<string>>, doctorIds: seq<Option<string>>, records: seq<AppointmentRecord>): (links: seq<Link>)
    ensures |links| <= |records|
    ensures forall k :: 0 <= k < |links| ==> links[k].patient < |patientIds| && links[k].doctor < |doctorIds|
  {
    if records == [] then []
    else Relink(patientIds, doctorIds, records[..|records| - 1]) + Step(patientIds, doctorIds, records[|records| - 1])
  }

  /** One pass of the loop: the record rebuilt and linked when both its
      identifiers resolve, nothing otherwise. */
  function Step(patientIds: seq<Option<string>>, doctorIds: seq<Option<string>>, r: AppointmentRecord): (links: seq<Link>)
    ensures |links| <= 1
    ensures links != [] <==> Resolves(patientIds, doctorIds, r)
    ensures forall k :: 0 <= k < |links| ==> links[k].patient < |patientIds| && links[k].doctor < |doctorIds|
  {
    var p, d := FindIndex(patientIds, r.patientId), FindIndex(doctorIds, r.doctorId);
    if p.Some? && d.Some? then [Link(p.value, d.value, AppointmentFromDict(r))] else []
  }

  /** Every link points at the first patient and the first doctor carrying
      the identifiers it was resolved from. */
  predicate FirstCarriers(patientIds: seq<Option<string>>, doctorIds: seq<Option<string>>, links: seq<Link>)
  {
    forall k :: 0 <= k < |links| ==>
      && links[k].patient < |patientIds| && links[k].doctor < |doctorIds|
      && FindIndex(patientIds, patientIds[links[k].patient]) == Some(links[k].patient)
      && FindIndex(doctorIds, doctorIds[links[k].doctor]) == Some(links[k].doctor)
  }

  /** Whether a record's patient and doctor identifiers both resolve. */
  predicate Resolves(patientIds: seq<Option<string>>, doctorIds: seq<Option<string>>, r: AppointmentRecord)
  {
    r.patientId in patientIds && r.doctorId in doctorIds
  }

  /** Relinking works record by record: the result for a concatenation is
      the concatenation of the results. */
  lemma {:induction false} RelinkAppend(patientIds: seq<Option<string>>, doctorIds: seq<Option<string>>, a: seq<AppointmentRecord>, b: seq<AppointmentRecord>)
    ensures Relink(patientIds, doctorIds, a + b) == Relink(patientIds, doctorIds, a) + Relink(patientIds, doctorIds, b)
    decreases |b|
  {
    if b != [] {
      var front, x := b[..|b| - 1], b[|b| - 1];
      assert b == front + [x];
      assert a + b == (a + front) + [x];
      RelinkSnoc(patientIds, doctorIds, a + front, x);
      RelinkSnoc(patientIds, doctorIds, front, x);
      RelinkAppend(patientIds, doctorIds, a, front);
    } else {
      assert a + b == a;
    }
  }

  lemma RelinkSnoc(patientIds: seq<Option<string>>, doctorIds: seq<Option<string>>, s: seq<AppointmentRecord>, x: AppointmentRecord)
    ensures Relink(patientIds, doctorIds, s + [x]) == Relink(patientIds, doctorIds, s) + Step(patientIds, doctorIds, x)
  {
    assert (s + [x])[..|s|] == s;
  }

  /** The loop's progress: after record `j` the links are those before it
      and its own. */
  lemma RelinkPrefix(patientIds: seq<Option<string>>, doctorIds: seq<Option<string>>, records: seq<AppointmentRecord>, j: nat)
    requires j < |records|
    ensures Relink(patientIds, doctorIds, records[..j + 1]) == Relink(patientIds, doctorIds, records[..j]) + Step(patientIds, doctorIds, records[j])
  {
    assert records[..j + 1][..j] == records[..j];
  }

  /** A record whose patient or doctor identifier resolves to nobody is
      dropped, and its neighbours are relinked as if it were not there. */
  lemma RelinkDropsUnresolved(patientIds: seq<Option<string>>, doctorIds: seq<Option<string>>,
                              before: seq<AppointmentRecord>, r: AppointmentRecord, after: seq<AppointmentRecord>)
    requires !Resolves(patientIds, doctorIds, r)
    ensures Relink(patientIds, doctorIds, before + [r] + after) == Relink(patientIds, doctorIds, before + after)
  {
    RelinkAppend(patientIds, doctorIds, before + [r], after);
    RelinkSnoc(patientIds, doctorIds, before, r);
    RelinkAppend(patientIds, doctorIds, before, after);
  }

  /** A record whose identifiers both resolve is kept, in place, linked to
      the first patient and the first doctor carrying those identifiers, with
      its identifier, timestamp, status, notes and duration unchanged
      (`duration` and `notes` defaulting when absent). */
  lemma RelinkKeepsResolved(patientIds: seq<Option<string>>, doctorIds: seq<Option<string>>,
                            before: seq<AppointmentRecord>, r: AppointmentRecord, after: seq<AppointmentRecord>)
    requires Resolves(patientIds, doctorIds, r)
    ensures var link := Link(FindIndex(patientIds, r.patientId).value, FindIndex(doctorIds, r.doctorId).value, AppointmentFromDict(r));
      && Relink(patientIds, doctorIds, before + [r] + after)
           == Relink(patientIds, doctorIds, before) + [link] + Relink(patientIds, doctorIds, after)
      && patientIds[link.patient] == r.patientId && doctorIds[link.doctor] == r.doctorId
      && link.state.id == r.id && link.state.status == r.status && link.state.datetime == r.datetime
  {
    RelinkAppend(patientIds, doctorIds, before + [r], after);
    RelinkSnoc(patientIds, doctorIds, before, r);
  }

  /** With no doctors loaded, every appointment record is dropped. */
  lemma {:induction false} RelinkWithoutDoctors(patientIds: seq<Option<string>>, records: seq<AppointmentRecord>)
    ensures Relink(patientIds, [], records) == []
  {
    if records != [] {
      RelinkWithoutDoctors(patientIds, records[..|records| - 1]);
    }
  }

  /** The identifiers of the appointments relinked to patient `i` (its
      history) or to doctor `j` (its roster), in load order. */
  function HistoryIds(links: seq<Link>, i: nat): seq<Option<string>>
  {
    if links == [] then []
    else HistoryIds(links[..|links| - 1], i) + (if links[|links| - 1].patient == i then [links[|links| - 1].state.id] else [])
  }

  function RosterIds(links: seq<Link>, j: nat): seq<Option<string>>
  {
    if links == [] then []
    else RosterIds(links[..|links| - 1], j) + (if links[|links| - 1].doctor == j then [links[|links| - 1].state.id] else [])
  }

  /** The document `_save_data` writes for loaded patients, doctors and relinked appointments. */
  function Saved(ps: seq<PatientState>, ds: seq<DoctorState>, links: seq<Link>): (doc: Document)
    requires forall k :: 0 <= k < |links| ==> links[k].patient < |ps| && links[k].doctor < |ds|
    ensures |doc.patients| == |ps| && |doc.doctors| == |ds| && |doc.appointments| == |links|
    ensures LoadPatients(doc) == ps && LoadDoctors(doc) == ds
  {
    Document(
      seq(|ps|, i requires 0 <= i < |ps| => PatientToDict(ps[i], HistoryIds(links, i))),
      seq(|ds|, j requires 0 <= j < |ds| => DoctorToDict(ds[j], RosterIds(links, j))),
      SavedAppointments(ps, ds, links))
  }

  function SavedAppointments(ps: seq<PatientState>, ds: seq<DoctorState>, links: seq<Link>): (records: seq<AppointmentRecord>)
    requires forall k :: 0 <= k < |links| ==> links[k].patient < |ps| && links[k].doctor < |ds|
    ensures |records| == |links|
  {
    if links == [] then []
    else
      var link := links[|links| - 1];
      SavedAppointments(ps, ds, links[..|links| - 1]) + [AppointmentToDict(link.state, ps[link.patient].id, ds[link.doctor].id)]
  }

  /** The record saved for link `k`: its fields, and the identifiers of the
      patient and the doctor it points at. */
  lemma {:induction false} SavedAppointmentsAt(ps: seq<PatientState>, ds: seq<DoctorState>, links: seq<Link>, k: nat)
    requires forall k :: 0 <= k < |links| ==> links[k].patient < |ps| && links[k].doctor < |ds|
    requires k < |links|
    ensures SavedAppointments(ps, ds, links)[k] == AppointmentToDict(links[k].state, ps[links[k].patient].id, ds[links[k].doctor].id)
  {
    var n := |links| - 1;
    if k < n {
      assert links[..n][k] == links[k];
      SavedAppointmentsAt(ps, ds, links[..n], k);
    }
  }

  function LoadPatients(doc: Document): (ps: seq<PatientState>)
    ensures |ps| == |doc.patients|
  {
    seq(|doc.patients|, i requires 0 <= i < |doc.patients| => PatientFromDict(doc.patients[i]))
  }

  function LoadDoctors(doc: Document): (ds: seq<DoctorState>)
    ensures |ds| == |doc.doctors|
  {
    seq(|doc.doctors|, j requires 0 <= j < |doc.doctors| => DoctorFromDict(doc.doctors[j]))
  }

  /** The appointment records that survive loading, relinked. */
  function Links(doc: Document): (links: seq<Link>)
    ensures |links| <= |doc.appointments|
    ensures forall k :: 0 <= k < |links| ==> links[k].patient < |doc.patients| && links[k].doctor < |doc.doctors|
  {
    Relink(PatientStateIds(LoadPatients(doc)), DoctorStateIds(LoadDoctors(doc)), doc.appointments)
  }

  /** What loading `doc` (with the corrected `Doctor.from_dict`) and saving
      at once writes. */
  function Reload(doc: Document): (saved: Document)
    ensures |saved.patients| == |doc.patients| && |saved.doctors| == |doc.doctors|
    ensures |saved.appointments| <= |doc.appointments|
  {
    Saved(LoadPatients(doc), LoadDoctors(doc), Links(doc))
  }

  /** Patients and doctors survive a reload field by field; the stored
      history and roster lists are not read but rebuilt from the appointments. */
  lemma ReloadKeepsPeople(doc: Document)
    ensures forall i :: 0 <= i < |doc.patients| ==>
      PatientFromDict(Reload(doc).patients[i]) == PatientFromDict(doc.patients[i])
    ensures forall j :: 0 <= j < |doc.doctors| ==>
      DoctorFromDict(Reload(doc).doctors[j]) == DoctorFromDict(doc.doctors[j])
  {
  }

  /** A cancelled appointment whose record relinks is back on its doctor's
      roster after a reload: cancelling removed it from the roster, and
      reloading re-runs the constructor, which appends it again. */
  lemma {:induction false} CancelledRejoinsRoster(links: seq<Link>, k: nat)
    requires k < |links| && links[k].state.status == CANCELLED
    ensures links[k].state.id in RosterIds(links, links[k].doctor)
  {
    if k < |links| - 1 {
      assert links[..|links| - 1][k] == links[k];
      CancelledRejoinsRoster(links[..|links| - 1], k);
    }
  }

  /** Saving and loading again changes nothing more: a reloaded document
      reloads to itself. */
  lemma ReloadIdempotent(doc: Document)
    ensures Reload(Reload(doc)) == Reload(doc)
  {
    var ps, ds, links := LoadPatients(doc), LoadDoctors(doc), Links(doc);
    var saved := Reload(doc);
    assert LoadPatients(saved) == ps by {
      forall i | 0 <= i < |ps| ensures LoadPatients(saved)[i] == ps[i] {
        assert saved.patients[i] == PatientToDict(ps[i], HistoryIds(links, i));
      }
    }
    assert LoadDoctors(saved) == ds by {
      forall j | 0 <= j < |ds| ensures LoadDoctors(saved)[j] == ds[j] {
        assert saved.doctors[j] == DoctorToDict(ds[j], RosterIds(links, j));
      }
    }
    RelinkFirstCarriers(PatientStateIds(ps), DoctorStateIds(ds), doc.appointments);
    RelinkSaved(PatientStateIds(ps), DoctorStateIds(ds), ps, ds, links);
    assert Links(saved) == links;
  }

  /** Relinking the appointment records of a save gives back the links they
      were saved from, as each link points at the first carrier of its
      identifiers. */
  lemma {:induction false} RelinkSaved(patientIds: seq<Option<string>>, doctorIds: seq<Option<string>>,
                                       ps: seq<PatientState>, ds: seq<DoctorState>, links: seq<Link>)
    requires patientIds == PatientStateIds(ps) && doctorIds == DoctorStateIds(ds)
    requires FirstCarriers(patientIds, doctorIds, links)
    ensures Relink(patientIds, doctorIds, SavedAppointments(ps, ds, links)) == links
  {
    if links != [] {
      var n := |links| - 1;
      var shorter, last := links[..n], links[n];
      assert shorter + [last] == links;
      var rec := AppointmentToDict(last.state, ps[last.patient].id, ds[last.doctor].id);
      assert SavedAppointments(ps, ds, links) == SavedAppointments(ps, ds, shorter) + [rec];
      FirstCarriersSplit(patientIds, doctorIds, links);
      RelinkSaved(patientIds, doctorIds, ps, ds, shorter);
      RelinkSnoc(patientIds, doctorIds, SavedAppointments(ps, ds, shorter), rec);
      StepSaved(patientIds, doctorIds, ps, ds, last);
    }
  }

  lemma FirstCarriersSplit(patientIds: seq<Option<string>>, doctorIds: seq<Option<string>>, links: seq<Link>)
    requires links != [] && FirstCarriers(patientIds, doctorIds, links)
    ensures FirstCarriers(patientIds, doctorIds, links[..|links| - 1])
    ensures FirstCarriers(patientIds, doctorIds, [links[|links| - 1]])
  {
    var n := |links| - 1;
    forall k | 0 <= k < n ensures links[..n][k] == links[k] { }
    assert [links[n]][0] == links[n];
  }

  /** Relinking the saved record of one link gives back that link. */
  lemma StepSaved(patientIds: seq<Option<string>>, doctorIds: seq<Option<string>>,
                  ps: seq<PatientState>, ds: seq<DoctorState>, link: Link)
    requires patientIds == PatientStateIds(ps) && doctorIds == DoctorStateIds(ds)
    requires FirstCarriers(patientIds, doctorIds, [link])
    ensures link.patient < |ps| && link.doctor < |ds|
    ensures Step(patientIds, doctorIds, AppointmentToDict(link.state, ps[link.patient].id, ds[link.doctor].id)) == [link]
  {
    assert [link][0] == link;
  }

  /** Each relinked appointment points at the first patient and the first
      doctor carrying the identifiers in its record. */
  lemma {:induction false} RelinkFirstCarriers(patientIds: seq<Option<string>>, doctorIds: seq<Option<string>>, records: seq<AppointmentRecord>)
    ensures FirstCarriers(patientIds, doctorIds, Relink(patientIds, doctorIds, records))
  {
    if records != [] {
      var front := records[..|records| - 1];
      RelinkFirstCarriers(patientIds, doctorIds, front);
      var links, step := Relink(patientIds, doctorIds, front), Step(patientIds, doctorIds, records[|records| - 1]);
      assert FirstCarriers(patientIds, doctorIds, step);
      var all := links + step;
      forall k | 0 <= k < |all|
        ensures FindIndex(patientIds, patientIds[all[k].patient]) == Some(all[k].patient)
        ensures FindIndex(doctorIds, doctorIds[all[k].doctor]) == Some(all[k].doctor)
      {
        if k >= |links| {
          assert all[k] == step[k - |links|];
        }
      }
    }
  }

  // ---- The loader as the source has it ----

  /** A loading loop over records: the first record whose reader raises
      ends the loop with that error. */
  function LoadAll(records: seq<DoctorRecord>, read: DoctorRecord -> Result<DoctorState, LoadError>): (r: Result<seq<DoctorState>, LoadError>)
    ensures r.Ok? ==> |r.value| == |records| && forall j :: 0 <= j < |records| ==> read(records[j]) == Ok(r.value[j])
    ensures r.Err? <==> exists j :: 0 <= j < |records| && read(records[j]).Err?
  {
    if records == [] then Ok([])
    else match read(records[0])
      case Err(e) => Err(e)
      case Ok(d) =>
        var rest := LoadAll(records[1..], read);
        if rest.Err? then rest
        else
          assert forall j :: 1 <= j < |records| ==> records[j] == records[1..][j - 1];
          Ok([d] + rest.value)
  }

  /** The doctor loop as written. */
  function LoadDoctorsAsWritten(records: seq<DoctorRecord>): Result<seq<DoctorState>, LoadError>
  {
    LoadAll(records, DoctorFromDictAsWritten)
  }

  /** `_load_data` as written, followed by a save. The lists are reset
      before the patient loop; the patient loop completes; a raising doctor
      loop skips the appointment loop, and the catch-all handler keeps the
      partial state. */
  function LoadAsWritten(doc: Document): (saved: Document)
    ensures LoadPatients(saved) == LoadPatients(doc)
    ensures doc.doctors != [] ==> saved.doctors == [] && saved.appointments == []
  {
    var ps := LoadPatients(doc);
    match LoadDoctorsAsWritten(doc.doctors)
    case Err(_) => Saved(ps, [], [])
    case Ok(ds) => Saved(ps, ds, Relink(PatientStateIds(ps), DoctorStateIds(ds), doc.appointments))
  }

  /** As written, no document loads a single doctor or appointment: with a
      doctor record the doctor loop raises, and without one no appointment
      record resolves its doctor. Patients survive. */
  lemma LoadAsWrittenLosesDoctors(doc: Document)
    ensures LoadAsWritten(doc).doctors == [] && LoadAsWritten(doc).appointments == []
    ensures |LoadAsWritten(doc).patients| == |doc.patients|
  {
    if doc.doctors == [] {
      RelinkWithoutDoctors(PatientStateIds(LoadPatients(doc)), doc.appointments);
      assert DoctorStateIds([]) == [];
    }
  }

  /** The smallest document that shows it: one patient, one doctor and one
      appointment between them. As written the reload keeps only the
      patient; corrected, it keeps all three. */
  lemma LoadAsWrittenCounterexample()
    ensures var doc := Document(
      [PatientRecord(PersonRecord("Asha Rao", "asha@example.com", Some("P1")), None, Some(true), [Some("A1")])],
      [DoctorRecord(PersonRecord("Dr. Lee", "lee@example.com", Some("D1")), Some("Cardiology"), Some(DEFAULT_WORKING_HOURS), [Some("A1")])],
      [AppointmentRecord(Some("A1"), Some("P1"), Some("D1"), Timestamp(738936, 36000), Some(30), SCHEDULED, Some(""))]);
      && |LoadAsWritten(doc).doctors| == 0 && |LoadAsWritten(doc).appointments| == 0
      && Reload(doc) == doc
  {
    var doc := Document(
      [PatientRecord(PersonRecord("Asha Rao", "asha@example.com", Some("P1")), None, Some(true), [Some("A1")])],
      [DoctorRecord(PersonRecord("Dr. Lee", "lee@example.com", Some("D1")), Some("Cardiology"), Some(DEFAULT_WORKING_HOURS), [Some("A1")])],
      [AppointmentRecord(Some("A1"), Some("P1"), Some("D1"), Timestamp(738936, 36000), Some(30), SCHEDULED, Some(""))]);
    LoadAsWrittenLosesDoctors(doc);
    var links := Links(doc);
    assert PatientStateIds(LoadPatients(doc)) == [Some("P1")];
    assert DoctorStateIds(LoadDoctors(doc)) == [Some("D1")];
    assert doc.appointments[..0] == [];
    assert links == [Link(0, 0, AppointmentFromDict(doc.appointments[0]))];
    assert links[..0] == [];
    assert HistoryIds(links, 0) == [Some("A1")];
    assert RosterIds(links, 0) == [Some("A1")];
  }
}
