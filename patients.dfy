/** The patient registry (src/components/PatientManagement.tsx), local
    branch: search, create, edit and hard delete over the array stored
    under "dentclinic-patients". */
module Patients {
  import opened Lists
  import opened Text
  import opened Storage

  const PatientsKey := "dentclinic-patients"

  /** A stored patient. `updatedAt` is absent until the record is first
      edited; editing adds it. */
  datatype Patient = Patient(
    id: string,
    name: string,
    email: string,
    phone: string,
    birthDate: string,
    address: string,
    createdAt: string,
    updatedAt: Option<string>)

  /** The fields of the patient form. */
  datatype PatientForm = PatientForm(
    name: string,
    email: string,
    phone: string,
    birthDate: string,
    address: string)

  datatype SubmitOutcome = MissingFields | PatientUpdated | PatientCreated

  /** The id each stored record carries. */
  function IdOf(p: Patient): string {
    p.id
  }

  /** Name, e-mail and phone are required; an empty string is missing
      (the check does not trim). */
  predicate MissingRequired(form: PatientForm) {
    form.name == "" || form.email == "" || form.phone == ""
  }

  // ---------------------------------------------------------------- search

  /** The search box: the lower-cased name or e-mail includes the
      lower-cased term, or the phone includes the term as typed. */
  predicate MatchesSearch(p: Patient, term: string) {
    Contains(ToLower(p.name), ToLower(term))
    || Contains(ToLower(p.email), ToLower(term))
    || Contains(p.phone, term)
  }

  /** `filteredPatients`. */
  function FilteredPatients(ps: seq<Patient>, term: string): (r: seq<Patient>)
    ensures forall i :: 0 <= i < |r| ==> MatchesSearch(r[i], term)
    ensures forall p :: multiset(r)[p] == if MatchesSearch(p, term) then multiset(ps)[p] else 0
  {
    Filter(ps, (p: Patient) => MatchesSearch(p, term))
  }

  /** The search shows patients in the order the list holds them. */
  lemma SearchKeepsOrder(ps: seq<Patient>, term: string)
    ensures IsSubsequence(FilteredPatients(ps, term), ps)
  {
    FilterIsSubsequence(ps, (p: Patient) => MatchesSearch(p, term));
  }

  /** An empty search box shows every patient. */
  lemma EmptySearchKeepsAll(ps: seq<Patient>)
    ensures FilteredPatients(ps, "") == ps
  {
    assert ToLower("") == "";
    forall i | 0 <= i < |ps| ensures MatchesSearch(ps[i], "") {
      ContainsEmpty(ToLower(ps[i].name));
    }
    FilterKeepsAll(ps, (p: Patient) => MatchesSearch(p, ""));
  }

  // ------------------------------------------------------ create and edit

  /** The record a create submission appends. */
  function NewPatient(form: PatientForm, id: string, now: string): Patient {
    Patient(id, form.name, form.email, form.phone, form.birthDate, form.address, now, None)
  }

  /** `{ ...p, ...patientData, updated_at }`: the form fields replace the
      patient's, `id` and `createdAt` stay. */
  function Edited(p: Patient, form: PatientForm, now: string): Patient {
    p.(name := form.name, email := form.email, phone := form.phone,
       birthDate := form.birthDate, address := form.address, updatedAt := Some(now))
  }

  /** The edit branch's `map`: only records with the edited id change. */
  function Updated(ps: seq<Patient>, editingId: string, form: PatientForm, now: string): (r: seq<Patient>)
    ensures |r| == |ps|
    ensures forall i :: 0 <= i < |ps| ==> r[i].id == ps[i].id && r[i].createdAt == ps[i].createdAt
    ensures forall i :: 0 <= i < |ps| && ps[i].id == editingId ==>
              r[i].name == form.name && r[i].email == form.email && r[i].phone == form.phone
              && r[i].birthDate == form.birthDate && r[i].address == form.address
              && r[i].updatedAt == Some(now)
    ensures forall i :: 0 <= i < |ps| && ps[i].id != editingId ==> r[i] == ps[i]
  {
    Map(ps, (p: Patient) => if p.id == editingId then Edited(p, form, now) else p)
  }

  /** Editing leaves the set of ids as it was. */
  lemma UpdateKeepsIds(ps: seq<Patient>, editingId: string, form: PatientForm, now: string)
    ensures Ids(Updated(ps, editingId, form, now), IdOf) == Ids(ps, IdOf)
    ensures UniqueIds(ps, IdOf) ==> UniqueIds(Updated(ps, editingId, form, now), IdOf)
  {
    var r := Updated(ps, editingId, form, now);
    forall x | x in Ids(r, IdOf) ensures x in Ids(ps, IdOf) {
      var i :| 0 <= i < |r| && r[i].id == x;
      assert ps[i] in ps;
    }
    forall x | x in Ids(ps, IdOf) ensures x in Ids(r, IdOf) {
      var i :| 0 <= i < |ps| && ps[i].id == x;
      assert r[i] in r;
    }
  }

  /** A fresh id keeps the ids unique after a create. */
  lemma CreateKeepsIdsUnique(ps: seq<Patient>, form: PatientForm, id: string, now: string)
    requires UniqueIds(ps, IdOf) && id !in Ids(ps, IdOf)
    ensures UniqueIds(ps + [NewPatient(form, id, now)], IdOf)
    ensures Ids(ps + [NewPatient(form, id, now)], IdOf) == Ids(ps, IdOf) + {id}
  {
    var r := ps + [NewPatient(form, id, now)];
    forall i, j | 0 <= i < j < |r| ensures r[i].id != r[j].id {
      if j == |ps| {
        assert r[i] == ps[i] && ps[i] in ps;
      }
    }
    IdsAppend(ps, NewPatient(form, id, now), IdOf);
  }

  // ---------------------------------------------------------------- delete

  /** `handleDelete`'s filter: every patient whose id differs from `id`,
      in order. */
  function Deleted(ps: seq<Patient>, id: string): (r: seq<Patient>)
    ensures forall i :: 0 <= i < |r| ==> r[i].id != id
    ensures forall p :: multiset(r)[p] == if p.id != id then multiset(ps)[p] else 0
  {
    Filter(ps, (p: Patient) => p.id != id)
  }

  /** Delete keeps the other patients in their order. */
  lemma DeleteKeepsOrder(ps: seq<Patient>, id: string)
    ensures IsSubsequence(Deleted(ps, id), ps)
  {
    FilterIsSubsequence(ps, (p: Patient) => p.id != id);
  }

  /** Deleting an id nobody has changes nothing. */
  lemma DeleteAbsentIsIdentity(ps: seq<Patient>, id: string)
    requires id !in Ids(ps, IdOf)
    ensures Deleted(ps, id) == ps
  {
    forall i | 0 <= i < |ps| ensures ps[i].id != id {
      assert ps[i] in ps;
    }
    FilterKeepsAll(ps, (p: Patient) => p.id != id);
  }

  /** Deleting a patient just created with a fresh id restores the list. */
  lemma DeleteUndoesCreate(ps: seq<Patient>, form: PatientForm, id: string, now: string)
    requires id !in Ids(ps, IdOf)
    ensures Deleted(ps + [NewPatient(form, id, now)], id) == ps
  {
    FilterConcat(ps, [NewPatient(form, id, now)], (p: Patient) => p.id != id);
    DeleteAbsentIsIdentity(ps, id);
  }

  // ------------------------------------------------------- the operations

  /** `handleSubmit`, local branch. `editing` is the id of the patient the
      form was opened for, if any; `id` and `now` stand for `generateId()`
      and the current time. */
  method SubmitPatient(key: StorageKey<Patient>, editing: Option<string>, form: PatientForm,
                       id: string, now: string) returns (outcome: SubmitOutcome)
    requires key.name == PatientsKey
    requires editing.None? ==> id !in Ids(key.Loaded(), IdOf)
    modifies key
    ensures UniqueIds(old(key.Loaded()), IdOf) ==> UniqueIds(key.Loaded(), IdOf)
    ensures MissingRequired(form) ==> outcome == MissingFields && key.entry == old(key.entry)
    ensures !MissingRequired(form) && editing.Some? ==>
              outcome == PatientUpdated
              && key.entry == Present(Updated(old(key.Loaded()), editing.value, form, now))
    ensures !MissingRequired(form) && editing.None? ==>
              outcome == PatientCreated
              && key.entry == Present(old(key.Loaded()) + [NewPatient(form, id, now)])
  {
    if MissingRequired(form) {
      return MissingFields;
    }
    var patients := key.Loaded();
    if editing.Some? {
      var updatedPatients := Updated(patients, editing.value, form, now);
      UpdateKeepsIds(patients, editing.value, form, now);
      key.Save(updatedPatients);
      outcome := PatientUpdated;
    } else {
      var newPatients := patients + [NewPatient(form, id, now)];
      if UniqueIds(patients, IdOf) {
        CreateKeepsIdsUnique(patients, form, id, now);
      }
      key.Save(newPatients);
      outcome := PatientCreated;
    }
  }

  /** `handleDelete`, local branch; `confirmed` is the answer to the
      confirmation dialog. */
  method DeletePatient(key: StorageKey<Patient>, id: string, confirmed: bool)
    requires key.name == PatientsKey
    modifies key
    ensures !confirmed ==> key.entry == old(key.entry)
    ensures confirmed ==> key.entry == Present(Deleted(old(key.Loaded()), id))
  {
    if !confirmed {
      return;
    }
    var updatedPatients := Deleted(key.Loaded(), id);
    key.Save(updatedPatients);
  }
}
