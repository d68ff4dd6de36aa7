/**
 * The doctor's patient list, kept in page state: adding appends a patient
 * numbered one past the current length (an empty condition becomes
 * "General"); viewing a profile only selects a patient and opens the dialog;
 * scheduling only shows a toast. Each handler's delayed callback is taken to
 * have run; today's date and the parsed age are parameters.
 */
module PatientsPage {
  import opened Wrappers
  import Storage

  /** The result of `parseInt` on the age field. */
  datatype Age = Num(n: int) | NaN

  datatype Patient = Patient(
    id: int, name: string, age: Age, gender: string, contact: string,
    lastVisit: string, condition: string, status: string)

  const InitialPatients: seq<Patient> := [
    Patient(1, "Alice Johnson", Num(45), "Female", "+1 (555) 123-4567", "2024-12-15", "Hypertension", "active"),
    Patient(2, "Bob Smith", Num(62), "Male", "+1 (555) 234-5678", "2024-12-18", "Diabetes Type 2", "active"),
    Patient(3, "Carol White", Num(38), "Female", "+1 (555) 345-6789", "2024-12-10", "Asthma", "active")
  ]

  /** `condition || "General"`. */
  function ConditionOrGeneral(condition: string): (c: string)
    ensures condition == "" ==> c == "General"
    ensures condition != "" ==> c == condition
  {
    if condition != "" then condition else "General"
  }

  /** `[...prev, newPatient]`. */
  function WithNewPatient(ps: seq<Patient>, name: string, age: Age, gender: string, contact: string,
                          condition: string, today: string): (r: seq<Patient>)
    ensures |r| == |ps| + 1 && r[..|ps|] == ps
    ensures r[|ps|].id == |ps| + 1 && r[|ps|].status == "active"
    ensures r[|ps|].name == name && r[|ps|].age == age && r[|ps|].gender == gender &&
            r[|ps|].contact == contact && r[|ps|].lastVisit == today
    ensures r[|ps|].condition == (if condition == "" then "General" else condition)
  {
    ps + [Patient(|ps| + 1, name, age, gender, contact, today, ConditionOrGeneral(condition), "active")]
  }

  function AddedMessage(name: string): string {
    "Patient " + name + " added successfully!"
  }

  function ScheduledMessage(patientName: string): string {
    "Appointment scheduled with " + patientName
  }

  predicate IdsSequential(ps: seq<Patient>) {
    forall i :: 0 <= i < |ps| ==> ps[i].id == i + 1
  }

  class PatientList {
    var patients: seq<Patient>
    var showAddDialog: bool
    var showProfileDialog: bool
    var selected: Option<Patient>
    var isLoading: bool

    ghost predicate Valid()
      reads this
    {
      IdsSequential(patients)
    }

    constructor ()
      ensures Valid()
      ensures patients == InitialPatients && selected == None
      ensures !showAddDialog && !showProfileDialog && !isLoading
    {
      patients := InitialPatients;
      showAddDialog := false;
      showProfileDialog := false;
      selected := None;
      isLoading := false;
    }

    /** `handleAddPatient` with the submitted form's fields. */
    method HandleAddPatient(b: Storage.Browser, name: string, age: Age, gender: string, contact: string,
                            condition: string, today: string)
      requires Valid()
      modifies this, b
      ensures Valid()
      ensures patients == WithNewPatient(old(patients), name, age, gender, contact, condition, today)
      ensures !isLoading && !showAddDialog
      ensures selected == old(selected) && showProfileDialog == old(showProfileDialog)
      ensures b.storage == old(b.storage)
      ensures b.effects == old(b.effects) + [Storage.Toast(Storage.Success, AddedMessage(name))]
    {
      isLoading := true;
      var newPatient := Patient(|patients| + 1, name, age, gender, contact, today, ConditionOrGeneral(condition), "active");
      patients := patients + [newPatient];
      b.Notify(Storage.Success, AddedMessage(newPatient.name));
      isLoading := false;
      showAddDialog := false;
      AddKeepsIdsSequential(old(patients), name, age, gender, contact, condition, today);
    }

    /** `handleViewProfile`: only the selection and the dialog flag change. */
    method HandleViewProfile(p: Patient)
      requires Valid()
      modifies this
      ensures Valid()
      ensures selected == Some(p) && showProfileDialog
      ensures patients == old(patients) && showAddDialog == old(showAddDialog) && isLoading == old(isLoading)
    {
      selected := Some(p);
      showProfileDialog := true;
    }

    /** `handleScheduleAppointment`: a toast, no change to any patient. */
    method HandleScheduleAppointment(b: Storage.Browser, patientName: string)
      requires Valid()
      modifies this, b
      ensures Valid()
      ensures patients == old(patients) && selected == old(selected)
      ensures showAddDialog == old(showAddDialog) && showProfileDialog == old(showProfileDialog)
      ensures !isLoading
      ensures b.storage == old(b.storage)
      ensures b.effects == old(b.effects) + [Storage.Toast(Storage.Success, ScheduledMessage(patientName))]
    {
      isLoading := true;
      b.Notify(Storage.Success, ScheduledMessage(patientName));
      isLoading := false;
    }
  }

  lemma InitialIdsSequential()
    ensures IdsSequential(InitialPatients)
  {
  }

  /** Adding keeps the patients numbered 1..n. */
  lemma AddKeepsIdsSequential(ps: seq<Patient>, name: string, age: Age, gender: string, contact: string,
                              condition: string, today: string)
    requires IdsSequential(ps)
    ensures IdsSequential(WithNewPatient(ps, name, age, gender, contact, condition, today))
  {
    var r := WithNewPatient(ps, name, age, gender, contact, condition, today);
    forall i | 0 <= i < |ps|
      ensures r[i].id == i + 1
    {
      assert r[i] == r[..|ps|][i];
    }
  }

  /** One submitted add-patient form. */
  datatype NewPatient = NewPatient(name: string, age: Age, gender: string, contact: string, condition: string, today: string)

  function AddAll(ps: seq<Patient>, added: seq<NewPatient>): seq<Patient>
    decreases |added|
  {
    if added == [] then ps
    else
      var a := added[0];
      AddAll(WithNewPatient(ps, a.name, a.age, a.gender, a.contact, a.condition, a.today), added[1..])
  }

  /** A run of additions only grows the list: every earlier patient keeps its place and its data. */
  lemma {:induction false} AddAllExtends(ps: seq<Patient>, added: seq<NewPatient>)
    ensures |AddAll(ps, added)| == |ps| + |added|
    ensures AddAll(ps, added)[..|ps|] == ps
    decreases |added|
  {
    if added != [] {
      var a := added[0];
      var next := WithNewPatient(ps, a.name, a.age, a.gender, a.contact, a.condition, a.today);
      AddAllExtends(next, added[1..]);
      assert AddAll(ps, added)[..|ps|] == AddAll(ps, added)[..|next|][..|ps|];
    }
  }
}
