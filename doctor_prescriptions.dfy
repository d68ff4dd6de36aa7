/**
 * The doctor's prescription list, kept in page state: writing appends a
 * record numbered one past the current length, editing rewrites the
 * medication, dosage and duration of the selected record, and approving a
 * refill clears that record's refill request. Each handler's delayed
 * callback is taken to have run; today's date is a parameter.
 */
module DoctorPrescriptions {
  import opened Wrappers
  import opened Storage

  datatype Prescription = Prescription(
    id: int, patient: string, medication: string, dosage: string, duration: string,
    date: string, status: string, refillRequest: bool)

  const InitialPrescriptions: seq<Prescription> := [
    Prescription(1, "Alice Johnson", "Lisinopril 10mg", "1 tablet daily", "30 days", "2024-12-15", "active", false),
    Prescription(2, "Bob Smith", "Metformin 500mg", "2 tablets daily", "90 days", "2024-12-10", "active", true),
    Prescription(3, "Carol White", "Albuterol Inhaler", "2 puffs as needed", "90 days", "2024-12-05", "active", false)
  ]

  const Created: string := "Prescription created successfully!"
  const Updated: string := "Prescription updated successfully!"

  /** The n-th record (from 1) carries id n. */
  predicate IdsSequential(ps: seq<Prescription>) {
    forall i :: 0 <= i < |ps| ==> ps[i].id == i + 1
  }

  predicate IdsDistinct(ps: seq<Prescription>) {
    forall i, j :: 0 <= i < j < |ps| ==> ps[i].id != ps[j].id
  }

  /** `[...prev, newPrescription]`, the new record numbered one past the length. */
  function WithNew(ps: seq<Prescription>, patient: string, medication: string, dosage: string,
                   duration: string, today: string): (r: seq<Prescription>)
    ensures |r| == |ps| + 1 && r[..|ps|] == ps
    ensures r[|ps|].id == |ps| + 1 && r[|ps|].status == "active" && !r[|ps|].refillRequest
    ensures r[|ps|].patient == patient && r[|ps|].medication == medication &&
            r[|ps|].dosage == dosage && r[|ps|].duration == duration && r[|ps|].date == today
  {
    ps + [Prescription(|ps| + 1, patient, medication, dosage, duration, today, "active", false)]
  }

  /** The map in `handleEditPrescription` for the selected id. */
  function Edited(ps: seq<Prescription>, id: int, medication: string, dosage: string, duration: string)
    : (r: seq<Prescription>)
    ensures |r| == |ps|
    ensures forall i :: 0 <= i < |ps| && ps[i].id != id ==> r[i] == ps[i]
    ensures forall i :: 0 <= i < |ps| && ps[i].id == id ==>
      r[i].medication == medication && r[i].dosage == dosage && r[i].duration == duration &&
      r[i].id == ps[i].id && r[i].patient == ps[i].patient && r[i].date == ps[i].date &&
      r[i].status == ps[i].status && r[i].refillRequest == ps[i].refillRequest
  {
    seq(|ps|, i requires 0 <= i < |ps| =>
      if ps[i].id == id then ps[i].(medication := medication, dosage := dosage, duration := duration) else ps[i])
  }

  /** The map in `handleApproveRefill`. */
  function RefillApproved(ps: seq<Prescription>, id: int): (r: seq<Prescription>)
    ensures |r| == |ps|
    ensures forall i :: 0 <= i < |ps| && ps[i].id != id ==> r[i] == ps[i]
    ensures forall i :: 0 <= i < |ps| && ps[i].id == id ==> r[i] == ps[i].(refillRequest := false)
  {
    seq(|ps|, i requires 0 <= i < |ps| => if ps[i].id == id then ps[i].(refillRequest := false) else ps[i])
  }

  function RefillMessage(patient: string, medication: string): string {
    "Refill approved for " + patient + " - " + medication
  }

  class PrescriptionsPage {
    var prescriptions: seq<Prescription>
    var showWriteDialog: bool
    var showEditDialog: bool
    var selected: Option<Prescription>
    var isLoading: bool

    ghost predicate Valid()
      reads this
    {
      IdsSequential(prescriptions)
    }

    constructor ()
      ensures Valid()
      ensures prescriptions == InitialPrescriptions && selected == None
      ensures !showWriteDialog && !showEditDialog && !isLoading
    {
      prescriptions := InitialPrescriptions;
      showWriteDialog := false;
      showEditDialog := false;
      selected := None;
      isLoading := false;
    }

    /** `handleWritePrescription` with the submitted form's four fields. */
    method HandleWritePrescription(b: Browser, patient: string, medication: string, dosage: string,
                                   duration: string, today: string)
      requires Valid()
      modifies this, b
      ensures Valid()
      ensures prescriptions == WithNew(old(prescriptions), patient, medication, dosage, duration, today)
      ensures !isLoading && !showWriteDialog
      ensures showEditDialog == old(showEditDialog) && selected == old(selected)
      ensures b.storage == old(b.storage) && b.effects == old(b.effects) + [Toast(Success, Created)]
    {
      isLoading := true;
      var newPrescription := Prescription(|prescriptions| + 1, patient, medication, dosage, duration, today, "active", false);
      prescriptions := prescriptions + [newPrescription];
      b.Notify(Success, Created);
      isLoading := false;
      showWriteDialog := false;
      WithNewKeepsIdsSequential(old(prescriptions), patient, medication, dosage, duration, today);
    }

    /** The edit button: remember the record and open the dialog. */
    method OpenEdit(p: Prescription)
      requires Valid()
      modifies this
      ensures Valid()
      ensures selected == Some(p) && showEditDialog
      ensures prescriptions == old(prescriptions) && showWriteDialog == old(showWriteDialog) && isLoading == old(isLoading)
    {
      selected := Some(p);
      showEditDialog := true;
    }

    /** `handleEditPrescription` with the submitted form's three fields. */
    method HandleEditPrescription(b: Browser, medication: string, dosage: string, duration: string)
      requires Valid()
      modifies this, b
      ensures Valid()
      ensures old(selected).None? ==> prescriptions == old(prescriptions) && b.effects == old(b.effects)
      ensures old(selected).Some? ==>
        prescriptions == Edited(old(prescriptions), old(selected).value.id, medication, dosage, duration) &&
        b.effects == old(b.effects) + [Toast(Success, Updated)]
      ensures !isLoading && !showEditDialog
      ensures selected == old(selected) && showWriteDialog == old(showWriteDialog)
      ensures b.storage == old(b.storage)
    {
      isLoading := true;
      if selected.Some? {
        prescriptions := Edited(prescriptions, selected.value.id, medication, dosage, duration);
        b.Notify(Success, Updated);
      }
      isLoading := false;
      showEditDialog := false;
    }

    /** `handleApproveRefill`. */
    method HandleApproveRefill(b: Browser, id: int, patient: string, medication: string)
      requires Valid()
      modifies this, b
      ensures Valid()
      ensures prescriptions == RefillApproved(old(prescriptions), id)
      ensures !isLoading
      ensures selected == old(selected) && showWriteDialog == old(showWriteDialog) && showEditDialog == old(showEditDialog)
      ensures b.storage == old(b.storage) && b.effects == old(b.effects) + [Toast(Success, RefillMessage(patient, medication))]
    {
      isLoading := true;
      prescriptions := RefillApproved(prescriptions, id);
      b.Notify(Success, RefillMessage(patient, medication));
      isLoading := false;
    }
  }

  lemma InitialIdsSequential()
    ensures IdsSequential(InitialPrescriptions)
  {
  }

  /** Appending keeps the records numbered 1..n. */
  lemma WithNewKeepsIdsSequential(ps: seq<Prescription>, patient: string, medication: string, dosage: string,
                                  duration: string, today: string)
    requires IdsSequential(ps)
    ensures IdsSequential(WithNew(ps, patient, medication, dosage, duration, today))
  {
    var r := WithNew(ps, patient, medication, dosage, duration, today);
    forall i | 0 <= i < |r|
      ensures r[i].id == i + 1
    {
      if i < |ps| {
        assert r[i] == r[..|ps|][i] == ps[i];
      }
    }
  }

  /** Numbered 1..n means no two records share an id. */
  lemma SequentialIdsDistinct(ps: seq<Prescription>)
    requires IdsSequential(ps)
    ensures IdsDistinct(ps)
  {
  }

  /** The handlers that may run on the list. */
  datatype Action =
    | Write(patient: string, medication: string, dosage: string, duration: string, today: string)
    | Edit(id: int, medication: string, dosage: string, duration: string)
    | ApproveRefill(id: int)

  function Apply(ps: seq<Prescription>, a: Action): seq<Prescription> {
    match a
    case Write(patient, medication, dosage, duration, today) => WithNew(ps, patient, medication, dosage, duration, today)
    case Edit(id, medication, dosage, duration) => Edited(ps, id, medication, dosage, duration)
    case ApproveRefill(id) => RefillApproved(ps, id)
  }

  /** The list after a run of handlers, first to last. */
  function Run(ps: seq<Prescription>, actions: seq<Action>): seq<Prescription>
    decreases |actions|
  {
    if actions == [] then ps else Run(Apply(ps, actions[0]), actions[1..])
  }

  /** Whatever handlers run, starting from the three initial records the ids stay 1..n and distinct. */
  lemma {:induction false} RunKeepsIdsSequential(ps: seq<Prescription>, actions: seq<Action>)
    requires IdsSequential(ps)
    ensures IdsSequential(Run(ps, actions)) && IdsDistinct(Run(ps, actions))
    decreases |actions|
  {
    if actions == [] {
      SequentialIdsDistinct(ps);
    } else {
      var next := Apply(ps, actions[0]);
      match actions[0] {
        case Write(patient, medication, dosage, duration, today) =>
          WithNewKeepsIdsSequential(ps, patient, medication, dosage, duration, today);
        case Edit(_, _, _, _) =>
        case ApproveRefill(_) =>
      }
      RunKeepsIdsSequential(next, actions[1..]);
    }
  }

  /** The list only grows under writes, and never shrinks under edits or approvals. */
  lemma {:induction false} RunNeverShrinks(ps: seq<Prescription>, actions: seq<Action>)
    ensures |Run(ps, actions)| >= |ps|
    decreases |actions|
  {
    if actions != [] {
      RunNeverShrinks(Apply(ps, actions[0]), actions[1..]);
    }
  }

  /** Approving a refill twice is the same as approving it once. */
  lemma RefillIdempotent(ps: seq<Prescription>, id: int)
    ensures RefillApproved(RefillApproved(ps, id), id) == RefillApproved(ps, id)
  {
  }

  /** Repeating an edit with the same values changes nothing more. */
  lemma EditIdempotent(ps: seq<Prescription>, id: int, medication: string, dosage: string, duration: string)
    ensures Edited(Edited(ps, id, medication, dosage, duration), id, medication, dosage, duration) ==
            Edited(ps, id, medication, dosage, duration)
  {
  }

  /** With ids 1..n, an edit of id k rewrites record k and no other; an id outside 1..n changes nothing. */
  lemma EditTouchesOneRecord(ps: seq<Prescription>, id: int, medication: string, dosage: string, duration: string)
    requires IdsSequential(ps)
    ensures 1 <= id <= |ps| ==> forall i :: 0 <= i < |ps| && i != id - 1 ==> Edited(ps, id, medication, dosage, duration)[i] == ps[i]
    ensures !(1 <= id <= |ps|) ==> Edited(ps, id, medication, dosage, duration) == ps
  {
  }
}
