/**
 * The healthcare tool: a list-backed generic repository, patients and
 * prescriptions kept in two of them, and a patient-id -> prescriptions map
 * that is rebuilt from the prescription list.
 */
module Healthcare {
  import opened Optional

  /** Dates are opaque here: a day number supplied by the caller. */
  type Date = int

  datatype Patient = Patient(id: int, name: string, age: int, gender: string)

  datatype Prescription = Prescription(id: int, patientId: int, medicationName: string, dateIssued: Date)

  // ---------------------------------------------------------------------------
  // Searching and removing in a list
  // ---------------------------------------------------------------------------

  /** The position of the first element that satisfies `p`, if there is one. */
  function FirstIndex<T>(s: seq<T>, p: T -> bool): (r: Option<nat>)
    ensures r.Some? ==> r.value < |s| && p(s[r.value])
    ensures r.Some? ==> forall j | 0 <= j < r.value :: !p(s[j])
    ensures r.None? ==> forall j | 0 <= j < |s| :: !p(s[j])
    decreases |s|
  {
    if s == [] then None
    else if p(s[0]) then Some(0)
    else match FirstIndex(s[1..], p)
      case None => None
      case Some(i) => Some(i + 1)
  }

  /** FirstOrDefault: the first element that satisfies `p`, or none. */
  function FirstMatch<T>(s: seq<T>, p: T -> bool): (r: Option<T>)
    ensures r.None? <==> forall j | 0 <= j < |s| :: !p(s[j])
    ensures r.Some? ==> p(r.value)
    ensures r.Some? ==> exists i | 0 <= i < |s| :: s[i] == r.value && forall j | 0 <= j < i :: !p(s[j])
  {
    match FirstIndex(s, p)
    case None => None
    case Some(i) => Some(s[i])
  }

  /** `s` without its element at position `i`. */
  function RemoveAt<T>(s: seq<T>, i: nat): (r: seq<T>)
    requires i < |s|
    ensures |r| == |s| - 1
    ensures forall j | 0 <= j < i :: r[j] == s[j]
    ensures forall j | i <= j < |r| :: r[j] == s[j + 1]
  {
    s[..i] + s[i + 1..]
  }

  /** List.Remove(x): drops the first element equal to `x`, if any. */
  function RemoveFirst<T(==)>(s: seq<T>, x: T): (r: seq<T>)
    ensures x !in s ==> r == s
    ensures x in s ==> |r| == |s| - 1
    ensures x in s ==> exists i | 0 <= i < |s| :: s[i] == x && x !in s[..i] && r == RemoveAt(s, i)
  {
    match FirstIndex(s, y => y == x)
    case None => s
    case Some(i) => RemoveAt(s, i)
  }

  /**
   * Removing the first element equal to the first match of `p` removes the
   * first match itself: any earlier equal element would have matched first.
   */
  lemma RemoveFirstOfFirstMatch<T>(s: seq<T>, p: T -> bool, i: nat)
    requires FirstIndex(s, p) == Some(i)
    ensures RemoveFirst(s, s[i]) == RemoveAt(s, i)
  {
    var eq := (y: T) => y == s[i];
    assert eq(s[i]);
    var k := FirstIndex(s, eq).value;
    assert p(s[k]);
  }

  // ---------------------------------------------------------------------------
  // The repository
  // ---------------------------------------------------------------------------

  class Repository<T(==)> {
    var items: seq<T>

    constructor ()
      ensures items == []
    {
      items := [];
    }

    /** Appends, with no check for duplicates. */
    method Add(item: T)
      modifies this
      ensures items == old(items) + [item]
      ensures |items| == |old(items)| + 1 && items[|items| - 1] == item
    {
      items := items + [item];
    }

    /** The live list itself (not a copy). */
    function GetAll(): seq<T>
      reads this
    {
      items
    }

    /** The first item satisfying `p`, or none. */
    function GetById(p: T -> bool): (r: Option<T>)
      reads this
      ensures r == FirstMatch(items, p)
      ensures r.Some? ==> p(r.value) && r.value in items
    {
      FirstMatch(items, p)
    }

    /**
     * Removes the first item satisfying `p` and reports whether there was
     * one; the order of the rest is kept.
     */
    method Remove(p: T -> bool) returns (removed: bool)
      modifies this
      ensures removed <==> FirstIndex(old(items), p).Some?
      ensures !removed ==> items == old(items)
      ensures removed ==> items == RemoveAt(old(items), FirstIndex(old(items), p).value)
    {
      var item := GetById(p);
      if item.None? {
        removed := false;
        return;
      }
      RemoveFirstOfFirstMatch(items, p, FirstIndex(items, p).value);
      items := RemoveFirst(items, item.value);
      removed := true;
    }
  }

  // ---------------------------------------------------------------------------
  // Grouping prescriptions by patient
  // ---------------------------------------------------------------------------

  /** The prescriptions of patient `pid`, in list order (the reference definition). */
  function ForPatient(ps: seq<Prescription>, pid: int): (r: seq<Prescription>)
    ensures |r| <= |ps|
    ensures forall i | 0 <= i < |r| :: r[i].patientId == pid
    decreases |ps|
  {
    if ps == [] then []
    else if ps[0].patientId == pid then [ps[0]] + ForPatient(ps[1..], pid)
    else ForPatient(ps[1..], pid)
  }

  lemma {:induction false} ForPatientAppend(ps: seq<Prescription>, p: Prescription, pid: int)
    ensures ForPatient(ps + [p], pid) == ForPatient(ps, pid) + (if p.patientId == pid then [p] else [])
    decreases |ps|
  {
    if ps == [] {
      assert [p][1..] == [];
    } else {
      assert (ps + [p])[1..] == ps[1..] + [p];
      ForPatientAppend(ps[1..], p, pid);
    }
  }

  lemma {:induction false} ForPatientEmpty(ps: seq<Prescription>, pid: int)
    ensures ForPatient(ps, pid) == [] <==> forall i | 0 <= i < |ps| :: ps[i].patientId != pid
    decreases |ps|
  {
    if ps != [] {
      ForPatientEmpty(ps[1..], pid);
      assert forall i | 1 <= i < |ps| :: ps[i] == ps[1..][i - 1];
    }
  }

  /**
   * GroupBy(PatientId) then ToDictionary: one list per patient id that
   * occurs, each list in the order of the prescription list.
   */
  function GroupByPatient(ps: seq<Prescription>): map<int, seq<Prescription>>
    decreases |ps|
  {
    if ps == [] then map[]
    else
      var m := GroupByPatient(ps[..|ps| - 1]);
      var p := ps[|ps| - 1];
      m[p.patientId := (if p.patientId in m then m[p.patientId] else []) + [p]]
  }

  /** Every key's list is exactly that patient's prescriptions, and every list is non-empty. */
  lemma {:induction false} GroupByPatientLists(ps: seq<Prescription>)
    ensures forall k | k in GroupByPatient(ps) :: GroupByPatient(ps)[k] == ForPatient(ps, k) != []
    ensures forall k | k !in GroupByPatient(ps) :: ForPatient(ps, k) == []
    decreases |ps|
  {
    if ps != [] {
      var front, p := ps[..|ps| - 1], ps[|ps| - 1];
      assert ps == front + [p];
      GroupByPatientLists(front);
      forall k
        ensures ForPatient(ps, k) == ForPatient(front, k) + (if p.patientId == k then [p] else [])
      {
        ForPatientAppend(front, p, k);
      }
    }
  }

  /** A patient id is a key iff some prescription carries it, and its list is that patient's prescriptions in order. */
  lemma GroupByPatientCorrect(ps: seq<Prescription>, k: int)
    ensures k in GroupByPatient(ps) <==> exists i | 0 <= i < |ps| :: ps[i].patientId == k
    ensures k in GroupByPatient(ps) ==> GroupByPatient(ps)[k] == ForPatient(ps, k)
  {
    GroupByPatientLists(ps);
    ForPatientEmpty(ps, k);
  }

  // ---------------------------------------------------------------------------
  // The application state
  // ---------------------------------------------------------------------------

  /** Ids are the 1-based positions in the list: what count + 1 assignment produces. */
  ghost predicate SequentialPatientIds(ps: seq<Patient>) {
    forall i | 0 <= i < |ps| :: ps[i].id == i + 1
  }

  ghost predicate SequentialPrescriptionIds(ps: seq<Prescription>) {
    forall i | 0 <= i < |ps| :: ps[i].id == i + 1
  }

  function SeedPatients(): seq<Patient> {
    [Patient(1, "John Doe", 35, "Male"),
     Patient(2, "Jane Smith", 28, "Female"),
     Patient(3, "Michael Johnson", 45, "Male")]
  }

  /** The seeded prescriptions were issued 7, 3, 5 and 1 days before `today`. */
  function SeedPrescriptions(today: Date): seq<Prescription> {
    [Prescription(1, 1, "Ibuprofen", today - 7),
     Prescription(2, 1, "Amoxicillin", today - 3),
     Prescription(3, 2, "Paracetamol", today - 5),
     Prescription(4, 3, "Lisinopril", today - 1)]
  }

  class HealthSystemApp {
    const patientRepo: Repository<Patient>
    const prescriptionRepo: Repository<Prescription>
    var prescriptionMap: map<int, seq<Prescription>>

    /** The map reflects the current prescription list. */
    ghost predicate MapCurrent()
      reads this, prescriptionRepo
    {
      prescriptionMap == GroupByPatient(prescriptionRepo.items)
    }

    constructor ()
      ensures fresh(patientRepo) && fresh(prescriptionRepo)
      ensures patientRepo.items == [] && prescriptionRepo.items == []
      ensures prescriptionMap == map[] && MapCurrent()
    {
      patientRepo := new Repository<Patient>();
      prescriptionRepo := new Repository<Prescription>();
      prescriptionMap := map[];
    }

    method SeedData(today: Date)
      modifies patientRepo, prescriptionRepo
      ensures patientRepo.items == old(patientRepo.items) + SeedPatients()
      ensures prescriptionRepo.items == old(prescriptionRepo.items) + SeedPrescriptions(today)
    {
      patientRepo.Add(Patient(1, "John Doe", 35, "Male"));
      patientRepo.Add(Patient(2, "Jane Smith", 28, "Female"));
      patientRepo.Add(Patient(3, "Michael Johnson", 45, "Male"));
      prescriptionRepo.Add(Prescription(1, 1, "Ibuprofen", today - 7));
      prescriptionRepo.Add(Prescription(2, 1, "Amoxicillin", today - 3));
      prescriptionRepo.Add(Prescription(3, 2, "Paracetamol", today - 5));
      prescriptionRepo.Add(Prescription(4, 3, "Lisinopril", today - 1));
    }

    method BuildPrescriptionMap()
      modifies this
      ensures MapCurrent()
      ensures forall k :: k in prescriptionMap <==> exists i | 0 <= i < |prescriptionRepo.items| :: prescriptionRepo.items[i].patientId == k
      ensures forall k | k in prescriptionMap :: prescriptionMap[k] == ForPatient(prescriptionRepo.items, k)
    {
      prescriptionMap := GroupByPatient(prescriptionRepo.GetAll());
      forall k
        ensures k in prescriptionMap <==> exists i | 0 <= i < |prescriptionRepo.items| :: prescriptionRepo.items[i].patientId == k
        ensures k in prescriptionMap ==> prescriptionMap[k] == ForPatient(prescriptionRepo.items, k)
      {
        GroupByPatientCorrect(prescriptionRepo.items, k);
      }
    }

    /** The first part of Run: seed, then build the map. */
    method Start(today: Date)
      requires patientRepo.items == [] && prescriptionRepo.items == []
      modifies this, patientRepo, prescriptionRepo
      ensures patientRepo.items == SeedPatients()
      ensures prescriptionRepo.items == SeedPrescriptions(today)
      ensures MapCurrent()
      ensures SequentialPatientIds(patientRepo.items) && SequentialPrescriptionIds(prescriptionRepo.items)
    {
      SeedData(today);
      BuildPrescriptionMap();
    }

    /** A new patient gets id = current count + 1. */
    method AddNewPatient(name: string, age: int, gender: string) returns (newId: int)
      modifies patientRepo
      ensures newId == |old(patientRepo.items)| + 1
      ensures patientRepo.items == old(patientRepo.items) + [Patient(newId, name, age, gender)]
      ensures SequentialPatientIds(old(patientRepo.items)) ==> SequentialPatientIds(patientRepo.items)
    {
      newId := |patientRepo.GetAll()| + 1;
      patientRepo.Add(Patient(newId, name, age, gender));
    }

    /** A new prescription gets id = current count + 1, and the map is rebuilt. */
    method AddNewPrescription(patientId: int, medication: string, today: Date) returns (newId: int)
      modifies this, prescriptionRepo
      ensures newId == |old(prescriptionRepo.items)| + 1
      ensures prescriptionRepo.items == old(prescriptionRepo.items) + [Prescription(newId, patientId, medication, today)]
      ensures MapCurrent()
      ensures patientId in prescriptionMap
      ensures prescriptionMap[patientId] == ForPatient(old(prescriptionRepo.items), patientId) + [Prescription(newId, patientId, medication, today)]
      ensures SequentialPrescriptionIds(old(prescriptionRepo.items)) ==> SequentialPrescriptionIds(prescriptionRepo.items)
    {
      newId := |prescriptionRepo.GetAll()| + 1;
      var p := Prescription(newId, patientId, medication, today);
      prescriptionRepo.Add(p);
      BuildPrescriptionMap();
      ForPatientAppend(old(prescriptionRepo.items), p, patientId);
      assert prescriptionRepo.items[|prescriptionRepo.items| - 1].patientId == patientId;
    }

    /** TryGetValue on the map: the patient's prescriptions, or none. */
    method ViewPatientPrescriptions(patientId: int) returns (r: Option<seq<Prescription>>)
      requires MapCurrent()
      ensures r.Some? <==> exists i | 0 <= i < |prescriptionRepo.items| :: prescriptionRepo.items[i].patientId == patientId
      ensures r.Some? ==> r.value == ForPatient(prescriptionRepo.items, patientId) && r.value != []
    {
      GroupByPatientCorrect(prescriptionRepo.items, patientId);
      GroupByPatientLists(prescriptionRepo.items);
      if patientId in prescriptionMap {
        r := Some(prescriptionMap[patientId]);
      } else {
        r := None;
      }
    }
  }

  /**
   * The count + 1 rule relies on nothing ever being removed: after removing
   * the first seeded patient, count + 1 is 3, the id Michael Johnson holds.
   */
  lemma CountPlusOneAfterRemoveCollides()
    ensures var ps := RemoveAt(SeedPatients(), 0);
      exists i | 0 <= i < |ps| :: ps[i].id == |ps| + 1
  {
    var ps := RemoveAt(SeedPatients(), 0);
    assert ps[1].id == 3;
  }

  /** Count + 1 never collides with an id already handed out this way. */
  lemma CountPlusOneIsFresh(ps: seq<Patient>)
    requires SequentialPatientIds(ps)
    ensures forall i | 0 <= i < |ps| :: ps[i].id != |ps| + 1
  {
  }
}
