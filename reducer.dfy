/** The store's transition function: `careReducer(state, action)` over the
    seven action kinds, and the default case for any other tag. It never
    changes its input; every case builds a new state. */
module Reducer {
  import opened Wrappers
  import opened Types
  import opened Lists

  /** The dispatched actions. `Unrecognised` stands for an action object whose
      tag is none of the seven, which the reducer's default case handles. */
  datatype Action =
    | SetView(view: ViewState)
    | AddAction(action: WorkflowAction)
    | UpdateAction(action: WorkflowAction)
    | AddPatient(patient: Patient)
    | UpdatePatient(patient: Patient)
    | DeletePatient(patientId: string)
    | LoadState(snapshot: AppState)
    | Unrecognised(tag: string)

  /** The filter predicate of DELETE_PATIENT: keep patients with another id. */
  function OtherThan(id: string): Patient -> bool
  {
    (p: Patient) => p.id != id
  }

  /** `careReducer`. Only LOAD_STATE may change the departments and the user
      name; only SET_VIEW and LOAD_STATE may change the view; the action
      cases leave the patients alone and the patient cases leave the actions
      alone. */
  function Reduce(s: AppState, a: Action): (r: AppState)
    ensures !a.LoadState? ==> r.departments == s.departments && r.userName == s.userName
    ensures !a.LoadState? && !a.SetView? ==> r.activeView == s.activeView
    ensures a.SetView? || a.AddAction? || a.UpdateAction? || a.Unrecognised? ==> r.patients == s.patients
    ensures a.SetView? || a.AddPatient? || a.UpdatePatient? || a.DeletePatient? || a.Unrecognised? ==>
      r.actions == s.actions
  {
    match a
    case SetView(v) => s.(activeView := v)
    case AddAction(x) => s.(actions := [x] + s.actions)
    case UpdateAction(x) => s.(actions := ReplaceByKey(s.actions, ActionId, x))
    case AddPatient(p) => s.(patients := [p] + s.patients)
    case UpdatePatient(p) => s.(patients := ReplaceByKey(s.patients, PatientId, p))
    case DeletePatient(id) => s.(patients := Filter(s.patients, OtherThan(id)))
    case LoadState(snapshot) => snapshot
    case Unrecognised(_) => s
  }

  /** SET_VIEW changes the active view and nothing else. */
  lemma SetViewChangesOnlyView(s: AppState, v: ViewState)
    ensures Reduce(s, SetView(v)).activeView == v
    ensures var r := Reduce(s, SetView(v));
      r.patients == s.patients && r.actions == s.actions &&
      r.departments == s.departments && r.userName == s.userName
  {
  }

  /** ADD_ACTION puts the new action first, with no check that its id is new,
      and changes nothing else. */
  lemma AddActionPrepends(s: AppState, x: WorkflowAction)
    ensures var r := Reduce(s, AddAction(x));
      |r.actions| == |s.actions| + 1 && r.actions[0] == x && r.actions[1..] == s.actions &&
      r.patients == s.patients && r.departments == s.departments &&
      r.activeView == s.activeView && r.userName == s.userName
  {
    var r := Reduce(s, AddAction(x));
    assert r.actions[1..] == s.actions;
  }

  /** UPDATE_ACTION keeps the length, replaces exactly the actions with the
      payload's id, changes nothing else in the state, and is a no-op when no
      action has that id. */
  lemma UpdateActionReplaces(s: AppState, x: WorkflowAction)
    ensures var r := Reduce(s, UpdateAction(x));
      && |r.actions| == |s.actions|
      && (forall i :: 0 <= i < |s.actions| && s.actions[i].id == x.id ==> r.actions[i] == x)
      && (forall i :: 0 <= i < |s.actions| && s.actions[i].id != x.id ==> r.actions[i] == s.actions[i])
      && r.patients == s.patients && r.departments == s.departments
      && r.activeView == s.activeView && r.userName == s.userName
    ensures (forall i :: 0 <= i < |s.actions| ==> s.actions[i].id != x.id) ==>
      Reduce(s, UpdateAction(x)) == s
  {
    if forall i :: 0 <= i < |s.actions| ==> s.actions[i].id != x.id {
      ReplaceAbsentKey(s.actions, ActionId, x);
    }
  }

  /** Dispatching the same UPDATE_ACTION twice is dispatching it once. */
  lemma UpdateActionIdempotent(s: AppState, x: WorkflowAction)
    ensures Reduce(Reduce(s, UpdateAction(x)), UpdateAction(x)) == Reduce(s, UpdateAction(x))
  {
    ReplaceIdempotent(s.actions, ActionId, x);
  }

  /** ADD_PATIENT puts the new patient first, followed by the previous ones in
      their order, and leaves the actions alone. */
  lemma AddPatientPrepends(s: AppState, p: Patient)
    ensures var r := Reduce(s, AddPatient(p));
      |r.patients| == |s.patients| + 1 && r.patients[0] == p && r.patients[1..] == s.patients &&
      r.actions == s.actions && r.departments == s.departments &&
      r.activeView == s.activeView && r.userName == s.userName
  {
    var r := Reduce(s, AddPatient(p));
    assert r.patients[1..] == s.patients;
  }

  /** UPDATE_PATIENT keeps the length, replaces exactly the patients with the
      payload's id, changes nothing else, and is a no-op when the id is absent. */
  lemma UpdatePatientReplaces(s: AppState, p: Patient)
    ensures var r := Reduce(s, UpdatePatient(p));
      && |r.patients| == |s.patients|
      && (forall i :: 0 <= i < |s.patients| && s.patients[i].id == p.id ==> r.patients[i] == p)
      && (forall i :: 0 <= i < |s.patients| && s.patients[i].id != p.id ==> r.patients[i] == s.patients[i])
      && r.actions == s.actions && r.departments == s.departments
      && r.activeView == s.activeView && r.userName == s.userName
    ensures (forall i :: 0 <= i < |s.patients| ==> s.patients[i].id != p.id) ==>
      Reduce(s, UpdatePatient(p)) == s
  {
    if forall i :: 0 <= i < |s.patients| ==> s.patients[i].id != p.id {
      ReplaceAbsentKey(s.patients, PatientId, p);
    }
  }

  lemma UpdatePatientIdempotent(s: AppState, p: Patient)
    ensures Reduce(Reduce(s, UpdatePatient(p)), UpdatePatient(p)) == Reduce(s, UpdatePatient(p))
  {
    ReplaceIdempotent(s.patients, PatientId, p);
  }

  /** After UPDATE_PATIENT of a patient whose id is present, looking the id up
      finds the payload. */
  lemma UpdatePatientThenFind(s: AppState, p: Patient)
    requires exists i :: 0 <= i < |s.patients| && s.patients[i].id == p.id
    ensures Find(Reduce(s, UpdatePatient(p)).patients, (q: Patient) => q.id == p.id) == Some(p)
  {
    var ps := Reduce(s, UpdatePatient(p)).patients;
    var pick := (q: Patient) => q.id == p.id;
    var r := Find(ps, pick);
    assert r.Some?;
    var k :| 0 <= k < |ps| && ps[k] == r.value;
  }

  /** DELETE_PATIENT leaves no patient with the id; the survivors are exactly
      the other patients, in their order; the actions are untouched, so actions
      of the deleted patient remain. */
  lemma DeletePatientRemoves(s: AppState, id: string)
    ensures var r := Reduce(s, DeletePatient(id));
      && (forall q :: q in r.patients ==> q.id != id)
      && (forall q :: q in r.patients <==> q in s.patients && q.id != id)
      && (forall q: Patient :: q.id != id ==> multiset(r.patients)[q] == multiset(s.patients)[q])
      && IsSubsequence(r.patients, s.patients)
      && r.actions == s.actions && r.departments == s.departments
      && r.activeView == s.activeView && r.userName == s.userName
  {
    FilterIsSubsequence(s.patients, OtherThan(id));
    FilterMembers(s.patients, OtherThan(id));
    FilterCounts(s.patients, OtherThan(id));
  }

  /** Deleting a patient that was just added with a fresh id restores the
      previous state. */
  lemma DeleteUndoesAdd(s: AppState, p: Patient)
    requires forall i :: 0 <= i < |s.patients| ==> s.patients[i].id != p.id
    ensures Reduce(Reduce(s, AddPatient(p)), DeletePatient(p.id)) == s
  {
    FilterKeepingAll(s.patients, OtherThan(p.id));
    assert Filter([p] + s.patients, OtherThan(p.id)) == Filter(s.patients, OtherThan(p.id)) by {
      assert ([p] + s.patients)[1..] == s.patients;
    }
  }

  /** LOAD_STATE replaces the whole state by the snapshot. */
  lemma LoadStateReplaces(s: AppState, snapshot: AppState)
    ensures Reduce(s, LoadState(snapshot)) == snapshot
  {
  }

  /** The default case returns its input unchanged. */
  lemma UnrecognisedIsIdentity(s: AppState, tag: string)
    ensures Reduce(s, Unrecognised(tag)) == s
  {
  }

  /** Patient and action ids are unique: the invariant the original intends
      but does not check. */
  ghost predicate UniqueIds(s: AppState)
  {
    UniqueKeys(s.patients, PatientId) && UniqueKeys(s.actions, ActionId)
  }

  /** Whether an action keeps ids unique: an ADD needs a fresh id and a
      LOAD_STATE a snapshot with unique ids; the other kinds always do. */
  ghost predicate KeepsIdsUnique(s: AppState, a: Action)
  {
    match a
    case AddAction(x) => forall i :: 0 <= i < |s.actions| ==> s.actions[i].id != x.id
    case AddPatient(p) => forall i :: 0 <= i < |s.patients| ==> s.patients[i].id != p.id
    case LoadState(snapshot) => UniqueIds(snapshot)
    case _ => true
  }

  /** Every action that respects `KeepsIdsUnique` preserves unique ids; an ADD
      with an id already present breaks the invariant. */
  lemma ReducePreservesUniqueIds(s: AppState, a: Action)
    requires UniqueIds(s)
    ensures UniqueIds(Reduce(s, a)) <==> KeepsIdsUnique(s, a)
  {
    match a
    case AddAction(x) => PrependUniqueKeys(x, s.actions, ActionId);
    case UpdateAction(x) => ReplacePreservesUniqueKeys(s.actions, ActionId, x);
    case AddPatient(p) => PrependUniqueKeys(p, s.patients, PatientId);
    case UpdatePatient(p) => ReplacePreservesUniqueKeys(s.patients, PatientId, p);
    case DeletePatient(id) => FilterPreservesUniqueKeys(s.patients, OtherThan(id), PatientId);
    case _ =>
  }
}
