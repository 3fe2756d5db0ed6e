/** What the patient detail sheet derives from the store: the selected
    patient, that patient's actions newest first, and the number of actions
    still awaiting completion. */
module PatientDetail {
  import opened Wrappers
  import opened Types
  import opened Lists

  /** Non-increasing by timestamp: the newest action comes first. */
  ghost predicate NewestFirst(s: seq<WorkflowAction>)
  {
    forall i, j :: 0 <= i < j < |s| ==> s[i].timestamp >= s[j].timestamp
  }

  /** Inserts `x` before the first action that is not newer than it, so that
      among equal timestamps the earlier input stays first. */
  function InsertNewestFirst(x: WorkflowAction, s: seq<WorkflowAction>): (r: seq<WorkflowAction>)
    requires NewestFirst(s)
    ensures NewestFirst(r)
    ensures multiset(r) == multiset(s) + multiset{x}
    ensures r[0] == x || r[0] == s[0]
  {
    if s == [] || x.timestamp >= s[0].timestamp then [x] + s
    else
      assert s == [s[0]] + s[1..];
      var rest := InsertNewestFirst(x, s[1..]);
      assert s[0].timestamp >= rest[0].timestamp;
      [s[0]] + rest
  }

  /** `actions.sort((a, b) => b.timestamp - a.timestamp)`: the same actions,
      newest first. */
  function SortNewestFirst(s: seq<WorkflowAction>): (r: seq<WorkflowAction>)
    ensures NewestFirst(r)
    ensures multiset(r) == multiset(s)
  {
    if s == [] then []
    else
      assert s == [s[0]] + s[1..];
      InsertNewestFirst(s[0], SortNewestFirst(s[1..]))
  }

  function HasId(id: string): Patient -> bool
  {
    (p: Patient) => p.id == id
  }

  function ForPatient(id: string): WorkflowAction -> bool
  {
    (a: WorkflowAction) => a.patientId == id
  }

  function NotCompleted(a: WorkflowAction): bool
  {
    a.status != Completed
  }

  /** `state.patients.find(p => p.id === patientId)`. */
  function SelectedPatient(st: AppState, id: string): (r: Option<Patient>)
    ensures r.None? <==> forall i :: 0 <= i < |st.patients| ==> st.patients[i].id != id
    ensures r.Some? ==> r.value in st.patients && r.value.id == id
  {
    Find(st.patients, HasId(id))
  }

  /** The actions logged for the patient, newest first. */
  function Timeline(st: AppState, id: string): (r: seq<WorkflowAction>)
    ensures NewestFirst(r)
    ensures multiset(r) == multiset(Filter(st.actions, ForPatient(id)))
  {
    SortNewestFirst(Filter(st.actions, ForPatient(id)))
  }

  /** The "awaiting" figure: how many timeline actions are not completed. */
  function Awaiting(timeline: seq<WorkflowAction>): (r: nat)
    ensures r <= |timeline|
  {
    |Filter(timeline, NotCompleted)|
  }

  /** The timeline section: the empty-state message, or one entry per action. */
  datatype TimelineBody = NoActionsLogged | Entries(entries: seq<WorkflowAction>)

  /** What the sheet renders: nothing at all for a missing id (the early
      return), an empty animation wrapper when no patient has the id, or the
      sheet for the patient. */
  datatype Sheet =
    | NotRendered
    | NoPatient
    | Shown(patient: Patient, awaiting: nat, body: TimelineBody)

  /** The sheet for `patientId`; `None` is the null id, and the empty string is
      falsy like null. */
  function DetailSheet(st: AppState, patientId: Option<string>): (r: Sheet)
    ensures r.NotRendered? <==> patientId.None? || patientId.value == ""
    ensures r.Shown? ==> Some(r.patient) == SelectedPatient(st, patientId.value)
  {
    if patientId.None? || patientId.value == "" then NotRendered
    else
      var id := patientId.value;
      var timeline := Timeline(st, id);
      match SelectedPatient(st, id)
      case None => NoPatient
      case Some(p) =>
        Shown(p, Awaiting(timeline), if |timeline| == 0 then NoActionsLogged else Entries(timeline))
  }

  /** The selected patient is the first with the id, and there is none exactly
      when no patient has it. */
  lemma SelectedPatientIsFirst(st: AppState, id: string)
    ensures SelectedPatient(st, id).None? <==> forall i :: 0 <= i < |st.patients| ==> st.patients[i].id != id
    ensures forall i :: 0 <= i < |st.patients| && st.patients[i].id == id &&
                        (forall j :: 0 <= j < i ==> st.patients[j].id != id) ==>
                        SelectedPatient(st, id) == Some(st.patients[i])
  {
    forall i | 0 <= i < |st.patients| && st.patients[i].id == id &&
               (forall j :: 0 <= j < i ==> st.patients[j].id != id)
      ensures SelectedPatient(st, id) == Some(st.patients[i])
    {
      FindIsFirst(st.patients, HasId(id), i);
    }
  }

  /** The timeline holds exactly the patient's actions, as often as the state
      does, newest first. */
  lemma TimelineIsPatientsActionsNewestFirst(st: AppState, id: string)
    ensures var t := Timeline(st, id);
      && NewestFirst(t)
      && (forall a :: a in t <==> a in st.actions && a.patientId == id)
      && multiset(t) == multiset(Filter(st.actions, ForPatient(id)))
  {
    var t := Timeline(st, id);
    var f := Filter(st.actions, ForPatient(id));
    FilterMembers(st.actions, ForPatient(id));
    forall a ensures a in t <==> a in f {
      assert a in t <==> a in multiset(t);
      assert a in f <==> a in multiset(f);
    }
  }

  /** The awaiting figure counts the patient's actions in the state that are
      not completed, whatever the timeline's order, and is at most the length
      of the timeline. */
  lemma AwaitingCountsOpenActions(st: AppState, id: string)
    ensures Awaiting(Timeline(st, id)) == |Filter(Filter(st.actions, ForPatient(id)), NotCompleted)|
    ensures Awaiting(Timeline(st, id)) <= |Timeline(st, id)|
  {
    FilterLengthUnderPermutation(Timeline(st, id), Filter(st.actions, ForPatient(id)), NotCompleted);
  }

  /** Nothing is rendered for a null or empty id. */
  lemma MissingIdRendersNothing(st: AppState, patientId: Option<string>)
    requires patientId.None? || patientId == Some("")
    ensures DetailSheet(st, patientId) == NotRendered
  {
  }

  /** The timeline is empty exactly when no action in the state belongs to
      the patient. */
  lemma EmptyTimelineIffNoActions(st: AppState, id: string)
    ensures |Timeline(st, id)| == 0 <==> forall a :: a in st.actions ==> a.patientId != id
  {
    TimelineIsPatientsActionsNewestFirst(st, id);
    var t := Timeline(st, id);
    if |t| != 0 {
      assert t[0] in t;
    }
  }

  /** For a non-empty id: the sheet shows the first patient with that id, the
      count of its open actions, and the empty-state message exactly when no
      action in the state belongs to the patient; otherwise the timeline. */
  lemma SheetForKnownPatient(st: AppState, id: string)
    requires id != ""
    ensures var sheet := DetailSheet(st, Some(id));
      && (sheet.NoPatient? <==> forall i :: 0 <= i < |st.patients| ==> st.patients[i].id != id)
      && (sheet.Shown? <==> exists i :: 0 <= i < |st.patients| && st.patients[i].id == id)
      && (sheet.Shown? ==>
           && Some(sheet.patient) == SelectedPatient(st, id)
           && sheet.awaiting == |Filter(Filter(st.actions, ForPatient(id)), NotCompleted)|
           && (sheet.body.NoActionsLogged? <==> forall a :: a in st.actions ==> a.patientId != id)
           && (sheet.body.Entries? ==> sheet.body.entries == Timeline(st, id)))
  {
    AwaitingCountsOpenActions(st, id);
    EmptyTimelineIffNoActions(st, id);
    var t := Timeline(st, id);
    var sheet := DetailSheet(st, Some(id));
    match SelectedPatient(st, id)
    case None =>
      assert sheet == NoPatient;
    case Some(p) =>
      assert sheet == Shown(p, Awaiting(t), if |t| == 0 then NoActionsLogged else Entries(t));
  }
}
