/** The domain model of the care-flow dashboard: closed enumerations and the
    records the store holds. In the original each enumeration is a union of
    string literals; `Name` gives the literal and `Parse…` is its inverse, so
    that "a triage level is one of exactly these four strings" is a lemma. */
module Types {
  import opened Wrappers

  datatype TriageLevel = Critical | Urgent | Stable | Observing
  {
    function Name(): string
    {
      match this
      case Critical => "Critical"
      case Urgent => "Urgent"
      case Stable => "Stable"
      case Observing => "Observing"
    }
  }

  function ParseTriageLevel(s: string): Option<TriageLevel>
  {
    if s == "Critical" then Some(Critical)
    else if s == "Urgent" then Some(Urgent)
    else if s == "Stable" then Some(Stable)
    else if s == "Observing" then Some(Observing)
    else None
  }

  /** A triage level is one of four distinct strings, and every one of them
      reads back as that level. */
  lemma TriageLevelNames(s: string, t: TriageLevel)
    ensures ParseTriageLevel(s) == Some(t) <==> s == t.Name()
    ensures ParseTriageLevel(s).Some? <==> s in {"Critical", "Urgent", "Stable", "Observing"}
  {
  }

  datatype PatientStatus = Admitted | Discharged | Pending | Transfer
  {
    function Name(): string
    {
      match this
      case Admitted => "Admitted"
      case Discharged => "Discharged"
      case Pending => "Pending"
      case Transfer => "Transfer"
    }
  }

  function ParsePatientStatus(s: string): Option<PatientStatus>
  {
    if s == "Admitted" then Some(Admitted)
    else if s == "Discharged" then Some(Discharged)
    else if s == "Pending" then Some(PatientStatus.Pending)
    else if s == "Transfer" then Some(Transfer)
    else None
  }

  lemma PatientStatusNames(s: string, t: PatientStatus)
    ensures ParsePatientStatus(s) == Some(t) <==> s == t.Name()
    ensures ParsePatientStatus(s).Some? <==> s in {"Admitted", "Discharged", "Pending", "Transfer"}
  {
  }

  datatype ActionType = Radiology | ER | Pharmacy | Medicine | Cardiology | Notes
  {
    function Name(): string
    {
      match this
      case Radiology => "Radiology"
      case ER => "ER"
      case Pharmacy => "Pharmacy"
      case Medicine => "Medicine"
      case Cardiology => "Cardiology"
      case Notes => "Notes"
    }
  }

  function ParseActionType(s: string): Option<ActionType>
  {
    if s == "Radiology" then Some(Radiology)
    else if s == "ER" then Some(ER)
    else if s == "Pharmacy" then Some(Pharmacy)
    else if s == "Medicine" then Some(Medicine)
    else if s == "Cardiology" then Some(Cardiology)
    else if s == "Notes" then Some(Notes)
    else None
  }

  lemma ActionTypeNames(s: string, t: ActionType)
    ensures ParseActionType(s) == Some(t) <==> s == t.Name()
    ensures ParseActionType(s).Some? <==>
            s in {"Radiology", "ER", "Pharmacy", "Medicine", "Cardiology", "Notes"}
  {
  }

  /** The status of a workflow action (its `Pending` shares the string of
      `PatientStatus.Pending`). */
  datatype ActionStatus = Pending | InProgress | Completed
  {
    function Name(): string
    {
      match this
      case Pending => "Pending"
      case InProgress => "In Progress"
      case Completed => "Completed"
    }
  }

  function ParseActionStatus(s: string): Option<ActionStatus>
  {
    if s == "Pending" then Some(ActionStatus.Pending)
    else if s == "In Progress" then Some(InProgress)
    else if s == "Completed" then Some(Completed)
    else None
  }

  lemma ActionStatusNames(s: string, t: ActionStatus)
    ensures ParseActionStatus(s) == Some(t) <==> s == t.Name()
    ensures ParseActionStatus(s).Some? <==> s in {"Pending", "In Progress", "Completed"}
  {
  }

  /** The view the main area shows. */
  datatype ViewState = Dashboard | Patients | Departments | Settings
  {
    function Name(): string
    {
      match this
      case Dashboard => "dashboard"
      case Patients => "patients"
      case Departments => "departments"
      case Settings => "settings"
    }
  }

  function ParseViewState(s: string): Option<ViewState>
  {
    if s == "dashboard" then Some(Dashboard)
    else if s == "patients" then Some(Patients)
    else if s == "departments" then Some(Departments)
    else if s == "settings" then Some(Settings)
    else None
  }

  lemma ViewStateNames(s: string, v: ViewState)
    ensures ParseViewState(s) == Some(v) <==> s == v.Name()
    ensures ParseViewState(s).Some? <==> s in {"dashboard", "patients", "departments", "settings"}
  {
  }

  /** Numbers are JavaScript numbers in the original; ages and times are taken
      as integers (times in milliseconds since the epoch). */
  datatype Patient = Patient(
    id: string,
    name: string,
    age: int,
    triageLevel: TriageLevel,
    status: PatientStatus,
    room: string,
    admittedAt: int)

  datatype WorkflowAction = WorkflowAction(
    id: string,
    patientId: string,
    department: string,
    title: string,
    actionType: ActionType,
    status: ActionStatus,
    timestamp: int,
    details: string,
    assignedBy: string)

  datatype Department = Department(
    id: string,
    name: string,
    staffCount: int,
    pending: int,
    inProgress: int,
    completed: int)

  /** The whole store: the aggregate root that is persisted as one snapshot. */
  datatype AppState = AppState(
    patients: seq<Patient>,
    actions: seq<WorkflowAction>,
    departments: seq<Department>,
    activeView: ViewState,
    userName: string)

  function PatientId(p: Patient): string { p.id }

  function ActionId(a: WorkflowAction): string { a.id }
}
