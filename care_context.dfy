/** The store provider: the seed state, the store object that owns the state
    and runs the reducer on every dispatch, and the persistence protocol that
    loads a saved snapshot once on mount and writes the whole state back after
    every change. Browser storage is a map from keys to strings; parsing and
    serialising JSON are functions given to the store (`parse` yields `None`
    where `JSON.parse` throws). */
module CareContext {
  import opened Wrappers
  import opened Types
  import opened Lists
  import opened Reducer

  /** The storage key of the saved snapshot. */
  const StorageKey := "careflow_state"
  /** What the load effect logs when the snapshot does not parse. */
  const LoadFailureMessage := "Failed to load state"
  const OutsideProviderMessage := "useCare must be used within CareProvider"

  const InitialDepartments := [
    Department("1", "Radiology", 12, 4, 2, 45),
    Department("2", "Emergency Room", 24, 15, 8, 120),
    Department("3", "Pharmacy", 8, 32, 12, 210),
    Department("4", "Internal Medicine", 18, 8, 5, 88),
    Department("5", "Cardiology", 10, 3, 4, 34)
  ]

  /** The seed state; `now` is the clock reading at start-up (in
      milliseconds), from which each demo patient's admission time is set back. */
  function Seed(now: int): (r: AppState)
    ensures |r.patients| == 4 && r.actions == [] && r.departments == InitialDepartments
    ensures forall p :: p in r.patients ==> p.admittedAt < now
    ensures UniqueIds(r)
  {
    AppState(
      [ Patient("p1", "Elena Gilbert", 24, Critical, Admitted, "204A", now - 7200000),
        Patient("p2", "Damon Salvatore", 31, Stable, PatientStatus.Pending, "102B", now - 18000000),
        Patient("p3", "Bonnie Bennett", 22, Urgent, Admitted, "305C", now - 3600000),
        Patient("p4", "Alaric Saltzman", 45, Observing, Transfer, "401", now - 28800000) ],
      [],
      InitialDepartments,
      Dashboard,
      "Sarah Chen")
  }

  /** The seed holds patients p1 to p4 in that order, all admitted before
      start-up, no actions, departments "1" to "5", the dashboard view and the
      demo user; its ids are unique. */
  lemma SeedFacts(now: int)
    ensures var s := Seed(now);
      && |s.patients| == 4
      && s.patients[0].id == "p1" && s.patients[1].id == "p2"
      && s.patients[2].id == "p3" && s.patients[3].id == "p4"
      && s.patients[0].admittedAt == now - 7200000 && s.patients[1].admittedAt == now - 18000000
      && s.patients[2].admittedAt == now - 3600000 && s.patients[3].admittedAt == now - 28800000
      && (forall p :: p in s.patients ==> p.admittedAt < now)
      && s.actions == []
      && |s.departments| == 5
      && s.departments[0].id == "1" && s.departments[1].id == "2" && s.departments[2].id == "3"
      && s.departments[3].id == "4" && s.departments[4].id == "5"
      && s.activeView == Dashboard && s.userName == "Sarah Chen"
      && UniqueIds(s)
  {
  }

  /** Adding patient p5 to the seed gives five patients with p5 first. */
  lemma SeedAddPatientScenario(now: int)
    ensures var r := Reduce(Seed(now), AddPatient(Patient("p5", "Test", 40, Stable, PatientStatus.Pending, "100", 0)));
      |r.patients| == 5 && r.patients[0].id == "p5"
  {
  }

  /** Deleting p2 from the seed leaves the three other patients, in order. */
  lemma SeedDeletePatientScenario(now: int)
    ensures var r := Reduce(Seed(now), DeletePatient("p2"));
      && |r.patients| == 3
      && (forall p :: p in r.patients ==> p.id != "p2")
      && r.patients == [Seed(now).patients[0], Seed(now).patients[2], Seed(now).patients[3]]
  {
    var ps := Seed(now).patients;
    var keep := OtherThan("p2");
    assert ps[1..][1..][1..][1..] == [];
    assert Filter(ps[1..][1..][1..], keep) == [ps[3]];
    assert Filter(ps[1..][1..], keep) == [ps[2], ps[3]];
    assert Filter(ps[1..], keep) == [ps[2], ps[3]];
  }

  /** What the load effect finds: no usable entry (absent, or the empty
      string, which is falsy), a snapshot that parses, or one that does not. */
  datatype Restored = NothingSaved | Loaded(snapshot: AppState) | ParseFailed

  function Restore(stored: map<string, string>, parse: string -> Option<AppState>): (r: Restored)
    ensures r.Loaded? ==>
      StorageKey in stored && stored[StorageKey] != "" && parse(stored[StorageKey]) == Some(r.snapshot)
    ensures r.ParseFailed? ==> StorageKey in stored && parse(stored[StorageKey]).None?
  {
    if StorageKey !in stored || stored[StorageKey] == "" then NothingSaved
    else
      match parse(stored[StorageKey])
      case Some(snapshot) => Loaded(snapshot)
      case None => ParseFailed
  }

  /** The state once the mount effects have run: the loaded snapshot, or the
      seed when nothing was loaded. */
  function MountedState(now: int, restored: Restored): (r: AppState)
    ensures restored.Loaded? ==> r == restored.snapshot
    ensures !restored.Loaded? ==> r == Seed(now)
  {
    match restored
    case Loaded(snapshot) => Reduce(Seed(now), LoadState(snapshot))
    case _ => Seed(now)
  }

  /** Round trip: a state that was saved with a serialiser that `parse`
      inverts is exactly the state the next mount starts from. */
  lemma SavedStateIsRestored(now: int, st: AppState, stored: map<string, string>,
                             parse: string -> Option<AppState>, serialize: AppState -> string)
    requires StorageKey in stored && stored[StorageKey] == serialize(st)
    requires serialize(st) != ""
    requires parse(serialize(st)) == Some(st)
    ensures Restore(stored, parse) == Loaded(st)
    ensures MountedState(now, Restore(stored, parse)) == st
  {
    LoadStateReplaces(Seed(now), st);
  }

  /** A failed or missing load leaves the seed in place. */
  lemma FailedLoadKeepsSeed(now: int, stored: map<string, string>, parse: string -> Option<AppState>)
    ensures Restore(stored, parse) == NothingSaved <==>
      StorageKey !in stored || stored[StorageKey] == ""
    ensures Restore(stored, parse) == ParseFailed <==>
      StorageKey in stored && stored[StorageKey] != "" && parse(stored[StorageKey]).None?
    ensures !Restore(stored, parse).Loaded? ==> MountedState(now, Restore(stored, parse)) == Seed(now)
  {
  }

  /** The mounted provider: the current state, the browser storage it
      writes to, and the messages it has logged. */
  class CareStore {
    var state: AppState
    var storage: map<string, string>
    var errorLog: seq<string>
    const serialize: AppState -> string

    /** The storage entry holds the serialisation of the current state. */
    ghost predicate Persisted()
      reads this
    {
      StorageKey in storage && storage[StorageKey] == serialize(state)
    }

    /** Mounting the provider: the reducer starts from the seed; the load
        effect reads the saved snapshot and queues LOAD_STATE if it parses, or
        logs the failure; the save effect writes the seed; then the queued
        LOAD_STATE is applied and the save effect writes the new state. */
    constructor Mount(now: int, stored: map<string, string>,
                      parse: string -> Option<AppState>, serialize: AppState -> string)
      ensures this.serialize == serialize
      ensures state == MountedState(now, Restore(stored, parse))
      ensures errorLog == if Restore(stored, parse) == ParseFailed then [LoadFailureMessage] else []
      ensures storage == stored[StorageKey := serialize(state)]
      ensures Persisted()
    {
      this.serialize := serialize;
      state := Seed(now);
      storage := stored;
      errorLog := [];
      new;
      var queued: Option<Action> := None;
      if StorageKey in stored && stored[StorageKey] != "" {
        var parsed := parse(stored[StorageKey]);
        if parsed.Some? {
          queued := Some(LoadState(parsed.value));
        } else {
          errorLog := errorLog + [LoadFailureMessage];
        }
      }
      storage := storage[StorageKey := serialize(state)];
      if queued.Some? {
        state := Reduce(state, queued.value);
        storage := storage[StorageKey := serialize(state)];
      }
    }

    /** `dispatch`: the reducer computes the next state and the save effect
        writes it. The default case returns the very same state, so nothing
        re-renders and nothing is written. */
    method Dispatch(a: Action)
      requires Persisted()
      modifies this
      ensures state == Reduce(old(state), a)
      ensures storage == if a.Unrecognised? then old(storage) else old(storage)[StorageKey := serialize(state)]
      ensures errorLog == old(errorLog)
      ensures Persisted()
    {
      var next := Reduce(state, a);
      var changed := !a.Unrecognised?;
      state := next;
      if changed {
        storage := storage[StorageKey := serialize(state)];
      }
    }

    /** Mounting a new provider over this store's storage (a page reload)
        restores the current state, when `parse` inverts the serialiser on it. */
    method Remount(now: int, parse: string -> Option<AppState>) returns (reloaded: CareStore)
      requires Persisted()
      requires serialize(state) != ""
      requires parse(serialize(state)) == Some(state)
      ensures reloaded.state == state
      ensures reloaded.storage == storage
      ensures reloaded.errorLog == []
      ensures fresh(reloaded)
      ensures reloaded.serialize == serialize
      ensures reloaded.Persisted()
    {
      reloaded := new CareStore.Mount(now, storage, parse, serialize);
      SavedStateIsRestored(now, state, storage, parse, serialize);
      assert storage[StorageKey := serialize(state)] == storage;
    }
  }

  /** `useCare`: the store of the enclosing provider, or an error outside any
      provider. */
  function UseCare(context: Option<CareStore>): (r: Result<CareStore, string>)
    ensures r.Failure? <==> context.None?
    ensures r.Failure? ==> r.error == OutsideProviderMessage
    ensures r.Success? ==> r.value == context.value
  {
    match context
    case None => Failure(OutsideProviderMessage)
    case Some(store) => Success(store)
  }
}
