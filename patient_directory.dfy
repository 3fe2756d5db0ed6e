/** The patient directory's search: a case-insensitive substring match of the
    search term on a patient's name or room, and the headline count. */
module PatientDirectory {
  import opened Types
  import opened Lists

  /** `toLowerCase` on one character, for the letters A to Z. */
  function LowerChar(c: char): char
  {
    if 'A' <= c <= 'Z' then (c as int + 32) as char else c
  }

  /** `toLowerCase`: no upper-case letter is left, and every other character
      is kept. */
  function Lower(s: string): (r: string)
    ensures |r| == |s|
    ensures forall i :: 0 <= i < |r| ==> !('A' <= r[i] <= 'Z')
    ensures forall i :: 0 <= i < |s| && !('A' <= s[i] <= 'Z') ==> r[i] == s[i]
    ensures forall i :: 0 <= i < |s| && 'A' <= s[i] <= 'Z' ==> r[i] as int == s[i] as int + 32
  {
    if s == [] then [] else [LowerChar(s[0])] + Lower(s[1..])
  }

  /** Lower-casing twice is lower-casing once. */
  lemma LowerIdempotent(s: string)
    ensures Lower(Lower(s)) == Lower(s)
  {
    var r := Lower(s);
    assert forall i :: 0 <= i < |r| ==> Lower(r)[i] == r[i];
  }

  /** The filter predicate: the lower-cased term occurs in the lower-cased
      name or the lower-cased room. */
  function MatchesSearch(term: string): (r: Patient -> bool)
    ensures term == "" ==> forall p: Patient :: r(p)
  {
    (p: Patient) => Contains(Lower(p.name), Lower(term)) || Contains(Lower(p.room), Lower(term))
  }

  /** `filteredPatients`. */
  function FilteredPatients(st: AppState, term: string): (r: seq<Patient>)
    ensures |r| <= |st.patients|
  {
    Filter(st.patients, MatchesSearch(term))
  }

  /** The directory view: the headline count and the cards shown. */
  datatype Directory = Directory(count: nat, shown: seq<Patient>)

  function DirectoryView(st: AppState, term: string): (r: Directory)
    ensures r.count == |st.patients| && |r.shown| <= r.count
  {
    Directory(|st.patients|, FilteredPatients(st, term))
  }

  /** A patient matches exactly when the lower-cased term occurs at some
      index of its lower-cased name or of its lower-cased room. */
  lemma MatchesSearchIffOccurs(p: Patient, term: string)
    ensures MatchesSearch(term)(p) <==>
      (exists i :: OccursAt(Lower(p.name), Lower(term), i)) ||
      (exists i :: OccursAt(Lower(p.room), Lower(term), i))
  {
    assert MatchesSearch(term)(p) ==
      (Contains(Lower(p.name), Lower(term)) || Contains(Lower(p.room), Lower(term)));
    ContainsIffOccurs(Lower(p.name), Lower(term));
    ContainsIffOccurs(Lower(p.room), Lower(term));
  }

  /** The search keeps the store's order, and shows a patient of the store
      exactly when it matches (sound and complete). */
  lemma FilteredPatientsSpec(st: AppState, term: string)
    ensures IsSubsequence(FilteredPatients(st, term), st.patients)
    ensures forall p :: p in FilteredPatients(st, term) <==>
      p in st.patients &&
      ((exists i :: OccursAt(Lower(p.name), Lower(term), i)) ||
       (exists i :: OccursAt(Lower(p.room), Lower(term), i)))
  {
    FilterIsSubsequence(st.patients, MatchesSearch(term));
    FilterMembers(st.patients, MatchesSearch(term));
    forall p | p in st.patients
      ensures MatchesSearch(term)(p) <==>
        (exists i :: OccursAt(Lower(p.name), Lower(term), i)) ||
        (exists i :: OccursAt(Lower(p.room), Lower(term), i))
    {
      MatchesSearchIffOccurs(p, term);
    }
  }

  /** An empty search term shows every patient, in order. */
  lemma EmptyTermShowsAll(st: AppState)
    ensures FilteredPatients(st, "") == st.patients
  {
    forall i | 0 <= i < |st.patients| ensures MatchesSearch("")(st.patients[i]) {
      var p := st.patients[i];
      assert IsPrefix(Lower(""), Lower(p.name));
    }
    FilterKeepingAll(st.patients, MatchesSearch(""));
  }

  /** Terms that differ only in letter case give the same result. */
  lemma SearchIgnoresCase(st: AppState, term1: string, term2: string)
    requires Lower(term1) == Lower(term2)
    ensures FilteredPatients(st, term1) == FilteredPatients(st, term2)
  {
    assert MatchesSearch(term1) == MatchesSearch(term2);
  }

  /** The headline count does not depend on the search term, and it equals
      the number of cards shown exactly when every patient matches. */
  lemma CountIsTotal(st: AppState, term: string, other: string)
    ensures DirectoryView(st, term).count == DirectoryView(st, other).count
    ensures DirectoryView(st, term).count == |DirectoryView(st, term).shown| <==>
      forall i :: 0 <= i < |st.patients| ==> MatchesSearch(term)(st.patients[i])
  {
    if DirectoryView(st, term).count == |DirectoryView(st, term).shown| {
      FilterFullLength(st.patients, MatchesSearch(term));
    } else {
      if forall i :: 0 <= i < |st.patients| ==> MatchesSearch(term)(st.patients[i]) {
        FilterKeepingAll(st.patients, MatchesSearch(term));
      }
    }
  }
}
