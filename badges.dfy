/** The status badge: the text it shows and the CSS classes chosen for a
    triage level or a patient status. */
module Badges {
  import opened Wrappers
  import opened Types

  /** The badge's `type`: a triage level or a patient status. Their string
      values are disjoint, so the union loses nothing. */
  datatype BadgeKind = Triage(level: TriageLevel) | Status(status: PatientStatus)
  {
    function Name(): string
    {
      match this
      case Triage(t) => t.Name()
      case Status(s) => s.Name()
    }
  }

  const BaseClasses := "px-3 py-1 rounded-full text-[10px] font-bold tracking-wider uppercase text-white "
  const Red := "glossy-red"
  const Yellow := "glossy-yellow"
  const Green := "glossy-green"
  const Slate := "bg-slate-400/80 backdrop-blur-sm shadow-inner"

  /** `label || type`: an absent or empty label falls back to the type. */
  function BadgeText(kind: BadgeKind, customLabel: Option<string>): (r: string)
    ensures r == kind.Name() || (customLabel.Some? && r == customLabel.value)
    ensures r != ""
  {
    if customLabel.Some? && customLabel.value != "" then customLabel.value else kind.Name()
  }

  /** The colour class appended by the `switch`. */
  function ColourClass(kind: BadgeKind): (r: string)
    ensures r in {Red, Yellow, Green, Slate}
  {
    match kind
    case Triage(Critical) => Red
    case Triage(Urgent) => Yellow
    case Status(Transfer) => Yellow
    case Triage(Stable) => Green
    case Status(Admitted) => Green
    case _ => Slate
  }

  function BadgeClasses(kind: BadgeKind): (r: string)
    ensures |r| > |BaseClasses| && r[..|BaseClasses|] == BaseClasses
  {
    BaseClasses + ColourClass(kind)
  }

  lemma BadgeTextFallsBack(kind: BadgeKind, customLabel: Option<string>)
    ensures customLabel.Some? && customLabel.value != "" ==> BadgeText(kind, customLabel) == customLabel.value
    ensures customLabel.None? || customLabel == Some("") ==> BadgeText(kind, customLabel) == kind.Name()
  {
  }

  /** The classes start with the base classes, and the colour part is one of
      the four colour classes, read back from the full string. */
  lemma BadgeClassesStartWithBase(kind: BadgeKind)
    ensures BadgeClasses(kind)[..|BaseClasses|] == BaseClasses
    ensures BadgeClasses(kind)[|BaseClasses|..] in {Red, Yellow, Green, Slate}
  {
    var c := BadgeClasses(kind);
    assert c[..|BaseClasses|] == BaseClasses;
    assert c[|BaseClasses|..] == ColourClass(kind);
  }

  /** Each colour is chosen for exactly the values listed in the `switch`:
      red for Critical; yellow for Urgent and Transfer; green for Stable and
      Admitted; slate for every other value. */
  lemma BadgeColours(kind: BadgeKind)
    ensures BadgeClasses(kind) == BaseClasses + Red <==> kind == Triage(Critical)
    ensures BadgeClasses(kind) == BaseClasses + Yellow <==> kind in {Triage(Urgent), Status(Transfer)}
    ensures BadgeClasses(kind) == BaseClasses + Green <==> kind in {Triage(Stable), Status(Admitted)}
    ensures BadgeClasses(kind) == BaseClasses + Slate <==>
      kind in {Triage(Observing), Status(Discharged), Status(PatientStatus.Pending)}
  {
    ClassesDetermineColour(kind, Red);
    ClassesDetermineColour(kind, Yellow);
    ClassesDetermineColour(kind, Green);
    ClassesDetermineColour(kind, Slate);
    ColoursDistinct();
    match kind
    case Triage(Critical) => assert ColourClass(kind) == Red;
    case Triage(Urgent) => assert ColourClass(kind) == Yellow;
    case Status(Transfer) => assert ColourClass(kind) == Yellow;
    case Triage(Stable) => assert ColourClass(kind) == Green;
    case Status(Admitted) => assert ColourClass(kind) == Green;
    case Triage(Observing) => assert ColourClass(kind) == Slate;
    case Status(Discharged) => assert ColourClass(kind) == Slate;
    case Status(Pending) => assert ColourClass(kind) == Slate;
  }

  /** The full class string determines the colour part. */
  lemma ClassesDetermineColour(kind: BadgeKind, colour: string)
    ensures BadgeClasses(kind) == BaseClasses + colour <==> ColourClass(kind) == colour
  {
    assert BadgeClasses(kind)[|BaseClasses|..] == ColourClass(kind);
    assert (BaseClasses + colour)[|BaseClasses|..] == colour;
  }

  /** The four colour classes are pairwise different. */
  lemma ColoursDistinct()
    ensures Red != Yellow && Red != Green && Red != Slate
    ensures Yellow != Green && Yellow != Slate && Green != Slate
  {
    assert Red[7] != Yellow[7] && Red[7] != Green[7] && |Red| != |Slate|;
    assert Yellow[7] != Green[7] && |Yellow| != |Slate| && |Green| != |Slate|;
  }
}
