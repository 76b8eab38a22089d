/** Component states and the registry of probes. */
module Health {
  import opened GoStrings

  datatype Status = Unspecified | Unknown | Healthy | Warning | Critical

  /** Without the texts that are only displayed. */
  datatype ComponentStatus = ComponentStatus(id: string, status: Status, summary: string, safeToFix: bool)

  datatype Component<+P> = Component(id: string, probe: P)

  predicate DistinctIds<P>(components: seq<Component<P>>) {
    forall i, j :: 0 <= i < j < |components| ==> components[i].id != components[j].id
  }

  /** Components in registration order. A nil probe is replaced by `placeholder`. */
  class Registry<P> {
    const placeholder: P
    var components: seq<Component<P>>

    constructor (placeholder: P)
      ensures components == [] && this.placeholder == placeholder
    {
      this.placeholder := placeholder;
      components := [];
    }

    /** Refuses an id that is already there; so ids stay distinct. */
    method Register(id: string, p: Option<P>) returns (ok: bool)
      requires DistinctIds(components)
      modifies this`components
      ensures DistinctIds(components)
      ensures ok <==> forall c :: c in old(components) ==> c.id != id
      ensures !ok ==> components == old(components)
      ensures ok ==> components == old(components) + [Component(id, if p.Some? then p.value else placeholder)]
    {
      for i := 0 to |components|
        invariant forall j :: 0 <= j < i ==> components[j].id != id
      {
        if components[i].id == id {
          return false;
        }
      }
      var probe := match p case Some(q) => q case None => placeholder;
      components := components + [Component(id, probe)];
      return true;
    }
  }

  // ------------------------------------------------------------------
  // What a probe run becomes in a snapshot

  datatype Answer = Reported(status: ComponentStatus) | Panicked(message: string)

  const PANICKED := "probe panicked: "

  /** The registered id replaces whatever the probe put there; a panic is a
      critical component; an unspecified status is an unknown one. */
  function Present(id: string, answer: Answer): (c: ComponentStatus)
    ensures c.id == id && c.status != Unspecified
    ensures answer.Panicked? ==> c.status == Critical && !c.safeToFix && c.summary == PANICKED + answer.message
    ensures answer.Reported? ==> c.summary == answer.status.summary && c.safeToFix == answer.status.safeToFix
    ensures answer.Reported? && answer.status.status != Unspecified ==> c.status == answer.status.status
    ensures answer.Reported? && answer.status.status == Unspecified ==> c.status == Unknown
  {
    var st := match answer
      case Panicked(message) => ComponentStatus(id, Critical, PANICKED + message, false)
      case Reported(status) => status.(id := id);
    if st.status.Unspecified? then st.(status := Unknown) else st
  }
}
