/**
 * The tracked-listener registry: each `addTrackedEvent` registers a callback with the host and records
 * the (element, event type, callback) triple, so that the component can take them all off again.
 * Elements and callbacks are opaque identities; the host's registrations are a set of triples (the
 * host ignores a second registration of the same triple).
 */
module Registry {
  import opened Wrappers
  import opened Seqs

  /** One tracked registration; two records match when all three fields are the same. */
  datatype Listener = Listener(element: nat, eventType: string, callback: nat)

  /** What the host has registered, and the component's `trackedListeners` list. */
  datatype Listeners = Listeners(registered: set<Listener>, tracked: seq<Listener>)

  /** The registry after an operation, and whether the operation threw. */
  datatype Edited = Edited(state: Listeners, outcome: Outcome)

  /** `removeTrackedEvent` wraps the host's error message with this prefix. */
  const RemoveFailurePrefix := "Failed to remove event listener: "

  /** Every tracked record is registered with the host. */
  predicate Consistent(s: Listeners)
  {
    forall l :: l in s.tracked ==> l in s.registered
  }

  /** The records that do not match `l`: the filter in `removeTrackedEvent`. */
  function Untracked(tracked: seq<Listener>, l: Listener): (r: seq<Listener>)
    ensures |r| <= |tracked|
  {
    Filter(tracked, (x: Listener) => x != l)
  }

  /** Exactly the records that match `l` are dropped. */
  lemma UntrackedMembers(tracked: seq<Listener>, l: Listener)
    ensures forall x :: x in Untracked(tracked, l) <==> x in tracked && x != l
  {
    FilterMembers(tracked, (x: Listener) => x != l);
  }

  /** The other records keep their order: untracking commutes with concatenation. */
  lemma UntrackedOrder(a: seq<Listener>, b: seq<Listener>, l: Listener)
    ensures Untracked(a + b, l) == Untracked(a, l) + Untracked(b, l)
  {
    FilterConcat(a, b, (x: Listener) => x != l);
  }

  /** Untracking a listener that is not tracked changes nothing. */
  lemma UntrackedAbsent(tracked: seq<Listener>, l: Listener)
    requires l !in tracked
    ensures Untracked(tracked, l) == tracked
  {
    FilterAll(tracked, (x: Listener) => x != l);
  }

  /**
   * `addTrackedEvent`: the host registers the listener, then one record is appended. When the host
   * throws, nothing is recorded and the message is rethrown.
   */
  function Add(s: Listeners, l: Listener, fault: Option<string>): (r: Edited)
    ensures r.outcome == Raise(fault)
    ensures fault.None? ==> |r.state.tracked| == |s.tracked| + 1 && r.state.tracked[..|s.tracked|] == s.tracked
    ensures fault.None? ==> r.state.tracked[|s.tracked|] == l && l in r.state.registered
    ensures fault.None? ==> r.state.registered - {l} == s.registered - {l}
    ensures fault.Some? ==> r.state == s
    ensures Consistent(s) ==> Consistent(r.state)
  {
    match fault
    case None => Edited(Listeners(s.registered + {l}, s.tracked + [l]), Pass)
    case Some(m) => Edited(s, Fail(m))
  }

  /**
   * `removeTrackedEvent`: the host drops the registration, then every matching record is filtered out.
   * When the host throws, nothing changes and the message is rethrown with the prefix.
   */
  function Remove(s: Listeners, l: Listener, fault: Option<string>): (r: Edited)
    ensures fault.None? ==> r.outcome == Pass && l !in r.state.registered && l !in r.state.tracked
    ensures fault.None? ==> r.state.registered + {l} == s.registered + {l}
    ensures fault.None? ==> forall x :: x in r.state.tracked <==> x in s.tracked && x != l
    ensures fault.Some? ==> r.state == s && r.outcome == Fail(RemoveFailurePrefix + fault.value)
    ensures Consistent(s) ==> Consistent(r.state)
  {
    UntrackedMembers(s.tracked, l);
    match fault
    case None => Edited(Listeners(s.registered - {l}, Untracked(s.tracked, l)), Pass)
    case Some(m) => Edited(s, Fail(RemoveFailurePrefix + m))
  }

  /** Removing a listener that was just added, when it was not tracked before, restores the list. */
  lemma AddThenRemove(s: Listeners, l: Listener)
    requires l !in s.tracked
    ensures Remove(Add(s, l, None).state, l, None).state == Listeners(s.registered - {l}, s.tracked)
  {
    UntrackedOrder(s.tracked, [l], l);
    UntrackedAbsent(s.tracked, l);
    assert Untracked([l], l) == [] by {
      assert [l][1..] == [];
    }
  }

  /** A second removal of the same listener changes nothing. */
  lemma RemoveIdempotent(s: Listeners, l: Listener)
    ensures Remove(Remove(s, l, None).state, l, None) == Remove(s, l, None)
  {
    var once := Remove(s, l, None).state;
    UntrackedAbsent(once.tracked, l);
  }

  /**
   * The position of the first tracked record whose `removeEventListener` throws (`faults` gives the
   * host's message for each record that throws), or the length when none does.
   */
  function FirstFault(tracked: seq<Listener>, faults: map<Listener, string>): (k: nat)
    ensures k <= |tracked|
    ensures forall j :: 0 <= j < k ==> tracked[j] !in faults
    ensures k < |tracked| ==> tracked[k] in faults
  {
    if tracked == [] then 0
    else if tracked[0] in faults then 0
    else 1 + FirstFault(tracked[1..], faults)
  }

  /**
   * `removeAllTrackedEvents`: the host drops each tracked registration in order, then the list is
   * emptied. A throw stops the walk: the registrations already dropped stay dropped, the list is
   * left as it was and the message is rethrown.
   */
  function ReleaseAll(s: Listeners, faults: map<Listener, string>): (r: Edited)
    ensures r.outcome.Pass? <==> forall j :: 0 <= j < |s.tracked| ==> s.tracked[j] !in faults
    ensures r.outcome.Pass? ==> r.state.tracked == []
    ensures r.outcome.Fail? ==> r.state.tracked == s.tracked
    ensures r.state.registered <= s.registered
    ensures forall l :: l in s.registered && l !in s.tracked ==> l in r.state.registered
  {
    var k := FirstFault(s.tracked, faults);
    if k == |s.tracked| then Edited(Listeners(s.registered - Elems(s.tracked), []), Pass)
    else Edited(Listeners(s.registered - Elems(s.tracked[..k]), s.tracked), Fail(faults[s.tracked[k]]))
  }

  /** When no removal throws, every tracked listener is unregistered and the list ends empty. */
  lemma ReleaseAllClean(s: Listeners, faults: map<Listener, string>)
    requires forall j :: 0 <= j < |s.tracked| ==> s.tracked[j] !in faults
    ensures ReleaseAll(s, faults).outcome == Pass
    ensures ReleaseAll(s, faults).state.tracked == []
    ensures forall l :: l in s.tracked ==> l !in ReleaseAll(s, faults).state.registered
    ensures forall l :: l in ReleaseAll(s, faults).state.registered <==> l in s.registered && l !in s.tracked
  {
    assert FirstFault(s.tracked, faults) == |s.tracked|;
  }

  /** Releasing again after a release that went through is a no-op. */
  lemma ReleaseAllIdempotent(s: Listeners, faults: map<Listener, string>)
    requires ReleaseAll(s, faults).outcome == Pass
    ensures ReleaseAll(ReleaseAll(s, faults).state, faults) == ReleaseAll(s, faults)
  {
    var once := ReleaseAll(s, faults).state;
    assert once.tracked == [];
    assert Elems(once.tracked) == {};
  }

  /**
   * A throw part way through leaves the list unchanged, although the listeners before the one that
   * threw are no longer registered: the tracked list then names registrations the host has dropped.
   */
  lemma ReleaseAllPartial(s: Listeners, faults: map<Listener, string>, k: nat)
    requires k < |s.tracked| && s.tracked[k] in faults
    requires forall j :: 0 <= j < k ==> s.tracked[j] !in faults
    ensures ReleaseAll(s, faults) == Edited(ReleaseAll(s, faults).state, Fail(faults[s.tracked[k]]))
    ensures ReleaseAll(s, faults).state.tracked == s.tracked
    ensures forall j :: 0 <= j < k ==> s.tracked[j] !in ReleaseAll(s, faults).state.registered
  {
    var f := FirstFault(s.tracked, faults);
    assert f == k;
    forall j | 0 <= j < k ensures s.tracked[j] !in ReleaseAll(s, faults).state.registered {
      assert s.tracked[j] in s.tracked[..k];
    }
  }

  /** The release loop as the source writes it: `forEach` over the list, then the reset. */
  method ReleaseEach(s: Listeners, faults: map<Listener, string>) returns (r: Edited)
    ensures r == ReleaseAll(s, faults)
  {
    var registered := s.registered;
    var i := 0;
    while i < |s.tracked|
      invariant i <= |s.tracked|
      invariant registered == s.registered - Elems(s.tracked[..i])
      invariant forall j :: 0 <= j < i ==> s.tracked[j] !in faults
    {
      var l := s.tracked[i];
      if l in faults {
        assert FirstFault(s.tracked, faults) == i;
        return Edited(Listeners(registered, s.tracked), Fail(faults[l]));
      }
      assert s.tracked[..i + 1] == s.tracked[..i] + [l];
      registered := registered - {l};
      i := i + 1;
    }
    assert s.tracked[..i] == s.tracked;
    assert FirstFault(s.tracked, faults) == |s.tracked|;
    r := Edited(Listeners(registered, []), Pass);
  }
}
