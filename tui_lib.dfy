/**
 * The library revision of TuiElement (src/lib/class.js): the render gate with `'class'` discounted,
 * the tracked-listener registry, release of the listeners before every re-render, and the
 * child-moving and child-deleting helpers.
 */
module TuiLib {
  import opened Wrappers
  import opened Dom
  import opened Children
  import opened Registry
  import opened Lifecycle

  /** Everything the component holds: the gate, the mirrored attribute properties, its content, its listeners. */
  datatype State = State(gate: Gate, properties: map<string, Option<string>>, content: Content, listeners: Listeners)

  /** The state after a callback, and whether the callback threw. */
  datatype Step = Step(state: State, outcome: Outcome)

  /** The message of the TypeError thrown by calling a method a ShadowRoot does not have. */
  const ShadowTypeError := "this.shadowRoot.removeAllTrackedEvents is not a function"

  function OnConnect(s: State, renderFault: Option<string>): Step
  {
    var c := Connect(s.gate, renderFault);
    Step(s.(gate := c.gate), c.outcome)
  }

  function WithListeners(s: State, e: Edited): Step
  {
    Step(s.(listeners := e.state), e.outcome)
  }

  /** A notification for `class` is discounted before anything else is looked at. */
  function Discounted(g: Gate, name: string): (r: Gate)
    ensures r == g.(attributeCount := r.attributeCount)
    ensures r.attributeCount == g.attributeCount - 1 <==> name == "class"
    ensures name != "class" ==> r == g
  {
    if name == "class" then g.(attributeCount := g.attributeCount - 1) else g
  }

  /** After the content has been cleared: release every tracked listener, then render once. */
  function Rerender(s: State, faults: map<Listener, string>, renderFault: Option<string>): (r: Step)
    ensures r.state.content == s.content && r.state.properties == s.properties
    ensures r.state.gate == s.gate.(renders := r.state.gate.renders)
    ensures r.state.listeners == ReleaseAll(s.listeners, faults).state
    ensures r.state.gate.renders == s.gate.renders + 1 <==> ReleaseAll(s.listeners, faults).outcome.Pass?
    ensures r.state.gate.renders == s.gate.renders <==> ReleaseAll(s.listeners, faults).outcome.Fail?
    ensures r.outcome.Pass? <==> ReleaseAll(s.listeners, faults).outcome.Pass? && renderFault.None?
  {
    var released := ReleaseAll(s.listeners, faults);
    var s' := s.(listeners := released.state);
    if released.outcome.Fail? then Step(s', released.outcome)
    else Step(s'.(gate := s'.gate.(renders := s'.gate.renders + 1)), Raise(renderFault))
  }

  /**
   * `attributeChangedCallback` with the shadow-root branch releasing the element's own listeners,
   * as the light-DOM branch does. An unchanged value only discounts `class`; a changed one is
   * mirrored, then either counted towards the first render or causes a clear, release and re-render.
   */
  function AttributeChanged(s: State, name: string, oldValue: Option<string>, newValue: Option<string>,
                            faults: map<Listener, string>, renderFault: Option<string>): (r: Step)
    ensures r.outcome.Fail? ==> oldValue != newValue && s.gate.rendered
    ensures s.gate.renders <= r.state.gate.renders <= s.gate.renders + 1
    ensures r.state.gate.rendered == s.gate.rendered
  {
    var g := Discounted(s.gate, name);
    if oldValue == newValue then Step(s.(gate := g), Pass)
    else
      var noted := s.(gate := g, properties := s.properties[name := newValue]);
      if !g.rendered then Step(noted.(gate := Arrive(g, AtLeast)), Pass)
      else Rerender(noted.(content := Cleared(noted.content)), faults, renderFault)
  }

  /** An unchanged value changes nothing but the `class` discount, and renders nothing. */
  lemma UnchangedValue(s: State, name: string, value: Option<string>, faults: map<Listener, string>,
                       renderFault: Option<string>)
    ensures AttributeChanged(s, name, value, value, faults, renderFault) == Step(s.(gate := Discounted(s.gate, name)), Pass)
  {
  }

  /**
   * A changed value is mirrored into the property `name` and no other; the captured attribute count
   * and `rendered` never change, and a render request is never withdrawn.
   */
  lemma ChangedValueMirrored(s: State, name: string, oldValue: Option<string>, newValue: Option<string>,
                             faults: map<Listener, string>, renderFault: Option<string>)
    requires oldValue != newValue
    ensures AttributeChanged(s, name, oldValue, newValue, faults, renderFault).state.properties == s.properties[name := newValue]
    ensures AttributeChanged(s, name, oldValue, newValue, faults, renderFault).state.gate.attributeLength == s.gate.attributeLength
    ensures AttributeChanged(s, name, oldValue, newValue, faults, renderFault).state.gate.rendered == s.gate.rendered
    ensures s.gate.renderRequested ==> AttributeChanged(s, name, oldValue, newValue, faults, renderFault).state.gate.renderRequested
  {
  }

  /** Before the first render nothing is cleared, released or rendered, and nothing throws. */
  lemma NothingBeforeFirstRender(s: State, name: string, oldValue: Option<string>, newValue: Option<string>,
                                 faults: map<Listener, string>, renderFault: Option<string>)
    requires !s.gate.rendered
    ensures AttributeChanged(s, name, oldValue, newValue, faults, renderFault).outcome == Pass
    ensures AttributeChanged(s, name, oldValue, newValue, faults, renderFault).state.gate.renders == s.gate.renders
    ensures AttributeChanged(s, name, oldValue, newValue, faults, renderFault).state.content == s.content
    ensures AttributeChanged(s, name, oldValue, newValue, faults, renderFault).state.listeners == s.listeners
  {
  }

  /**
   * The callback as written: on the shadow-root branch it calls `removeAllTrackedEvents` on the
   * shadow root, which has no such method, so the TypeError is rethrown after the shadow root was
   * cleared and before anything is released or rendered.
   */
  function AttributeChangedAsWritten(s: State, name: string, oldValue: Option<string>, newValue: Option<string>,
                                     faults: map<Listener, string>, renderFault: Option<string>): (r: Step)
    ensures r.outcome.Fail? ==> oldValue != newValue && s.gate.rendered
    ensures s.gate.renders <= r.state.gate.renders <= s.gate.renders + 1
    ensures r.state.gate.rendered == s.gate.rendered
  {
    if oldValue != newValue && s.gate.rendered && s.content.shadowRoot.Some? then
      var noted := s.(gate := Discounted(s.gate, name), properties := s.properties[name := newValue]);
      Step(noted.(content := Cleared(noted.content)), Fail(ShadowTypeError))
    else AttributeChanged(s, name, oldValue, newValue, faults, renderFault)
  }

  /** As written, a changed attribute on a rendered element with a shadow root never re-renders. */
  lemma ShadowRerenderThrows(s: State, name: string, oldValue: Option<string>, newValue: Option<string>,
                             faults: map<Listener, string>, renderFault: Option<string>)
    requires oldValue != newValue && s.gate.rendered && s.content.shadowRoot.Some?
    ensures AttributeChangedAsWritten(s, name, oldValue, newValue, faults, renderFault).outcome == Fail(ShadowTypeError)
    ensures AttributeChangedAsWritten(s, name, oldValue, newValue, faults, renderFault).state.gate.renders == s.gate.renders
    ensures AttributeChangedAsWritten(s, name, oldValue, newValue, faults, renderFault).state.listeners == s.listeners
    ensures AttributeChangedAsWritten(s, name, oldValue, newValue, faults, renderFault).state.content.shadowRoot == Some([])
  {
  }

  /**
   * With the fix, the shadow-root branch clears the shadow root, releases every tracked listener and
   * renders once, leaving the light-DOM children alone.
   */
  lemma ShadowRerender(s: State, name: string, oldValue: Option<string>, newValue: Option<string>,
                       faults: map<Listener, string>, renderFault: Option<string>)
    requires oldValue != newValue && s.gate.rendered && s.content.shadowRoot.Some?
    requires forall j :: 0 <= j < |s.listeners.tracked| ==> s.listeners.tracked[j] !in faults
    ensures AttributeChanged(s, name, oldValue, newValue, faults, renderFault).outcome == Raise(renderFault)
    ensures AttributeChanged(s, name, oldValue, newValue, faults, renderFault).state.gate.renders == s.gate.renders + 1
    ensures AttributeChanged(s, name, oldValue, newValue, faults, renderFault).state.content
      == Content(s.content.childNodes, Some([]))
    ensures AttributeChanged(s, name, oldValue, newValue, faults, renderFault).state.listeners.tracked == []
    ensures forall l :: l in s.listeners.tracked ==>
      l !in AttributeChanged(s, name, oldValue, newValue, faults, renderFault).state.listeners.registered
  {
    ReleaseAllClean(s.listeners, faults);
  }

  /**
   * On the light-DOM branch a changed attribute on a rendered element empties the children,
   * releases every tracked listener and renders once.
   */
  lemma LightRerender(s: State, name: string, oldValue: Option<string>, newValue: Option<string>,
                      faults: map<Listener, string>, renderFault: Option<string>)
    requires oldValue != newValue && s.gate.rendered && s.content.shadowRoot.None?
    requires forall j :: 0 <= j < |s.listeners.tracked| ==> s.listeners.tracked[j] !in faults
    ensures AttributeChangedAsWritten(s, name, oldValue, newValue, faults, renderFault).outcome == Raise(renderFault)
    ensures AttributeChangedAsWritten(s, name, oldValue, newValue, faults, renderFault).state.gate.renders == s.gate.renders + 1
    ensures AttributeChangedAsWritten(s, name, oldValue, newValue, faults, renderFault).state.content == Content([], None)
    ensures AttributeChangedAsWritten(s, name, oldValue, newValue, faults, renderFault).state.listeners.tracked == []
    ensures forall l :: l in s.listeners.tracked ==>
      l !in AttributeChangedAsWritten(s, name, oldValue, newValue, faults, renderFault).state.listeners.registered
  {
    ReleaseAllClean(s.listeners, faults);
  }

  /** A release that throws stops the re-render: `render` is not called and the message is rethrown. */
  lemma RerenderReleaseFault(s: State, name: string, oldValue: Option<string>, newValue: Option<string>,
                             faults: map<Listener, string>, renderFault: Option<string>, k: nat)
    requires oldValue != newValue && s.gate.rendered
    requires k < |s.listeners.tracked| && s.listeners.tracked[k] in faults
    requires forall j :: 0 <= j < k ==> s.listeners.tracked[j] !in faults
    ensures AttributeChanged(s, name, oldValue, newValue, faults, renderFault).outcome == Fail(faults[s.listeners.tracked[k]])
    ensures AttributeChanged(s, name, oldValue, newValue, faults, renderFault).state.gate.renders == s.gate.renders
    ensures AttributeChanged(s, name, oldValue, newValue, faults, renderFault).state.listeners.tracked == s.listeners.tracked
  {
    ReleaseAllPartial(s.listeners, faults, k);
  }

  /**
   * Before the first render a changed attribute is counted, except that `class` nets zero (its
   * discount and its count cancel), and the first render is asked for once the count reaches the
   * attribute count.
   */
  lemma CountBeforeRender(s: State, name: string, oldValue: Option<string>, newValue: Option<string>,
                          faults: map<Listener, string>, renderFault: Option<string>)
    requires oldValue != newValue && !s.gate.rendered
    ensures AttributeChanged(s, name, oldValue, newValue, faults, renderFault).state.gate.attributeCount
      == s.gate.attributeCount + (if name == "class" then 0 else 1)
    ensures AttributeChanged(s, name, oldValue, newValue, faults, renderFault).state.gate.renderRequested
      <==> s.gate.renderRequested
           || AttributeChanged(s, name, oldValue, newValue, faults, renderFault).state.gate.attributeCount >= s.gate.attributeLength
  {
  }

  /** The component as the host sees it. */
  class TuiElement {
    var attributeCount: int
    var attributeLength: nat
    var renderRequested: bool
    var rendered: bool
    var renders: nat
    var properties: map<string, Option<string>>
    var childNodes: seq<Node>
    var shadowRoot: Option<seq<Node>>
    var registered: set<Listener>
    var trackedListeners: seq<Listener>

    function Snapshot(): State
      reads this
    {
      State(Gate(attributeCount, attributeLength, renderRequested, rendered, renders), properties,
            Content(childNodes, shadowRoot), Listeners(registered, trackedListeners))
    }

    /**
     * The constructor: nothing counted, nothing requested or rendered, `attributeLength` captured
     * from the attributes present, and no tracked listeners.
     */
    constructor (attributes: nat, children: seq<Node>, shadow: Option<seq<Node>>)
      ensures Snapshot() == State(Initial(attributes), map[], Content(children, shadow), Listeners({}, []))
    {
      attributeCount, attributeLength := 0, attributes;
      renderRequested, rendered, renders := false, false, 0;
      properties := map[];
      childNodes, shadowRoot := children, shadow;
      registered, trackedListeners := {}, [];
    }

    /** The abstract `render` hook supplied by the subclass; `renderFault` is what it throws, if anything. */
    method Render(renderFault: Option<string>) returns (outcome: Outcome)
      modifies this`renders
      ensures renders == old(renders) + 1 && outcome == Raise(renderFault)
    {
      renders := renders + 1;
      outcome := Raise(renderFault);
    }

    method ConnectedCallback(renderFault: Option<string>) returns (outcome: Outcome)
      modifies this
      ensures Step(Snapshot(), outcome) == OnConnect(old(Snapshot()), renderFault)
    {
      outcome := Pass;
      if renderRequested || attributeLength == 0 {
        outcome := Render(renderFault);
        if outcome.Pass? {
          rendered := true;
        }
      }
    }

    method DisconnectedCallback(faults: map<Listener, string>) returns (outcome: Outcome)
      modifies this
      ensures Step(Snapshot(), outcome) == WithListeners(old(Snapshot()), ReleaseAll(old(Snapshot()).listeners, faults))
    {
      outcome := RemoveAllTrackedEvents(faults);
    }

    method AttributeChangedCallback(name: string, oldValue: Option<string>, newValue: Option<string>,
                                    faults: map<Listener, string>, renderFault: Option<string>)
      returns (outcome: Outcome)
      modifies this
      ensures Step(Snapshot(), outcome) == AttributeChanged(old(Snapshot()), name, oldValue, newValue, faults, renderFault)
    {
      outcome := Pass;
      if name == "class" {
        attributeCount := attributeCount - 1;
      }
      if oldValue != newValue {
        properties := properties[name := newValue];
        if rendered {
          outcome := ClearAndRerender(faults, renderFault);
          return;
        }
        CountNotification();
      }
    }

    /** The rendered branch: `replaceChildren` on the shadow root if there is one, else on the element, then the re-render. */
    method ClearAndRerender(faults: map<Listener, string>, renderFault: Option<string>) returns (outcome: Outcome)
      modifies this`childNodes, this`shadowRoot, this`registered, this`trackedListeners, this`renders
      ensures Step(Snapshot(), outcome) == Rerender(old(Snapshot()).(content := Cleared(old(Snapshot()).content)), faults, renderFault)
    {
      if shadowRoot.Some? {
        shadowRoot := Some([]);
      } else {
        childNodes := [];
      }
      outcome := ReleaseAndRender(faults, renderFault);
    }

    /** Before the first render: `attributeCount++`, and `renderRequested` once it reaches `attributeLength`. */
    method CountNotification()
      modifies this`attributeCount, this`renderRequested
      ensures Snapshot() == old(Snapshot()).(gate := Arrive(old(Snapshot()).gate, AtLeast))
    {
      attributeCount := attributeCount + 1;
      if attributeCount >= attributeLength {
        renderRequested := true;
      }
    }

    /** The re-render once the content is cleared: `removeAllTrackedEvents`, then `render` if that returned. */
    method ReleaseAndRender(faults: map<Listener, string>, renderFault: Option<string>) returns (outcome: Outcome)
      modifies this`registered, this`trackedListeners, this`renders
      ensures Step(Snapshot(), outcome) == Rerender(old(Snapshot()), faults, renderFault)
    {
      outcome := RemoveAllTrackedEvents(faults);
      if outcome.Pass? {
        outcome := Render(renderFault);
      }
    }

    /** `newParent` is an element outside the component's child list. */
    method MoveTaggedChildren(newParent: Container, tag: string)
      modifies this`childNodes, newParent`childNodes
      ensures childNodes == Unmatched(old(childNodes), tag)
      ensures newParent.childNodes == old(newParent.childNodes) + Matched(old(childNodes), tag)
    {
      var live, fragment := CollectIntoFragment(childNodes, tag);
      childNodes := live;
      newParent.childNodes := newParent.childNodes + fragment;
    }

    method DeleteChildrenExceptTagged(tag: string)
      modifies this`childNodes
      ensures childNodes == KeepTagged(old(childNodes), tag)
    {
      childNodes := DeleteExceptTagged(childNodes, tag);
    }

    method AddTrackedEvent(l: Listener, fault: Option<string>) returns (outcome: Outcome)
      modifies this`registered, this`trackedListeners
      ensures Step(Snapshot(), outcome) == WithListeners(old(Snapshot()), Add(old(Snapshot()).listeners, l, fault))
    {
      if fault.Some? {
        return Fail(fault.value);
      }
      registered := registered + {l};
      trackedListeners := trackedListeners + [l];
      outcome := Pass;
    }

    method RemoveTrackedEvent(l: Listener, fault: Option<string>) returns (outcome: Outcome)
      modifies this`registered, this`trackedListeners
      ensures Step(Snapshot(), outcome) == WithListeners(old(Snapshot()), Remove(old(Snapshot()).listeners, l, fault))
    {
      if fault.Some? {
        return Fail(RemoveFailurePrefix + fault.value);
      }
      registered := registered - {l};
      trackedListeners := Untracked(trackedListeners, l);
      outcome := Pass;
    }

    method RemoveAllTrackedEvents(faults: map<Listener, string>) returns (outcome: Outcome)
      modifies this`registered, this`trackedListeners
      ensures Step(Snapshot(), outcome) == WithListeners(old(Snapshot()), ReleaseAll(old(Snapshot()).listeners, faults))
    {
      var r := ReleaseEach(Listeners(registered, trackedListeners), faults);
      registered, trackedListeners := r.state.registered, r.state.tracked;
      outcome := r.outcome;
    }
  }
}
