/**
 * The older revision of TuiElement (src/index.js): the render gate, re-render on any changed
 * attribute once rendered, two variants of moving tagged children, moving the direct text into a
 * child, and deleting children by tag. It has no listener registry and no `try`/`catch`, so a
 * throwing `render` propagates unchanged.
 */
module TuiLegacy {
  import opened Wrappers
  import opened Dom
  import opened Children
  import opened Lifecycle

  /** The gate, the mirrored attribute properties and the content. */
  datatype State = State(gate: Gate, properties: map<string, Option<string>>, content: Content)

  /** The state after a callback, and whether the callback threw. */
  datatype Step = Step(state: State, outcome: Outcome)

  function OnConnect(s: State, renderFault: Option<string>): Step
  {
    var c := Connect(s.gate, renderFault);
    Step(s.(gate := c.gate), c.outcome)
  }

  /**
   * `attributeChangedCallback`: an unchanged value is ignored; a changed one is mirrored, then
   * either counted towards the first render or causes a clear and one re-render.
   */
  function AttributeChanged(s: State, name: string, oldValue: Option<string>, newValue: Option<string>,
                            renderFault: Option<string>): (r: Step)
    ensures r.outcome.Fail? ==> oldValue != newValue && s.gate.rendered
    ensures s.gate.renders <= r.state.gate.renders <= s.gate.renders + 1
    ensures r.state.gate.rendered == s.gate.rendered
  {
    if oldValue == newValue then Step(s, Pass)
    else
      var noted := s.(properties := s.properties[name := newValue]);
      if !s.gate.rendered then Step(noted.(gate := Arrive(s.gate, AtLeast)), Pass)
      else Step(noted.(gate := s.gate.(renders := s.gate.renders + 1), content := Cleared(s.content)), Raise(renderFault))
  }

  /** Equal old and new values change nothing at all and render nothing. */
  lemma UnchangedValue(s: State, name: string, value: Option<string>, renderFault: Option<string>)
    ensures AttributeChanged(s, name, value, value, renderFault) == Step(s, Pass)
  {
  }

  /**
   * Before the first render a changed value is mirrored and counted, and the first render is asked
   * for once the count reaches the attribute count; nothing else changes.
   */
  lemma CountBeforeRender(s: State, name: string, oldValue: Option<string>, newValue: Option<string>,
                          renderFault: Option<string>)
    requires oldValue != newValue && !s.gate.rendered
    ensures AttributeChanged(s, name, oldValue, newValue, renderFault).outcome == Pass
    ensures AttributeChanged(s, name, oldValue, newValue, renderFault).state
      == State(Arrive(s.gate, AtLeast), s.properties[name := newValue], s.content)
    ensures AttributeChanged(s, name, oldValue, newValue, renderFault).state.gate.renderRequested
      <==> s.gate.renderRequested || s.gate.attributeCount + 1 >= s.gate.attributeLength
  {
  }

  /**
   * Once rendered, a changed value empties the shadow root's children when there is a shadow root,
   * otherwise the element's own, and renders exactly once.
   */
  lemma RerenderAfterRender(s: State, name: string, oldValue: Option<string>, newValue: Option<string>,
                            renderFault: Option<string>)
    requires oldValue != newValue && s.gate.rendered
    ensures AttributeChanged(s, name, oldValue, newValue, renderFault).outcome == Raise(renderFault)
    ensures AttributeChanged(s, name, oldValue, newValue, renderFault).state.gate.renders == s.gate.renders + 1
    ensures s.content.shadowRoot.Some? ==>
      AttributeChanged(s, name, oldValue, newValue, renderFault).state.content == Content(s.content.childNodes, Some([]))
    ensures s.content.shadowRoot.None? ==>
      AttributeChanged(s, name, oldValue, newValue, renderFault).state.content == Content([], None)
  {
  }

  /** The component as the host sees it. */
  class TuiElement {
    var attributeCount: int
    var attributeLength: nat
    var renderRequested: bool
    var rendered: bool
    var renders: nat
    var properties: map<string, Option<string>>
    var childNodes: seq<Node>
    var shadowRoot: Option<seq<Node>>

    function Snapshot(): State
      reads this
    {
      State(Gate(attributeCount, attributeLength, renderRequested, rendered, renders), properties,
            Content(childNodes, shadowRoot))
    }

    /** The constructor: nothing counted, requested or rendered; `attributeLength` captured. */
    constructor (attributes: nat, children: seq<Node>, shadow: Option<seq<Node>>)
      ensures Snapshot() == State(Initial(attributes), map[], Content(children, shadow))
    {
      attributeCount, attributeLength := 0, attributes;
      renderRequested, rendered, renders := false, false, 0;
      properties := map[];
      childNodes, shadowRoot := children, shadow;
    }

    /** The abstract `render` hook supplied by the subclass; `renderFault` is what it throws, if anything. */
    method Render(renderFault: Option<string>) returns (outcome: Outcome)
      modifies this`renders
      ensures renders == old(renders) + 1 && outcome == Raise(renderFault)
    {
      renders := renders + 1;
      outcome := Raise(renderFault);
    }

    method ConnectedCallback(renderFault: Option<string>) returns (outcome: Outcome)
      modifies this
      ensures Step(Snapshot(), outcome) == OnConnect(old(Snapshot()), renderFault)
    {
      outcome := Pass;
      if renderRequested || attributeLength == 0 {
        outcome := Render(renderFault);
        if outcome.Pass? {
          rendered := true;
        }
      }
    }

    method AttributeChangedCallback(name: string, oldValue: Option<string>, newValue: Option<string>,
                                    renderFault: Option<string>)
      returns (outcome: Outcome)
      modifies this
      ensures Step(Snapshot(), outcome) == AttributeChanged(old(Snapshot()), name, oldValue, newValue, renderFault)
    {
      outcome := Pass;
      if oldValue != newValue {
        properties := properties[name := newValue];
        if rendered {
          if shadowRoot.Some? {
            shadowRoot := Some([]);
          } else {
            childNodes := [];
          }
          outcome := Render(renderFault);
          return;
        }
        CountNotification();
      }
    }

    /** Before the first render: `attributeCount++`, and `renderRequested` once it reaches `attributeLength`. */
    method CountNotification()
      modifies this`attributeCount, this`renderRequested
      ensures Snapshot() == old(Snapshot()).(gate := Arrive(old(Snapshot()).gate, AtLeast))
    {
      attributeCount := attributeCount + 1;
      if attributeCount >= attributeLength {
        renderRequested := true;
      }
    }

    /** `moveTaggedChildren`: the matching elements go through a fragment; `newParent` is outside the child list. */
    method MoveTaggedChildren(newParent: Container, tag: string)
      modifies this`childNodes, newParent`childNodes
      ensures childNodes == Unmatched(old(childNodes), tag)
      ensures newParent.childNodes == old(newParent.childNodes) + Matched(old(childNodes), tag)
    {
      var live, fragment := CollectIntoFragment(childNodes, tag);
      childNodes := live;
      newParent.childNodes := newParent.childNodes + fragment;
    }

    /** `moveTaggedChildrenOLD`: each matching element is appended as it is reached; same end state. */
    method MoveTaggedChildrenOld(newParent: Container, tag: string)
      modifies this`childNodes, newParent`childNodes
      ensures childNodes == Unmatched(old(childNodes), tag)
      ensures newParent.childNodes == old(newParent.childNodes) + Matched(old(childNodes), tag)
    {
      var live, parent := AppendEachTo(childNodes, newParent.childNodes, tag);
      childNodes, newParent.childNodes := live, parent;
    }

    /**
     * `moveTextToChild` with every text node visited: the text nodes leave the child list, the
     * elements stay in order, and the child's content becomes the joined, trimmed text.
     */
    method MoveTextToChild(childElement: Container, textId: nat)
      modifies this`childNodes, childElement`childNodes
      ensures childNodes == Elements(old(childNodes))
      ensures childElement.childNodes == InnerText(Trim(Joined(TextsOf(old(childNodes)))), textId)
    {
      var live, directText := CollectAllText(childNodes);
      childNodes := live;
      childElement.childNodes := InnerText(directText, textId);
    }

    method DeleteChildrenExceptTagged(tag: string)
      modifies this`childNodes
      ensures childNodes == KeepTagged(old(childNodes), tag)
    {
      childNodes := DeleteExceptTagged(childNodes, tag);
    }
  }
}
