/**
 * The experimental revision of TuiElement (test/src/index.js): the render gate with an exact
 * (`===`) threshold, re-render on every changed attribute once rendered (the exemption list is
 * declared but never consulted), the default-attribute lookup, and the child helpers.
 */
module TuiExperimental {
  import opened Wrappers
  import opened Dom
  import opened Children
  import opened Lifecycle

  /** The names the constructor lists as default attributes. */
  const DefaultAttributes: seq<string> := ["id", "name", "title", "href", "value", "checked"]

  /** The names the constructor lists as not needing a re-render; nothing reads the list. */
  const NonRerenderAttributes: seq<string> := ["id", "name", "title", "checked"]

  /** The gate, the mirrored attribute properties and the content. */
  datatype State = State(gate: Gate, properties: map<string, Option<string>>, content: Content)

  /** The state after a callback, and whether the callback threw. */
  datatype Step = Step(state: State, outcome: Outcome)

  function OnConnect(s: State, renderFault: Option<string>): Step
  {
    var c := Connect(s.gate, renderFault);
    Step(s.(gate := c.gate), c.outcome)
  }

  /**
   * `attributeChangedCallback`: an unchanged value is ignored; a changed one is mirrored, then
   * either counted towards the first render (asked for only when the count equals the attribute
   * count) or causes a clear and one re-render.
   */
  function AttributeChanged(s: State, name: string, oldValue: Option<string>, newValue: Option<string>,
                            renderFault: Option<string>): (r: Step)
    ensures r.outcome.Fail? ==> oldValue != newValue && s.gate.rendered
    ensures s.gate.renders <= r.state.gate.renders <= s.gate.renders + 1
    ensures r.state.gate.rendered == s.gate.rendered
  {
    if oldValue == newValue then Step(s, Pass)
    else
      var noted := s.(properties := s.properties[name := newValue]);
      if !s.gate.rendered then Step(noted.(gate := Arrive(s.gate, Exactly)), Pass)
      else Step(noted.(gate := s.gate.(renders := s.gate.renders + 1), content := Cleared(s.content)), Raise(renderFault))
  }

  /** Equal old and new values change nothing at all and render nothing. */
  lemma UnchangedValue(s: State, name: string, value: Option<string>, renderFault: Option<string>)
    ensures AttributeChanged(s, name, value, value, renderFault) == Step(s, Pass)
  {
  }

  /**
   * Before the first render a changed value is mirrored and counted, and the first render is asked
   * for only by the notification whose count is exactly the attribute count.
   */
  lemma CountBeforeRender(s: State, name: string, oldValue: Option<string>, newValue: Option<string>,
                          renderFault: Option<string>)
    requires oldValue != newValue && !s.gate.rendered
    ensures AttributeChanged(s, name, oldValue, newValue, renderFault).outcome == Pass
    ensures AttributeChanged(s, name, oldValue, newValue, renderFault).state
      == State(Arrive(s.gate, Exactly), s.properties[name := newValue], s.content)
    ensures AttributeChanged(s, name, oldValue, newValue, renderFault).state.gate.renderRequested
      <==> s.gate.renderRequested || s.gate.attributeCount + 1 == s.gate.attributeLength
  {
  }

  /** With no attributes the counting path never asks for a render, however many notifications arrive. */
  lemma NoRequestWithoutAttributes(k: nat)
    ensures !Arrivals(Initial(0), k, Exactly).renderRequested
  {
    ArrivalsFromInitial(0, k, Exactly);
  }

  /**
   * Once rendered, every changed value re-renders, also for the names on the exemption list: the
   * content is cleared and `render` is called once.
   */
  lemma ExemptNamesRerender(s: State, name: string, oldValue: Option<string>, newValue: Option<string>,
                            renderFault: Option<string>)
    requires name in NonRerenderAttributes
    requires oldValue != newValue && s.gate.rendered
    ensures AttributeChanged(s, name, oldValue, newValue, renderFault).outcome == Raise(renderFault)
    ensures AttributeChanged(s, name, oldValue, newValue, renderFault).state.gate.renders == s.gate.renders + 1
    ensures AttributeChanged(s, name, oldValue, newValue, renderFault).state.content == Cleared(s.content)
  {
  }

  /** The component as the host sees it. */
  class TuiElement {
    var attributeCount: int
    var attributeLength: nat
    var renderRequested: bool
    var rendered: bool
    var renders: nat
    var properties: map<string, Option<string>>
    var childNodes: seq<Node>
    var shadowRoot: Option<seq<Node>>
    /** The names `checkDefaultAttributes` looks up. */
    const defaultAttributes: seq<string> := DefaultAttributes
    /** Declared but never consulted. */
    const nonRerenderAttributes: seq<string> := NonRerenderAttributes

    function Snapshot(): State
      reads this
    {
      State(Gate(attributeCount, attributeLength, renderRequested, rendered, renders), properties,
            Content(childNodes, shadowRoot))
    }

    /** The constructor: nothing counted, requested or rendered; `attributeLength` captured. */
    constructor (attributes: nat, children: seq<Node>, shadow: Option<seq<Node>>)
      ensures Snapshot() == State(Initial(attributes), map[], Content(children, shadow))
    {
      attributeCount, attributeLength := 0, attributes;
      renderRequested, rendered, renders := false, false, 0;
      properties := map[];
      childNodes, shadowRoot := children, shadow;
    }

    /** The abstract `render` hook supplied by the subclass; `renderFault` is what it throws, if anything. */
    method Render(renderFault: Option<string>) returns (outcome: Outcome)
      modifies this`renders
      ensures renders == old(renders) + 1 && outcome == Raise(renderFault)
    {
      renders := renders + 1;
      outcome := Raise(renderFault);
    }

    method ConnectedCallback(renderFault: Option<string>) returns (outcome: Outcome)
      modifies this
      ensures Step(Snapshot(), outcome) == OnConnect(old(Snapshot()), renderFault)
    {
      outcome := Pass;
      if renderRequested || attributeLength == 0 {
        outcome := Render(renderFault);
        if outcome.Pass? {
          rendered := true;
        }
      }
    }

    method AttributeChangedCallback(name: string, oldValue: Option<string>, newValue: Option<string>,
                                    renderFault: Option<string>)
      returns (outcome: Outcome)
      modifies this
      ensures Step(Snapshot(), outcome) == AttributeChanged(old(Snapshot()), name, oldValue, newValue, renderFault)
    {
      outcome := Pass;
      if oldValue != newValue {
        properties := properties[name := newValue];
        if rendered {
          if shadowRoot.Some? {
            shadowRoot := Some([]);
          } else {
            childNodes := [];
          }
          outcome := Render(renderFault);
          return;
        }
        CountNotification();
      }
    }

    /** Before the first render: `attributeCount++`, and `renderRequested` when it equals `attributeLength`. */
    method CountNotification()
      modifies this`attributeCount, this`renderRequested
      ensures Snapshot() == old(Snapshot()).(gate := Arrive(old(Snapshot()).gate, Exactly))
    {
      attributeCount := attributeCount + 1;
      if attributeCount == attributeLength {
        renderRequested := true;
      }
    }

    /** Each matching element is appended to `newParent`, outside the child list, as it is reached. */
    method MoveTaggedChildren(newParent: Container, tag: string)
      modifies this`childNodes, newParent`childNodes
      ensures childNodes == Unmatched(old(childNodes), tag)
      ensures newParent.childNodes == old(newParent.childNodes) + Matched(old(childNodes), tag)
    {
      var live, parent := AppendEachTo(childNodes, newParent.childNodes, tag);
      childNodes, newParent.childNodes := live, parent;
    }

    method DeleteChildrenExceptTagged(tag: string)
      modifies this`childNodes
      ensures childNodes == KeepTagged(old(childNodes), tag)
    {
      childNodes := DeleteExceptTagged(childNodes, tag);
    }

    /** `deleteChildrenNodeList`: every listed node leaves the child list, and nothing else does. */
    method DeleteChildrenNodeList(nodeList: seq<Node>)
      modifies this`childNodes
      ensures childNodes == Without(old(childNodes), nodeList)
      ensures forall n :: n in childNodes <==> n in old(childNodes) && n !in nodeList
    {
      childNodes := RemoveEach(childNodes, nodeList);
    }

    /** `checkDefaultAttributes`: a scan of the default names for `value`. */
    method CheckDefaultAttributes(value: string) returns (found: bool)
      ensures found <==> value in defaultAttributes
      ensures found <==> value in {"id", "name", "title", "href", "value", "checked"}
    {
      var i := 0;
      while i < |defaultAttributes|
        invariant i <= |defaultAttributes|
        invariant forall j :: 0 <= j < i ==> defaultAttributes[j] != value
      {
        if defaultAttributes[i] == value {
          return true;
        }
        i := i + 1;
      }
      return false;
    }
  }
}
