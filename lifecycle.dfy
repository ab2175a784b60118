/**
 * The render gate every revision of TuiElement shares: the first render waits until the host has
 * delivered as many attribute-change notifications as there were attributes at construction, and
 * `connectedCallback` renders whenever that point has been reached (or there were no attributes).
 */
module Lifecycle {
  import opened Wrappers

  /** How a revision compares the notification count with the attribute count it waits for. */
  datatype Threshold = AtLeast | Exactly

  /**
   * `attributeCount`, `attributeLength`, `renderRequested` and `rendered`, plus the number of times
   * the abstract `render` hook has been called.
   */
  datatype Gate = Gate(attributeCount: int, attributeLength: nat, renderRequested: bool, rendered: bool, renders: nat)

  /** The gate as the constructor leaves it, for an element constructed with `attributeLength` attributes. */
  function Initial(attributeLength: nat): Gate
  {
    Gate(0, attributeLength, false, false, 0)
  }

  /** `connectedCallback`'s condition: the first render was asked for, or there were no attributes. */
  predicate Ready(g: Gate)
  {
    g.renderRequested || g.attributeLength == 0
  }

  /** Whether `count` notifications reach `length` under the revision's comparison. */
  predicate Reached(count: int, length: nat, t: Threshold)
  {
    match t
    case AtLeast => count >= length
    case Exactly => count == length
  }

  datatype Connected = Connected(gate: Gate, outcome: Outcome)

  /**
   * `connectedCallback`: when ready, `render` is called once and `rendered` is set if it returns;
   * otherwise nothing changes. It is not gated on `rendered`, so every ready connect renders again.
   */
  function Connect(g: Gate, renderFault: Option<string>): (c: Connected)
    ensures c.gate.renders == if Ready(g) then g.renders + 1 else g.renders
    ensures c.gate.rendered <==> g.rendered || (Ready(g) && renderFault.None?)
    ensures c.outcome.Fail? <==> Ready(g) && renderFault.Some?
    ensures Ready(g) ==> c.outcome == Raise(renderFault)
    ensures c.gate.(renders := g.renders, rendered := g.rendered) == g
    ensures !Ready(g) ==> c == Connected(g, Pass)
  {
    if Ready(g) then
      Connected(g.(renders := g.renders + 1, rendered := g.rendered || renderFault.None?), Raise(renderFault))
    else Connected(g, Pass)
  }

  /** Connecting does not change readiness, so a ready element renders on every connect. */
  lemma ReconnectRendersAgain(g: Gate, first: Option<string>, second: Option<string>)
    requires Ready(g)
    ensures Connect(Connect(g, first).gate, second).gate.renders == g.renders + 2
  {
  }

  /**
   * A changed attribute before the first render: one more notification is counted, and the first
   * render is asked for when the count reaches the threshold; a request is never withdrawn.
   */
  function Arrive(g: Gate, t: Threshold): (a: Gate)
    ensures a.attributeCount == g.attributeCount + 1
    ensures a.renderRequested <==> g.renderRequested || Reached(a.attributeCount, g.attributeLength, t)
    ensures a.(attributeCount := g.attributeCount, renderRequested := g.renderRequested) == g
  {
    var count := g.attributeCount + 1;
    g.(attributeCount := count, renderRequested := g.renderRequested || Reached(count, g.attributeLength, t))
  }

  /** `k` changed-attribute notifications before the first render. */
  function Arrivals(g: Gate, k: nat, t: Threshold): Gate
  {
    if k == 0 then g else Arrive(Arrivals(g, k - 1, t), t)
  }

  /**
   * From construction, after `k` notifications: `>=` asks for the render from the first notification
   * at which `k` reaches the attribute count; `===` does the same, except that an element with no
   * attributes is never asked for by this path.
   */
  lemma {:induction false} ArrivalsFromInitial(n: nat, k: nat, t: Threshold)
    ensures Arrivals(Initial(n), k, t).attributeCount == k
    ensures Arrivals(Initial(n), k, t).(attributeCount := 0, renderRequested := false) == Initial(n)
    ensures t == AtLeast ==> (Arrivals(Initial(n), k, t).renderRequested <==> k >= 1 && k >= n)
    ensures t == Exactly ==> (Arrivals(Initial(n), k, t).renderRequested <==> n >= 1 && k >= n)
  {
    if k > 0 {
      ArrivalsFromInitial(n, k - 1, t);
    }
  }

  /**
   * Either comparison, counting up from construction: the first connect renders exactly when the
   * notifications have reached the attribute count.
   */
  lemma FirstRenderAtThreshold(n: nat, k: nat, t: Threshold, renderFault: Option<string>)
    ensures Connect(Arrivals(Initial(n), k, t), renderFault).gate.renders == if k >= n then 1 else 0
  {
    ArrivalsFromInitial(n, k, t);
  }
}
