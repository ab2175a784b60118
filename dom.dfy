/** The part of the host document the component edits: its direct child nodes, and other containers. */
module Dom {
  import opened Wrappers

  /** A child node with the identity the host gave it: a text node or an element with its tag name. */
  datatype Node = Text(id: nat, data: string) | Elem(id: nat, tagName: string)

  /** An element outside the component whose child list the helpers append to or overwrite. */
  class Container {
    var childNodes: seq<Node>

    constructor (nodes: seq<Node>)
      ensures childNodes == nodes
    {
      childNodes := nodes;
    }
  }

  /**
   * What a re-render clears: the element's own child list and, when it has one, its shadow root's
   * child list. Render output is not modelled, so a shadow root is only ever emptied.
   */
  datatype Content = Content(childNodes: seq<Node>, shadowRoot: Option<seq<Node>>)

  /** `replaceChildren()` on the shadow root when there is one, otherwise on the element itself. */
  function Cleared(c: Content): (r: Content)
    ensures r.shadowRoot.Some? <==> c.shadowRoot.Some?
    ensures r.shadowRoot.Some? ==> r.shadowRoot.value == [] && r.childNodes == c.childNodes
    ensures r.shadowRoot.None? ==> r.childNodes == []
  {
    if c.shadowRoot.Some? then c.(shadowRoot := Some([])) else c.(childNodes := [])
  }

  /** `String.prototype.toLowerCase` on one character, for ASCII letters. */
  function AsciiLower(c: char): char
  {
    if 'A' <= c <= 'Z' then (c as int + 32) as char else c
  }

  /** `toLowerCase`, for ASCII letters: every character lowered independently, the length kept. */
  function Lower(s: string): (r: string)
    ensures |r| == |s|
  {
    if s == [] then [] else [AsciiLower(s[0])] + Lower(s[1..])
  }

  /** Lowering works character by character. */
  lemma {:induction false} LowerAt(s: string, i: nat)
    requires i < |s|
    ensures Lower(s)[i] == AsciiLower(s[i])
  {
    if i > 0 {
      LowerAt(s[1..], i - 1);
    }
  }

  /** `a.toLowerCase() === b.toLowerCase()`; also how a bare type selector matches an HTML tag name. */
  predicate SameTag(a: string, b: string)
    ensures SameTag(a, b) ==> |a| == |b|
  {
    Lower(a) == Lower(b)
  }

  /** The characters `String.prototype.trim` strips: ECMAScript WhiteSpace and LineTerminator. */
  predicate IsSpace(c: char)
  {
    var n := c as int;
    n == 0x09 || n == 0x0A || n == 0x0B || n == 0x0C || n == 0x0D || n == 0x20 || n == 0xA0
    || n == 0x1680 || (0x2000 <= n <= 0x200A) || n == 0x2028 || n == 0x2029 || n == 0x202F
    || n == 0x205F || n == 0x3000 || n == 0xFEFF
  }

  /** The suffix of `s` left after stripping leading white space. */
  function TrimStart(s: string): (r: string)
    ensures |r| <= |s|
    ensures r == [] || !IsSpace(r[0])
  {
    if s != [] && IsSpace(s[0]) then TrimStart(s[1..]) else s
  }

  /** The prefix of `s` left after stripping trailing white space. */
  function TrimEnd(s: string): (r: string)
    ensures |r| <= |s|
    ensures r == [] || !IsSpace(r[|r| - 1])
  {
    if s != [] && IsSpace(s[|s| - 1]) then TrimEnd(s[..|s| - 1]) else s
  }

  /** Only white space is stripped from the front. */
  lemma {:induction false} TrimStartStripsSpace(s: string, i: nat)
    requires i < |s| - |TrimStart(s)|
    ensures IsSpace(s[i])
  {
    if i > 0 {
      TrimStartStripsSpace(s[1..], i - 1);
    }
  }

  /** Only white space is stripped from the back. */
  lemma {:induction false} TrimEndStripsSpace(s: string, i: nat)
    requires |TrimEnd(s)| <= i < |s|
    ensures IsSpace(s[i])
  {
    if i < |s| - 1 {
      TrimEndStripsSpace(s[..|s| - 1], i);
    }
  }

  /** `String.prototype.trim`. */
  function Trim(s: string): (r: string)
    ensures |r| <= |s|
  {
    TrimEnd(TrimStart(s))
  }

  lemma {:induction false} TrimStartIsSuffix(s: string)
    ensures TrimStart(s) == s[|s| - |TrimStart(s)|..]
  {
    if s != [] && IsSpace(s[0]) {
      TrimStartIsSuffix(s[1..]);
    }
  }

  lemma {:induction false} TrimEndIsPrefix(s: string)
    ensures TrimEnd(s) == s[..|TrimEnd(s)|]
  {
    if s != [] && IsSpace(s[|s| - 1]) {
      TrimEndIsPrefix(s[..|s| - 1]);
    }
  }

  /** The trimmed string is a slice of `s` with no white space at either end. */
  lemma TrimSlice(s: string)
    ensures var a := |s| - |TrimStart(s)|;
      a + |Trim(s)| <= |s| && Trim(s) == s[a..a + |Trim(s)|]
    ensures Trim(s) == [] || (!IsSpace(Trim(s)[0]) && !IsSpace(Trim(s)[|Trim(s)| - 1]))
  {
    TrimStartIsSuffix(s);
    TrimEndIsPrefix(TrimStart(s));
    if Trim(s) != [] {
      assert Trim(s)[0] == TrimStart(s)[0];
    }
  }

  /** The child list an element holds after `innerText = text`: nothing for "", else one new text node. */
  function InnerText(text: string, textId: nat): (r: seq<Node>)
    ensures text == [] ==> r == []
    ensures text != [] ==> r == [Text(textId, text)]
  {
    if text == [] then [] else [Text(textId, text)]
  }
}
