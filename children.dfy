/**
 * The child-editing helpers every revision of TuiElement inherits: each works on the component's
 * direct child list, edited the way the host's live list is edited while the source's loop runs.
 */
module Children {
  import opened Seqs
  import opened Dom

  /** An element whose tag name is `tag` ignoring ASCII case: what `querySelectorAll(tag)` finds. */
  predicate Matches(n: Node, tag: string)
  {
    n.Elem? && SameTag(n.tagName, tag)
  }

  /** The matching elements, in document order: the static list `querySelectorAll(tag)` returns. */
  function Matched(nodes: seq<Node>, tag: string): (r: seq<Node>)
    ensures |r| <= |nodes|
  {
    Filter(nodes, (n: Node) => Matches(n, tag))
  }

  /** The matches keep their document order across any split of the child list. */
  lemma MatchedOrder(a: seq<Node>, b: seq<Node>, tag: string)
    ensures Matched(a + b, tag) == Matched(a, tag) + Matched(b, tag)
  {
    FilterConcat(a, b, (n: Node) => Matches(n, tag));
  }

  /** What is left behind once the matching elements are moved out. */
  function Unmatched(nodes: seq<Node>, tag: string): (r: seq<Node>)
    ensures |r| <= |nodes|
  {
    Filter(nodes, (n: Node) => !Matches(n, tag))
  }

  /**
   * What `deleteChildrenExceptTagged(tag)` leaves: it only visits `this.children`, the element
   * children, so text nodes always stay, and so do the elements whose tag name is `tag`.
   */
  function KeepTagged(nodes: seq<Node>, tag: string): (r: seq<Node>)
    ensures |r| <= |nodes|
  {
    Filter(nodes, (n: Node) => n.Text? || Matches(n, tag))
  }

  predicate IsElement(n: Node)
  {
    n.Elem?
  }

  /** The element children only (`this.children`). */
  function Elements(nodes: seq<Node>): seq<Node>
  {
    Filter(nodes, IsElement)
  }

  /** Nodes other than those listed. */
  function Without(nodes: seq<Node>, list: seq<Node>): seq<Node>
  {
    Filter(nodes, (n: Node) => n !in list)
  }

  /** `deleteChildrenExceptTagged` keeps exactly the text nodes and the matching elements. */
  lemma KeepTaggedMembers(nodes: seq<Node>, tag: string)
    ensures forall n :: n in KeepTagged(nodes, tag) <==> n in nodes && (n.Text? || Matches(n, tag))
  {
    FilterMembers(nodes, (n: Node) => n.Text? || Matches(n, tag));
  }

  /** ... in their original relative order: the result of a concatenation is the concatenation. */
  lemma KeepTaggedOrder(a: seq<Node>, b: seq<Node>, tag: string)
    ensures KeepTagged(a + b, tag) == KeepTagged(a, tag) + KeepTagged(b, tag)
  {
    FilterConcat(a, b, (n: Node) => n.Text? || Matches(n, tag));
  }

  /** Deleting a second time with the same tag changes nothing. */
  lemma KeepTaggedIdempotent(nodes: seq<Node>, tag: string)
    ensures KeepTagged(KeepTagged(nodes, tag), tag) == KeepTagged(nodes, tag)
  {
    var p := (n: Node) => n.Text? || Matches(n, tag);
    FilterFilter(nodes, p, p, p);
  }

  /** Moving the matching elements out loses and duplicates nothing. */
  lemma MovePartition(nodes: seq<Node>, tag: string)
    ensures multiset(Matched(nodes, tag)) + multiset(Unmatched(nodes, tag)) == multiset(nodes)
  {
    FilterPartition(nodes, (n: Node) => Matches(n, tag), (n: Node) => !Matches(n, tag));
  }

  /** The example `<li>A</li><span/><li>B</li>`: both list items move, in order, the span stays. */
  lemma MoveListItemsExample()
    ensures Matched([Elem(1, "LI"), Elem(2, "SPAN"), Elem(3, "LI")], "li") == [Elem(1, "LI"), Elem(3, "LI")]
    ensures Unmatched([Elem(1, "LI"), Elem(2, "SPAN"), Elem(3, "LI")], "li") == [Elem(2, "SPAN")]
  {
    var a, b, c := Elem(1, "LI"), Elem(2, "SPAN"), Elem(3, "LI");
    ListItemTags();
    var nodes := [a, b, c];
    assert nodes[1..] == [b, c] && [b, c][1..] == [c] && [c][1..] == [];
    assert Matched([c], "li") == [c];
    assert Matched([b, c], "li") == [c];
    assert Unmatched([c], "li") == [];
    assert Unmatched([b, c], "li") == [b];
  }

  lemma ListItemTags()
    ensures Matches(Elem(1, "LI"), "li") && Matches(Elem(3, "LI"), "li") && !Matches(Elem(2, "SPAN"), "li")
  {
    assert Lower("LI") == "li" by {
      assert "LI"[1..] == "I" && "I"[1..] == "";
      assert AsciiLower('L') == 'l' && AsciiLower('I') == 'i';
    }
    assert Lower("li") == "li" by {
      assert "li"[1..] == "i" && "i"[1..] == "";
    }
    assert Lower("SPAN")[0] == 's' by {
      assert AsciiLower('S') == 's';
    }
  }

  /**
   * `deleteChildrenExceptTagged(tag)`: walks the element children in order and removes each one
   * whose tag name differs from `tag`; `k` is where the current node sits in the shrinking live list.
   */
  method DeleteExceptTagged(nodes: seq<Node>, tag: string) returns (live: seq<Node>)
    ensures live == KeepTagged(nodes, tag)
  {
    ghost var keep := (n: Node) => n.Text? || Matches(n, tag);
    live := nodes;
    var k := 0;
    for i := 0 to |nodes|
      invariant FilterWalk(nodes, keep, i, live, k)
    {
      FilterWalkStep(nodes, keep, i, live, k);
      if nodes[i].Elem? && !SameTag(nodes[i].tagName, tag) {
        live := live[..k] + live[k + 1..];
      } else {
        k := k + 1;
      }
    }
    FilterWalkDone(nodes, keep, live, k);
  }

  /**
   * `moveTaggedChildren` with a fragment: every matching element is appended to the fragment in
   * document order (leaving the live list), and the fragment is then appended to the new parent.
   */
  method CollectIntoFragment(nodes: seq<Node>, tag: string) returns (live: seq<Node>, fragment: seq<Node>)
    ensures live == Unmatched(nodes, tag)
    ensures fragment == Matched(nodes, tag)
  {
    ghost var stays := (n: Node) => !Matches(n, tag);
    live, fragment := nodes, [];
    var k := 0;
    for i := 0 to |nodes|
      invariant FilterWalk(nodes, stays, i, live, k)
      invariant fragment == Matched(nodes[..i], tag)
    {
      FilterWalkStep(nodes, stays, i, live, k);
      MatchedStep(nodes, i, tag);
      if Matches(nodes[i], tag) {
        live := live[..k] + live[k + 1..];
        fragment := fragment + [nodes[i]];
      } else {
        k := k + 1;
      }
    }
    FilterWalkDone(nodes, stays, live, k);
    assert nodes[..|nodes|] == nodes;
  }

  /**
   * `moveTaggedChildren` without a fragment (the older variant): each matching element is appended to
   * the new parent as soon as it is reached.
   */
  method AppendEachTo(nodes: seq<Node>, parentNodes: seq<Node>, tag: string)
    returns (live: seq<Node>, parent: seq<Node>)
    ensures live == Unmatched(nodes, tag)
    ensures parent == parentNodes + Matched(nodes, tag)
  {
    ghost var stays := (n: Node) => !Matches(n, tag);
    live, parent := nodes, parentNodes;
    var k := 0;
    for i := 0 to |nodes|
      invariant FilterWalk(nodes, stays, i, live, k)
      invariant parent == parentNodes + Matched(nodes[..i], tag)
    {
      FilterWalkStep(nodes, stays, i, live, k);
      MatchedStep(nodes, i, tag);
      if Matches(nodes[i], tag) {
        live := live[..k] + live[k + 1..];
        parent := parent + [nodes[i]];
      } else {
        k := k + 1;
      }
    }
    FilterWalkDone(nodes, stays, live, k);
    assert nodes[..|nodes|] == nodes;
  }

  lemma MatchedStep(nodes: seq<Node>, i: nat, tag: string)
    requires i < |nodes|
    ensures Matched(nodes[..i + 1], tag) == Matched(nodes[..i], tag) + (if Matches(nodes[i], tag) then [nodes[i]] else [])
  {
    assert nodes[..i + 1] == nodes[..i] + [nodes[i]];
    FilterSnoc(nodes[..i], nodes[i], (n: Node) => Matches(n, tag));
  }

  /** `deleteChildrenNodeList(list)`: `node.remove()` for each listed node, in list order. */
  method RemoveEach(nodes: seq<Node>, list: seq<Node>) returns (live: seq<Node>)
    ensures live == Without(nodes, list)
    ensures forall n :: n in live <==> n in nodes && n !in list
  {
    live := nodes;
    FilterAll(nodes, (n: Node) => n !in list[..0]);
    for j := 0 to |list|
      invariant live == Without(nodes, list[..j])
    {
      var gone := list[j];
      assert list[..j + 1] == list[..j] + [gone];
      FilterFilter(nodes, (n: Node) => n !in list[..j], (n: Node) => n != gone, (n: Node) => n !in list[..j + 1]);
      live := Filter(live, (n: Node) => n != gone);
    }
    assert list[..|list|] == list;
    FilterMembers(nodes, (n: Node) => n !in list);
  }

  // ---------------------------------------------------------------------------------------------
  // moveTextToChild

  /** The outcome of walking the live child list: the nodes left, and the texts taken. */
  datatype Walked = Walked(kept: seq<Node>, texts: seq<string>)

  /**
   * `for (const node of this.childNodes)` while removing text nodes: the live iterator advances by
   * index, so the node that slides into a removed text node's place is never visited and stays.
   * Every node is either kept or taken.
   */
  function Walk(nodes: seq<Node>): (w: Walked)
    ensures |w.kept| + |w.texts| == |nodes|
    decreases |nodes|
  {
    if nodes == [] then Walked([], [])
    else if nodes[0].Text? then
      if |nodes| == 1 then Walked([], [nodes[0].data])
      else
        var w := Walk(nodes[2..]);
        Walked([nodes[1]] + w.kept, [nodes[0].data] + w.texts)
    else
      var w := Walk(nodes[1..]);
      Walked([nodes[0]] + w.kept, w.texts)
  }

  /** `directText` before its final trim: each taken text, trimmed and followed by one space. */
  function Joined(texts: seq<string>): (r: string)
    ensures |r| >= |texts|
    ensures texts != [] ==> r[|r| - 1] == ' '
  {
    if texts == [] then "" else Joined(texts[..|texts| - 1]) + Trim(texts[|texts| - 1]) + " "
  }

  lemma JoinedSnoc(texts: seq<string>, t: string)
    ensures Joined(texts + [t]) == Joined(texts) + Trim(t) + " "
  {
    assert (texts + [t])[..|texts|] == texts;
  }

  /** The contents of every text node, in document order. */
  function TextsOf(nodes: seq<Node>): seq<string>
  {
    if nodes == [] then []
    else (if nodes[0].Text? then [nodes[0].data] else []) + TextsOf(nodes[1..])
  }

  /** No text node is directly followed by another text node. */
  predicate NoAdjacentText(nodes: seq<Node>)
  {
    forall i :: 0 <= i < |nodes| - 1 ==> !(nodes[i].Text? && nodes[i + 1].Text?)
  }

  /** What moving the text was evidently meant to do: take every text node, leave every element. */
  function AllText(nodes: seq<Node>): (w: Walked)
    ensures forall n :: n in w.kept ==> n.Elem?
  {
    FilterMembers(nodes, IsElement);
    Walked(Elements(nodes), TextsOf(nodes))
  }

  /** The walk removes only text nodes: the elements that remain are all of them, in order. */
  lemma WalkKeepsElements(nodes: seq<Node>)
    ensures Elements(Walk(nodes).kept) == Elements(nodes)
    ensures forall n :: n in nodes && n.Elem? ==> n in Walk(nodes).kept
  {
    WalkElements(nodes);
    FilterMembers(nodes, IsElement);
    FilterMembers(Walk(nodes).kept, IsElement);
  }

  lemma {:induction false} WalkElements(nodes: seq<Node>)
    ensures Elements(Walk(nodes).kept) == Elements(nodes)
    decreases |nodes|
  {
    if nodes == [] {
    } else if nodes[0].Text? {
      if |nodes| > 1 {
        var kept := Walk(nodes[2..]).kept;
        WalkElements(nodes[2..]);
        assert nodes[1..] == [nodes[1]] + nodes[2..];
        FilterConcat([nodes[1]], kept, IsElement);
        FilterConcat([nodes[1]], nodes[2..], IsElement);
        assert Elements(nodes) == Elements(nodes[1..]);
      } else {
        assert nodes[1..] == [];
      }
    } else {
      var kept := Walk(nodes[1..]).kept;
      WalkElements(nodes[1..]);
      assert ([nodes[0]] + kept)[0] == nodes[0] && ([nodes[0]] + kept)[1..] == kept;
      assert Elements([nodes[0]] + kept) == [nodes[0]] + Elements(kept);
    }
  }

  /** With no two text nodes side by side nothing is skipped: the walk does what was meant. */
  lemma {:induction false} WalkSeparatedText(nodes: seq<Node>)
    requires NoAdjacentText(nodes)
    ensures Walk(nodes) == AllText(nodes)
    decreases |nodes|
  {
    var p := IsElement;
    if nodes != [] {
      if nodes[0].Text? {
        if |nodes| > 1 {
          assert nodes[1].Elem?;
          assert NoAdjacentText(nodes[2..]) by {
            forall i | 0 <= i < |nodes[2..]| - 1 ensures !(nodes[2..][i].Text? && nodes[2..][i + 1].Text?) {
              assert nodes[2..][i] == nodes[i + 2] && nodes[2..][i + 1] == nodes[i + 3];
            }
          }
          WalkSeparatedText(nodes[2..]);
          assert nodes[1..][1..] == nodes[2..];
          assert Elements(nodes) == Elements(nodes[1..]);
          assert Elements(nodes[1..]) == [nodes[1]] + Elements(nodes[2..]);
          assert TextsOf(nodes[1..]) == TextsOf(nodes[2..]);
        }
      } else {
        assert NoAdjacentText(nodes[1..]) by {
          forall i | 0 <= i < |nodes[1..]| - 1 ensures !(nodes[1..][i].Text? && nodes[1..][i + 1].Text?) {
            assert nodes[1..][i] == nodes[i + 1] && nodes[1..][i + 1] == nodes[i + 2];
          }
        }
        WalkSeparatedText(nodes[1..]);
      }
    }
  }

  /** Wherever two text nodes are side by side, the walk leaves a text node in the child list. */
  lemma {:induction false} AdjacentTextLeavesText(nodes: seq<Node>, i: nat)
    requires i + 1 < |nodes| && nodes[i].Text? && nodes[i + 1].Text?
    ensures exists n :: n in Walk(nodes).kept && n.Text?
    decreases |nodes|
  {
    if nodes[0].Text? {
      assert Walk(nodes).kept == [nodes[1]] + Walk(nodes[2..]).kept;
      if i <= 1 {
        assert nodes[1] in Walk(nodes).kept;
      } else {
        assert nodes[2..][i - 2] == nodes[i] && nodes[2..][i - 1] == nodes[i + 1];
        AdjacentTextLeavesText(nodes[2..], i - 2);
        var n :| n in Walk(nodes[2..]).kept && n.Text?;
        assert n in Walk(nodes).kept;
      }
    } else {
      assert i > 0;
      assert Walk(nodes).kept == [nodes[0]] + Walk(nodes[1..]).kept;
      assert nodes[1..][i - 1] == nodes[i] && nodes[1..][i] == nodes[i + 1];
      AdjacentTextLeavesText(nodes[1..], i - 1);
      var n :| n in Walk(nodes[1..]).kept && n.Text?;
      assert n in Walk(nodes).kept;
    }
  }

  /** The walk as written does what was meant exactly when no two text nodes are side by side. */
  lemma WalkIntendedIff(nodes: seq<Node>)
    ensures Walk(nodes) == AllText(nodes) <==> NoAdjacentText(nodes)
  {
    if NoAdjacentText(nodes) {
      WalkSeparatedText(nodes);
    } else {
      var i :| 0 <= i < |nodes| - 1 && nodes[i].Text? && nodes[i + 1].Text?;
      AdjacentTextLeavesText(nodes, i);
      var n :| n in Walk(nodes).kept && n.Text?;
      assert n !in AllText(nodes).kept;
    }
  }

  /** Two adjacent text nodes: the second is skipped, stays in place, and its text is not moved. */
  lemma AdjacentTextSkipped()
    ensures Walk([Text(1, "a"), Text(2, "b")]) == Walked([Text(2, "b")], ["a"])
    ensures AllText([Text(1, "a"), Text(2, "b")]) == Walked([], ["a", "b"])
  {
    var nodes := [Text(1, "a"), Text(2, "b")];
    assert nodes[2..] == [];
    assert nodes[1..][1..] == [];
  }

  /**
   * `moveTextToChild`'s loop as written: an index walk over the live child list; removing a text
   * node shifts the rest left while the index still advances.
   */
  method CollectText(nodes: seq<Node>) returns (live: seq<Node>, directText: string)
    ensures live == Walk(nodes).kept
    ensures directText == Trim(Joined(Walk(nodes).texts))
  {
    live := nodes;
    var i := 0;
    var acc := "";
    ghost var texts: seq<string> := [];
    assert live[..0] == [] && live[0..] == live;
    while i < |live|
      invariant LiveWalk(nodes, i, live, texts, acc)
      decreases |live| + 1 - i
    {
      LiveStep(nodes, i, live, texts, acc);
      var node := live[i];
      if node.Text? {
        acc := acc + Trim(node.data) + " ";
        texts := texts + [node.data];
        live := live[..i] + live[i + 1..];
      }
      i := i + 1;
    }
    LiveDone(nodes, i, live, texts, acc);
    directText := Trim(acc);
  }

  /**
   * Part way through the live walk: `live[..i]` has been visited or skipped, the rest is still to
   * come, unless the last node was just removed (`i == |live| + 1`).
   */
  predicate LiveWalk(nodes: seq<Node>, i: nat, live: seq<Node>, texts: seq<string>, acc: string)
  {
    && i <= |live| + 1
    && acc == Joined(texts)
    && (i <= |live| ==> Walk(nodes) == Walked(live[..i] + Walk(live[i..]).kept, texts + Walk(live[i..]).texts))
    && (i == |live| + 1 ==> Walk(nodes) == Walked(live, texts))
  }

  lemma LiveStep(nodes: seq<Node>, i: nat, live: seq<Node>, texts: seq<string>, acc: string)
    requires i < |live| && LiveWalk(nodes, i, live, texts, acc)
    ensures live[i].Text? ==>
      LiveWalk(nodes, i + 1, live[..i] + live[i + 1..], texts + [live[i].data], acc + Trim(live[i].data) + " ")
    ensures live[i].Elem? ==> LiveWalk(nodes, i + 1, live, texts, acc)
  {
    if live[i].Text? {
      LiveTextStep(nodes, i, live, texts, acc);
    } else {
      assert live[i..] == [live[i]] + live[i + 1..];
      assert live[..i + 1] == live[..i] + [live[i]];
    }
  }

  /** Removing the text node at `i`: the node after it slides to `i` and is passed over. */
  lemma LiveTextStep(nodes: seq<Node>, i: nat, live: seq<Node>, texts: seq<string>, acc: string)
    requires i < |live| && live[i].Text? && LiveWalk(nodes, i, live, texts, acc)
    ensures LiveWalk(nodes, i + 1, live[..i] + live[i + 1..], texts + [live[i].data], acc + Trim(live[i].data) + " ")
  {
    JoinedSnoc(texts, live[i].data);
    if i + 1 == |live| {
      LiveTextLast(nodes, i, live, texts);
    } else {
      LiveTextInner(nodes, i, live, texts);
    }
  }

  /** Removing the last node, a text node, ends the walk. */
  lemma LiveTextLast(nodes: seq<Node>, i: nat, live: seq<Node>, texts: seq<string>)
    requires i + 1 == |live| && live[i].Text?
    requires Walk(nodes) == Walked(live[..i] + Walk(live[i..]).kept, texts + Walk(live[i..]).texts)
    ensures Walk(nodes) == Walked(live[..i] + live[i + 1..], texts + [live[i].data])
  {
    assert live[i..] == [live[i]];
    assert live[i + 1..] == [];
  }

  /** Removing a text node that has a successor: the successor is kept unvisited. */
  lemma LiveTextInner(nodes: seq<Node>, i: nat, live: seq<Node>, texts: seq<string>)
    requires i + 1 < |live| && live[i].Text?
    requires Walk(nodes) == Walked(live[..i] + Walk(live[i..]).kept, texts + Walk(live[i..]).texts)
    ensures var live' := live[..i] + live[i + 1..];
      Walk(nodes) == Walked(live'[..i + 1] + Walk(live'[i + 1..]).kept, texts + [live[i].data] + Walk(live'[i + 1..]).texts)
  {
    var rest := live[i..];
    var live' := live[..i] + live[i + 1..];
    assert rest[2..] == live[i + 2..];
    var w := Walk(rest[2..]);
    assert Walk(rest) == Walked([rest[1]] + w.kept, [live[i].data] + w.texts);
    assert live'[..i + 1] == live[..i] + [rest[1]];
    assert live'[i + 1..] == rest[2..];
  }

  lemma LiveDone(nodes: seq<Node>, i: nat, live: seq<Node>, texts: seq<string>, acc: string)
    requires i >= |live| && LiveWalk(nodes, i, live, texts, acc)
    ensures Walk(nodes) == Walked(live, texts) && acc == Joined(texts)
  {
    if i == |live| {
      assert live[..i] == live && live[i..] == [];
    }
  }

  /**
   * The evident intent of `moveTextToChild`: walk a snapshot of the child list so that every text
   * node is visited and removed.
   */
  method CollectAllText(nodes: seq<Node>) returns (live: seq<Node>, directText: string)
    ensures live == AllText(nodes).kept
    ensures directText == Trim(Joined(AllText(nodes).texts))
  {
    live := nodes;
    var k := 0;
    var acc := "";
    for i := 0 to |nodes|
      invariant FilterWalk(nodes, IsElement, i, live, k)
      invariant acc == Joined(TextsOf(nodes[..i]))
    {
      FilterWalkStep(nodes, IsElement, i, live, k);
      TextStep(nodes, i);
      if nodes[i].Text? {
        assert TextsOf(nodes[..i + 1]) == TextsOf(nodes[..i]) + [nodes[i].data];
        JoinedSnoc(TextsOf(nodes[..i]), nodes[i].data);
        acc := acc + Trim(nodes[i].data) + " ";
        live := live[..k] + live[k + 1..];
      } else {
        assert TextsOf(nodes[..i + 1]) == TextsOf(nodes[..i]);
        k := k + 1;
      }
    }
    FilterWalkDone(nodes, IsElement, live, k);
    assert nodes[..|nodes|] == nodes;
    directText := Trim(acc);
  }

  lemma TextStep(nodes: seq<Node>, i: nat)
    requires i < |nodes|
    ensures TextsOf(nodes[..i + 1]) == TextsOf(nodes[..i]) + (if nodes[i].Text? then [nodes[i].data] else [])
  {
    assert nodes[..i + 1] == nodes[..i] + [nodes[i]];
    TextsOfSnoc(nodes[..i], nodes[i]);
  }

  lemma {:induction false} TextsOfSnoc(nodes: seq<Node>, n: Node)
    ensures TextsOf(nodes + [n]) == TextsOf(nodes) + (if n.Text? then [n.data] else [])
  {
    if nodes == [] {
      assert [n][1..] == [];
    } else {
      var head := if nodes[0].Text? then [nodes[0].data] else [];
      assert (nodes + [n])[0] == nodes[0] && (nodes + [n])[1..] == nodes[1..] + [n];
      TextsOfSnoc(nodes[1..], n);
      assert TextsOf(nodes + [n]) == head + TextsOf(nodes[1..] + [n]);
    }
  }
}
