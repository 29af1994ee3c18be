/**
 * The effect of the result view (src/components/LeadResultDisplay.tsx:36-127)
 * over an abstract list of the element children of one parent inside the
 * container. Each heading's section is made of its own following siblings,
 * so headings under different parents are handled independently, each
 * parent's children by the same pass. Every `h2`
 * not yet marked `data-processed` is marked, gets a toggle icon when it has
 * none, and gets a `section-content` wrapper holding the elements up to the
 * next `h2` unless such a wrapper already follows it; then every link
 * without a target is made to open in a new tab. Clicking a processed
 * heading shows or hides its section.
 */
module PostProcessor {
  import opened Wrappers
  import opened Text

  /** The icon of a shown section and of a hidden one. */
  const Down: string := "\U{25BC}"
  const Right: string := "\U{25BA}"

  /** An `a` element: only `target` and `rel` are read or written. */
  datatype Link = Link(href: string, target: Option<string>, rel: Option<string>)

  /**
   * A child of the result container. `Heading` is an `h2`: `processed` is its
   * `data-processed` marker, `icon` the text of its `.toggle-icon` span, and
   * `clickable` tells whether the click handler is attached. `Section` is an
   * element with class `section-content`; any other element is an `Element`
   * with its text and the links inside it.
   */
  datatype Node =
    | Heading(text: string, processed: bool, icon: Option<string>, clickable: bool)
    | Element(text: string, links: seq<Link>)
    | Section(hidden: bool, body: seq<Node>)

  // ---------------------------------------------------------------------------
  // The heading pass (lines 41-104).

  /** How many nodes follow before the next heading: the content a new wrapper takes. */
  function Run(ns: seq<Node>): (k: nat)
    ensures k <= |ns|
    ensures forall m :: 0 <= m < k ==> !ns[m].Heading?
    ensures k < |ns| ==> ns[k].Heading?
  {
    if ns == [] || ns[0].Heading? then 0 else 1 + Run(ns[1..])
  }

  /** Lines 47-52 and 91: the marker is set, the icon added when missing, the click handler attached. */
  function Mark(h: Node): (r: Node)
    requires h.Heading?
    ensures r.Heading? && r.text == h.text && r.processed && r.clickable && r.icon.Some?
    ensures h.icon.Some? ==> r.icon == h.icon
    ensures h.icon.None? ==> r.icon == Some(Down)
  {
    h.(processed := true, icon := if h.icon.None? then Some(Down) else h.icon, clickable := true)
  }

  /**
   * The `headings.forEach` pass, front to back: an unmarked heading followed
   * by a section keeps it; one followed by anything else gets a new shown
   * section holding the nodes up to the next heading, in order. Marked
   * headings and other nodes are left as they are.
   */
  function Pass(ns: seq<Node>): seq<Node>
    decreases |ns|
  {
    if ns == [] then []
    else if ns[0].Heading? && !ns[0].processed then
      if |ns| > 1 && ns[1].Section? then [Mark(ns[0]), ns[1]] + Pass(ns[2..])
      else
        var k := Run(ns[1..]);
        [Mark(ns[0]), Section(false, ns[1..1 + k])] + Pass(ns[1 + k..])
    else [ns[0]] + Pass(ns[1..])
  }

  /** Every heading carries the `data-processed` marker. */
  predicate AllProcessed(ns: seq<Node>) {
    forall i :: 0 <= i < |ns| && ns[i].Heading? ==> ns[i].processed
  }

  /**
   * The state the click handlers rely on: a heading with a handler is marked,
   * has its icon, and is followed by the section it toggles.
   */
  predicate WellFormed(ns: seq<Node>) {
    forall i :: 0 <= i < |ns| && ns[i].Heading? && ns[i].clickable ==>
      ns[i].processed && ns[i].icon.Some? && i + 1 < |ns| && ns[i + 1].Section?
  }

  /** Freshly parsed html: no handler is attached yet. */
  predicate Plain(ns: seq<Node>) {
    forall i :: 0 <= i < |ns| && ns[i].Heading? ==> !ns[i].clickable
  }

  lemma PlainIsWellFormed(ns: seq<Node>)
    requires Plain(ns)
    ensures WellFormed(ns)
  {
  }

  /** Well-formedness of a list built from a first node and the rest. */
  lemma WellFormedCons(x: Node, rest: seq<Node>)
    requires WellFormed(rest)
    requires x.Heading? && x.clickable ==> x.processed && x.icon.Some? && rest != [] && rest[0].Section?
    ensures WellFormed([x] + rest)
  {
    var s := [x] + rest;
    forall i | 0 <= i < |s| && s[i].Heading? && s[i].clickable
      ensures s[i].processed && s[i].icon.Some? && i + 1 < |s| && s[i + 1].Section?
    {
      if i > 0 {
        assert s[i] == rest[i - 1];
      }
    }
  }

  /** The pass leaves a node list that is not an unmarked heading at its front where it was. */
  lemma PassHead(ns: seq<Node>)
    requires ns != [] && !(ns[0].Heading? && !ns[0].processed)
    ensures Pass(ns) != [] && Pass(ns)[0] == ns[0]
  {
  }

  /** The pass keeps the click handlers' invariant. */
  lemma {:induction false} PassWellFormed(ns: seq<Node>)
    requires WellFormed(ns)
    ensures WellFormed(Pass(ns))
    decreases |ns|
  {
    if ns != [] {
      if ns[0].Heading? && !ns[0].processed {
        var n := if |ns| > 1 && ns[1].Section? then 2 else 1 + Run(ns[1..]);
        WellFormedSuffix(ns, n);
        PassWellFormed(ns[n..]);
        PassWellFormedAtHeading(ns, n);
      } else {
        WellFormedSuffix(ns, 1);
        PassWellFormed(ns[1..]);
        if ns[0].Heading? && ns[0].clickable {
          PassHead(ns[1..]);
        }
        WellFormedCons(ns[0], Pass(ns[1..]));
      }
    }
  }

  lemma WellFormedSuffix(ns: seq<Node>, n: nat)
    requires WellFormed(ns) && n <= |ns|
    ensures WellFormed(ns[n..])
  {
    var rest := ns[n..];
    forall i | 0 <= i < |rest| && rest[i].Heading? && rest[i].clickable
      ensures rest[i].processed && rest[i].icon.Some? && i + 1 < |rest| && rest[i + 1].Section?
    {
      assert rest[i] == ns[n + i];
    }
  }

  /** The step of `PassWellFormed` at an unprocessed heading, given the rest. */
  lemma PassWellFormedAtHeading(ns: seq<Node>, n: nat)
    requires ns != [] && ns[0].Heading? && !ns[0].processed
    requires n == if |ns| > 1 && ns[1].Section? then 2 else 1 + Run(ns[1..])
    requires WellFormed(Pass(ns[n..]))
    ensures WellFormed(Pass(ns))
  {
    var wrap := if |ns| > 1 && ns[1].Section? then ns[1] else Section(false, ns[1..n]);
    if !(|ns| > 1 && ns[1].Section?) {
      PassWrapUnfold(ns, n - 1);
    }
    WellFormedCons(wrap, Pass(ns[n..]));
    WellFormedCons(Mark(ns[0]), [wrap] + Pass(ns[n..]));
    assert [Mark(ns[0]), wrap] + Pass(ns[n..]) == [Mark(ns[0])] + ([wrap] + Pass(ns[n..]));
  }

  /** After the pass every heading is marked. */
  lemma {:induction false} PassMarksAll(ns: seq<Node>)
    ensures AllProcessed(Pass(ns))
    decreases |ns|
  {
    if ns != [] {
      var front, rest;
      if ns[0].Heading? && !ns[0].processed {
        if |ns| > 1 && ns[1].Section? {
          front, rest := [Mark(ns[0]), ns[1]], ns[2..];
        } else {
          var k := Run(ns[1..]);
          front, rest := [Mark(ns[0]), Section(false, ns[1..1 + k])], ns[1 + k..];
        }
      } else {
        front, rest := [ns[0]], ns[1..];
      }
      PassMarksAll(rest);
      assert Pass(ns) == front + Pass(rest);
      forall i | 0 <= i < |Pass(ns)| && Pass(ns)[i].Heading?
        ensures Pass(ns)[i].processed
      {
        if i >= |front| {
          assert Pass(ns)[i] == Pass(rest)[i - |front|];
        }
      }
    }
  }

  /** A list whose headings are all marked is left unchanged by the pass. */
  lemma {:induction false} PassOfProcessed(ns: seq<Node>)
    requires AllProcessed(ns)
    ensures Pass(ns) == ns
    decreases |ns|
  {
    if ns != [] {
      assert AllProcessed(ns[1..]) by {
        forall i | 0 <= i < |ns[1..]| && ns[1..][i].Heading?
          ensures ns[1..][i].processed
        {
          assert ns[1..][i] == ns[i + 1];
        }
      }
      PassOfProcessed(ns[1..]);
      assert ns == [ns[0]] + ns[1..];
    }
  }

  /** The `data-processed` marker makes the pass idempotent. */
  lemma PassIdempotent(ns: seq<Node>)
    ensures Pass(Pass(ns)) == Pass(ns)
  {
    PassMarksAll(ns);
    PassOfProcessed(Pass(ns));
  }

  // ---------------------------------------------------------------------------
  // What the page shows: the text of the elements and the links, in order.

  function NodeContent(n: Node): seq<string>
    decreases n
  {
    match n
    case Heading(t, _, _, _) => [t]
    case Element(t, _) => [t]
    case Section(_, body) => Content(body)
  }

  /** The texts of the headings and elements, in document order. */
  function Content(ns: seq<Node>): seq<string>
    decreases ns
  {
    if ns == [] then [] else NodeContent(ns[0]) + Content(ns[1..])
  }

  lemma ContentCons(x: Node, rest: seq<Node>)
    ensures Content([x] + rest) == NodeContent(x) + Content(rest)
  {
    assert ([x] + rest)[1..] == rest;
  }

  lemma {:induction false} ContentAppend(a: seq<Node>, b: seq<Node>)
    ensures Content(a + b) == Content(a) + Content(b)
  {
    if a == [] {
      assert a + b == b;
    } else {
      assert (a + b)[1..] == a[1..] + b;
      ContentAppend(a[1..], b);
    }
  }

  /** One step of the pass at a heading that gets a new wrapper. */
  lemma PassWrapUnfold(ns: seq<Node>, k: nat)
    requires ns != [] && ns[0].Heading? && !ns[0].processed && !(|ns| > 1 && ns[1].Section?)
    requires k == Run(ns[1..])
    ensures Pass(ns) == [Mark(ns[0]), Section(false, ns[1..1 + k])] + Pass(ns[1 + k..])
  {
  }

  /** Joining two parts whose texts match. */
  lemma ContentJoin(step: seq<Node>, taken: seq<Node>, out: seq<Node>, rest: seq<Node>)
    requires Content(step) == Content(taken) && Content(out) == Content(rest)
    ensures Content(step + out) == Content(taken + rest)
  {
    ContentAppend(step, out);
    ContentAppend(taken, rest);
  }

  lemma ContentMarkPair(h: Node, s: Node)
    requires h.Heading?
    ensures Content([Mark(h), s]) == Content([h, s])
  {
    ContentCons(Mark(h), [s]);
    ContentCons(h, [s]);
  }

  lemma ContentMarkWrap(front: seq<Node>)
    requires front != [] && front[0].Heading?
    ensures Content([Mark(front[0]), Section(false, front[1..])]) == Content(front)
  {
    ContentCons(Mark(front[0]), [Section(false, front[1..])]);
    ContentCons(Section(false, front[1..]), []);
    ContentCons(front[0], front[1..]);
    assert [front[0]] + front[1..] == front;
  }

  lemma ContentAtSection(ns: seq<Node>)
    requires |ns| > 1 && ns[0].Heading? && !ns[0].processed && ns[1].Section?
    requires Content(Pass(ns[2..])) == Content(ns[2..])
    ensures Content(Pass(ns)) == Content(ns)
  {
    assert Pass(ns) == [Mark(ns[0]), ns[1]] + Pass(ns[2..]);
    ContentMarkPair(ns[0], ns[1]);
    ContentJoin([Mark(ns[0]), ns[1]], [ns[0], ns[1]], Pass(ns[2..]), ns[2..]);
    assert [ns[0], ns[1]] + ns[2..] == ns;
  }

  lemma ContentAtWrap(ns: seq<Node>, k: nat, out: seq<Node>)
    requires 1 + k <= |ns| && ns[0].Heading?
    requires |out| >= 2 && out[..2] == [Mark(ns[0]), Section(false, ns[1..1 + k])]
    requires Content(out[2..]) == Content(ns[1 + k..])
    ensures Content(out) == Content(ns)
  {
    var front := ns[..1 + k];
    assert front[0] == ns[0] && front[1..] == ns[1..1 + k];
    ContentMarkWrap(front);
    ContentJoin(out[..2], front, out[2..], ns[1 + k..]);
    assert front + ns[1 + k..] == ns;
    assert out[..2] + out[2..] == out;
  }

  lemma ContentAtOther(ns: seq<Node>)
    requires ns != [] && !(ns[0].Heading? && !ns[0].processed)
    requires Content(Pass(ns[1..])) == Content(ns[1..])
    ensures Content(Pass(ns)) == Content(ns)
  {
    assert Pass(ns) == [ns[0]] + Pass(ns[1..]);
    ContentJoin([ns[0]], [ns[0]], Pass(ns[1..]), ns[1..]);
    assert [ns[0]] + ns[1..] == ns;
  }

  /** Marking headings and wrapping sections loses no element and reorders no element text. */
  lemma {:induction false} PassKeepsContent(ns: seq<Node>)
    ensures Content(Pass(ns)) == Content(ns)
    decreases |ns|
  {
    if ns != [] {
      if ns[0].Heading? && !ns[0].processed {
        if |ns| > 1 && ns[1].Section? {
          PassKeepsContent(ns[2..]);
          ContentAtSection(ns);
        } else {
          var k := Run(ns[1..]);
          PassKeepsContent(ns[1 + k..]);
          PassWrapUnfold(ns, k);
          ContentAtWrap(ns, k, Pass(ns));
        }
      } else {
        PassKeepsContent(ns[1..]);
        ContentAtOther(ns);
      }
    }
  }

  function NodeLinks(n: Node): seq<Link>
    decreases n
  {
    match n
    case Heading(_, _, _, _) => []
    case Element(_, ls) => ls
    case Section(_, body) => Links(body)
  }

  /** Every link of the container in document order, as `querySelectorAll('a')` lists them. */
  function Links(ns: seq<Node>): seq<Link>
    decreases ns
  {
    if ns == [] then [] else NodeLinks(ns[0]) + Links(ns[1..])
  }

  lemma LinksCons(x: Node, rest: seq<Node>)
    ensures Links([x] + rest) == NodeLinks(x) + Links(rest)
  {
    assert ([x] + rest)[1..] == rest;
  }

  lemma {:induction false} LinksAppend(a: seq<Node>, b: seq<Node>)
    ensures Links(a + b) == Links(a) + Links(b)
  {
    if a == [] {
      assert a + b == b;
    } else {
      assert (a + b)[1..] == a[1..] + b;
      LinksAppend(a[1..], b);
    }
  }

  /** Joining two parts whose links match. */
  lemma LinksJoin(step: seq<Node>, taken: seq<Node>, out: seq<Node>, rest: seq<Node>)
    requires Links(step) == Links(taken) && Links(out) == Links(rest)
    ensures Links(step + out) == Links(taken + rest)
  {
    LinksAppend(step, out);
    LinksAppend(taken, rest);
  }

  lemma LinksMarkPair(h: Node, s: Node)
    requires h.Heading?
    ensures Links([Mark(h), s]) == Links([h, s])
  {
    LinksCons(Mark(h), [s]);
    LinksCons(h, [s]);
  }

  lemma LinksMarkWrap(front: seq<Node>)
    requires front != [] && front[0].Heading?
    ensures Links([Mark(front[0]), Section(false, front[1..])]) == Links(front)
  {
    LinksCons(Mark(front[0]), [Section(false, front[1..])]);
    LinksCons(Section(false, front[1..]), []);
    LinksCons(front[0], front[1..]);
    assert [front[0]] + front[1..] == front;
  }

  lemma LinksAtSection(ns: seq<Node>)
    requires |ns| > 1 && ns[0].Heading? && !ns[0].processed && ns[1].Section?
    requires Links(Pass(ns[2..])) == Links(ns[2..])
    ensures Links(Pass(ns)) == Links(ns)
  {
    assert Pass(ns) == [Mark(ns[0]), ns[1]] + Pass(ns[2..]);
    LinksMarkPair(ns[0], ns[1]);
    LinksJoin([Mark(ns[0]), ns[1]], [ns[0], ns[1]], Pass(ns[2..]), ns[2..]);
    assert [ns[0], ns[1]] + ns[2..] == ns;
  }

  lemma LinksAtWrap(ns: seq<Node>, k: nat, out: seq<Node>)
    requires 1 + k <= |ns| && ns[0].Heading?
    requires |out| >= 2 && out[..2] == [Mark(ns[0]), Section(false, ns[1..1 + k])]
    requires Links(out[2..]) == Links(ns[1 + k..])
    ensures Links(out) == Links(ns)
  {
    var front := ns[..1 + k];
    assert front[0] == ns[0] && front[1..] == ns[1..1 + k];
    LinksMarkWrap(front);
    LinksJoin(out[..2], front, out[2..], ns[1 + k..]);
    assert front + ns[1 + k..] == ns;
    assert out[..2] + out[2..] == out;
  }

  lemma LinksAtOther(ns: seq<Node>)
    requires ns != [] && !(ns[0].Heading? && !ns[0].processed)
    requires Links(Pass(ns[1..])) == Links(ns[1..])
    ensures Links(Pass(ns)) == Links(ns)
  {
    assert Pass(ns) == [ns[0]] + Pass(ns[1..]);
    LinksJoin([ns[0]], [ns[0]], Pass(ns[1..]), ns[1..]);
    assert [ns[0]] + ns[1..] == ns;
  }

  /** Wrapping keeps every link, in order. */
  lemma {:induction false} PassKeepsLinks(ns: seq<Node>)
    ensures Links(Pass(ns)) == Links(ns)
    decreases |ns|
  {
    if ns != [] {
      if ns[0].Heading? && !ns[0].processed {
        if |ns| > 1 && ns[1].Section? {
          PassKeepsLinks(ns[2..]);
          LinksAtSection(ns);
        } else {
          var k := Run(ns[1..]);
          PassKeepsLinks(ns[1 + k..]);
          PassWrapUnfold(ns, k);
          LinksAtWrap(ns, k, Pass(ns));
        }
      } else {
        PassKeepsLinks(ns[1..]);
        LinksAtOther(ns);
      }
    }
  }

  // ---------------------------------------------------------------------------
  // Link targets (lines 107-113).

  /** A link without a (non-empty) target is sent to a new tab with `rel` set; any other is left alone. */
  function FixLink(l: Link): Link {
    if Truthy(l.target) then l else l.(target := Some("_blank"), rel := Some("noopener noreferrer"))
  }

  /** `FixLink` applied to every link of a list. */
  function FixAll(ls: seq<Link>): (r: seq<Link>)
    ensures |r| == |ls|
    ensures forall i :: 0 <= i < |ls| ==> Truthy(r[i].target)
    ensures forall i :: 0 <= i < |ls| && Truthy(ls[i].target) ==> r[i] == ls[i]
    ensures forall i :: 0 <= i < |ls| && !Truthy(ls[i].target) ==>
      r[i] == Link(ls[i].href, Some("_blank"), Some("noopener noreferrer"))
  {
    seq(|ls|, i requires 0 <= i < |ls| => FixLink(ls[i]))
  }

  lemma FixAllAppend(a: seq<Link>, b: seq<Link>)
    ensures FixAll(a + b) == FixAll(a) + FixAll(b)
  {
    assert forall i :: 0 <= i < |a| ==> (a + b)[i] == a[i];
    assert forall i :: |a| <= i < |a + b| ==> (a + b)[i] == b[i - |a|];
  }

  function FixNode(n: Node): (r: Node)
    decreases n
  {
    match n
    case Heading(_, _, _, _) => n
    case Element(t, ls) => Element(t, seq(|ls|, i requires 0 <= i < |ls| => FixLink(ls[i])))
    case Section(h, body) => Section(h, FixNodes(body))
  }

  /** The link rewrite over a node list: node by node, keeping the list's shape. */
  function FixNodes(ns: seq<Node>): (r: seq<Node>)
    decreases ns
  {
    if ns == [] then [] else [FixNode(ns[0])] + FixNodes(ns[1..])
  }

  /** The rewrite changes links only: the same nodes in the same places, headings untouched. */
  lemma {:induction false} FixNodesShape(ns: seq<Node>)
    ensures |FixNodes(ns)| == |ns|
    ensures forall i :: 0 <= i < |ns| ==> FixNodes(ns)[i] == FixNode(ns[i])
  {
    if ns != [] {
      FixNodesShape(ns[1..]);
      assert forall i :: 1 <= i < |ns| ==> FixNodes(ns)[i] == FixNodes(ns[1..])[i - 1];
    }
  }

  /** Every link of the container ends up as `FixLink` makes it, in the same order. */
  lemma {:induction false} FixNodeLinks(n: Node)
    ensures NodeLinks(FixNode(n)) == FixAll(NodeLinks(n))
    decreases n
  {
    match n {
      case Heading(_, _, _, _) =>
      case Element(_, ls) =>
      case Section(_, body) => FixNodesLinks(body);
    }
  }

  lemma {:induction false} FixNodesLinks(ns: seq<Node>)
    ensures Links(FixNodes(ns)) == FixAll(Links(ns))
    decreases ns
  {
    if ns != [] {
      FixNodeLinks(ns[0]);
      FixNodesLinks(ns[1..]);
      FixAllAppend(NodeLinks(ns[0]), Links(ns[1..]));
    }
  }

  /** Rewriting the links keeps the text. */
  lemma {:induction false} FixNodeContent(n: Node)
    ensures NodeContent(FixNode(n)) == NodeContent(n)
    decreases n
  {
    match n {
      case Heading(_, _, _, _) =>
      case Element(_, _) =>
      case Section(_, body) => FixNodesContent(body);
    }
  }

  lemma {:induction false} FixNodesContent(ns: seq<Node>)
    ensures Content(FixNodes(ns)) == Content(ns)
    decreases ns
  {
    if ns != [] {
      FixNodeContent(ns[0]);
      FixNodesContent(ns[1..]);
    }
  }

  /** A second rewrite finds every link with a target and changes nothing. */
  lemma {:induction false} FixNodeIdempotent(n: Node)
    ensures FixNode(FixNode(n)) == FixNode(n)
    decreases n
  {
    match n {
      case Heading(_, _, _, _) =>
      case Element(t, ls) =>
        var once := seq(|ls|, i requires 0 <= i < |ls| => FixLink(ls[i]));
        assert forall i :: 0 <= i < |once| ==> FixLink(once[i]) == once[i];
      case Section(_, body) => FixNodesIdempotent(body);
    }
  }

  lemma {:induction false} FixNodesIdempotent(ns: seq<Node>)
    ensures FixNodes(FixNodes(ns)) == FixNodes(ns)
    decreases ns
  {
    if ns != [] {
      FixNodeIdempotent(ns[0]);
      FixNodesIdempotent(ns[1..]);
    }
  }

  /** The rewrite touches no heading and turns no node into a section or out of one. */
  lemma FixNodesKeeps(ns: seq<Node>)
    ensures WellFormed(ns) ==> WellFormed(FixNodes(ns))
    ensures AllProcessed(ns) ==> AllProcessed(FixNodes(ns))
  {
    FixNodesShape(ns);
  }

  // ---------------------------------------------------------------------------
  // Clicking a heading (lines 91-102).

  /** The icon shown for a section's hidden state. */
  function IconFor(hidden: bool): string {
    if hidden then Right else Down
  }

  /**
   * The click handler of the heading at `j`: the section after it flips its
   * `hidden` class and the icon, when there is one, shows the new state. A
   * heading without a handler does nothing.
   */
  function Toggle(ns: seq<Node>, j: nat): (r: seq<Node>)
    ensures |r| == |ns|
  {
    if j + 1 < |ns| && ns[j].Heading? && ns[j].clickable && ns[j + 1].Section? then
      var hidden := !ns[j + 1].hidden;
      var icon := if ns[j].icon.Some? then Some(IconFor(hidden)) else None;
      ns[j := ns[j].(icon := icon)][j + 1 := ns[j + 1].(hidden := hidden)]
    else ns
  }

  /**
   * A click flips exactly the clicked heading's section and sets its icon to
   * match; every other node stays; the handlers' invariant is kept.
   */
  lemma ToggleEffect(ns: seq<Node>, j: nat)
    requires WellFormed(ns) && j < |ns| && ns[j].Heading? && ns[j].clickable
    ensures Toggle(ns, j)[j + 1] == ns[j + 1].(hidden := !ns[j + 1].hidden)
    ensures Toggle(ns, j)[j] == ns[j].(icon := Some(IconFor(!ns[j + 1].hidden)))
    ensures forall i :: 0 <= i < |ns| && i != j && i != j + 1 ==> Toggle(ns, j)[i] == ns[i]
    ensures WellFormed(Toggle(ns, j))
  {
  }

  /** Clicking twice restores the section, and the icon when it matched the section's state. */
  lemma ToggleTwice(ns: seq<Node>, j: nat)
    requires WellFormed(ns) && j < |ns| && ns[j].Heading? && ns[j].clickable
    requires ns[j].icon == Some(IconFor(ns[j + 1].hidden))
    ensures Toggle(Toggle(ns, j), j) == ns
  {
    ToggleEffect(ns, j);
    ToggleEffect(Toggle(ns, j), j);
  }

  /** Replacing one node by a node with the same text keeps the text of the list. */
  lemma {:induction false} ContentUpdate(ns: seq<Node>, j: nat, x: Node)
    requires j < |ns| && NodeContent(x) == NodeContent(ns[j])
    ensures Content(ns[j := x]) == Content(ns)
  {
    assert ns == [ns[0]] + ns[1..];
    if j == 0 {
      assert ns[j := x] == [x] + ns[1..];
      ContentCons(x, ns[1..]);
    } else {
      ContentUpdate(ns[1..], j - 1, x);
      assert ns[j := x] == [ns[0]] + ns[1..][j - 1 := x];
      ContentCons(ns[0], ns[1..][j - 1 := x]);
    }
    ContentCons(ns[0], ns[1..]);
  }

  /** Showing and hiding moves no text. */
  lemma ToggleKeepsContent(ns: seq<Node>, j: nat)
    ensures Content(Toggle(ns, j)) == Content(ns)
  {
    if j + 1 < |ns| && ns[j].Heading? && ns[j].clickable && ns[j + 1].Section? {
      var hidden := !ns[j + 1].hidden;
      var icon := if ns[j].icon.Some? then Some(IconFor(hidden)) else None;
      var once := ns[j := ns[j].(icon := icon)];
      ContentUpdate(ns, j, ns[j].(icon := icon));
      ContentUpdate(once, j + 1, ns[j + 1].(hidden := hidden));
    }
  }

  // ---------------------------------------------------------------------------
  // One step of the pass, at position `i` of the list.

  lemma PassAtSection(ns: seq<Node>, i: nat)
    requires i + 1 < |ns| && ns[i].Heading? && !ns[i].processed && ns[i + 1].Section?
    ensures Pass(ns[i..]) == [Mark(ns[i]), ns[i + 1]] + Pass(ns[i + 2..])
  {
    assert ns[i..][2..] == ns[i + 2..];
  }

  lemma PassAtWrap(ns: seq<Node>, i: nat, j: nat)
    requires i < j <= |ns| && ns[i].Heading? && !ns[i].processed && !(i + 1 < |ns| && ns[i + 1].Section?)
    requires forall m :: i + 1 <= m < j ==> !ns[m].Heading?
    requires j < |ns| ==> ns[j].Heading?
    ensures Pass(ns[i..]) == [Mark(ns[i]), Section(false, ns[i + 1..j])] + Pass(ns[j..])
  {
    var s := ns[i..];
    var k := j - i - 1;
    SlicesAt(ns, i, j);
    RunAt(s[1..], k);
    PassWrapUnfold(s, k);
  }

  /** The slices of `ns[i..]` that a wrap at `i` up to `j` reads. */
  lemma SlicesAt(ns: seq<Node>, i: nat, j: nat)
    requires i < j <= |ns|
    ensures ns[i..] != [] && ns[i..][0] == ns[i]
    ensures |ns[i..]| > 1 ==> ns[i..][1] == ns[i + 1]
    ensures ns[i..][1..] == ns[i + 1..]
    ensures ns[i..][1..1 + (j - i - 1)] == ns[i + 1..j] && ns[i..][1 + (j - i - 1)..] == ns[j..]
  {
  }

  /** `Run` is the index of the first heading, or the length when there is none. */
  lemma RunAt(t: seq<Node>, k: nat)
    requires k <= |t| && forall m :: 0 <= m < k ==> !t[m].Heading?
    requires k < |t| ==> t[k].Heading?
    ensures Run(t) == k
  {
  }

  lemma PassAtOther(ns: seq<Node>, i: nat)
    requires i < |ns| && !(ns[i].Heading? && !ns[i].processed)
    ensures Pass(ns[i..]) == [ns[i]] + Pass(ns[i + 1..])
  {
    assert ns[i..][1..] == ns[i + 1..];
  }

  lemma StepDone(done: seq<Node>, step: seq<Node>, rest: seq<Node>)
    ensures (done + step) + Pass(rest) == done + (step + Pass(rest))
  {
  }

  /** The bookkeeping of the loop: the front grows by the step's output. */
  lemma Regroup(done: seq<Node>, step: seq<Node>, rest: seq<Node>, now: seq<Node>, i: nat)
    requires now == done + step + rest && i == |done| + |step|
    ensures now[..i] == done + step && now[i..] == rest
  {
  }

  // ---------------------------------------------------------------------------
  // The component.

  class ResultView {
    /** The container's children. */
    var nodes: seq<Node>
    /** The `processedSections` state. */
    var processedSections: bool

    predicate Valid()
      reads this
    {
      WellFormed(nodes)
    }

    /** The first render: the cleaned html parsed into nodes, not yet processed. */
    constructor Mount(parsed: seq<Node>)
      requires Plain(parsed)
      ensures Valid() && nodes == parsed && !processedSections
    {
      nodes := parsed;
      processedSections := false;
    }

    /**
     * The effect body (lines 37-126). Once `processedSections` is set it
     * returns at once; otherwise the heading pass runs, the links are
     * rewritten, and the flag is set.
     */
    method RunEffect()
      requires Valid()
      modifies this
      ensures Valid() && processedSections
      ensures old(processedSections) ==> nodes == old(nodes)
      ensures !old(processedSections) ==> nodes == FixNodes(Pass(old(nodes)))
    {
      if processedSections {
        return;
      }
      MarkHeadings();
      FixLinks();
      processedSections := true;
    }

    /** Lines 42-104: `headings.forEach`, heading by heading. */
    method MarkHeadings()
      requires Valid()
      modifies this
      ensures Valid() && nodes == Pass(old(nodes)) && processedSections == old(processedSections)
    {
      var i := 0;
      while i < |nodes|
        invariant 0 <= i <= |nodes|
        invariant nodes[..i] + Pass(nodes[i..]) == Pass(old(nodes))
        invariant processedSections == old(processedSections)
        decreases |nodes| - i
      {
        if nodes[i].Heading? && !nodes[i].processed {
          i := ProcessHeading(i);
        } else {
          var before := nodes;
          PassAtOther(before, i);
          Regroup(before[..i], [before[i]], before[i + 1..], nodes, i + 1);
          StepDone(before[..i], [before[i]], before[i + 1..]);
          i := i + 1;
        }
      }
      assert nodes[i..] == [];
      assert nodes == Pass(old(nodes));
      PassWellFormed(old(nodes));
    }

    /**
     * The `forEach` callback for an unmarked heading at `i` (lines 46-102):
     * mark it, add the icon, and wrap the following siblings unless a
     * section already follows. `next` is the position after its section.
     */
    method ProcessHeading(i: nat) returns (next: nat)
      requires i < |nodes| && nodes[i].Heading? && !nodes[i].processed
      modifies this
      ensures i < next <= |nodes| && |nodes| - next < |old(nodes)| - i
      ensures nodes[..next] + Pass(nodes[next..]) == old(nodes)[..i] + Pass(old(nodes)[i..])
      ensures processedSections == old(processedSections)
    {
      var before := nodes;
      var n := nodes[i];
      var h := n.(processed := true, icon := if n.icon.None? then Some(Down) else n.icon, clickable := true);
      assert h == Mark(n);
      if i + 1 < |nodes| && nodes[i + 1].Section? {
        PassAtSection(before, i);
        nodes := before[i := h];
        Regroup(before[..i], [h, before[i + 1]], before[i + 2..], nodes, i + 2);
        StepDone(before[..i], [h, before[i + 1]], before[i + 2..]);
      } else {
        // Lines 60-66: the siblings up to the next `h2`.
        var j := i + 1;
        while j < |nodes| && !nodes[j].Heading?
          invariant i + 1 <= j <= |nodes|
          invariant forall m :: i + 1 <= m < j ==> !nodes[m].Heading?
        {
          j := j + 1;
        }
        PassAtWrap(before, i, j);
        var wrapper := Section(false, before[i + 1..j]);
        nodes := before[..i] + [h, wrapper] + before[j..];
        Regroup(before[..i], [h, wrapper], before[j..], nodes, i + 2);
        StepDone(before[..i], [h, wrapper], before[j..]);
      }
      next := i + 2;
    }

    /** Lines 107-113: every link without a target, node by node. */
    method FixLinks()
      requires Valid()
      modifies this
      ensures Valid() && nodes == FixNodes(old(nodes)) && processedSections == old(processedSections)
    {
      var p := 0;
      while p < |nodes|
        invariant 0 <= p <= |nodes| == |old(nodes)|
        invariant forall m :: 0 <= m < p ==> nodes[m] == FixNode(old(nodes)[m])
        invariant forall m :: p <= m < |nodes| ==> nodes[m] == old(nodes)[m]
        invariant processedSections == old(processedSections)
      {
        nodes := nodes[p := FixNode(nodes[p])];
        p := p + 1;
      }
      FixNodesShape(old(nodes));
      FixNodesKeeps(old(nodes));
    }

    /** A click on the node at `j`, handled by its click handler if it has one. */
    method Click(j: nat)
      requires Valid() && j < |nodes|
      modifies this
      ensures Valid()
      ensures nodes == Toggle(old(nodes), j) && processedSections == old(processedSections)
    {
      var n := nodes[j];
      if j + 1 < |nodes| && n.Heading? && n.clickable && nodes[j + 1].Section? {
        var hidden := !nodes[j + 1].hidden;
        var icon := if n.icon.Some? then Some(IconFor(hidden)) else None;
        nodes := nodes[j := n.(icon := icon)][j + 1 := nodes[j + 1].(hidden := hidden)];
        ToggleEffect(old(nodes), j);
      }
    }

    /**
     * A new `html` prop while the view stays mounted: React replaces the
     * container's children, but `processedSections` stays as it was, so a
     * later effect run leaves the new headings unprocessed. The page keeps
     * the view mounted only when a history entry is loaded while a result is
     * shown; a new search first clears the result, so the view that shows
     * its html starts afresh with `Mount`.
     */
    method Reload(parsed: seq<Node>)
      requires Plain(parsed)
      modifies this
      ensures Valid() && nodes == parsed && processedSections == old(processedSections)
    {
      nodes := parsed;
    }
  }
}
