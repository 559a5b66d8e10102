/** The already-parsed XML tree the clients walk (ElementTree's Element),
    with the two accessors they use: `find` and `iter`. */
module Xml {
  import opened Wrappers

  /** An element: its tag, its `text` (absent when the element has no
      character data before its first child) and its child elements in
      document order. Attributes and tails are not read by the clients. */
  datatype Node = Node(tag: string, text: Option<string>, children: seq<Node>)

  /** An element with text and no children. */
  function Leaf(tag: string, text: Option<string>): Node {
    Node(tag, text, [])
  }

  /** The first node of `cs` whose tag is `tag`. */
  function FindIn(cs: seq<Node>, tag: string): Option<Node> {
    if cs == [] then None
    else if cs[0].tag == tag then Some(cs[0])
    else FindIn(cs[1..], tag)
  }

  /** `FindIn` finds nothing exactly when no node carries the tag, and
      otherwise the first node that does. */
  lemma {:induction false} FindInFirst(cs: seq<Node>, tag: string)
    ensures FindIn(cs, tag).None? <==> forall i | 0 <= i < |cs| :: cs[i].tag != tag
    ensures FindIn(cs, tag).Some? ==>
      exists i | 0 <= i < |cs| ::
        cs[i] == FindIn(cs, tag).value && cs[i].tag == tag &&
        forall j | 0 <= j < i :: cs[j].tag != tag
  {
    if cs != [] && cs[0].tag != tag {
      FindInFirst(cs[1..], tag);
      assert forall i | 1 <= i < |cs| :: cs[i] == cs[1..][i - 1];
      if FindIn(cs, tag).Some? {
        var i :| 0 <= i < |cs[1..]| && cs[1..][i] == FindIn(cs, tag).value && cs[1..][i].tag == tag &&
          forall j | 0 <= j < i :: cs[1..][j].tag != tag;
        assert cs[i + 1] == FindIn(cs, tag).value;
      }
    }
  }

  /** `n.find(tag)`: the first direct child of `n` with that tag. */
  function Find(n: Node, tag: string): Option<Node> {
    FindIn(n.children, tag)
  }

  /** Looking a tag up in a concatenation looks in the left part first. */
  lemma {:induction false} FindInAppend(a: seq<Node>, b: seq<Node>, tag: string)
    ensures FindIn(a + b, tag) == if FindIn(a, tag).Some? then FindIn(a, tag) else FindIn(b, tag)
  {
    if a == [] {
      assert a + b == b;
    } else {
      assert (a + b)[0] == a[0];
      assert (a + b)[1..] == a[1..] + b;
      if a[0].tag != tag {
        FindInAppend(a[1..], b, tag);
      }
    }
  }

  /** `n.iter(tag)`: every element of the subtree rooted at `n`, `n`
      included, whose tag is `tag`, in document (pre-)order. */
  function Iter(n: Node, tag: string): (r: seq<Node>)
    ensures forall i | 0 <= i < |r| :: r[i].tag == tag
    decreases n
  {
    (if n.tag == tag then [n] else []) + IterAll(n.children, tag)
  }

  /** `Iter` over each node of `cs` in turn. */
  function IterAll(cs: seq<Node>, tag: string): (r: seq<Node>)
    ensures forall i | 0 <= i < |r| :: r[i].tag == tag
    decreases cs
  {
    if cs == [] then [] else Iter(cs[0], tag) + IterAll(cs[1..], tag)
  }

  /** Reference definition: all nodes of the subtree, in pre-order. */
  function Preorder(n: Node): seq<Node>
    decreases n
  {
    [n] + PreorderAll(n.children)
  }

  function PreorderAll(cs: seq<Node>): seq<Node>
    decreases cs
  {
    if cs == [] then [] else Preorder(cs[0]) + PreorderAll(cs[1..])
  }

  /** The nodes of `ns` with tag `tag`, order kept. */
  function Filter(ns: seq<Node>, tag: string): seq<Node> {
    if ns == [] then []
    else (if ns[0].tag == tag then [ns[0]] else []) + Filter(ns[1..], tag)
  }

  lemma {:induction false} FilterAppend(a: seq<Node>, b: seq<Node>, tag: string)
    ensures Filter(a + b, tag) == Filter(a, tag) + Filter(b, tag)
  {
    if a == [] {
      assert a + b == b;
    } else {
      var ab := a + b;
      assert ab[0] == a[0] && ab[1..] == a[1..] + b;
      var h := if a[0].tag == tag then [a[0]] else [];
      FilterAppend(a[1..], b, tag);
      assert Filter(ab, tag) == h + (Filter(a[1..], tag) + Filter(b, tag));
      assert h + (Filter(a[1..], tag) + Filter(b, tag)) == (h + Filter(a[1..], tag)) + Filter(b, tag);
    }
  }

  /** `Iter` is the pre-order traversal filtered by tag. */
  lemma {:induction false} IterIsFilteredPreorder(n: Node, tag: string)
    ensures Iter(n, tag) == Filter(Preorder(n), tag)
    decreases n
  {
    IterAllIsFilteredPreorder(n.children, tag);
    FilterAppend([n], PreorderAll(n.children), tag);
    assert Filter([n], tag) == if n.tag == tag then [n] else [];
  }

  lemma {:induction false} IterAllIsFilteredPreorder(cs: seq<Node>, tag: string)
    ensures IterAll(cs, tag) == Filter(PreorderAll(cs), tag)
    decreases cs
  {
    if cs != [] {
      IterIsFilteredPreorder(cs[0], tag);
      IterAllIsFilteredPreorder(cs[1..], tag);
      FilterAppend(Preorder(cs[0]), PreorderAll(cs[1..]), tag);
    }
  }

  lemma {:induction false} IterAllAppend(a: seq<Node>, b: seq<Node>, tag: string)
    ensures IterAll(a + b, tag) == IterAll(a, tag) + IterAll(b, tag)
  {
    if a == [] {
      assert a + b == b;
    } else {
      assert (a + b)[0] == a[0];
      assert (a + b)[1..] == a[1..] + b;
      IterAllAppend(a[1..], b, tag);
    }
  }

  /** A node whose children are all leaves with other tags contributes
      exactly itself (or nothing) to an iteration. */
  predicate Flat(n: Node, tag: string) {
    forall i | 0 <= i < |n.children| :: n.children[i].tag != tag && n.children[i].children == []
  }

  lemma {:induction false} IterFlat(n: Node, tag: string)
    requires Flat(n, tag)
    ensures Iter(n, tag) == if n.tag == tag then [n] else []
  {
    IterAllLeaves(n.children, tag);
  }

  lemma {:induction false} IterAllLeaves(cs: seq<Node>, tag: string)
    requires forall i | 0 <= i < |cs| :: cs[i].tag != tag && cs[i].children == []
    ensures IterAll(cs, tag) == []
  {
    if cs != [] {
      assert IterAll(cs[0].children, tag) == [];
      IterAllLeaves(cs[1..], tag);
    }
  }

  /** Iterating over a list of flat records with the records' own tag
      yields exactly that list, in order. */
  lemma {:induction false} IterAllRecords(cs: seq<Node>, tag: string)
    requires forall i | 0 <= i < |cs| :: cs[i].tag == tag && Flat(cs[i], tag)
    ensures IterAll(cs, tag) == cs
  {
    if cs != [] {
      IterFlat(cs[0], tag);
      IterAllRecords(cs[1..], tag);
      assert cs == [cs[0]] + cs[1..];
    }
  }

  /** One child a writer may put into a record element: its tag, its text,
      and whether it is written at all. */
  datatype Entry = Entry(tag: string, text: Option<string>, kept: bool)

  /** The leaf children a table of entries produces, in table order. */
  function Present(es: seq<Entry>): (cs: seq<Node>)
    ensures forall i | 0 <= i < |cs| :: cs[i].children == []
    ensures forall i | 0 <= i < |cs| :: exists j | 0 <= j < |es| :: cs[i].tag == es[j].tag
  {
    if es == [] then []
    else
      var rest := Present(es[1..]);
      assert forall i | 0 <= i < |rest| :: exists j | 1 <= j < |es| :: rest[i].tag == es[j].tag by {
        forall i | 0 <= i < |rest| ensures exists j | 1 <= j < |es| :: rest[i].tag == es[j].tag {
          var j :| 0 <= j < |es[1..]| && rest[i].tag == es[1..][j].tag;
          assert es[1..][j] == es[j + 1];
        }
      }
      (if es[0].kept then [Leaf(es[0].tag, es[0].text)] else []) + rest
  }

  /** In a table whose tags are distinct, looking up an entry's tag finds
      that entry's leaf, or nothing when it was not written. */
  lemma {:induction false} FindPresent(es: seq<Entry>, k: nat)
    requires k < |es|
    requires forall j | 0 <= j < |es| && j != k :: es[j].tag != es[k].tag
    ensures FindIn(Present(es), es[k].tag) == if es[k].kept then Some(Leaf(es[k].tag, es[k].text)) else None
  {
    var head := if es[0].kept then [Leaf(es[0].tag, es[0].text)] else [];
    FindInAppend(head, Present(es[1..]), es[k].tag);
    if k > 0 {
      assert forall j | 0 <= j < |es[1..]| && j != k - 1 :: es[1..][j] == es[j + 1];
      FindPresent(es[1..], k - 1);
    } else {
      assert forall j | 0 <= j < |es[1..]| :: es[1..][j] == es[j + 1];
      AbsentTag(es[1..], es[k].tag);
    }
  }

  /** A tag no entry carries is not found. */
  lemma {:induction false} AbsentTag(es: seq<Entry>, t: string)
    requires forall j | 0 <= j < |es| :: es[j].tag != t
    ensures FindIn(Present(es), t) == None
  {
    if es != [] {
      var head := if es[0].kept then [Leaf(es[0].tag, es[0].text)] else [];
      FindInAppend(head, Present(es[1..]), t);
      assert forall j | 0 <= j < |es[1..]| :: es[1..][j] == es[j + 1];
      AbsentTag(es[1..], t);
    }
  }

  /** No tag occurs twice. */
  predicate Distinct(tags: seq<string>) {
    forall i, j | 0 <= i < j < |tags| :: tags[i] != tags[j]
  }

  /** `FindPresent` for a table laid out along a list of distinct tags. */
  lemma FindEntry(es: seq<Entry>, tags: seq<string>, k: nat)
    requires |es| == |tags| && k < |es|
    requires forall i | 0 <= i < |es| :: es[i].tag == tags[i]
    requires Distinct(tags)
    ensures FindIn(Present(es), tags[k]) == if es[k].kept then Some(Leaf(tags[k], es[k].text)) else None
  {
    assert forall j | 0 <= j < |es| && j != k :: tags[j] != tags[k] by {
      forall j | 0 <= j < |es| && j != k ensures tags[j] != tags[k] {
        if j < k { assert tags[j] != tags[k]; } else { assert tags[k] != tags[j]; }
      }
    }
    FindPresent(es, k);
  }
}
