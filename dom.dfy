/**
 * The tree node (Xpp3Dom) as a value: a name, an optional text value (absent
 * is distinct from the empty string), an attribute mapping and an ordered
 * list of children. The non-owning parent reference is not part of it.
 */
module Dom {
  import opened Wrappers

  datatype Node = Node(
    name: string,
    value: Option<string>,
    attributes: map<string, string>,
    children: seq<Node>)

  /** A node with the given name, no value, no attributes and no children. */
  function NewNode(name: string): (r: Node)
    ensures r.name == name && r.value.None? && |r.attributes| == 0 && |r.children| == 0
  {
    Node(name, None, map[], [])
  }

  /** Gives the node a value (present, even when empty); nothing else changes. */
  function SetValue(n: Node, v: string): (r: Node)
    ensures r.value == Some(v)
    ensures r.name == n.name && r.attributes == n.attributes && r.children == n.children
  {
    n.(value := Some(v))
  }

  /** Sets one attribute; an existing key is overwritten, every other attribute is kept. */
  function SetAttribute(n: Node, key: string, v: string): (r: Node)
    ensures r.attributes.Keys == n.attributes.Keys + {key} && r.attributes[key] == v
    ensures forall k :: k in n.attributes && k != key ==> r.attributes[k] == n.attributes[k]
    ensures r.name == n.name && r.value == n.value && r.children == n.children
  {
    n.(attributes := n.attributes[key := v])
  }

  /** Appends `c` as the last child of `n`: the earlier children keep their order. */
  function AddChild(n: Node, c: Node): (r: Node)
    ensures |r.children| == |n.children| + 1 && r.children[..|n.children|] == n.children
    ensures r.children[|n.children|] == c
    ensures r.name == n.name && r.value == n.value && r.attributes == n.attributes
  {
    n.(children := n.children + [c])
  }

  /** Index of the first node in `cs` named `name`, or |cs| when there is none. */
  function FirstNamed(cs: seq<Node>, name: string): (i: nat)
    ensures i <= |cs|
    ensures i < |cs| ==> cs[i].name == name
    ensures forall k :: 0 <= k < i ==> cs[k].name != name
  {
    if cs == [] then 0
    else if cs[0].name == name then 0
    else 1 + FirstNamed(cs[1..], name)
  }

  /** The first child of `n` with the given name, if any. */
  function GetChild(n: Node, name: string): (r: Option<Node>)
    ensures r.None? <==> forall k :: 0 <= k < |n.children| ==> n.children[k].name != name
    ensures r.Some? ==> exists i :: 0 <= i < |n.children| && n.children[i] == r.value && r.value.name == name
                                    && forall k :: 0 <= k < i ==> n.children[k].name != name
  {
    var i := FirstNamed(n.children, name);
    if i < |n.children| then Some(n.children[i]) else None
  }

  /** Appending a child leaves earlier matches in place and makes the new child findable. */
  lemma GetChildAfterAddChild(n: Node, c: Node)
    ensures GetChild(AddChild(n, c), c.name) ==
              if GetChild(n, c.name).Some? then GetChild(n, c.name) else Some(c)
  {
    var cs := AddChild(n, c).children;
    assert forall k :: 0 <= k < |n.children| ==> cs[k] == n.children[k];
    var i := FirstNamed(n.children, c.name);
    var j := FirstNamed(cs, c.name);
    if i < |n.children| {
      assert j == i;
    } else {
      assert cs[|n.children|] == c;
      assert j == |n.children|;
    }
  }

  /** The attribute mapping as a set of (name, value) pairs: insertion order does not matter. */
  function AttributePairs(n: Node): set<(string, string)> {
    set k | k in n.attributes :: (k, n.attributes[k])
  }

  /**
   * Structural equality of two trees: equal names, equal values (absent
   * differs from empty), equal attribute sets, and pairwise equal children in
   * the same order.
   */
  predicate Equals(a: Node, b: Node)
    decreases a
  {
    && a.name == b.name
    && a.value == b.value
    && AttributePairs(a) == AttributePairs(b)
    && |a.children| == |b.children|
    && forall i :: 0 <= i < |a.children| ==> Equals(a.children[i], b.children[i])
  }

  lemma AttributePairsDetermineMap(a: Node, b: Node)
    requires AttributePairs(a) == AttributePairs(b)
    ensures a.attributes == b.attributes
  {
    forall k | k in a.attributes
      ensures k in b.attributes && b.attributes[k] == a.attributes[k]
    {
      assert (k, a.attributes[k]) in AttributePairs(b);
    }
    forall k | k in b.attributes
      ensures k in a.attributes
    {
      assert (k, b.attributes[k]) in AttributePairs(a);
    }
  }

  /** Structural equality of trees coincides with equality of the values. */
  lemma {:induction false} EqualsIsEquality(a: Node, b: Node)
    ensures Equals(a, b) <==> a == b
    decreases a
  {
    if a == b {
      forall i | 0 <= i < |a.children|
        ensures Equals(a.children[i], b.children[i])
      {
        EqualsIsEquality(a.children[i], b.children[i]);
      }
    }
    if Equals(a, b) {
      AttributePairsDetermineMap(a, b);
      forall i | 0 <= i < |a.children|
        ensures a.children[i] == b.children[i]
      {
        EqualsIsEquality(a.children[i], b.children[i]);
      }
    }
  }
}
