/**
 * The DOM builder (Xpp3DomBuilder): consumes tokenizer events from a cursor
 * and produces one tree node, either for a whole document or for the element
 * under the cursor of a tokenizer that already sits inside a larger document.
 *
 * `ParseElement` / `ParseContent` define what is built, by recursive descent;
 * `Build` is the builder's loop over an explicit stack of open elements and
 * is proved to compute exactly that.
 */
module DomBuilder {
  import opened Wrappers
  import opened Events
  import opened Dom
  import opened TrimPolicy

  datatype ErrorKind =
    | NoRootElement
    | NoOpenElement
    | MismatchedEndTag(expected: string, found: string)
    | Unterminated(open: string)
    | TokenizerFault

  /** A parse error, with the cursor of the offending event. */
  datatype ParseError = ParseError(at: nat, kind: ErrorKind)

  /** A built tree, and the cursor left on the end tag of its root. */
  datatype Built = Built(root: Node, cursor: nat)

  /** An element still open on the construction stack, with the character data seen so far. */
  datatype Frame = Frame(
    name: string,
    attributes: map<string, string>,
    text: Option<string>,
    children: seq<Node>)

  /** The attribute names of a start tag. */
  ghost function Names(attrs: seq<(string, string)>): set<string> {
    set i | 0 <= i < |attrs| :: attrs[i].0
  }

  /** No later attribute of `attrs` has the name of attribute `i`. */
  ghost predicate LastWithName(attrs: seq<(string, string)>, i: nat)
    requires i < |attrs|
  {
    forall j :: i < j < |attrs| ==> attrs[j].0 != attrs[i].0
  }

  /** Attributes of a start tag as a mapping, set in order. */
  function AttributeMap(attrs: seq<(string, string)>): map<string, string>
    decreases |attrs|
  {
    if attrs == [] then map[]
    else AttributeMap(attrs[..|attrs| - 1])[attrs[|attrs| - 1].0 := attrs[|attrs| - 1].1]
  }

  /** Every attribute name of the start tag is copied, and nothing else is. */
  lemma {:induction false} AttributeMapKeys(attrs: seq<(string, string)>)
    ensures AttributeMap(attrs).Keys == Names(attrs)
    decreases |attrs|
  {
    if attrs != [] {
      var last := attrs[|attrs| - 1];
      var init := attrs[..|attrs| - 1];
      AttributeMapKeys(init);
      forall k | k in Names(attrs) ensures k in Names(init) + {last.0} {
        var i :| 0 <= i < |attrs| && attrs[i].0 == k;
        if i < |init| { assert init[i] == attrs[i]; }
      }
      forall k | k in Names(init) ensures k in Names(attrs) {
        var i :| 0 <= i < |init| && init[i].0 == k;
        assert attrs[i] == init[i];
      }
    }
  }

  /** Each attribute name is mapped to the value of its last occurrence in the start tag. */
  lemma {:induction false} AttributeMapValue(attrs: seq<(string, string)>, i: nat)
    requires i < |attrs| && LastWithName(attrs, i)
    ensures attrs[i].0 in AttributeMap(attrs) && AttributeMap(attrs)[attrs[i].0] == attrs[i].1
    decreases |attrs|
  {
    var last := attrs[|attrs| - 1];
    var init := attrs[..|attrs| - 1];
    if i < |init| {
      assert attrs[i].0 != last.0;
      assert init[i] == attrs[i];
      assert LastWithName(init, i) by {
        forall j | i < j < |init| ensures init[j].0 != init[i].0 {
          assert init[j] == attrs[j];
        }
      }
      AttributeMapValue(init, i);
    }
  }

  /** The node an open element becomes when its end tag is reached. */
  function Close(f: Frame, trim: bool): Node {
    Node(f.name, Resolve(f.text, trim), f.attributes, f.children)
  }

  /** The reference parse from cursor `i`: the start-of-document marker is skipped, then one element is built. */
  function ParseFrom(ev: seq<Event>, i: nat, trim: bool): (r: Result<Built, ParseError>)
    requires i <= |ev|
    ensures r.Ok? ==> i < r.value.cursor < |ev|
    decreases |ev| - i
  {
    match At(ev, i)
    case StartDocument => ParseFrom(ev, i + 1, trim)
    case StartTag(_, _) => ParseElement(ev, i, trim)
    case EndDocument => Err(ParseError(i, NoRootElement))
    case Fault => Err(ParseError(i, TokenizerFault))
    case _ => Err(ParseError(i, NoOpenElement))
  }

  /** The element whose start tag is under cursor `i`. */
  function ParseElement(ev: seq<Event>, i: nat, trim: bool): (r: Result<Built, ParseError>)
    requires i < |ev| && ev[i].StartTag?
    ensures r.Ok? ==> i < r.value.cursor < |ev|
    decreases |ev| - i, 0
  {
    ParseContent(ev, i + 1, Frame(ev[i].name, AttributeMap(ev[i].attributes), None, []), trim)
  }

  /** The rest of the open element `f`, from cursor `j` up to and including its end tag. */
  function ParseContent(ev: seq<Event>, j: nat, f: Frame, trim: bool): (r: Result<Built, ParseError>)
    requires j <= |ev|
    ensures r.Ok? ==> j <= r.value.cursor < |ev|
    decreases |ev| - j, 1
  {
    match At(ev, j)
    case StartDocument => ParseContent(ev, j + 1, f, trim)
    case Text(s) => ParseContent(ev, j + 1, f.(text := Accumulate(f.text, s)), trim)
    case StartTag(_, _) =>
      (match ParseElement(ev, j, trim)
       case Err(e) => Err(e)
       case Ok(child) => ParseContent(ev, child.cursor + 1, f.(children := f.children + [child.root]), trim))
    case EndTag(name) =>
      if name == f.name then Ok(Built(Close(f, trim), j))
      else Err(ParseError(j, MismatchedEndTag(f.name, name)))
    case EndDocument => Err(ParseError(j, Unterminated(f.name)))
    case Fault => Err(ParseError(j, TokenizerFault))
  }

  /** `stack` with `child` appended to the children of its top frame. */
  function Adopt(stack: seq<Frame>, child: Node): (s: seq<Frame>)
    requires |stack| > 0
    ensures |s| == |stack|
  {
    var top := stack[|stack| - 1];
    stack[..|stack| - 1] + [top.(children := top.children + [child])]
  }

  /**
   * What the builder goes on to produce from cursor `j` with the open
   * elements `stack` (outermost first): the top element is finished, linked
   * into the one below it, and so on down to the root.
   */
  ghost function Resume(ev: seq<Event>, j: nat, stack: seq<Frame>, trim: bool): Result<Built, ParseError>
    requires j <= |ev| && |stack| > 0
    decreases |stack|
  {
    match ParseContent(ev, j, stack[|stack| - 1], trim)
    case Err(e) => Err(e)
    case Ok(b) =>
      if |stack| == 1 then Ok(b)
      else Resume(ev, b.cursor + 1, Adopt(stack[..|stack| - 1], b.root), trim)
  }

  /** Copies the attributes of a start tag into a fresh mapping, in order. */
  method CopyAttributes(attrs: seq<(string, string)>) returns (m: map<string, string>)
    ensures m == AttributeMap(attrs)
  {
    m := map[];
    for i := 0 to |attrs|
      invariant m == AttributeMap(attrs[..i])
    {
      assert attrs[..i + 1][..i] == attrs[..i];
      m := m[attrs[i].0 := attrs[i].1];
    }
    assert attrs[..|attrs|] == attrs;
  }

  /** A start tag under `j` opens a new element on top of the stack. */
  lemma ResumeStartTag(ev: seq<Event>, j: nat, stack: seq<Frame>, trim: bool)
    requires j < |ev| && ev[j].StartTag? && |stack| > 0
    ensures Resume(ev, j, stack, trim) ==
            Resume(ev, j + 1, stack + [Frame(ev[j].name, AttributeMap(ev[j].attributes), None, [])], trim)
  {
    var s' := stack + [Frame(ev[j].name, AttributeMap(ev[j].attributes), None, [])];
    assert s'[..|s'| - 1] == stack;
    match ParseElement(ev, j, trim)
    case Err(_) =>
    case Ok(child) =>
      var top := stack[|stack| - 1];
      var adopted := Adopt(stack, child.root);
      assert adopted[..|adopted| - 1] == stack[..|stack| - 1];
      assert adopted[|adopted| - 1] == top.(children := top.children + [child.root]);
  }

  /** Character data under `j` goes to the buffer of the element on top of the stack. */
  lemma ResumeText(ev: seq<Event>, j: nat, stack: seq<Frame>, trim: bool)
    requires j < |ev| && ev[j].Text? && |stack| > 0
    ensures var top := stack[|stack| - 1];
            Resume(ev, j, stack, trim) ==
            Resume(ev, j + 1, stack[..|stack| - 1] + [top.(text := Accumulate(top.text, ev[j].text))], trim)
  {
    var top := stack[|stack| - 1];
    var s' := stack[..|stack| - 1] + [top.(text := Accumulate(top.text, ev[j].text))];
    assert s'[..|s'| - 1] == stack[..|stack| - 1];
  }

  /** The end tag of the element on top of the stack closes it and links it into the one below. */
  lemma ResumeEndTag(ev: seq<Event>, j: nat, stack: seq<Frame>, trim: bool)
    requires j < |ev| && |stack| > 0 && ev[j] == EndTag(stack[|stack| - 1].name)
    ensures var node := Close(stack[|stack| - 1], trim);
            Resume(ev, j, stack, trim) ==
            if |stack| == 1 then Ok(Built(node, j)) else Resume(ev, j + 1, Adopt(stack[..|stack| - 1], node), trim)
  {
  }

  /**
   * The builder loop: a stack of open elements, each with its text buffer.
   * A start tag pushes a new element, text is appended to the top element's
   * buffer, an end tag pops the top element, resolves its value and links it
   * into the element below; the loop stops when the stack becomes empty, and
   * reports an error at the end of the document while elements are open.
   */
  method Build(ev: seq<Event>, start: nat, trim: bool) returns (r: Result<Built, ParseError>)
    requires start <= |ev|
    ensures r == ParseFrom(ev, start, trim)
    ensures r.Ok? ==> start < r.value.cursor < |ev| && ev[r.value.cursor] == EndTag(r.value.root.name)
  {
    var j := start;
    var stack: seq<Frame> := [];
    while true
      invariant j <= |ev|
      invariant stack == [] ==> ParseFrom(ev, j, trim) == ParseFrom(ev, start, trim)
      invariant stack != [] ==> Resume(ev, j, stack, trim) == ParseFrom(ev, start, trim)
      decreases |ev| - j
    {
      match At(ev, j)
      case StartDocument =>
        j := j + 1;
      case StartTag(name, attrs) =>
        if stack != [] {
          ResumeStartTag(ev, j, stack, trim);
        }
        var m := CopyAttributes(attrs);
        stack := stack + [Frame(name, m, None, [])];
        j := j + 1;
      case Text(s) =>
        if stack == [] {
          return Err(ParseError(j, NoOpenElement));
        }
        ResumeText(ev, j, stack, trim);
        var top := stack[|stack| - 1];
        stack := stack[..|stack| - 1] + [top.(text := Accumulate(top.text, s))];
        j := j + 1;
      case EndTag(name) =>
        if stack == [] {
          return Err(ParseError(j, NoOpenElement));
        }
        var top := stack[|stack| - 1];
        if name != top.name {
          return Err(ParseError(j, MismatchedEndTag(top.name, name)));
        }
        ResumeEndTag(ev, j, stack, trim);
        var node := Close(top, trim);
        if |stack| == 1 {
          ghost var s := BuildStopsOnMatchingEndTag(ev, start, trim);
          return Ok(Built(node, j));
        }
        stack := Adopt(stack[..|stack| - 1], node);
        j := j + 1;
      case EndDocument =>
        if stack == [] {
          return Err(ParseError(j, NoRootElement));
        }
        return Err(ParseError(j, Unterminated(stack[|stack| - 1].name)));
      case Fault =>
        return Err(ParseError(j, TokenizerFault));
    }
  }

  /**
   * The content of an open element ends on an end tag carrying the element's
   * name, and the events in between are balanced: the nesting depth never
   * drops below zero and is back at zero there.
   */
  lemma {:induction false} ContentBalanced(ev: seq<Event>, j: nat, f: Frame, trim: bool)
    requires j <= |ev| && ParseContent(ev, j, f, trim).Ok?
    ensures var b := ParseContent(ev, j, f, trim).value;
            && b.root.name == f.name
            && ev[b.cursor] == EndTag(f.name)
            && Depth(ev, j, b.cursor) == 0
            && forall k :: j <= k <= b.cursor ==> Depth(ev, j, k) >= 0
    decreases |ev| - j, 1
  {
    var e := ParseContent(ev, j, f, trim).value.cursor;
    match At(ev, j)
    case StartDocument =>
      ContentBalanced(ev, j + 1, f, trim);
      forall k | j < k <= e ensures Depth(ev, j, k) == Depth(ev, j + 1, k) {
        DepthSplit(ev, j, j + 1, k);
      }
    case Text(s) =>
      ContentBalanced(ev, j + 1, f.(text := Accumulate(f.text, s)), trim);
      forall k | j < k <= e ensures Depth(ev, j, k) == Depth(ev, j + 1, k) {
        DepthSplit(ev, j, j + 1, k);
      }
    case StartTag(_, _) =>
      var child := ParseElement(ev, j, trim).value;
      var f' := f.(children := f.children + [child.root]);
      ElementBalanced(ev, j, trim);
      ContentBalanced(ev, child.cursor + 1, f', trim);
      forall k | child.cursor < k <= e
        ensures Depth(ev, j, k) == Depth(ev, child.cursor + 1, k)
      {
        DepthSplit(ev, j, child.cursor + 1, k);
      }
    case EndTag(_) =>
  }

  /**
   * A successfully built element ends on the end tag that matches its start
   * tag (Element Type Match, section 3.1 of XML 1.0), and the node is named
   * after that tag.
   */
  lemma {:induction false} ElementBalanced(ev: seq<Event>, i: nat, trim: bool)
    requires i < |ev| && ev[i].StartTag? && ParseElement(ev, i, trim).Ok?
    ensures var b := ParseElement(ev, i, trim).value;
            b.root.name == ev[i].name && Matches(ev, i, b.cursor)
    decreases |ev| - i, 0
  {
    var f := Frame(ev[i].name, AttributeMap(ev[i].attributes), None, []);
    var e := ParseElement(ev, i, trim).value.cursor;
    ContentBalanced(ev, i + 1, f, trim);
    assert Depth(ev, i, i + 1) == 1;
    forall k | i < k <= e ensures Depth(ev, i, k) > 0 {
      DepthSplit(ev, i, i + 1, k);
    }
    DepthSplit(ev, i, i + 1, e);
  }

  /**
   * Whatever cursor a build starts from, a result is a tree whose root is
   * the first element there: `s` is the first event at or after `start`
   * that is not the start-of-document marker, it is a start tag, and the
   * cursor the build returns sits on that tag's matching end tag.
   */
  lemma {:induction false} BuildStopsOnMatchingEndTag(ev: seq<Event>, start: nat, trim: bool) returns (s: nat)
    requires start <= |ev| && ParseFrom(ev, start, trim).Ok?
    ensures var b := ParseFrom(ev, start, trim).value;
            start <= s < b.cursor && (forall k :: start <= k < s ==> ev[k] == StartDocument) &&
            ev[s].StartTag? && ev[s].name == b.root.name && Matches(ev, s, b.cursor)
    decreases |ev| - start
  {
    match At(ev, start)
    case StartDocument =>
      s := BuildStopsOnMatchingEndTag(ev, start + 1, trim);
    case StartTag(_, _) =>
      ElementBalanced(ev, start, trim);
      s := start;
  }

  /** When the nesting depth never returns to zero after a start tag, building that element fails. */
  lemma UnterminatedElementFails(ev: seq<Event>, s: nat, trim: bool)
    requires s < |ev| && ev[s].StartTag?
    requires forall k :: s < k <= |ev| ==> Depth(ev, s, k) > 0
    ensures ParseElement(ev, s, trim).Err?
  {
    if ParseElement(ev, s, trim).Ok? {
      ElementBalanced(ev, s, trim);
    }
  }

  lemma SliceOfSlices(ev: seq<Event>, j: nat, ev2: seq<Event>, j2: nat, n: nat, a: nat, b: nat)
    requires j + n <= |ev| && j2 + n <= |ev2| && ev2[j2..j2 + n] == ev[j..j + n] && a <= b <= n
    ensures ev2[j2 + a..(j2 + a) + (b - a)] == ev[j + a..(j + a) + (b - a)]
    ensures a < n ==> ev2[j2 + a] == ev[j + a]
  {
    var s2, s1 := ev2[j2..j2 + n], ev[j..j + n];
    forall k | a <= k < b
      ensures ev2[j2 + k] == s2[k] && ev[j + k] == s1[k]
    {
    }
    assert ev2[j2 + a..(j2 + a) + (b - a)] == s2[a..b];
    assert ev[j + a..(j + a) + (b - a)] == s1[a..b];
    if a < n {
      assert s2[a] == s1[a];
    }
  }

  /**
   * The rest of an element depends only on its own events: the same `n`
   * events at another cursor, in another stream, give the same result.
   */
  lemma {:induction false} ContentIsLocal(ev: seq<Event>, j: nat, f: Frame, trim: bool, ev2: seq<Event>, j2: nat, n: nat, root: Node)
    requires 0 < n && j + n <= |ev| && j2 + n <= |ev2| && ev2[j2..j2 + n] == ev[j..j + n]
    requires ParseContent(ev, j, f, trim) == Ok(Built(root, j + n - 1))
    ensures ParseContent(ev2, j2, f, trim) == Ok(Built(root, j2 + n - 1))
    decreases |ev| - j, 2
  {
    SliceOfSlices(ev, j, ev2, j2, n, 0, n);
    if ev[j].StartTag? {
      var child, c := ChildThenRest(ev, j, f, trim, n, root);
      ChildIsLocal(ev, j, f, trim, ev2, j2, n, root, child, c);
    } else if !ev[j].EndTag? {
      SkipIsLocal(ev, j, f, trim, ev2, j2, n, root);
    }
  }

  /** Locality across a text event or the start-of-document marker. */
  lemma {:induction false} SkipIsLocal(ev: seq<Event>, j: nat, f: Frame, trim: bool, ev2: seq<Event>, j2: nat, n: nat, root: Node)
    requires 0 < n && j + n <= |ev| && j2 + n <= |ev2| && ev2[j2..j2 + n] == ev[j..j + n]
    requires ParseContent(ev, j, f, trim) == Ok(Built(root, j + n - 1))
    requires (ev[j].Text? || ev[j].StartDocument?) && ev2[j2] == ev[j]
    ensures ParseContent(ev2, j2, f, trim) == Ok(Built(root, j2 + n - 1))
    decreases |ev| - j, 1
  {
    var f' := if ev[j].Text? then f.(text := Accumulate(f.text, ev[j].text)) else f;
    assert ParseContent(ev, j, f, trim) == ParseContent(ev, j + 1, f', trim);
    SliceOfSlices(ev, j, ev2, j2, n, 1, n);
    ContentIsLocal(ev, j + 1, f', trim, ev2, j2 + 1, n - 1, root);
  }

  /** A text event is appended to the open element's text. */
  lemma TextStep(ev: seq<Event>, j: nat, f: Frame, trim: bool, text: string)
    requires j < |ev| && ev[j] == Text(text)
    ensures ParseContent(ev, j, f, trim) == ParseContent(ev, j + 1, f.(text := Accumulate(f.text, text)), trim)
  {
  }

  /** The end tag of the open element finishes it, with the cursor left on that tag. */
  lemma EndTagStep(ev: seq<Event>, j: nat, f: Frame, trim: bool)
    requires j < |ev| && ev[j] == EndTag(f.name)
    ensures ParseContent(ev, j, f, trim) == Ok(Built(Close(f, trim), j))
  {
  }

  /** Once a child element has been built, the parent's content resumes after the child's end tag. */
  lemma ContentAfterChild(ev: seq<Event>, j: nat, f: Frame, trim: bool, child: Built)
    requires j < |ev| && ev[j].StartTag? && ParseElement(ev, j, trim) == Ok(child)
    ensures ParseContent(ev, j, f, trim) == ParseContent(ev, child.cursor + 1, f.(children := f.children + [child.root]), trim)
  {
  }

  /** Locality across a child element. */
  lemma {:induction false} ChildIsLocal(ev: seq<Event>, j: nat, f: Frame, trim: bool, ev2: seq<Event>, j2: nat, n: nat, root: Node,
                                        child: Node, c: nat)
    requires j + n <= |ev| && j2 + n <= |ev2| && ev2[j2..j2 + n] == ev[j..j + n]
    requires 0 < c < n && ev[j].StartTag? && ParseElement(ev, j, trim) == Ok(Built(child, j + c - 1))
    requires ParseContent(ev, j + c, f.(children := f.children + [child]), trim) == Ok(Built(root, j + n - 1))
    ensures ParseContent(ev2, j2, f, trim) == Ok(Built(root, j2 + n - 1))
    decreases |ev| - j, 1
  {
    SliceOfSlices(ev, j, ev2, j2, n, 0, c);
    ChildMovesOver(ev, j, trim, ev2, j2, c, f, child);
    SliceOfSlices(ev, j, ev2, j2, n, c, n);
    ContentIsLocal(ev, j + c, f.(children := f.children + [child]), trim, ev2, j2 + c, n - c, root);
  }

  /** A parent's content that starts with a child element: the child's `c` events, then the rest. */
  lemma ChildThenRest(ev: seq<Event>, j: nat, f: Frame, trim: bool, n: nat, root: Node) returns (child: Node, c: nat)
    requires 0 < n && j + n <= |ev| && ev[j].StartTag?
    requires ParseContent(ev, j, f, trim) == Ok(Built(root, j + n - 1))
    ensures 0 < c < n && ParseElement(ev, j, trim) == Ok(Built(child, j + c - 1))
    ensures ParseContent(ev, j + c, f.(children := f.children + [child]), trim) == Ok(Built(root, j + n - 1))
  {
    var b := ParseElement(ev, j, trim).value;
    child, c := b.root, b.cursor - j + 1;
    ContentAfterChild(ev, j, f, trim, b);
  }

  /** In the other stream, the parent's content also resumes right after the same child. */
  lemma {:induction false} ChildMovesOver(ev: seq<Event>, j: nat, trim: bool, ev2: seq<Event>, j2: nat, c: nat, f: Frame, child: Node)
    requires 0 < c && j + c <= |ev| && j2 + c <= |ev2| && ev2[j2..j2 + c] == ev[j..j + c]
    requires ev[j].StartTag? && ParseElement(ev, j, trim) == Ok(Built(child, j + c - 1))
    ensures ev2[j2] == ev[j]
    ensures ParseContent(ev2, j2, f, trim) == ParseContent(ev2, j2 + c, f.(children := f.children + [child]), trim)
    decreases |ev| - j, 0
  {
    ElementIsLocal(ev, j, trim, ev2, j2, c, child);
    ContentAfterChild(ev2, j2, f, trim, Built(child, j2 + c - 1));
  }

  /**
   * Fragment mode builds the same tree as a standalone build: an element
   * built from inside an enclosing document equals the element built from
   * the same `n` events anywhere else.
   */
  lemma {:induction false} ElementIsLocal(ev: seq<Event>, i: nat, trim: bool, ev2: seq<Event>, i2: nat, n: nat, root: Node)
    requires 0 < n && i + n <= |ev| && i2 + n <= |ev2| && ev2[i2..i2 + n] == ev[i..i + n]
    requires ev[i].StartTag? && ParseElement(ev, i, trim) == Ok(Built(root, i + n - 1))
    ensures ev2[i2] == ev[i]
    ensures ParseElement(ev2, i2, trim) == Ok(Built(root, i2 + n - 1))
    decreases |ev| - i - 1, 3
  {
    SliceOfSlices(ev, i, ev2, i2, n, 0, n);
    SliceOfSlices(ev, i, ev2, i2, n, 1, n);
    var f := Frame(ev[i].name, AttributeMap(ev[i].attributes), None, []);
    ContentIsLocal(ev, i + 1, f, trim, ev2, i2 + 1, n - 1, root);
  }
}
