/**
 * The builder's test cases: their documents as event streams and trees, the
 * event loop of the fragment test, and what each test asserts, proved.
 *
 * The documents are stated for any character data in the places where
 * createDomString has text; the tests' own texts are one instance
 * (CreateDomTexts), and only the trimming of those texts is worked out
 * on the concrete strings.
 */
module BuilderTest {
  import opened Wrappers
  import opened Events
  import opened Dom
  import opened TrimPolicy
  import opened DomBuilder

  /** The character data of createDomString's document, in document order. */
  datatype Texts = Texts(rootLead: string, el1: string, beforeEl2: string, el2Lead: string,
                         el3: string, el2Tail: string, rootTail: string)

  /** The texts createDomString writes: indentation and newlines, and the contents of el1 and el3. */
  function CreateDomTexts(): Texts {
    Texts("\n ", " element1\n ", "\n ", "\n  ", "element3", "\n ", "\n")
  }

  /**
   * The events the tokenizer reports for createDomString's document: a root
   * with a text-only child el1 and a child el2 that carries an attribute and
   * holds el3.
   */
  function DomEvents(t: Texts): seq<Event> {
    [ StartTag("root", []), Text(t.rootLead),
      StartTag("el1", []), Text(t.el1), EndTag("el1"), Text(t.beforeEl2),
      StartTag("el2", [("att2", "attribute2")]), Text(t.el2Lead),
      StartTag("el3", [("att3", "attribute3")]), Text(t.el3), EndTag("el3"), Text(t.el2Tail),
      EndTag("el2"), Text(t.rootTail),
      EndTag("root") ]
  }

  function CreateDomString(): seq<Event> {
    DomEvents(CreateDomTexts())
  }

  /** The document parsed on its own: the root at 1, its end tag at 15. */
  function StandaloneDocument(t: Texts): seq<Event> {
    [StartDocument] + DomEvents(t) + [EndDocument]
  }

  /** The document nested inside <newRoot><configuration>...</configuration></newRoot>: the root at 3, its end tag at 17. */
  function EmbeddedDocument(t: Texts): seq<Event> {
    [StartDocument, StartTag("newRoot", []), StartTag("configuration", [])]
    + DomEvents(t)
    + [Text("\n"), EndTag("configuration"), EndTag("newRoot"), EndDocument]
  }

  /** "<newRoot>" followed by the document (root at 2, its end tag at 16): newRoot is never closed. */
  function UnclosedDocument(t: Texts): seq<Event> {
    [StartDocument, StartTag("newRoot", [])] + DomEvents(t) + [Text("\n"), EndDocument]
  }

  /** The tree the tests expect, assembled by hand. */
  function CreateExpectedDom(): Node {
    var el1 := SetValue(NewNode("el1"), "element1");
    var el3 := SetValue(SetAttribute(NewNode("el3"), "att3", "attribute3"), "element3");
    var el2 := AddChild(SetAttribute(NewNode("el2"), "att2", "attribute2"), el3);
    AddChild(AddChild(NewNode("root"), el1), el2)
  }

  /** The tree the document with texts `t` should build: each element's value is its own text under the policy. */
  function TreeOf(t: Texts, trim: bool): Node {
    var el1 := Node("el1", Resolve(Some(t.el1), trim), map[], []);
    var el3 := Node("el3", Resolve(Some(t.el3), trim), map["att3" := "attribute3"], []);
    var el2 := Node("el2", Resolve(Some(t.el2Lead + t.el2Tail), trim), map["att2" := "attribute2"], [el3]);
    Node("root", Resolve(Some(t.rootLead + t.beforeEl2 + t.rootTail), trim), map[], [el1, el2])
  }

  /** One attribute pair gives the one-entry map. */
  lemma SingleAttribute(name: string, value: string)
    ensures AttributeMap([(name, value)]) == map[name := value]
  {
    assert [(name, value)][..0] == [];
  }

  lemma El3Built(t: Texts, trim: bool)
    ensures ParseElement(DomEvents(t), 8, trim) == Ok(Built(TreeOf(t, trim).children[1].children[0], 10))
  {
    var ev := DomEvents(t);
    var f := Frame("el3", map["att3" := "attribute3"], None, []);
    SingleAttribute("att3", "attribute3");
    TextStep(ev, 9, f, trim, t.el3);
    EndTagStep(ev, 10, f.(text := Some(t.el3)), trim);
  }

  lemma El1Built(t: Texts, trim: bool)
    ensures ParseElement(DomEvents(t), 2, trim) == Ok(Built(TreeOf(t, trim).children[0], 4))
  {
    var ev := DomEvents(t);
    var f := Frame("el1", map[], None, []);
    assert AttributeMap([]) == map[];
    TextStep(ev, 3, f, trim, t.el1);
    EndTagStep(ev, 4, f.(text := Some(t.el1)), trim);
  }

  /** el2 up to its child el3: its start tag and first text. */
  lemma El2Opened(t: Texts, trim: bool)
    ensures ParseElement(DomEvents(t), 6, trim) ==
            ParseContent(DomEvents(t), 8, Frame("el2", map["att2" := "attribute2"], Some(t.el2Lead), []), trim)
  {
    SingleAttribute("att2", "attribute2");
    TextStep(DomEvents(t), 7, Frame("el2", map["att2" := "attribute2"], None, []), trim, t.el2Lead);
  }

  lemma El2Built(t: Texts, trim: bool)
    ensures ParseElement(DomEvents(t), 6, trim) == Ok(Built(TreeOf(t, trim).children[1], 12))
  {
    var ev := DomEvents(t);
    var el3 := TreeOf(t, trim).children[1].children[0];
    var f1 := Frame("el2", map["att2" := "attribute2"], Some(t.el2Lead), []);
    var f2 := f1.(children := [el3]);
    El2Opened(t, trim);
    El3Built(t, trim);
    ContentAfterChild(ev, 8, f1, trim, Built(el3, 10));
    assert f1.children + [el3] == [el3];
    TextStep(ev, 11, f2, trim, t.el2Tail);
    EndTagStep(ev, 12, f2.(text := Some(t.el2Lead + t.el2Tail)), trim);
  }

  /** The root up to its child el1: its start tag and first text. */
  lemma RootOpened(t: Texts, trim: bool)
    ensures ParseElement(DomEvents(t), 0, trim) ==
            ParseContent(DomEvents(t), 2, Frame("root", map[], Some(t.rootLead), []), trim)
  {
    assert AttributeMap([]) == map[];
    TextStep(DomEvents(t), 1, Frame("root", map[], None, []), trim, t.rootLead);
  }

  /** The root's content up to el2: its first text and el1. */
  lemma RootUpToEl2(t: Texts, trim: bool)
    ensures ParseElement(DomEvents(t), 0, trim) ==
            ParseContent(DomEvents(t), 6, Frame("root", map[], Some(t.rootLead + t.beforeEl2), [TreeOf(t, trim).children[0]]), trim)
  {
    var ev := DomEvents(t);
    var el1 := TreeOf(t, trim).children[0];
    var f1 := Frame("root", map[], Some(t.rootLead), []);
    RootOpened(t, trim);
    El1Built(t, trim);
    ContentAfterChild(ev, 2, f1, trim, Built(el1, 4));
    assert f1.children + [el1] == [el1];
    TextStep(ev, 5, f1.(children := [el1]), trim, t.beforeEl2);
  }

  /** The document's events on their own build TreeOf, stopping on the root's end tag. */
  lemma RootBuilt(t: Texts, trim: bool)
    ensures ParseElement(DomEvents(t), 0, trim) == Ok(Built(TreeOf(t, trim), 14))
  {
    var ev := DomEvents(t);
    var tree := TreeOf(t, trim);
    var f3 := Frame("root", map[], Some(t.rootLead + t.beforeEl2), [tree.children[0]]);
    var f4 := f3.(children := [tree.children[0], tree.children[1]]);
    RootUpToEl2(t, trim);
    El2Built(t, trim);
    ContentAfterChild(ev, 6, f3, trim, Built(tree.children[1], 12));
    assert f3.children + [tree.children[1]] == [tree.children[0], tree.children[1]];
    TextStep(ev, 13, f4, trim, t.rootTail);
    EndTagStep(ev, 14, f4.(text := Some(t.rootLead + t.beforeEl2 + t.rootTail)), trim);
  }

  /** Trimming the text of el1 removes the leading space and the trailing newline and space. */
  lemma TrimEl1()
    ensures Resolve(Some(" element1\n "), true) == Some("element1")
  {
    var s := " element1\n ";
    assert LeadingBlanks(s[1..]) == 0;
    assert LeadingBlanks(s) == 1;
    assert s[..|s| - 1] == " element1\n";
    assert s[..|s| - 1][..|s| - 2] == " element1";
    assert TrailingBlanks(" element1") == 0;
    assert TrailingBlanks(s) == 2;
    assert s[1..|s| - 2] == "element1";
  }

  lemma TrimEl3()
    ensures Resolve(Some("element3"), true) == Some("element3")
  {
    var s := "element3";
    assert LeadingBlanks(s) == 0 && TrailingBlanks(s) == 0;
    assert s[0..|s|] == s;
  }

  /** Under trimming, the whitespace between child elements gives root and el2 no value. */
  lemma WhitespaceOnlyHasNoValue()
    ensures Resolve(Some("\n  " + "\n "), true) == None
    ensures Resolve(Some("\n " + "\n " + "\n"), true) == None
  {
    var a := "\n  " + "\n ";
    assert forall i :: 0 <= i < |a| ==> IsBlank(a[i]);
    var b := "\n " + "\n " + "\n";
    assert forall i :: 0 <= i < |b| ==> IsBlank(b[i]);
  }

  /** The hand-made tree, written out as one value. */
  lemma ExpectedDomShape()
    ensures CreateExpectedDom() ==
            Node("root", None, map[], [
              Node("el1", Some("element1"), map[], []),
              Node("el2", None, map["att2" := "attribute2"], [
                Node("el3", Some("element3"), map["att3" := "attribute3"], [])])])
  {
    var el1 := Node("el1", Some("element1"), map[], []);
    var el3 := Node("el3", Some("element3"), map["att3" := "attribute3"], []);
    var el2 := Node("el2", None, map["att2" := "attribute2"], [el3]);
    assert map[]["att3" := "attribute3"] == map["att3" := "attribute3"];
    assert map[]["att2" := "attribute2"] == map["att2" := "attribute2"];
    assert [] + [el3] == [el3];
    assert [] + [el1] + [el2] == [el1, el2];
  }

  /** With trimming on, the tests' texts give exactly the hand-made tree. */
  lemma FixtureTreeTrimmed()
    ensures TreeOf(CreateDomTexts(), true) == CreateExpectedDom()
  {
    TrimEl1();
    TrimEl3();
    WhitespaceOnlyHasNoValue();
    ExpectedDomShape();
  }

  /** Wherever the document's events occur in a stream, the element built there is TreeOf. */
  lemma FixtureBuiltAt(ev: seq<Event>, at: nat, t: Texts, trim: bool)
    requires at + 15 <= |ev| && ev[at..at + 15] == DomEvents(t)
    ensures ev[at] == StartTag("root", [])
    ensures ParseElement(ev, at, trim) == Ok(Built(TreeOf(t, trim), at + 14))
  {
    var dom := DomEvents(t);
    RootBuilt(t, trim);
    assert dom[0..15] == dom;
    ElementIsLocal(dom, 0, trim, ev, at, 15, TreeOf(t, trim));
  }

  lemma StandaloneHolds(t: Texts)
    ensures StandaloneDocument(t)[1..16] == DomEvents(t)
  {
  }

  lemma EmbeddedHolds(t: Texts)
    ensures EmbeddedDocument(t)[3..18] == DomEvents(t)
  {
  }

  lemma UnclosedHolds(t: Texts)
    ensures UnclosedDocument(t)[2..17] == DomEvents(t)
  {
  }

  /** Whole-document mode: the standalone document builds TreeOf, stopping on the root's end tag. */
  lemma BuildStandalone(t: Texts, trim: bool)
    ensures ParseFrom(StandaloneDocument(t), 0, trim) == Ok(Built(TreeOf(t, trim), 15))
  {
    var ev := StandaloneDocument(t);
    StandaloneHolds(t);
    FixtureBuiltAt(ev, 1, t, trim);
    assert ParseFrom(ev, 0, trim) == ParseFrom(ev, 1, trim);
  }

  /** testBuildFromReader: the document builds a tree equal to the hand-made one. */
  lemma BuildFromReader()
    ensures ParseFrom(StandaloneDocument(CreateDomTexts()), 0, true).Ok?
    ensures Equals(ParseFrom(StandaloneDocument(CreateDomTexts()), 0, true).value.root, CreateExpectedDom())
  {
    BuildStandalone(CreateDomTexts(), true);
    FixtureTreeTrimmed();
    EqualsIsEquality(TreeOf(CreateDomTexts(), true), CreateExpectedDom());
  }

  /** testBuildTrimming: el1's value is "element1" with trimming on and " element1\n " with it off. */
  lemma BuildTrimming()
    ensures var r := ParseFrom(StandaloneDocument(CreateDomTexts()), 0, true);
            r.Ok? && GetChild(r.value.root, "el1").Some? && GetChild(r.value.root, "el1").value.value == Some("element1")
    ensures var r := ParseFrom(StandaloneDocument(CreateDomTexts()), 0, false);
            r.Ok? && GetChild(r.value.root, "el1").Some? && GetChild(r.value.root, "el1").value.value == Some(" element1\n ")
  {
    var t := CreateDomTexts();
    BuildStandalone(t, true);
    BuildStandalone(t, false);
    TrimEl1();
    assert FirstNamed(TreeOf(t, true).children, "el1") == 0;
    assert FirstNamed(TreeOf(t, false).children, "el1") == 0;
  }

  /**
   * The built tree keeps the document's structure: root's children are el1
   * then el2, el2 carries att2 and holds exactly el3, which carries att3
   * and the value "element3", under either policy.
   */
  lemma AttributeAndNestingFidelity(trim: bool)
    ensures var r := ParseFrom(StandaloneDocument(CreateDomTexts()), 0, trim);
            r.Ok? && |r.value.root.children| == 2
            && r.value.root.children[0].name == "el1" && r.value.root.children[1].name == "el2"
            && r.value.root.children[1].attributes == map["att2" := "attribute2"]
            && r.value.root.children[1].children == [Node("el3", Some("element3"), map["att3" := "attribute3"], [])]
  {
    BuildStandalone(CreateDomTexts(), trim);
    TrimEl3();
  }

  /** root and el2 hold only whitespace between their children: with trimming on they get no value. */
  lemma WhitespaceOnlyElementsTrimmed()
    ensures var r := ParseFrom(StandaloneDocument(CreateDomTexts()), 0, true);
            r.Ok? && r.value.root.value == None
            && GetChild(r.value.root, "el2").Some? && GetChild(r.value.root, "el2").value.value == None
  {
    var t := CreateDomTexts();
    BuildStandalone(t, true);
    WhitespaceOnlyHasNoValue();
    assert FirstNamed(TreeOf(t, true).children, "el2") == 1;
  }

  /** With trimming off, root and el2 keep the whitespace between their children verbatim. */
  lemma WhitespaceOnlyElementsVerbatim()
    ensures var r := ParseFrom(StandaloneDocument(CreateDomTexts()), 0, false);
            r.Ok? && r.value.root.value == Some("\n " + "\n " + "\n")
            && GetChild(r.value.root, "el2").Some? && GetChild(r.value.root, "el2").value.value == Some("\n  " + "\n ")
  {
    var t := CreateDomTexts();
    BuildStandalone(t, false);
    assert FirstNamed(TreeOf(t, false).children, "el2") == 1;
  }

  /** testUnclosedXml: with newRoot never closed, building the document reports an error, whatever its texts. */
  lemma UnclosedXmlFails(t: Texts, trim: bool)
    ensures ParseFrom(UnclosedDocument(t), 0, trim) == Err(ParseError(18, Unterminated("newRoot")))
  {
    var ev := UnclosedDocument(t);
    UnclosedHolds(t);
    FixtureBuiltAt(ev, 2, t, trim);
    var f := Frame("newRoot", map[], None, []);
    assert AttributeMap([]) == map[];
    assert ParseFrom(ev, 0, trim) == ParseContent(ev, 2, f, trim);
    ContentAfterChild(ev, 2, f, trim, Built(TreeOf(t, trim), 16));
    var g := f.(children := f.children + [TreeOf(t, trim)]);
    TextStep(ev, 17, g, trim, "\n");
  }

  /** What the fragment test records while it walks the embedded document. */
  datatype Observed = Observed(dom: Option<Node>, configurationClosed: bool, newRootClosed: bool, rootClosed: bool)

  const Unobserved := Observed(None, false, false, false)

  /**
   * The fragment test's event loop from cursor `j`: a "root" start tag hands
   * the parser to the builder, which leaves it on root's end tag, and the
   * loop steps past that; the end tags of configuration, newRoot and root
   * set their flags. A tokenizer failure or a build error ends the test
   * with that error.
   */
  function Drive(ev: seq<Event>, j: nat, o: Observed): Result<Observed, ParseError>
    requires j <= |ev|
    decreases |ev| - j
  {
    match At(ev, j)
    case EndDocument => Ok(o)
    case Fault => Err(ParseError(j, TokenizerFault))
    case StartTag(name, _) =>
      if name == "root" then
        (match ParseFrom(ev, j, true)
         case Err(e) => Err(e)
         case Ok(b) => Drive(ev, b.cursor + 1, o.(dom := Some(b.root))))
      else Drive(ev, j + 1, o)
    case EndTag(name) => Drive(ev, j + 1, Record(o, name))
    case _ => Drive(ev, j + 1, o)
  }

  /** The flag an end tag sets, if any. */
  function Record(o: Observed, name: string): (r: Observed)
    ensures r.dom == o.dom
    ensures r.configurationClosed == (o.configurationClosed || name == "configuration")
    ensures r.newRootClosed == (o.newRootClosed || name == "newRoot")
    ensures r.rootClosed == (o.rootClosed || name == "root")
  {
    if name == "configuration" then o.(configurationClosed := true)
    else if name == "newRoot" then o.(newRootClosed := true)
    else if name == "root" then o.(rootClosed := true)
    else o
  }

  /** The fragment test's loop over the parser's events, handing each "root" element to the builder. */
  method RunFragmentTest(ev: seq<Event>) returns (r: Result<Observed, ParseError>)
    ensures r == Drive(ev, 0, Unobserved)
  {
    var j := 0;
    var o := Unobserved;
    while At(ev, j) != EndDocument
      invariant j <= |ev|
      invariant Drive(ev, j, o) == Drive(ev, 0, Unobserved)
      decreases |ev| - j
    {
      var e := ev[j];
      if e.Fault? {
        return Err(ParseError(j, TokenizerFault));
      } else if e.StartTag? && e.name == "root" {
        var b := Build(ev, j, true);
        if b.Err? {
          return Err(b.error);
        }
        j, o := b.value.cursor + 1, o.(dom := Some(b.value.root));
      } else if e.EndTag? {
        j, o := j + 1, Record(o, e.name);
      } else {
        j := j + 1;
      }
    }
    return Ok(o);
  }

  /** Fragment mode on the embedded document: the root element is built and the cursor left on its end tag. */
  lemma FragmentBuild(t: Texts, trim: bool)
    ensures EmbeddedDocument(t)[17] == EndTag("root")
    ensures ParseFrom(EmbeddedDocument(t), 3, trim) == Ok(Built(TreeOf(t, trim), 17))
    ensures ParseFrom(StandaloneDocument(t), 0, trim) == Ok(Built(TreeOf(t, trim), 15))
  {
    var ev := EmbeddedDocument(t);
    EmbeddedHolds(t);
    FixtureBuiltAt(ev, 3, t, trim);
    assert ParseFrom(ev, 3, trim) == ParseElement(ev, 3, trim);
    BuildStandalone(t, trim);
  }

  /** The loop skips the start of the document and the start tags of newRoot and configuration. */
  lemma DriveToRoot(t: Texts)
    ensures Drive(EmbeddedDocument(t), 0, Unobserved) == Drive(EmbeddedDocument(t), 3, Unobserved)
  {
    var ev := EmbeddedDocument(t);
    assert Drive(ev, 0, Unobserved) == Drive(ev, 1, Unobserved);
    assert Drive(ev, 1, Unobserved) == Drive(ev, 2, Unobserved);
  }

  /** At root's start tag the builder takes over and the loop resumes after root's end tag. */
  lemma DriveOverRoot(t: Texts)
    ensures Drive(EmbeddedDocument(t), 3, Unobserved) == Drive(EmbeddedDocument(t), 18, Unobserved.(dom := Some(TreeOf(t, true))))
  {
    FragmentBuild(t, true);
  }

  /** After root, the loop sees the end tags of configuration and newRoot, then the end of the document. */
  lemma DriveToEnd(t: Texts, o: Observed)
    ensures Drive(EmbeddedDocument(t), 18, o) == Ok(o.(configurationClosed := true, newRootClosed := true))
  {
    var ev := EmbeddedDocument(t);
    assert Drive(ev, 18, o) == Drive(ev, 19, o);
    assert Drive(ev, 19, o) == Drive(ev, 20, o.(configurationClosed := true));
    assert Drive(ev, 20, o.(configurationClosed := true)) == Drive(ev, 21, o.(configurationClosed := true, newRootClosed := true));
  }

  /** The fragment test's loop over the embedded document, whatever its texts. */
  lemma DriveEmbedded(t: Texts)
    ensures Drive(EmbeddedDocument(t), 0, Unobserved) == Ok(Observed(Some(TreeOf(t, true)), true, true, false))
  {
    DriveToRoot(t);
    DriveOverRoot(t);
    DriveToEnd(t, Unobserved.(dom := Some(TreeOf(t, true))));
  }

  /**
   * testBuildFromXpp3Dom: the loop ends with the expected tree, has seen the
   * end tags of configuration and newRoot, and never saw root's end tag.
   */
  lemma BuildFromXpp3Dom()
    ensures var r := Drive(EmbeddedDocument(CreateDomTexts()), 0, Unobserved);
            r.Ok? && r.value.dom.Some? && Equals(r.value.dom.value, CreateExpectedDom())
            && !r.value.rootClosed && r.value.configurationClosed && r.value.newRootClosed
  {
    DriveEmbedded(CreateDomTexts());
    FixtureTreeTrimmed();
    EqualsIsEquality(CreateExpectedDom(), CreateExpectedDom());
  }
}
