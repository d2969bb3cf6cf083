# Xpp3DomBuilder, modelled and proved in Dafny

This project models the contract of the plexus-utils DOM builder
(`Xpp3DomBuilder`) as its test class `Xpp3DomBuilderTest` pins it down. The
builder reads the events of a pull tokenizer and turns them into a tree of
`Xpp3Dom` nodes. It has two entry points:

- a whole document read from a `Reader`;
- a fragment: the element under the cursor of a tokenizer that already sits
  inside a larger document. The builder must leave that tokenizer on the
  fragment's closing tag, so the caller can carry on.

The model has five modules:

- `Events` (events.dfy): the tokenizer is a finite sequence of events and a
  cursor into it. `Depth` counts the open elements of a slice of events.
  `Matches` states the Element Type Match constraint of section 3.1 of
  XML 1.0: the end tag that closes a start tag carries its name and is the
  first event at which the nesting depth returns to zero.
- `Dom` (dom.dfy): the node as a value, made of a name, an optional value, an
  attribute mapping and ordered children. It also has the mutators the tests
  use, `getChild`, and structural equality (`Equals`).
- `TrimPolicy` (trim.dfy): Java's `String.trim` (`Trim`), and the policy that
  turns an element's accumulated character data into its value (`Resolve`).
- `DomBuilder` (builder.dfy): the builder has two forms.
  - A recursive-descent definition (`ParseFrom`, `ParseElement`,
    `ParseContent`) says what is built.
  - The loop `Build` keeps an explicit stack of open elements, each with its
    text buffer, and is proved to compute exactly that.

  Around them are lemmas: the returned cursor is on the matching end tag, an
  unterminated element is an error, and a fragment build equals the
  standalone build of the same events.
- `BuilderTest` (builder_test.dfy): the test fixtures and the four tests.
  - The documents are event streams, stated for any character data in the
    places where `createDomString` has text.
  - `createExpectedDom` is a tree.
  - The fragment test's event loop is a method (`RunFragmentTest`) with a
    specification function (`Drive`).
  - Each test's assertions are lemmas.

The builder's parse, in both forms, returns a `Result`. The error kinds are
no root element, text or end tag with no open element, a mismatched end tag,
end of document with elements still open, and a tokenizer failure. The
`Reader`, the `IOException` and the `XmlPullParserException` of the Java code
all become this one error result.

## Model

| member | source | states |
|---|---|---|
| DomBuilder.Build | src/test/java/org/codehaus/plexus/util/xml/Xpp3DomBuilderTest.java:20-30 | The builder's stack loop returns exactly the reference parse from its start cursor, errors included. A result's cursor lies after the start and sits on an end tag named after the built root. |
| DomBuilder.CopyAttributes | src/test/java/org/codehaus/plexus/util/xml/Xpp3DomBuilderTest.java:131-132 | Copying a start tag's attributes in order yields the attribute mapping of that tag. |
| DomBuilder.AttributeMapKeys | src/test/java/org/codehaus/plexus/util/xml/Xpp3DomBuilderTest.java:131-132 | The node's attribute names are exactly the names in the start tag. |
| DomBuilder.AttributeMapValue | src/test/java/org/codehaus/plexus/util/xml/Xpp3DomBuilderTest.java:131-132 | Each attribute name maps to the value of its last occurrence in the start tag. |
| DomBuilder.ContentBalanced | src/test/java/org/codehaus/plexus/util/xml/Xpp3DomBuilderTest.java:86-97 | The content of an open element ends on an end tag with the element's name. The events before it are balanced: the depth never goes negative and is zero there. |
| DomBuilder.ElementBalanced | src/test/java/org/codehaus/plexus/util/xml/Xpp3DomBuilderTest.java:86-97 | A built element is named after its start tag, and the returned cursor is that tag's matching end tag (Element Type Match). |
| DomBuilder.BuildStopsOnMatchingEndTag | src/test/java/org/codehaus/plexus/util/xml/Xpp3DomBuilderTest.java:71 | From any start cursor, a successful build's root is the first element there: the returned index `s` is the first event after the start-of-document markers, it is a start tag with the root's name, and the build's cursor is that tag's matching end tag, so it never stops on a nested end tag or past its own. |
| DomBuilder.UnterminatedElementFails | src/test/java/org/codehaus/plexus/util/xml/Xpp3DomBuilderTest.java:100-120 | If the depth never returns to zero after a start tag, building that element is an error, not a result. |
| DomBuilder.ElementIsLocal | src/test/java/org/codehaus/plexus/util/xml/Xpp3DomBuilderTest.java:54-71 | An element depends only on its own events: the same events at any other cursor of any other stream build the same tree, ending at the same offset. |
| TrimPolicy.Trim | src/test/java/org/codehaus/plexus/util/xml/Xpp3DomBuilderTest.java:37-39 | The result is a slice of the input with only blank characters removed at both ends. It is empty exactly when the input is all blank; otherwise neither end is blank. |
| TrimPolicy.TrimIdempotent | src/test/java/org/codehaus/plexus/util/xml/Xpp3DomBuilderTest.java:37-39 | Trimming twice is trimming once. |
| TrimPolicy.Resolve | src/test/java/org/codehaus/plexus/util/xml/Xpp3DomBuilderTest.java:37-43 | No text gives no value. With trimming off, the text is kept verbatim. With trimming on, the value is absent exactly when the text is all blank; otherwise it is the trimmed text, with no blank at either end. |
| Dom.NewNode | src/test/java/org/codehaus/plexus/util/xml/Xpp3DomBuilderTest.java:142-149 | `new Xpp3Dom(name)`: a node with that name, no value, no attributes and no children. |
| Dom.SetValue | src/test/java/org/codehaus/plexus/util/xml/Xpp3DomBuilderTest.java:144-151 | `setValue`: the value becomes present with the given text; name, attributes and children are unchanged. |
| Dom.SetAttribute | src/test/java/org/codehaus/plexus/util/xml/Xpp3DomBuilderTest.java:147-150 | `setAttribute`: the key is added or overwritten with the value, every other attribute keeps its value, and name, value and children are unchanged. |
| Dom.AddChild | src/test/java/org/codehaus/plexus/util/xml/Xpp3DomBuilderTest.java:145-152 | `addChild`: the child is appended after the existing children, which keep their order; name, value and attributes are unchanged. |
| Dom.GetChild | src/test/java/org/codehaus/plexus/util/xml/Xpp3DomBuilderTest.java:39 | The result is absent exactly when no child has the name; otherwise it is the first child with that name. |
| Dom.GetChildAfterAddChild | src/test/java/org/codehaus/plexus/util/xml/Xpp3DomBuilderTest.java:140-154 | After `addChild`, `getChild` for the new child's name finds an earlier child of that name if there is one, and the new child otherwise. |
| Dom.AttributePairsDetermineMap | src/test/java/org/codehaus/plexus/util/xml/Xpp3DomBuilderTest.java:29 | Equal attribute sets mean equal attribute mappings. |
| Dom.EqualsIsEquality | src/test/java/org/codehaus/plexus/util/xml/Xpp3DomBuilderTest.java:29 | Structural equality holds in both directions exactly when the two trees are the same value. This covers name, value, attributes as a set, and children in order. |
| BuilderTest.RunFragmentTest | src/test/java/org/codehaus/plexus/util/xml/Xpp3DomBuilderTest.java:57-92 | The fragment test's loop computes `Drive` from the start of the stream. It hands each "root" start tag to `Build` and sets the flags on the end tags it sees. |
| BuilderTest.Record | src/test/java/org/codehaus/plexus/util/xml/Xpp3DomBuilderTest.java:74-90 | An end tag named configuration, newRoot or root sets that flag; the other flags and the recorded tree are unchanged, and any other end tag changes nothing. |
| BuilderTest.RootBuilt | src/test/java/org/codehaus/plexus/util/xml/Xpp3DomBuilderTest.java:126-138 | `DomEvents` is the event stream of `createDomString`'s document for any texts (`CreateDomString` fills in the test's own texts). Those events build `TreeOf` and stop on root's end tag, the last event. |
| BuilderTest.FixtureBuiltAt | src/test/java/org/codehaus/plexus/util/xml/Xpp3DomBuilderTest.java:54-71 | Wherever the document's events occur in a stream, the element built there is `TreeOf`, ending on root's end tag. |
| BuilderTest.BuildStandalone | src/test/java/org/codehaus/plexus/util/xml/Xpp3DomBuilderTest.java:23-25 | Building the standalone document gives `TreeOf`, with the cursor on root's end tag. |
| BuilderTest.TrimEl1 | src/test/java/org/codehaus/plexus/util/xml/Xpp3DomBuilderTest.java:37-39 | Trimming " element1\n " gives "element1". |
| BuilderTest.TrimEl3 | src/test/java/org/codehaus/plexus/util/xml/Xpp3DomBuilderTest.java:131-132 | Trimming "element3" leaves it unchanged. |
| BuilderTest.WhitespaceOnlyHasNoValue | src/test/java/org/codehaus/plexus/util/xml/Xpp3DomBuilderTest.java:129-133 | Under trimming, the whitespace that root and el2 hold between their children gives no value. |
| BuilderTest.ExpectedDomShape | src/test/java/org/codehaus/plexus/util/xml/Xpp3DomBuilderTest.java:140-154 | `CreateExpectedDom`, assembled with `NewNode`, `SetValue`, `SetAttribute` and `AddChild` as `createExpectedDom` does, is root{el1="element1", el2[att2=attribute2]{el3[att3=attribute3]="element3"}}, with no value on root or el2. |
| BuilderTest.FixtureTreeTrimmed | src/test/java/org/codehaus/plexus/util/xml/Xpp3DomBuilderTest.java:126-154 | With trimming on, the test's texts build exactly the hand-made tree. |
| BuilderTest.BuildFromReader | src/test/java/org/codehaus/plexus/util/xml/Xpp3DomBuilderTest.java:20-30 | Building the standalone document succeeds, with a tree structurally equal to `createExpectedDom`. |
| BuilderTest.BuildTrimming | src/test/java/org/codehaus/plexus/util/xml/Xpp3DomBuilderTest.java:32-44 | `getChild("el1")` has value "element1" with trimming on and " element1\n " with it off. |
| BuilderTest.AttributeAndNestingFidelity | src/test/java/org/codehaus/plexus/util/xml/Xpp3DomBuilderTest.java:143-152 | Under either policy, root's children are el1 then el2. el2 carries exactly att2=attribute2 and has exactly one child, el3, which has att3=attribute3, the value "element3" and no children. |
| BuilderTest.WhitespaceOnlyElementsTrimmed | src/test/java/org/codehaus/plexus/util/xml/Xpp3DomBuilderTest.java:129-133 | With trimming on, root and el2 have no value. |
| BuilderTest.WhitespaceOnlyElementsVerbatim | src/test/java/org/codehaus/plexus/util/xml/Xpp3DomBuilderTest.java:41-43 | With trimming off, root and el2 keep the whitespace between their children verbatim as their values. |
| BuilderTest.UnclosedXmlFails | src/test/java/org/codehaus/plexus/util/xml/Xpp3DomBuilderTest.java:100-120 | For any texts, "<newRoot>" followed by the document gives a parse error: the document ends while newRoot is open. |
| BuilderTest.FragmentBuild | src/test/java/org/codehaus/plexus/util/xml/Xpp3DomBuilderTest.java:54-71 | Under either policy, a build that starts on root's start tag inside newRoot/configuration equals the standalone build. Its cursor is left on root's end tag. |
| BuilderTest.DriveToRoot | src/test/java/org/codehaus/plexus/util/xml/Xpp3DomBuilderTest.java:63-73 | The loop passes the start of the document and the start tags of newRoot and configuration, and sets no flag. |
| BuilderTest.DriveOverRoot | src/test/java/org/codehaus/plexus/util/xml/Xpp3DomBuilderTest.java:65-72 | At root's start tag the builder takes over and records the tree. The loop resumes on the event after root's end tag. |
| BuilderTest.DriveToEnd | src/test/java/org/codehaus/plexus/util/xml/Xpp3DomBuilderTest.java:74-92 | After root, the loop sees the end tags of configuration and newRoot, then the end of the document. |
| BuilderTest.DriveEmbedded | src/test/java/org/codehaus/plexus/util/xml/Xpp3DomBuilderTest.java:57-97 | For any texts, the loop ends normally with the built tree. configurationClosed and newRootClosed are set, and rootClosed is not. |
| BuilderTest.BuildFromXpp3Dom | src/test/java/org/codehaus/plexus/util/xml/Xpp3DomBuilderTest.java:94-97 | The fragment test's loop ends with a tree structurally equal to `createExpectedDom`. rootClosed is false; configurationClosed and newRootClosed are true. |

## Left out

- The sources Xpp3DomBuilder.java and Xpp3Dom.java are not part of this model, so the builder is modelled from the contract its test asserts. `Build` takes the stack algorithm: a stack of open elements; a start tag pushes a new element with its attributes; text is appended to the top element's buffer; an end tag pops the top element, resolves its value and links the finished node into the element below, and popping the last element ends the build on that end tag.
- The tokenizer (MXParser) is not part of this model.
- The character-level XML tokenizer: the model starts from its event sequence. A tokenizer failure is one `Fault` event. The text of each document and the `Reader`/`StringReader` I/O around it are not modelled.
- Whitespace after the root's end tag in the standalone document: the tokenizer does not report it as text, so that document has no event for it.
- `IOException` and `XmlPullParserException` are one `ParseError` result, with an error kind and the cursor.
- The JUnit harness: `assertEquals`, `assertTrue` and `assertFalse` become lemma postconditions.
- The parent back-reference of a node: it takes no part in equality, and the tests never read it.
- The insertion order of attributes: it takes no part in equality. The model keeps attributes as a mapping.
- `hashCode`, serialisation and merging of `Xpp3Dom`: the tests do not use them.
- Node identity and aliasing: `createExpectedDom` adds el2 to root before it adds el3 to el2, and relies on both holding the same object. The model builds the value bottom-up. It also links a finished element into its parent when the element is closed, not when it is opened.
- Trimming: the builder trims the text an element has accumulated once, when the element is closed. It does not trim each text event. The two agree on the tests' documents, where each element's text is one event or whitespace only.
- Values of elements with children: every closed element gets a resolved value. With trimming off, root and el2 therefore keep their whitespace (`WhitespaceOnlyElementsVerbatim`). The tests never inspect that value.
- A text or end tag with no element open is a `NoOpenElement` error, not a runtime fault.
- DomBuilder.ElementBalanced: the converse, that every balanced and well-named event sequence builds successfully, is not proved. Only the direction the tests rely on is proved: a result ends on the matching end tag, and an element that never closes is an error.
