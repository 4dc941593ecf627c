/**
 * Document metadata: the single `Metadata` node under a document's root, the
 * file names it carries (`BaseFile`, `MergedXmlFile`) and the helpers that
 * read optional strings, file paths and booleans out of it.
 */
module Metadata {
  import opened Wrappers
  import opened Text
  import opened Xml
  import opened Diagnostics
  import opened ScalarTypes

  /**
   * The host's path operations and file reading, which are not modelled:
   * `Path.Combine`, `Path.GetDirectoryName`, `Path.IsPathRooted`, the
   * directory of the running assembly, and the message of the exception a
   * failed read raises for a path.
   */
  datatype FileSystem = FileSystem(
    combine: (string, string) -> string,
    directoryName: string -> string,
    isPathRooted: string -> bool,
    assemblyDirectory: string,
    readFailure: string -> string)

  /** A code generation backend's metadata; only whether it is enabled matters here. */
  datatype Backend = Backend(enabled: bool)

  /**
   * A parsed XML document: its root element, if any, and what the C# and
   * Python metadata parsers make of its metadata node.
   */
  datatype Document = Document(root: Option<Element>, csharp: Option<Backend>, python: Option<Backend>)

  /** `DocumentMetadata`. */
  datatype DocumentMetadata = DocumentMetadata(
    baseFileName: Option<string>,
    mergedXmlFileName: Option<string>,
    csharp: Option<Backend>,
    python: Option<Backend>)

  const NoMetadataMessage: string := "Unable to find Mixable metadata node. The metadata node is required."
  const ManyMetadataMessage: string := "Only one Mixable metadata node may be specified."
  const BaseFileWithCodeGenMessage: string := "'BaseFile' metadata should not be specified when CodeGen is enabled."

  function BoolValueMessage(original: string): string
  {
    "Unable to parse '" + original + "' as a boolean value."
  }

  /** `HasCodeGenComponent`: some backend is present and enabled. */
  predicate HasCodeGenComponent(m: DocumentMetadata)
  {
    (m.csharp.Some? && m.csharp.value.enabled) || (m.python.Some? && m.python.value.enabled)
  }

  lemma HasCodeGenComponentSpec(m: DocumentMetadata)
    ensures HasCodeGenComponent(m) <==> Some(Backend(true)) in [m.csharp, m.python]
  {
  }

  /** The first child with local name `step` and no namespace: one step of a relative XPath. */
  function ChildStep(e: Element, step: string): (r: Option<Element>)
    ensures r.Some? ==> r.value in e.children && r.value.name == QName("", step)
    ensures r.Nothing? ==> forall c :: c in e.children ==> c.name != QName("", step)
    ensures r.Some? ==> exists k :: 0 <= k < |e.children| && e.children[k] == r.value
                                    && forall j :: 0 <= j < k ==> e.children[j].name != QName("", step)
  {
    var named := ChildrenNamed(e.children, QName("", step));
    if named == [] then Nothing
    else
      ChildrenNamedFirst(e.children, QName("", step));
      Some(named[0])
  }

  /**
   * Whether `x` is reached from `e` by the child steps `steps`: each step
   * moves to a child with that local name and no namespace.
   */
  predicate Reaches(e: Element, steps: seq<string>, x: Element)
    decreases |steps|
  {
    if steps == [] then x == e
    else exists c :: c in e.children && c.name == QName("", steps[0]) && Reaches(c, steps[1..], x)
  }

  /**
   * One child step applied to a node-set: the children with local name
   * `step` and no namespace of each node in turn. The nodes' subtrees are
   * disjoint and in document order, so the result is in document order too.
   */
  function StepAll(nodes: seq<Element>, step: string): seq<Element>
  {
    if nodes == [] then [] else ChildrenNamed(nodes[0].children, QName("", step)) + StepAll(nodes[1..], step)
  }

  /** A child step keeps exactly the matching children of the nodes. */
  lemma {:induction false} StepAllMembers(nodes: seq<Element>, step: string)
    ensures forall c :: c in StepAll(nodes, step) <==> exists n :: n in nodes && c in n.children && c.name == QName("", step)
  {
    if nodes != [] {
      StepAllMembers(nodes[1..], step);
      assert forall n :: n in nodes <==> n == nodes[0] || n in nodes[1..];
    }
  }

  /** The node-set a relative location path of child steps selects from `nodes`, in document order. */
  function SelectAll(nodes: seq<Element>, steps: seq<string>): seq<Element>
    decreases |steps|
  {
    if steps == [] then nodes else SelectAll(StepAll(nodes, steps[0]), steps[1..])
  }

  /**
   * `XPathSelectElement(path)` for a location path of child steps separated
   * by '/': the first element, in document order, of all those the steps
   * reach, and nothing only when the steps reach no element.
   */
  function SelectSteps(e: Element, steps: seq<string>): (r: Option<Element>)
    ensures r.Some? ==> Reaches(e, steps, r.value)
    ensures r.Nothing? ==> forall x :: !Reaches(e, steps, x)
  {
    var all := SelectAll([e], steps);
    SelectAllReaches([e], steps);
    assert forall n :: n in [e] <==> n == e;
    assert forall x :: Reaches(e, steps, x) ==> x in all;
    if all == [] then Nothing else assert all[0] in all; Some(all[0])
  }

  /** The elements `SelectAll` lists are exactly those some node reaches. */
  lemma {:induction false} SelectAllReaches(nodes: seq<Element>, steps: seq<string>)
    ensures forall x :: x in SelectAll(nodes, steps) <==> exists n :: n in nodes && Reaches(n, steps, x)
    decreases |steps|
  {
    if steps != [] {
      var next := StepAll(nodes, steps[0]);
      SelectAllReaches(next, steps[1..]);
      StepAllMembers(nodes, steps[0]);
      forall x
        ensures x in SelectAll(nodes, steps) <==> exists n :: n in nodes && Reaches(n, steps, x)
      {
        if x in SelectAll(nodes, steps) {
          var c :| c in next && Reaches(c, steps[1..], x);
          var n :| n in nodes && c in n.children && c.name == QName("", steps[0]);
          assert Reaches(n, steps, x);
        }
        if exists n :: n in nodes && Reaches(n, steps, x) {
          var n :| n in nodes && Reaches(n, steps, x);
          var c :| c in n.children && c.name == QName("", steps[0]) && Reaches(c, steps[1..], x);
          assert c in next;
        }
      }
    }
  }

  lemma {:induction false} StepAllConcat(a: seq<Element>, b: seq<Element>, step: string)
    ensures StepAll(a + b, step) == StepAll(a, step) + StepAll(b, step)
  {
    if a == [] {
      assert a + b == b;
    } else {
      assert (a + b)[1..] == a[1..] + b;
      StepAllConcat(a[1..], b, step);
    }
  }

  /** Nothing selects nothing. */
  lemma {:induction false} SelectAllNone(steps: seq<string>)
    ensures SelectAll([], steps) == []
    decreases |steps|
  {
    if steps != [] {
      SelectAllNone(steps[1..]);
    }
  }

  /** Selecting from a concatenation of node-sets selects from each in turn. */
  lemma {:induction false} SelectAllConcat(a: seq<Element>, b: seq<Element>, steps: seq<string>)
    ensures SelectAll(a + b, steps) == SelectAll(a, steps) + SelectAll(b, steps)
    decreases |steps|
  {
    if steps != [] {
      StepAllConcat(a, b, steps[0]);
      SelectAllConcat(StepAll(a, steps[0]), StepAll(b, steps[0]), steps[1..]);
    }
  }

  /** The first selection, in order, among the remaining steps applied to each of `cs`. */
  function FirstSelected(cs: seq<Element>, steps: seq<string>): Option<Element>
  {
    if cs == [] then Nothing
    else match SelectSteps(cs[0], steps)
      case Some(x) => Some(x)
      case Nothing => FirstSelected(cs[1..], steps)
  }

  lemma {:induction false} FirstSelectedAll(cs: seq<Element>, steps: seq<string>)
    ensures FirstSelected(cs, steps) == (if SelectAll(cs, steps) == [] then Nothing else Some(SelectAll(cs, steps)[0]))
  {
    if cs == [] {
      SelectAllNone(steps);
    } else {
      assert cs == [cs[0]] + cs[1..];
      SelectAllConcat([cs[0]], cs[1..], steps);
      FirstSelectedAll(cs[1..], steps);
      var here := SelectAll([cs[0]], steps);
      assert SelectSteps(cs[0], steps) == (if here == [] then Nothing else Some(here[0]));
      if here != [] {
        assert SelectAll(cs, steps)[0] == here[0];
        assert FirstSelected(cs, steps) == Some(here[0]);
      } else {
        assert SelectAll(cs, steps) == SelectAll(cs[1..], steps);
        assert FirstSelected(cs, steps) == FirstSelected(cs[1..], steps);
      }
    }
  }

  /**
   * A multi-step path looks under every child matching its first step, in
   * document order, and selects from the first of them under which the
   * rest of the path selects anything.
   */
  lemma SelectStepsDescends(e: Element, step: string, rest: seq<string>)
    ensures SelectSteps(e, [step] + rest) == FirstSelected(ChildrenNamed(e.children, QName("", step)), rest)
  {
    var steps := [step] + rest;
    assert steps[0] == step && steps[1..] == rest;
    assert [e][1..] == [];
    assert StepAll([e], step) == ChildrenNamed(e.children, QName("", step));
    assert SelectAll([e], steps) == SelectAll(ChildrenNamed(e.children, QName("", step)), rest);
    FirstSelectedAll(ChildrenNamed(e.children, QName("", step)), rest);
  }

  /** With a single step, the selection is the first child of that name. */
  lemma SelectStepsSingle(e: Element, step: string)
    ensures SelectSteps(e, [step]) == ChildStep(e, step)
  {
    assert [e][1..] == [];
    assert StepAll([e], step) == ChildrenNamed(e.children, QName("", step));
    assert SelectAll([e], [step]) == ChildrenNamed(e.children, QName("", step));
  }

  /**
   * The selection is not confined to the first child matching the first
   * step: in `<M><A/><A><B>x</B></A></M>` the path "A/B" selects the `B`
   * under the second `A`, and the optional string read there is "x".
   */
  lemma SelectBeyondFirstMatch(d: Option<string>)
    ensures var b := Element(QName("", "B"), NoAttributes, [], "x", "");
      var m := Element(QName("", "M"), NoAttributes,
        [Element(QName("", "A"), NoAttributes, [], "", ""),
         Element(QName("", "A"), NoAttributes, [b], "", "")], "", "");
      SelectElement(m, "A/B") == Some(b) && ParseOptionalString(m, "A/B", d) == Some("x")
  {
    var b := Element(QName("", "B"), NoAttributes, [], "x", "");
    var a1 := Element(QName("", "A"), NoAttributes, [], "", "");
    var a2 := Element(QName("", "A"), NoAttributes, [b], "", "");
    var m := Element(QName("", "M"), NoAttributes, [a1, a2], "", "");
    SplitTwoSteps();
    SelectStepsDescends(m, "A", ["B"]);
    assert ChildrenNamed(m.children, QName("", "A")) == [a1, a2];
    SelectStepsSingle(a1, "B");
    SelectStepsSingle(a2, "B");
    ValueOfLeaf(b);
  }

  lemma SplitTwoSteps()
    ensures Split("A/B", '/') == ["A", "B"]
  {
    assert "B"[0] == 'B' && "B"[1..] == "" && Split("", '/') == [""];
    assert ['B'] + "" == "B" && [""][1..] == [];
    assert Split("B", '/') == ["B"];
    assert "/B"[0] == '/' && "/B"[1..] == "B";
    assert Split("/B", '/') == ["", "B"];
    assert "A/B"[0] == 'A' && "A/B"[1..] == "/B";
    assert ['A'] + "" == "A" && ["", "B"][1..] == ["B"];
  }

  function SelectElement(e: Element, path: string): Option<Element>
  {
    SelectSteps(e, Split(path, '/'))
  }

  /** `ParseOptionalString`: the selected element's value, or the default when nothing is selected. */
  function ParseOptionalString(e: Element, path: string, defaultValue: Option<string>): (r: Option<string>)
    ensures SelectElement(e, path).Some? ==> r == Some(Value(SelectElement(e, path).value))
    ensures SelectElement(e, path).Nothing? ==> r == defaultValue
  {
    match SelectElement(e, path)
    case Some(x) => Some(Value(x))
    case Nothing => defaultValue
  }

  /** `ParseFilePath`: nothing when the value is absent, else the value combined with the directory. */
  function ParseFilePath(fs: FileSystem, e: Element, relativePath: string, path: string): (r: Option<string>)
    ensures r.Nothing? <==> SelectElement(e, path).Nothing?
    ensures r.Some? ==> r == Some(fs.combine(relativePath, Value(SelectElement(e, path).value)))
  {
    match ParseOptionalString(e, path, Nothing)
    case Nothing => Nothing
    case Some(v) => Some(fs.combine(relativePath, v))
  }

  /** A boolean read from the metadata, and what reading it reported. */
  datatype BoolRead = BoolRead(value: bool, diags: seq<Diagnostic>)

  /**
   * `InterpretBool` for a value found at `path` under the element whose
   * ancestor-or-self names are `ep`: "true" and "false", ignoring case and
   * surrounding whitespace; anything else is false and an error quoting the
   * original text at the element's local path followed by "/" and `path`.
   */
  function InterpretBool(value: string, ep: seq<QName>, path: string): (r: BoolRead)
    ensures r.value <==> ToLower(Trim(value)) == "true"
    ensures r.diags == [] <==> BoolCanParse(value)
    ensures r.diags != [] ==> r.diags == [ErrorAt(BoolValueMessage(value), LocalPath(ep) + "/" + path)]
  {
    var v := ToLower(Trim(value));
    if v == "true" then BoolRead(true, [])
    else if v == "false" then BoolRead(false, [])
    else BoolRead(false, [ErrorAt(BoolValueMessage(value), LocalPath(ep) + "/" + path)])
  }

  /** `ParseOptionalBool`: the default, silently, when nothing is selected; else the interpreted value. */
  function ParseOptionalBool(e: Element, ep: seq<QName>, path: string, defaultValue: bool): (r: BoolRead)
    ensures SelectElement(e, path).Nothing? ==> r == BoolRead(defaultValue, [])
    ensures SelectElement(e, path).Some? ==> r == InterpretBool(Value(SelectElement(e, path).value), ep, path)
  {
    match ParseOptionalString(e, path, Nothing)
    case Nothing => BoolRead(defaultValue, [])
    case Some(v) => InterpretBool(v, ep, path)
  }

  /** The boolean helper and the Bool scalar parser accept the same texts, and a well-formed value reads as itself. */
  lemma InterpretBoolExamples(ep: seq<QName>)
    ensures InterpretBool("True", ep, "Enabled") == BoolRead(true, [])
    ensures InterpretBool("FALSE", ep, "Enabled") == BoolRead(false, [])
  {
    TrimOfTrimmed("True");
    LowerTrue();
    TrimOfTrimmed("FALSE");
    LowerFalse();
  }

  /** Surrounding white space never changes what a boolean reads as, nor whether it is reported. */
  lemma InterpretBoolIgnoresWhiteSpace(value: string, ep: seq<QName>, path: string)
    ensures InterpretBool(value, ep, path).value == InterpretBool(Trim(value), ep, path).value
    ensures InterpretBool(value, ep, path).diags == [] <==> InterpretBool(Trim(value), ep, path).diags == []
  {
    TrimIdempotent(value);
  }

  /** The outcome of `TryCreateFromXDocument`. */
  datatype MetadataResult = MetadataResult(metadata: Option<DocumentMetadata>, diags: seq<Diagnostic>)

  /** The metadata nodes a document has: the metadata-tagged direct children of its root. */
  function MetadataNodes(doc: Document): seq<Element>
  {
    match doc.root
    case Nothing => []
    case Some(root) => ChildrenNamed(root.children, MetadataTagName)
  }

  /**
   * The metadata built from the one metadata node `node` under `root`, with
   * file names resolved against `dir`, and the report that code generation
   * and a base file were both given.
   */
  function CreateMetadata(fs: FileSystem, root: QName, node: Element, dir: string, doc: Document): (r: MetadataResult)
    ensures r.metadata.Some?
    ensures var m := r.metadata.value;
      && m.baseFileName == ParseFilePath(fs, node, dir, "BaseFile")
      && m.mergedXmlFileName == ParseFilePath(fs, node, dir, "MergedXmlFile")
      && m.csharp == doc.csharp && m.python == doc.python
      && (ContainsError(r.diags) <==> HasCodeGenComponent(m) && m.baseFileName.Some? && m.baseFileName.value != "")
      && (r.diags != [] ==> r.diags == [ErrorAt(BaseFileWithCodeGenMessage, LocalPath([root, node.name]))])
  {
    var m := DocumentMetadata(
      ParseFilePath(fs, node, dir, "BaseFile"),
      ParseFilePath(fs, node, dir, "MergedXmlFile"),
      doc.csharp, doc.python);
    if HasCodeGenComponent(m) && m.baseFileName.Some? && m.baseFileName.value != "" then
      var err := ErrorAt(BaseFileWithCodeGenMessage, LocalPath([root, node.name]));
      ErrorInLog([err], err);
      MetadataResult(Some(m), [err])
    else
      MetadataResult(Some(m), [])
  }

  /**
   * `TryCreateFromXDocument`: it succeeds exactly when the root has one
   * metadata child, and then yields the metadata built from it, resolving
   * file names against the document's directory, or the assembly's when
   * none is given.
   */
  function TryCreateFromXDocument(fs: FileSystem, doc: Document, documentPath: Option<string>): (r: MetadataResult)
    ensures r.metadata.Some? <==> |MetadataNodes(doc)| == 1
    ensures MetadataNodes(doc) == [] ==> r.diags == [ErrorNoPath(NoMetadataMessage)]
    ensures |MetadataNodes(doc)| > 1 ==> r.diags == [ErrorNoPath(ManyMetadataMessage)]
    ensures |MetadataNodes(doc)| == 1 ==>
      var dir := if documentPath.Some? then documentPath.value else fs.assemblyDirectory;
      doc.root.Some? && r == CreateMetadata(fs, doc.root.value.name, MetadataNodes(doc)[0], dir, doc)
  {
    var nodes := MetadataNodes(doc);
    if nodes == [] then MetadataResult(Nothing, [ErrorNoPath(NoMetadataMessage)])
    else if |nodes| != 1 then MetadataResult(Nothing, [ErrorNoPath(ManyMetadataMessage)])
    else
      var dir := if documentPath.Some? then documentPath.value else fs.assemblyDirectory;
      CreateMetadata(fs, doc.root.value.name, nodes[0], dir, doc)
  }

  /** A metadata node's name is the metadata tag, so the error is reported at `/<root>/Metadata`. */
  lemma CodeGenWithBaseFileReported(fs: FileSystem, doc: Document, documentPath: Option<string>)
    requires |MetadataNodes(doc)| == 1
    ensures var r := TryCreateFromXDocument(fs, doc, documentPath);
      r.diags != [] ==> r.diags == [ErrorAt(BaseFileWithCodeGenMessage, LocalPath([doc.root.value.name, MetadataTagName]))]
  {
    var nodes := MetadataNodes(doc);
    assert nodes[0] in ChildrenNamed(doc.root.value.children, MetadataTagName);
  }

  /** Only direct children of the root count: a metadata node further down is not seen. */
  lemma NestedMetadataIgnored(fs: FileSystem, root: Element, inner: Element, b1: Option<Backend>, b2: Option<Backend>, documentPath: Option<string>)
    requires root.children == [inner] && inner.name != MetadataTagName
    ensures TryCreateFromXDocument(fs, Document(Some(root), b1, b2), documentPath)
         == MetadataResult(Nothing, [ErrorNoPath(NoMetadataMessage)])
  {
    assert ChildrenNamed(root.children, MetadataTagName) == [];
  }

  /** A document with no root has no metadata node. */
  lemma NoRootNoMetadata(fs: FileSystem, b1: Option<Backend>, b2: Option<Backend>, documentPath: Option<string>)
    ensures TryCreateFromXDocument(fs, Document(Nothing, b1, b2), documentPath)
         == MetadataResult(Nothing, [ErrorNoPath(NoMetadataMessage)])
  {
  }
}
