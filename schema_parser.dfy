/**
 * The schema parser: three classifiers (scalar, list, map) decide what kind
 * of node an element of the base document is, the dispatcher asks them in
 * order and lets the first claimant build the node, and `TryParse` parses a
 * whole document once its metadata node is in order.
 */
module SchemaParser {
  import opened Wrappers
  import opened Text
  import opened Xml
  import opened Diagnostics
  import opened ScalarTypes
  import opened Validators
  import opened Schema
  import opened Metadata

  /** A parsed schema node and what parsing it reported, in order. */
  datatype Parsed = Parsed(node: SchemaNode, diags: seq<Diagnostic>)

  const ManyTemplatesMessage: string := "Lists may only have a single template node."
  const TemplateShapeMessage: string := "List templates must have exactly one child element."
  const UnknownItemTypeMessage: string :=
    "Couldn't determine type of list item. Lists must include at least one represenative node or a Template element."
  const TwoParsersMessage: string := "Two ISchemaElementParsers reported cability to parse a node."
  const NoParserMessage: string := "No ISchemaElementParser was able to parse the given node."
  const NoRootMessage: string := "XML Document did not have a root element."

  function UnknownTypeMessage(name: string): string
  {
    "Unable to find explicit scalar type '" + name + "'."
  }

  function UnparsableMessage(value: string, t: ScalarType): string
  {
    "Unable to parse '" + value + "' as a '" + t.TypeName() + "'."
  }

  // ---------------------------------------------------------------- scalars

  /**
   * `ScalarSchemaElementParser.CanParse`: no child elements at all (Mixable
   * ones included), and no explicit type name that is unknown.
   */
  predicate ScalarCanParse(e: Element, attrs: MetadataAttributes)
  {
    if e.children != [] then false
    else if attrs.rawTypeName.Some? && TryGetExplicitScalarTypeByName(attrs.rawTypeName.value).Nothing? then false
    else true
  }

  /** "long" is not a scalar type, so a leaf typed "long" is not a scalar. */
  lemma ScalarRejectsLong(e: Element, attrs: MetadataAttributes)
    requires attrs.rawTypeName == Some("long")
    ensures !ScalarCanParse(e, attrs)
  {
    ExplicitNameExamples();
  }

  /** Even a single Mixable child, such as a template marker, stops a node from being a scalar. */
  lemma ScalarRejectsAnyChild(e: Element, attrs: MetadataAttributes)
    requires e.children != [] && Filtered(e.children) == []
    ensures !ScalarCanParse(e, attrs)
  {
  }

  /**
   * `ScalarSchemaElementParser.Parse` for an element whose ancestors' names are
   * `parents`: the attributes are validated again; without a `Type` the
   * inferred type is used, a known `Type` is used and its parser checked
   * against the value, and an unknown `Type` is reported and replaced by
   * String.
   */
  function ParseScalar(syntax: NumberSyntax, e: Element, parents: seq<QName>, v: AttributeValidator): (r: Parsed)
    ensures r.node.Scalar? && r.node.name == e.name && r.node.parents == parents
    ensures r.node.modifier == e.attrs.modifier
    ensures var val := Validate(v, e, parents + [e.name]);
      |r.diags| >= |val.diags| && r.diags[..|val.diags|] == val.diags
  {
    var ep := parents + [e.name];
    var path := ElementPath(ep);
    var val := Validate(v, e, ep);
    var value := Value(e);
    var found := match val.attrs.rawTypeName
      case Nothing => Some(GetInferredScalarType(syntax, value))
      case Some(n) => TryGetExplicitScalarTypeByName(n);
    var lookupErr := if found.Nothing? then [ErrorAt(UnknownTypeMessage(val.attrs.rawTypeName.value), path)] else [];
    var parseErr := if found.Some? && !found.value.CanParse(syntax, value)
      then [ErrorAt(UnparsableMessage(value, found.value), path)] else [];
    var t := if found.Some? then found.value else StringType;
    Parsed(Scalar(e.name, parents, val.attrs.modifier, t), val.diags + lookupErr + parseErr)
  }

  /** Without a `Type` the inferred type is used and nothing beyond the validator's reports is added. */
  lemma ScalarParseInferred(syntax: NumberSyntax, e: Element, parents: seq<QName>, v: AttributeValidator)
    requires e.attrs.rawTypeName.Nothing?
    ensures var r := ParseScalar(syntax, e, parents, v);
      r.node.scalarType == GetInferredScalarType(syntax, Value(e))
      && r.diags == Validate(v, e, parents + [e.name]).diags
  {
  }

  /** A known `Type` is used; the one possible extra report is that the value does not parse as it. */
  lemma ScalarParseExplicit(syntax: NumberSyntax, e: Element, parents: seq<QName>, v: AttributeValidator)
    requires e.attrs.rawTypeName.Some? && TryGetExplicitScalarTypeByName(e.attrs.rawTypeName.value).Some?
    ensures var r := ParseScalar(syntax, e, parents, v);
      var t := TryGetExplicitScalarTypeByName(e.attrs.rawTypeName.value).value;
      var path := ElementPath(parents + [e.name]);
      r.node.scalarType == t
      && r.diags == Validate(v, e, parents + [e.name]).diags
         + (if t.CanParse(syntax, Value(e)) then [] else [ErrorAt(UnparsableMessage(Value(e), t), path)])
  {
  }

  /** An unknown `Type` is reported once, and the node falls back to String. */
  lemma ScalarParseUnknown(syntax: NumberSyntax, e: Element, parents: seq<QName>, v: AttributeValidator)
    requires e.attrs.rawTypeName.Some? && TryGetExplicitScalarTypeByName(e.attrs.rawTypeName.value).Nothing?
    ensures var r := ParseScalar(syntax, e, parents, v);
      r.node.scalarType == StringType
      && r.diags == Validate(v, e, parents + [e.name]).diags
         + [ErrorAt(UnknownTypeMessage(e.attrs.rawTypeName.value), ElementPath(parents + [e.name]))]
  {
  }

  // ------------------------------------------------------------------ lists

  /** The template a list uses, where its element sits (its ancestors' names), and what finding it reported. */
  datatype Template = Template(node: Option<Element>, parents: seq<QName>, diags: seq<Diagnostic>)

  /** The `ListItemTemplate` children of an element. */
  function Markers(e: Element): seq<Element>
  {
    ChildrenNamed(e.children, ListTemplateTagName)
  }

  lemma MessagesDiffer()
    ensures ManyTemplatesMessage != TemplateShapeMessage
  {
    assert |ManyTemplatesMessage| != |TemplateShapeMessage|;
  }

  /** What finding a template under a marker reports at `path`: a second marker, then a marker of the wrong shape. */
  function MarkerReports(manyMarkers: bool, badShape: bool, path: string): (r: seq<Diagnostic>)
    ensures AllErrorsAt(r, path)
    ensures ErrorAt(ManyTemplatesMessage, path) in r <==> manyMarkers
    ensures ErrorAt(TemplateShapeMessage, path) in r <==> badShape
  {
    MessagesDiffer();
    (if manyMarkers then [ErrorAt(ManyTemplatesMessage, path)] else [])
      + (if badShape then [ErrorAt(TemplateShapeMessage, path)] else [])
  }

  /**
   * `GetTemplateNode` for an element whose ancestor-or-self names are `ep`.
   * With a template marker, the template is the marker's first non-Mixable
   * child; a second marker and a marker without exactly one such child are
   * reported at the list's path. Without a marker, the template is the first
   * non-Mixable child, and nothing is reported.
   */
  function GetTemplateNode(e: Element, ep: seq<QName>): (r: Template)
    ensures AllErrorsAt(r.diags, ElementPath(ep))
    ensures r.node.Some? ==> Size(r.node.value) < Size(e) && !IsMixableName(r.node.value.name)
    ensures Markers(e) == [] ==>
      var f := Filtered(e.children);
      r.parents == ep && r.diags == [] && r.node == (if f == [] then Nothing else Some(f[0]))
    ensures Markers(e) != [] ==>
      var f := Filtered(Markers(e)[0].children);
      && r.parents == ep + [ListTemplateTagName]
      && r.node == (if f == [] then Nothing else Some(f[0]))
      && (ErrorAt(ManyTemplatesMessage, ElementPath(ep)) in r.diags <==> |Markers(e)| > 1)
      && (ErrorAt(TemplateShapeMessage, ElementPath(ep)) in r.diags <==> |f| != 1)
  {
    var path := ElementPath(ep);
    var markers := Markers(e);
    if markers != [] then
      var first := markers[0];
      var f := Filtered(first.children);
      var reports := MarkerReports(|markers| > 1, |f| != 1, path);
      ChildSmaller(e, first);
      if f == [] then Template(Nothing, ep + [first.name], reports)
      else
        ChildSmaller(first, f[0]);
        Template(Some(f[0]), ep + [first.name], reports)
    else
      var f := Filtered(e.children);
      if f == [] then Template(Nothing, ep, [])
      else
        ChildSmaller(e, f[0]);
        Template(Some(f[0]), ep, [])
  }

  /** The set of names among some elements: what `Select(x => x.Name).Distinct()` yields. */
  function NameSet(items: seq<Element>): set<QName>
  {
    set i | 0 <= i < |items| :: items[i].name
  }

  /** Exactly one distinct name means a non-empty sequence whose names all equal the first. */
  lemma NameSetSingleton(items: seq<Element>)
    requires items != []
    ensures |NameSet(items)| == 1 <==> forall i :: 0 <= i < |items| ==> items[i].name == items[0].name
  {
    var q := items[0].name;
    if forall i :: 0 <= i < |items| ==> items[i].name == q {
      assert NameSet(items) == {q};
    } else {
      var i :| 0 <= i < |items| && items[i].name != q;
      assert {q, items[i].name} <= NameSet(items);
      assert |{q, items[i].name}| == 2;
      SubsetCard({q, items[i].name}, NameSet(items));
    }
  }

  lemma {:induction false} SubsetCard<T>(a: set<T>, b: set<T>)
    requires a <= b
    ensures |a| <= |b|
    decreases |b|
  {
    if a != {} {
      var x :| x in a;
      SubsetCard(a - {x}, b - {x});
    }
  }

  /**
   * `ListSchemaElementParser.CanParse`: an explicit `List` attribute or a
   * template marker claims the node outright; otherwise at least two
   * non-Mixable children sharing one name do, provided a template can be
   * found without errors (reported to a collector that only remembers
   * whether an error was seen).
   */
  predicate ListCanParse(e: Element, attrs: MetadataAttributes, ep: seq<QName>)
  {
    if attrs.list == Some(true) || Markers(e) != [] then true
    else
      var children := Filtered(e.children);
      if |NameSet(children)| == 1 && |children| > 1 then
        var t := GetTemplateNode(e, ep);
        t.node.Some? && !ContainsError(t.diags)
      else false
  }

  /** Without a marker the template search cannot fail, so a list is claimed by its flag, a marker or a repeated name. */
  lemma ListCanParseSpec(e: Element, attrs: MetadataAttributes, ep: seq<QName>)
    ensures ListCanParse(e, attrs, ep) <==>
      || attrs.list == Some(true)
      || Markers(e) != []
      || (var f := Filtered(e.children);
          |f| > 1 && forall i :: 0 <= i < |f| ==> f[i].name == f[0].name)
  {
    var f := Filtered(e.children);
    if f != [] {
      NameSetSingleton(f);
    }
  }

  /** Mixed names (Item1, Item2, Item1) under an element without a flag or marker do not make a list. */
  lemma MixedNamesAreNotAList(e: Element, attrs: MetadataAttributes, ep: seq<QName>, a: Element, b: Element)
    requires e.children == [a, b, a] && Markers(e) == [] && attrs.list != Some(true)
    requires !IsMixableName(a.name) && !IsMixableName(b.name) && a.name != b.name
    ensures !ListCanParse(e, attrs, ep)
  {
    ListCanParseSpec(e, attrs, ep);
    assert Filtered(e.children) == [a, b, a];
  }

  /**
   * `ListSchemaElementParser.Parse`: the template is parsed through the
   * dispatcher; without one the error is reported and an empty map stands in.
   * The new list is then strictly matched against the node's own items.
   */
  function ParseList(syntax: NumberSyntax, e: Element, parents: seq<QName>, v: AttributeValidator): (r: Parsed)
    ensures r.node.ListNode? && r.node.name == e.name && r.node.parents == parents
    decreases Size(e), 2
  {
    var ep := parents + [e.name];
    var t := GetTemplateNode(e, ep);
    var template := match t.node
      case Some(te) => Parse(syntax, te, t.parents, v)
      case Nothing => Parsed(MapNode(e.name, parents, e.attrs.modifier, []), [ErrorAt(UnknownItemTypeMessage, ElementPath(ep))]);
    var list := ListNode(e.name, parents, e.attrs.modifier, template.node);
    var m := Match(syntax, list, e, ep, Strict, v);
    Parsed(list, t.diags + template.diags + m.diags)
  }

  /**
   * What parsing a list reports: without a template the item-type error at
   * the list's path and an empty map in its place, else the template parsed
   * by the dispatcher; and a failed strict match of the node's own items
   * against the new list always leaves an error behind.
   */
  lemma ParseListReports(syntax: NumberSyntax, e: Element, parents: seq<QName>, v: AttributeValidator)
    ensures var ep := parents + [e.name];
      var t := GetTemplateNode(e, ep);
      var r := ParseList(syntax, e, parents, v);
      && (t.node.Nothing? ==>
            r.node.template == MapNode(e.name, parents, e.attrs.modifier, [])
            && ErrorAt(UnknownItemTypeMessage, ElementPath(ep)) in r.diags)
      && (t.node.Some? ==> r.node.template == Parse(syntax, t.node.value, t.parents, v).node)
      && (!Match(syntax, r.node, e, ep, Strict, v).ok ==> ContainsError(r.diags))
  {
    var ep := parents + [e.name];
    var t := GetTemplateNode(e, ep);
    var r := ParseList(syntax, e, parents, v);
    var m := Match(syntax, r.node, e, ep, Strict, v);
    var template := if t.node.Some? then Parse(syntax, t.node.value, t.parents, v)
      else Parsed(MapNode(e.name, parents, e.attrs.modifier, []), [ErrorAt(UnknownItemTypeMessage, ElementPath(ep))]);
    assert r.diags == t.diags + template.diags + m.diags;
    if t.node.Nothing? {
      assert r.diags[|t.diags|] == ErrorAt(UnknownItemTypeMessage, ElementPath(ep));
    }
    ContainsErrorConcat(t.diags + template.diags, m.diags);
  }

  // ------------------------------------------------------------------- maps

  /** How many of the elements carry the name `q`: the size of its `GroupBy` group. */
  function NameCount(items: seq<Element>, q: QName): nat
  {
    if items == [] then 0 else (if items[0].name == q then 1 else 0) + NameCount(items[1..], q)
  }

  /** The largest element of a non-empty sequence. */
  function MaxOf(s: seq<nat>): (m: nat)
    requires s != []
    ensures forall i :: 0 <= i < |s| ==> s[i] <= m
    ensures exists i :: 0 <= i < |s| && s[i] == m
  {
    if |s| == 1 then s[0]
    else
      var rest := MaxOf(s[1..]);
      assert forall i :: 1 <= i < |s| ==> s[i] == s[1..][i - 1];
      if s[0] >= rest then s[0] else rest
  }

  /** The group sizes of the elements' names, one per element. */
  function GroupCounts(items: seq<Element>): (r: seq<nat>)
    ensures |r| == |items|
  {
    seq(|items|, i requires 0 <= i < |items| => NameCount(items, items[i].name))
  }

  /** `MapSchemaElementParser.CanParse`: some non-Mixable children, and no name among them more than once. */
  predicate MapCanParse(e: Element)
  {
    var children := Filtered(e.children);
    if children == [] then false else MaxOf(GroupCounts(children)) == 1
  }

  /** Pairwise distinct names. */
  lemma {:induction false} NameCountPositive(items: seq<Element>, i: nat)
    requires i < |items|
    ensures NameCount(items, items[i].name) >= 1
  {
    if i > 0 {
      NameCountPositive(items[1..], i - 1);
    }
  }

  lemma {:induction false} NameCountRepeated(items: seq<Element>, i: nat, j: nat)
    requires i < j < |items| && items[i].name == items[j].name
    ensures NameCount(items, items[i].name) >= 2
  {
    if i == 0 {
      NameCountPositive(items[1..], j - 1);
    } else {
      NameCountRepeated(items[1..], i - 1, j - 1);
    }
  }

  lemma {:induction false} NameCountDistinct(items: seq<Element>, i: nat)
    requires i < |items| && DistinctNames(items)
    ensures NameCount(items, items[i].name) == 1
  {
    if i == 0 {
      NameCountAbsent(items[1..], items[0].name);
    } else {
      NameCountDistinct(items[1..], i - 1);
    }
  }

  lemma {:induction false} NameCountAbsent(items: seq<Element>, q: QName)
    requires forall k :: 0 <= k < |items| ==> items[k].name != q
    ensures NameCount(items, q) == 0
  {
    if items != [] {
      NameCountAbsent(items[1..], q);
    }
  }

  /** A map is claimed exactly when there are non-Mixable children and their names are distinct. */
  lemma MapCanParseSpec(e: Element)
    ensures MapCanParse(e) <==> Filtered(e.children) != [] && DistinctNames(Filtered(e.children))
  {
    var f := Filtered(e.children);
    if f != [] {
      var counts := GroupCounts(f);
      if DistinctNames(f) {
        forall i | 0 <= i < |f|
          ensures counts[i] == 1
        {
          NameCountDistinct(f, i);
        }
      } else {
        var i, j :| 0 <= i < j < |f| && f[i].name == f[j].name;
        NameCountRepeated(f, i, j);
        assert counts[i] >= 2;
      }
    }
  }

  /** A map node has children, so it is never also a scalar. */
  lemma MapExcludesScalar(e: Element, attrs: MetadataAttributes)
    requires MapCanParse(e)
    ensures !ScalarCanParse(e, attrs)
  {
  }

  /** A name repeated among the children rules out a map. */
  lemma RepeatedNameExcludesMap(e: Element)
    requires var f := Filtered(e.children); |f| > 1 && forall i :: 0 <= i < |f| ==> f[i].name == f[0].name
    ensures !MapCanParse(e)
  {
    MapCanParseSpec(e);
    var f := Filtered(e.children);
    assert f[0].name == f[1].name;
  }

  /**
   * The children of `e` in `items`, each parsed through the dispatcher below
   * `ep`: the parsing half of the loop of `MapSchemaElementParser.Parse`.
   */
  function ParseEach(syntax: NumberSyntax, e: Element, items: seq<Element>, ep: seq<QName>, v: AttributeValidator): (r: seq<Parsed>)
    requires forall c :: c in items ==> c in e.children
    ensures |r| == |items|
    ensures forall i :: 0 <= i < |items| ==> r[i].node.name == items[i].name && r[i].node.parents == ep
    decreases Size(e), 1
  {
    seq(|items|, i requires 0 <= i < |items| => ChildSmaller(e, items[i]); Parse(syntax, items[i], ep, v))
  }

  /** The names of the parsed nodes, in order. */
  function ParsedNames(ps: seq<Parsed>): (r: seq<QName>)
    ensures |r| == |ps| && forall i :: 0 <= i < |ps| ==> r[i] == ps[i].node.name
  {
    seq(|ps|, i requires 0 <= i < |ps| => ps[i].node.name)
  }

  /**
   * The adding half of the loop: each parsed node in turn is offered to the
   * dictionary with `AddChild`; the reports are, per child, its parse's and
   * then its addition's.
   */
  function AddParsed(ps: seq<Parsed>): Added
  {
    if ps == [] then Added([], [])
    else
      var r := AddParsed(ps[..|ps| - 1]);
      var p := ps[|ps| - 1];
      var a := AddChild(r.children, p.node);
      Added(a.children, r.diags + p.diags + a.diags)
  }

  /** The dictionary built from `ps` has one entry per distinct name among them. */
  lemma {:induction false} AddParsedKeys(ps: seq<Parsed>)
    ensures var r := AddParsed(ps).children;
      && UniqueNames(r)
      && (forall q :: q in NodeNames(r) <==> q in ParsedNames(ps))
  {
    if ps != [] {
      var prefix := ps[..|ps| - 1];
      AddParsedKeys(prefix);
      var r := AddParsed(prefix).children;
      var p := ps[|ps| - 1];
      var out := AddParsed(ps).children;
      assert out == AddChild(r, p.node).children;
      assert ParsedNames(ps) == ParsedNames(prefix) + [p.node.name];
      if p.node.name !in NodeNames(r) {
        assert NodeNames(out) == NodeNames(r) + [p.node.name];
      }
    }
  }

  /** Every parsed node whose name appeared earlier is reported as a duplicate at its own path. */
  lemma {:induction false} AddParsedDuplicates(ps: seq<Parsed>)
    ensures var r := AddParsed(ps);
      forall i :: 0 <= i < |ps| && ps[i].node.name in ParsedNames(ps[..i]) ==>
        ErrorAt(DuplicateChildMessage, ElementPath(NodePath(ps[i].node))) in r.diags
  {
    if ps != [] {
      var prefix := ps[..|ps| - 1];
      var r := AddParsed(prefix);
      var p := ps[|ps| - 1];
      var a := AddChild(r.children, p.node);
      var out := AddParsed(ps);
      assert out.diags == r.diags + p.diags + a.diags;
      AddParsedDuplicates(prefix);
      AddParsedKeys(prefix);
      forall i | 0 <= i < |ps| && ps[i].node.name in ParsedNames(ps[..i])
        ensures ErrorAt(DuplicateChildMessage, ElementPath(NodePath(ps[i].node))) in out.diags
      {
        if i < |prefix| {
          assert ps[..i] == prefix[..i];
          assert ps[i] == prefix[i];
          var k :| 0 <= k < |r.diags| && r.diags[k] == ErrorAt(DuplicateChildMessage, ElementPath(NodePath(ps[i].node)));
          assert out.diags[k] == r.diags[k];
        } else {
          assert ps[..i] == prefix;
          assert out.diags[|r.diags| + |p.diags|] == a.diags[0];
        }
      }
    }
  }

  /** `MapSchemaElementParser.Parse`: a map holding one entry per distinct non-Mixable child name. */
  function ParseMap(syntax: NumberSyntax, e: Element, parents: seq<QName>, v: AttributeValidator): (r: Parsed)
    ensures r.node.MapNode? && r.node.name == e.name && r.node.parents == parents
    decreases Size(e), 2
  {
    var ep := parents + [e.name];
    var added := AddParsed(ParseEach(syntax, e, Filtered(e.children), ep, v));
    Parsed(MapNode(e.name, parents, e.attrs.modifier, added.children), added.diags)
  }

  /** The keys and reports of the dictionary built from nodes parsed from `f` below `ep`, in terms of `f`'s names. */
  lemma AddedFromKeys(ps: seq<Parsed>, f: seq<Element>, ep: seq<QName>)
    requires |ps| == |f|
    requires forall i :: 0 <= i < |f| ==> ps[i].node.name == f[i].name && ps[i].node.parents == ep
    ensures var r := AddParsed(ps);
      && UniqueNames(r.children)
      && (forall q :: q in NodeNames(r.children) <==> q in Names(f))
      && (forall i :: 0 <= i < |f| && f[i].name in Names(f[..i]) ==>
            ErrorAt(DuplicateChildMessage, ElementPath(ep + [f[i].name])) in r.diags)
  {
    AddParsedKeys(ps);
    AddParsedDuplicates(ps);
    assert ParsedNames(ps) == Names(f);
    forall i | 0 <= i < |f| {
      PrefixNames(ps, f, ep, i);
    }
  }

  lemma PrefixNames(ps: seq<Parsed>, f: seq<Element>, ep: seq<QName>, i: int)
    requires |ps| == |f| && 0 <= i < |f|
    requires forall i :: 0 <= i < |f| ==> ps[i].node.name == f[i].name && ps[i].node.parents == ep
    ensures ParsedNames(ps[..i]) == Names(f[..i])
    ensures NodePath(ps[i].node) == ep + [f[i].name]
  {
  }

  /** The map has one key per distinct non-Mixable child name; a repeated name is reported, not added. */
  lemma ParseMapKeys(syntax: NumberSyntax, e: Element, parents: seq<QName>, v: AttributeValidator)
    ensures var r := ParseMap(syntax, e, parents, v);
      var f := Filtered(e.children);
      && UniqueNames(r.node.children)
      && (forall q :: q in NodeNames(r.node.children) <==> q in Names(f))
      && (forall i :: 0 <= i < |f| && f[i].name in Names(f[..i]) ==>
            ErrorAt(DuplicateChildMessage, ElementPath(parents + [e.name] + [f[i].name])) in r.diags)
  {
    var f := Filtered(e.children);
    var ps := ParseEach(syntax, e, f, parents + [e.name], v);
    AddedFromKeys(ps, f, parents + [e.name]);
  }

  /**
   * Each key of the dictionary built from `ps` holds the node of the first
   * parse of that name: a later node of the same name is refused.
   */
  lemma {:induction false} AddParsedFirsts(ps: seq<Parsed>)
    ensures var r := AddParsed(ps).children;
      forall j :: 0 <= j < |r| ==>
        exists i :: 0 <= i < |ps| && r[j] == ps[i].node && ps[i].node.name !in ParsedNames(ps[..i])
  {
    if ps != [] {
      var prefix := ps[..|ps| - 1];
      var r0 := AddParsed(prefix).children;
      var p := ps[|ps| - 1];
      var r := AddParsed(ps).children;
      assert r == AddChild(r0, p.node).children;
      AddParsedFirsts(prefix);
      AddParsedKeys(prefix);
      forall j | 0 <= j < |r|
        ensures exists i :: 0 <= i < |ps| && r[j] == ps[i].node && ps[i].node.name !in ParsedNames(ps[..i])
      {
        if j < |r0| {
          assert r[j] == r0[j];
          var i :| 0 <= i < |prefix| && r0[j] == prefix[i].node && prefix[i].node.name !in ParsedNames(prefix[..i]);
          assert prefix[..i] == ps[..i] && prefix[i] == ps[i];
        } else {
          assert p.node.name !in NodeNames(r0) && r[j] == p.node;
          assert ps[..|ps| - 1] == prefix;
        }
      }
    }
  }

  /** Past a first element of another name, the first element named `name` is one further on. */
  lemma FirstNamedTail(items: seq<Element>, name: QName)
    requires items != [] && items[0].name != name
    ensures FirstNamed(items, name).Some? <==> FirstNamed(items[1..], name).Some?
    ensures FirstNamed(items, name).Some? ==> FirstNamed(items, name).value == FirstNamed(items[1..], name).value + 1
  {
  }

  /**
   * The first non-Mixable child of a non-Mixable name is also the first
   * child of that name among all the children, since no Mixable child carries it.
   */
  lemma {:induction false} FirstNamedFiltered(children: seq<Element>, name: QName)
    requires !IsMixableName(name)
    ensures FirstNamed(Filtered(children), name).Some? ==>
      && FirstNamed(children, name).Some?
      && children[FirstNamed(children, name).value] == Filtered(children)[FirstNamed(Filtered(children), name).value]
    decreases |children|
  {
    if children != [] {
      var f := Filtered(children);
      var rest := children[1..];
      if IsMixableName(children[0].name) {
        assert f == Filtered(rest) by { FilteredCons(children); }
        FirstNamedFiltered(rest, name);
        FirstNamedTail(children, name);
      } else if children[0].name != name {
        assert f[0] == children[0] && f[1..] == Filtered(rest) by { FilteredCons(children); }
        FirstNamedFiltered(rest, name);
        FirstNamedTail(children, name);
        FirstNamedTail(f, name);
      } else {
        assert f[0] == children[0] by { FilteredCons(children); }
      }
    }
  }

  /** A non-Mixable child whose name no earlier one has is the first child of that name. */
  lemma FirstNamedNewName(children: seq<Element>, i: int)
    requires 0 <= i < |Filtered(children)|
    requires Filtered(children)[i].name !in Names(Filtered(children)[..i])
    ensures FirstNamed(children, Filtered(children)[i].name).Some?
    ensures children[FirstNamed(children, Filtered(children)[i].name).value] == Filtered(children)[i]
  {
    var f := Filtered(children);
    var name := f[i].name;
    assert name in Names(f) by { assert Names(f)[i] == name; }
    var k := FirstNamed(f, name).value;
    assert forall p :: 0 <= p < i ==> Names(f[..i])[p] == f[p].name;
    assert f[k].name == name;
    assert k == i;
    FilteredNotMixable(children, i);
    FirstNamedFiltered(children, name);
  }

  lemma FilteredCons(children: seq<Element>)
    requires children != []
    ensures Filtered(children) == (if IsMixableName(children[0].name) then [] else [children[0]]) + Filtered(children[1..])
  {
  }

  lemma FilteredNotMixable(children: seq<Element>, i: int)
    requires 0 <= i < |Filtered(children)|
    ensures !IsMixableName(Filtered(children)[i].name)
  {
    assert Filtered(children)[i] in Filtered(children);
  }

  /** A parsed map describes the element it was parsed from, key by key. */
  lemma {:induction false} ParseMapCorresponds(syntax: NumberSyntax, e: Element, parents: seq<QName>, v: AttributeValidator)
    ensures Corresponds(ParseMap(syntax, e, parents, v).node, e)
    decreases Size(e), 2
  {
    var ep := parents + [e.name];
    var ps := ParseEach(syntax, e, Filtered(e.children), ep, v);
    var r := AddParsed(ps).children;
    AddParsedKeys(ps);
    AddParsedFirsts(ps);
    forall j | 0 <= j < |r|
      ensures FirstNamed(e.children, r[j].name).Some?
      ensures Corresponds(r[j], e.children[FirstNamed(e.children, r[j].name).value])
    {
      var i :| 0 <= i < |ps| && r[j] == ps[i].node && ps[i].node.name !in ParsedNames(ps[..i]);
      ParseKeyCorresponds(syntax, e, parents, v, i);
    }
  }

  /** The first parsed child of a name is described by the first child element of that name. */
  lemma {:induction false} ParseKeyCorresponds(syntax: NumberSyntax, e: Element, parents: seq<QName>, v: AttributeValidator, i: int)
    requires var ps := ParseEach(syntax, e, Filtered(e.children), parents + [e.name], v);
      0 <= i < |ps| && ps[i].node.name !in ParsedNames(ps[..i])
    ensures var ps := ParseEach(syntax, e, Filtered(e.children), parents + [e.name], v);
      && FirstNamed(e.children, ps[i].node.name).Some?
      && Corresponds(ps[i].node, e.children[FirstNamed(e.children, ps[i].node.name).value])
    decreases Size(e), 1
  {
    var ep := parents + [e.name];
    var f := Filtered(e.children);
    var ps := ParseEach(syntax, e, f, ep, v);
    PrefixNames(ps, f, ep, i);
    FirstNamedNewName(e.children, i);
    ChildSmaller(e, f[i]);
    assert ps[i] == Parse(syntax, f[i], ep, v);
    ParseCorresponds(syntax, f[i], ep, v);
  }

  // ------------------------------------------------------------- dispatching

  /** The element parsers, in the order `SchemaParser` asks them by default. */
  datatype ElementParser = ScalarParser | ListParser | MapParser

  const DefaultParsers: seq<ElementParser> := [ScalarParser, ListParser, MapParser]

  predicate Claims(p: ElementParser, e: Element, attrs: MetadataAttributes, ep: seq<QName>)
  {
    match p
    case ScalarParser => ScalarCanParse(e, attrs)
    case ListParser => ListCanParse(e, attrs, ep)
    case MapParser => MapCanParse(e)
  }

  /** The parsers that claim the element, in order. */
  function Claimants(parsers: seq<ElementParser>, e: Element, attrs: MetadataAttributes, ep: seq<QName>): (r: seq<ElementParser>)
    ensures forall p :: p in r <==> p in parsers && Claims(p, e, attrs, ep)
  {
    if parsers == [] then []
    else
      var last := parsers[|parsers| - 1];
      var rest := parsers[..|parsers| - 1];
      assert parsers == rest + [last];
      Claimants(rest, e, attrs, ep) + (if Claims(last, e, attrs, ep) then [last] else [])
  }

  /** Which parser runs, and how many further claimants there were. */
  datatype Selection = Selection(first: Option<ElementParser>, extra: nat)

  /**
   * The selection loop of `SchemaParser.Parse`: the first claimant is kept and
   * every later one is counted, to be reported as a warning.
   */
  function SelectFrom(parsers: seq<ElementParser>, e: Element, attrs: MetadataAttributes, ep: seq<QName>): (r: Selection)
    ensures var c := Claimants(parsers, e, attrs, ep);
      && (r.first.Nothing? <==> c == [])
      && (r.first.Some? ==> r.first.value == c[0] && r.extra == |c| - 1)
      && (r.first.Nothing? ==> r.extra == 0)
  {
    if parsers == [] then Selection(Nothing, 0)
    else
      var r := SelectFrom(parsers[..|parsers| - 1], e, attrs, ep);
      var last := parsers[|parsers| - 1];
      if !Claims(last, e, attrs, ep) then r
      else if r.first.Nothing? then Selection(Some(last), r.extra)
      else Selection(r.first, r.extra + 1)
  }

  /** The selection loop as the source writes it: a `foreach` that updates the first parser found. */
  method SelectParser(parsers: seq<ElementParser>, e: Element, attrs: MetadataAttributes, ep: seq<QName>)
    returns (first: Option<ElementParser>, warnings: nat)
    ensures Selection(first, warnings) == SelectFrom(parsers, e, attrs, ep)
  {
    first, warnings := Nothing, 0;
    var i := 0;
    while i < |parsers|
      invariant 0 <= i <= |parsers|
      invariant Selection(first, warnings) == SelectFrom(parsers[..i], e, attrs, ep)
    {
      assert parsers[..i + 1][..i] == parsers[..i];
      if Claims(parsers[i], e, attrs, ep) {
        if first.Nothing? {
          first := Some(parsers[i]);
        } else {
          warnings := warnings + 1;
        }
      }
      i := i + 1;
    }
    assert parsers[..|parsers|] == parsers;
  }

  /** `count` copies of the two-claimants warning at `path`. */
  function ClaimWarnings(count: nat, path: string): (r: seq<Diagnostic>)
    ensures |r| == count && !ContainsError(r)
    ensures forall i :: 0 <= i < count ==> r[i] == WarningAt(TwoParsersMessage, path)
  {
    seq(count, _ => WarningAt(TwoParsersMessage, path))
  }

  /**
   * `SchemaParser.Parse`: the element is validated, the classifiers are
   * asked in order, and the first claimant's parser builds the node; every
   * further claimant is a warning. When nobody claims it, it is an error and
   * an empty map takes its place.
   */
  function Parse(syntax: NumberSyntax, e: Element, parents: seq<QName>, v: AttributeValidator): (r: Parsed)
    ensures r.node.name == e.name && r.node.parents == parents
    decreases Size(e), 3
  {
    var ep := parents + [e.name];
    var path := ElementPath(ep);
    var val := Validate(v, e, ep);
    var sel := SelectFrom(DefaultParsers, e, val.attrs, ep);
    match sel.first
    case Nothing =>
      Parsed(MapNode(e.name, parents, e.attrs.modifier, []), val.diags + [ErrorAt(NoParserMessage, path)])
    case Some(p) =>
      var sub := match p
        case ScalarParser => ParseScalar(syntax, e, parents, v)
        case ListParser => ParseList(syntax, e, parents, v)
        case MapParser => ParseMap(syntax, e, parents, v);
      Parsed(sub.node, val.diags + ClaimWarnings(sel.extra, path) + sub.diags)
  }

  /** With the default parsers, the first claimant is Scalar, then List, then Map. */
  lemma DefaultSelection(e: Element, attrs: MetadataAttributes, ep: seq<QName>)
    ensures SelectFrom(DefaultParsers, e, attrs, ep).first
         == if ScalarCanParse(e, attrs) then Some(ScalarParser)
            else if ListCanParse(e, attrs, ep) then Some(ListParser)
            else if MapCanParse(e) then Some(MapParser)
            else Nothing
  {
    assert DefaultParsers[..2] == [ScalarParser, ListParser];
    assert DefaultParsers[..2][..1] == [ScalarParser];
    assert DefaultParsers[..2][..1][..0] == [];
  }

  /** The dispatcher's verdict in terms of the classifiers, in the order Scalar, List, Map. */
  lemma ParseDispatch(syntax: NumberSyntax, e: Element, parents: seq<QName>, v: AttributeValidator)
    ensures var ep := parents + [e.name];
      var r := Parse(syntax, e, parents, v);
      && (ScalarCanParse(e, e.attrs) ==> r.node == ParseScalar(syntax, e, parents, v).node)
      && (!ScalarCanParse(e, e.attrs) && ListCanParse(e, e.attrs, ep) ==> r.node == ParseList(syntax, e, parents, v).node)
      && (!ScalarCanParse(e, e.attrs) && !ListCanParse(e, e.attrs, ep) && MapCanParse(e) ==> r.node == ParseMap(syntax, e, parents, v).node)
      && (!ScalarCanParse(e, e.attrs) && !ListCanParse(e, e.attrs, ep) && !MapCanParse(e) ==>
            r == Parsed(MapNode(e.name, parents, e.attrs.modifier, []),
                        Validate(v, e, ep).diags + [ErrorAt(NoParserMessage, ElementPath(ep))]))
  {
    DefaultSelection(e, e.attrs, parents + [e.name]);
  }

  /** Extra claimants only ever add warnings: the errors of a parse are those of the validator and of the chosen parser. */
  lemma ExtraClaimantsOnlyWarn(syntax: NumberSyntax, e: Element, parents: seq<QName>, v: AttributeValidator)
    requires var ep := parents + [e.name]; Claimants(DefaultParsers, e, e.attrs, ep) != []
    ensures var ep := parents + [e.name];
      var r := Parse(syntax, e, parents, v);
      var sub := match Claimants(DefaultParsers, e, e.attrs, ep)[0]
        case ScalarParser => ParseScalar(syntax, e, parents, v)
        case ListParser => ParseList(syntax, e, parents, v)
        case MapParser => ParseMap(syntax, e, parents, v);
      ContainsError(r.diags) <==> ContainsError(Validate(v, e, ep).diags) || ContainsError(sub.diags)
  {
    var ep := parents + [e.name];
    var val := Validate(v, e, ep);
    var sel := SelectFrom(DefaultParsers, e, val.attrs, ep);
    var w := ClaimWarnings(sel.extra, ElementPath(ep));
    var r := Parse(syntax, e, parents, v);
    var sub := match sel.first.value
        case ScalarParser => ParseScalar(syntax, e, parents, v)
        case ListParser => ParseList(syntax, e, parents, v)
        case MapParser => ParseMap(syntax, e, parents, v);
    assert r.diags == val.diags + w + sub.diags;
    ContainsErrorConcat(val.diags, w);
    ContainsErrorConcat(val.diags + w, sub.diags);
  }

  /** Every node the dispatcher builds describes the element it was built from. */
  lemma {:induction false} ParseCorresponds(syntax: NumberSyntax, e: Element, parents: seq<QName>, v: AttributeValidator)
    ensures Corresponds(Parse(syntax, e, parents, v).node, e)
    decreases Size(e), 3
  {
    var ep := parents + [e.name];
    ParseDispatch(syntax, e, parents, v);
    if !ScalarCanParse(e, e.attrs) && !ListCanParse(e, e.attrs, ep) && MapCanParse(e) {
      ParseMapCorresponds(syntax, e, parents, v);
    }
  }

  // --------------------------------------------------------------- documents

  /** What `TryParse` yields: the schema root and its base element when it succeeds, and what was reported. */
  datatype ParseResult = ParseResult(root: Option<(SchemaNode, Element)>, diags: seq<Diagnostic>)

  /**
   * `SchemaParser.TryParse`: a document without a root is an error; a
   * document whose metadata cannot be created fails with the metadata's
   * reports (the metadata is created without a document path, so file names
   * resolve against the assembly's directory); otherwise the root is parsed, with the base validator, and the
   * result is returned whatever the parse reported.
   */
  function TryParse(syntax: NumberSyntax, fs: FileSystem, doc: Document): (r: ParseResult)
    ensures doc.root.Nothing? ==> r == ParseResult(Nothing, [ErrorNoPath(NoRootMessage)])
    ensures doc.root.Some? ==>
      var md := TryCreateFromXDocument(fs, doc, Nothing);
      && (r.root.Some? <==> md.metadata.Some?)
      && (r.root.Some? ==>
            r == ParseResult(Some((Parse(syntax, doc.root.value, [], BaseValidator).node, doc.root.value)),
                                md.diags + Parse(syntax, doc.root.value, [], BaseValidator).diags))
      && (r.root.Nothing? ==> r.diags == md.diags && ContainsError(r.diags))
  {
    match doc.root
    case Nothing => ParseResult(Nothing, [ErrorNoPath(NoRootMessage)])
    case Some(root) =>
      var md := TryCreateFromXDocument(fs, doc, Nothing);
      if md.metadata.Nothing? then
        assert md.diags[0].severity == Error;
        ParseResult(Nothing, md.diags)
      else
        var p := Parse(syntax, root, [], BaseValidator);
        ParseResult(Some((p.node, root)), md.diags + p.diags)
  }

  /** A document that parses yields a schema describing its root element. */
  lemma TryParseCorresponds(syntax: NumberSyntax, fs: FileSystem, doc: Document)
    ensures var r := TryParse(syntax, fs, doc);
      r.root.Some? ==> r.root.value.1 == doc.root.value && Corresponds(r.root.value.0, r.root.value.1)
  {
    if TryParse(syntax, fs, doc).root.Some? {
      ParseCorresponds(syntax, doc.root.value, [], BaseValidator);
    }
  }
}
