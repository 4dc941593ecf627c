/**
 * The schema tree and its two operations: matching an override element
 * against a schema node (read-only, it only reports), and merging a matched
 * override into the base document. A schema node records the position of
 * the base-document element it describes (its ancestors' names and its own
 * name); the base element itself is passed beside the node and the merge
 * returns both the updated node and the updated element.
 */
module Schema {
  import opened Wrappers
  import opened Text
  import opened Xml
  import opened Diagnostics
  import opened ScalarTypes
  import opened Validators

  datatype MatchKind = Subset | Strict

  /**
   * `ScalarSchemaElement`, `ListSchemaElement` and `MapSchemaElement`. A map's
   * children stand for its dictionary, in insertion order, keyed by name.
   */
  datatype SchemaNode =
    | Scalar(name: QName, parents: seq<QName>, modifier: NodeModifier, scalarType: ScalarType)
    | ListNode(name: QName, parents: seq<QName>, modifier: NodeModifier, template: SchemaNode)
    | MapNode(name: QName, parents: seq<QName>, modifier: NodeModifier, children: seq<SchemaNode>)

  /** The ancestor-or-self names of the node's base-document element. */
  function NodePath(s: SchemaNode): seq<QName>
  {
    s.parents + [s.name]
  }

  /** The result of a match: whether it succeeded, and what it reported, in order. */
  datatype Verdict = Verdict(ok: bool, diags: seq<Diagnostic>)

  const ScalarChildrenMessage: string := "Override schemas may not introduce children to scalar nodes."

  function ScalarParseMessage(value: string, t: ScalarType): string
  {
    "Failed to parse '" + value + "' as a type of '" + WellKnownTypeName(t.Type()) + "'."
  }

  const ListFlagsMessage: string :=
    "List elements in override schemas may not specify the '" + FlagsAttributeName.localName + "' attribute."

  function TagMismatchMessage(expected: QName, got: QName): string
  {
    "Expected tag name: '" + NameString(expected) + "'. Got: '" + NameString(got) + "'."
  }

  const DuplicateTagMessage: string := "Duplicate tag detected in map element"

  const NewKeyMessage: string :=
    "Merged schema contains key not present in base schema. Merging may not add new keys."

  function MissingChildrenMessage(names: seq<QName>): string
  {
    "Schema mismatch. Missing required children: " + Join(",", seq(|names|, i requires 0 <= i < |names| => NameString(names[i])))
  }

  const DuplicateChildMessage: string := "Duplicate tag name under map element"

  const FinalMessage: string := "Nodes marked as '" + ModifierName(Final) + "' may not be overridden."

  const MapFlagsMessage: string :=
    "Map elements in override schemas may not specify the '" + FlagsAttributeName.localName + "' attribute."

  /** The children of a map carry pairwise distinct names, as the keys of a dictionary do. */
  predicate UniqueNames(nodes: seq<SchemaNode>)
  {
    forall i, j :: 0 <= i < j < |nodes| ==> nodes[i].name != nodes[j].name
  }

  /** What adding a child to a map leaves: its children and the reports. */
  datatype Added = Added(children: seq<SchemaNode>, diags: seq<Diagnostic>)

  /**
   * `AddChild`: a child whose name is already a key is refused with an error
   * at the child's path and the existing entry is kept; any other child
   * becomes the last entry.
   */
  function AddChild(children: seq<SchemaNode>, child: SchemaNode): (r: Added)
    ensures child.name in NodeNames(children) ==>
      r.children == children && r.diags == [ErrorAt(DuplicateChildMessage, ElementPath(NodePath(child)))]
    ensures child.name !in NodeNames(children) ==> r.children == children + [child] && r.diags == []
    ensures UniqueNames(children) ==> UniqueNames(r.children)
  {
    if child.name in NodeNames(children) then Added(children, [ErrorAt(DuplicateChildMessage, ElementPath(NodePath(child)))])
    else Added(children + [child], [])
  }

  function Names(items: seq<Element>): (r: seq<QName>)
    ensures |r| == |items| && forall i :: 0 <= i < |items| ==> r[i] == items[i].name
  {
    seq(|items|, i requires 0 <= i < |items| => items[i].name)
  }

  function NodeNames(nodes: seq<SchemaNode>): (r: seq<QName>)
    ensures |r| == |nodes| && forall i :: 0 <= i < |nodes| ==> r[i] == nodes[i].name
  {
    seq(|nodes|, i requires 0 <= i < |nodes| => nodes[i].name)
  }

  /** The dictionary lookup `children.TryGetValue(name)`: the first child with that name. */
  function FindChild(nodes: seq<SchemaNode>, name: QName): (r: Option<nat>)
    ensures r.Some? ==> (r.value < |nodes| && nodes[r.value].name == name
                         && forall j :: 0 <= j < r.value ==> nodes[j].name != name)
    ensures r.Nothing? <==> name !in NodeNames(nodes)
  {
    if nodes == [] then Nothing
    else if nodes[0].name == name then Some(0)
    else
      match FindChild(nodes[1..], name)
      case Nothing =>
        assert NodeNames(nodes) == [nodes[0].name] + NodeNames(nodes[1..]);
        Nothing
      case Some(k) => Some(k + 1)
  }

  /** The first element of `items` named `name`. */
  function FirstNamed(items: seq<Element>, name: QName): (r: Option<nat>)
    ensures r.Some? ==> (r.value < |items| && items[r.value].name == name
                         && forall j :: 0 <= j < r.value ==> items[j].name != name)
    ensures r.Nothing? <==> name !in Names(items)
  {
    if items == [] then Nothing
    else if items[0].name == name then Some(0)
    else
      match FirstNamed(items[1..], name)
      case Nothing =>
        assert Names(items) == [items[0].name] + Names(items[1..]);
        Nothing
      case Some(k) => Some(k + 1)
  }

  /**
   * A schema node describes the base element `b` it was built from: they
   * have the same name, and a map's keys are distinct and each key is
   * described, recursively, by the first child of `b` with that name (the
   * element whose schema node the dictionary holds). List items and
   * templates are not tied to base elements.
   */
  predicate Corresponds(s: SchemaNode, b: Element)
    decreases s
  {
    && s.name == b.name
    && (s.MapNode? ==>
          && UniqueNames(s.children)
          && forall j :: 0 <= j < |s.children| ==>
               && FirstNamed(b.children, s.children[j].name).Some?
               && Corresponds(s.children[j], b.children[FirstNamed(b.children, s.children[j].name).value]))
  }

  /**
   * The first pass of a map match over the proposed children: the local
   * dictionary (the first child of each name, in order) and the children
   * rejected because their name was already in it.
   */
  datatype KeyScan = KeyScan(firsts: seq<Element>, repeats: seq<Element>)

  function ScanKeys(items: seq<Element>): (r: KeyScan)
    ensures forall i, j :: 0 <= i < j < |r.firsts| ==> r.firsts[i].name != r.firsts[j].name
    ensures forall c :: c in r.firsts ==> c in items
    ensures forall i :: 0 <= i < |items| ==> items[i].name in Names(r.firsts)
    ensures |r.firsts| + |r.repeats| == |items|
  {
    if items == [] then KeyScan([], [])
    else
      var r := ScanKeys(items[..|items| - 1]);
      var c := items[|items| - 1];
      if c.name in Names(r.firsts) then KeyScan(r.firsts, r.repeats + [c])
      else
        assert Names(r.firsts + [c]) == Names(r.firsts) + [c.name];
        KeyScan(r.firsts + [c], r.repeats)
  }

  /** Whether `items[i]` is the earliest item carrying its name. */
  predicate IsFirstOfName(items: seq<Element>, i: int)
    requires 0 <= i < |items|
  {
    forall j :: 0 <= j < i ==> items[j].name != items[i].name
  }

  /**
   * The positions, in increasing order, of the items that are the earliest of
   * their name (`first`), or of those that repeat an earlier name (`!first`).
   */
  function KeyPositions(items: seq<Element>, first: bool): (f: seq<int>)
    ensures forall k :: 0 <= k < |f| ==> 0 <= f[k] < |items|
    ensures forall k, l :: 0 <= k < l < |f| ==> f[k] < f[l]
    ensures forall i :: 0 <= i < |items| ==> (i in f <==> IsFirstOfName(items, i) == first)
  {
    if items == [] then []
    else
      var n := |items| - 1;
      var f := KeyPositions(items[..n], first);
      assert forall i :: 0 <= i < n ==> IsFirstOfName(items, i) == IsFirstOfName(items[..n], i);
      f + (if IsFirstOfName(items, n) == first then [n] else [])
  }

  /** The non-Optional children of a map whose names are not among `present`, in dictionary order. */
  function MissingRequired(nodes: seq<SchemaNode>, present: seq<QName>): (r: seq<QName>)
    ensures forall q :: q in r <==> exists i :: 0 <= i < |nodes| && nodes[i].name == q
                                             && nodes[i].modifier != Optional && q !in present
  {
    if nodes == [] then []
    else
      var rest := MissingRequired(nodes[1..], present);
      assert forall i :: 1 <= i < |nodes| ==> nodes[i] == nodes[1..][i - 1];
      if nodes[0].modifier != Optional && nodes[0].name !in present then [nodes[0].name] + rest else rest
  }

  /**
   * `MatchesSchema(element, matchKind, validator, collector)` for an override
   * element whose ancestor-or-self names are `ep`: each kind of node has its
   * own check. A failed match has always reported an error.
   */
  function Match(syntax: NumberSyntax, s: SchemaNode, e: Element, ep: seq<QName>, kind: MatchKind, v: AttributeValidator): (r: Verdict)
    ensures !r.ok ==> ContainsError(r.diags)
    decreases s, 3
  {
    match s
    case Scalar(_, _, _, _) => MatchScalar(syntax, s, e, ep, v)
    case ListNode(_, _, _, _) => MatchList(syntax, s, e, ep, v)
    case MapNode(_, _, _, _) => MatchMap(syntax, s, e, ep, kind, v)
  }

  /**
   * `ScalarSchemaElement.MatchesSchema`: no children, and a value the scalar
   * type accepts unless the override is Abstract or Optional; both faults are
   * reported at the schema node's path.
   */
  function MatchScalar(syntax: NumberSyntax, s: SchemaNode, e: Element, ep: seq<QName>, v: AttributeValidator): (r: Verdict)
    requires s.Scalar?
    ensures !r.ok ==> ContainsError(r.diags)
  {
    var val := Validate(v, e, ep);
    var path := ElementPath(NodePath(s));
    var childErr := if e.children != [] then [ErrorAt(ScalarChildrenMessage, path)] else [];
    var skipParse := val.attrs.modifier == Abstract || val.attrs.modifier == Optional;
    var badValue := !skipParse && !s.scalarType.CanParse(syntax, Value(e));
    var parseErr := if badValue then [ErrorAt(ScalarParseMessage(Value(e), s.scalarType), path)] else [];
    OnlyErrors(childErr);
    OnlyErrors(parseErr);
    ContainsErrorConcat(val.diags + childErr, parseErr);
    ContainsErrorConcat(val.diags, childErr);
    Verdict(e.children == [] && !badValue, val.diags + childErr + parseErr)
  }

  /** `ListSchemaElement.MatchesSchema`: a modifier on the list is reported; the items decide. */
  function MatchList(syntax: NumberSyntax, s: SchemaNode, e: Element, ep: seq<QName>, v: AttributeValidator): (r: Verdict)
    requires s.ListNode?
    ensures !r.ok ==> ContainsError(r.diags)
    decreases s, 2
  {
    var val := Validate(v, e, ep);
    var flagsErr := if val.attrs.modifier != None then [ErrorAt(ListFlagsMessage, ElementPath(ep))] else [];
    var items := MatchListItems(syntax, s.template, Filtered(e.children), ep, v);
    ContainsErrorConcat(val.diags + flagsErr, items.diags);
    Verdict(items.ok, val.diags + flagsErr + items.diags)
  }

  /**
   * `MapSchemaElement.MatchesSchema`: a repeated tag is reported at each
   * repeat, every key of the local dictionary must be a schema key whose
   * child matches, and a Strict match also needs every non-Optional key.
   */
  function MatchMap(syntax: NumberSyntax, s: SchemaNode, e: Element, ep: seq<QName>, kind: MatchKind, v: AttributeValidator): (r: Verdict)
    requires s.MapNode?
    ensures !r.ok ==> ContainsError(r.diags)
    decreases s, 2
  {
    var val := Validate(v, e, ep);
    var scan := ScanKeys(Filtered(e.children));
    var dupErr := DuplicateReports(scan.repeats, ep);
    var keys := MatchMapKeys(syntax, s, scan.firsts, ep, kind, v);
    var missing := if kind == Strict then MissingRequired(s.children, Names(scan.firsts)) else [];
    var missingErr := MissingReport(missing, ep);
    ContainsErrorConcat(val.diags + dupErr + keys.diags, missingErr);
    ContainsErrorConcat(val.diags + dupErr, keys.diags);
    ContainsErrorConcat(val.diags, dupErr);
    Verdict(scan.repeats == [] && keys.ok && missing == [], val.diags + dupErr + keys.diags + missingErr)
  }

  /** The first loop's reports: each repeated tag is an error at the repeat's own path. */
  function DuplicateReports(repeats: seq<Element>, ep: seq<QName>): (r: seq<Diagnostic>)
    ensures |r| == |repeats|
    ensures forall i :: 0 <= i < |repeats| ==> r[i] == ErrorAt(DuplicateTagMessage, ElementPath(ep + [repeats[i].name]))
    ensures ContainsError(r) <==> repeats != []
  {
    var r := seq(|repeats|, i requires 0 <= i < |repeats| => ErrorAt(DuplicateTagMessage, ElementPath(ep + [repeats[i].name])));
    OnlyErrors(r);
    r
  }

  /** The Strict check's report: one error at the map's path naming the missing keys, if there are any. */
  function MissingReport(missing: seq<QName>, ep: seq<QName>): (r: seq<Diagnostic>)
    ensures missing == [] ==> r == []
    ensures missing != [] ==> r == [ErrorAt(MissingChildrenMessage(missing), ElementPath(ep))]
    ensures ContainsError(r) <==> missing != []
  {
    var r := if missing != [] then [ErrorAt(MissingChildrenMessage(missing), ElementPath(ep))] else [];
    OnlyErrors(r);
    r
  }

  /** The item loop of a list match: every item needs the template's tag and must match it strictly. */
  function MatchListItems(syntax: NumberSyntax, t: SchemaNode, items: seq<Element>, ep: seq<QName>, v: AttributeValidator): (r: Verdict)
    ensures !r.ok ==> ContainsError(r.diags)
    decreases t, 4, |items|
  {
    if items == [] then Verdict(true, [])
    else
      var r := MatchListItems(syntax, t, items[..|items| - 1], ep, v);
      var c := items[|items| - 1];
      var cp := ep + [c.name];
      var tagErr := if c.name != t.name then [ErrorAt(TagMismatchMessage(t.name, c.name), ElementPath(cp))] else [];
      var cr := Match(syntax, t, c, cp, Strict, v);
      OnlyErrors(tagErr);
      ContainsErrorConcat(r.diags + tagErr, cr.diags);
      ContainsErrorConcat(r.diags, tagErr);
      Verdict(r.ok && c.name == t.name && cr.ok, r.diags + tagErr + cr.diags)
  }

  /** The key loop of a map match, over the local dictionary built by `ScanKeys`. */
  function MatchMapKeys(syntax: NumberSyntax, m: SchemaNode, firsts: seq<Element>, ep: seq<QName>, kind: MatchKind, v: AttributeValidator): (r: Verdict)
    requires m.MapNode?
    ensures !r.ok ==> ContainsError(r.diags)
    decreases m, 1, |firsts|
  {
    if firsts == [] then Verdict(true, [])
    else
      var r := MatchMapKeys(syntax, m, firsts[..|firsts| - 1], ep, kind, v);
      var c := firsts[|firsts| - 1];
      var cp := ep + [c.name];
      match FindChild(m.children, c.name)
      case Some(j) =>
        var cr := Match(syntax, m.children[j], c, cp, kind, v);
        ContainsErrorConcat(r.diags, cr.diags);
        Verdict(r.ok && cr.ok, r.diags + cr.diags)
      case Nothing =>
        var err := ErrorAt(NewKeyMessage, ElementPath(cp));
        ErrorInLog(r.diags + [err], err);
        Verdict(false, r.diags + [err])
  }

  /** What a merge leaves behind: the updated schema node, the updated base element and the reports. */
  datatype Merged = Merged(schema: SchemaNode, base: Element, diags: seq<Diagnostic>)

  /**
   * `MergeWith(element, validator, collector)` on a node whose base element is
   * `b`: a Subset match first; only when it succeeds is the override merged.
   * `matched` is false when the merge was refused.
   */
  datatype Outcome = Outcome(matched: bool, schema: SchemaNode, base: Element, diags: seq<Diagnostic>)

  function MergeNode(syntax: NumberSyntax, s: SchemaNode, b: Element, e: Element, ep: seq<QName>, v: AttributeValidator): (r: Outcome)
    ensures r.schema.name == s.name && r.base.name == b.name
    decreases s, 2
  {
    var m := Match(syntax, s, e, ep, Subset, v);
    if !m.ok then Outcome(false, s, b, m.diags)
    else
      var r := MergeProtected(syntax, s, b, e, ep, v);
      Outcome(true, r.schema, r.base, m.diags + r.diags)
  }

  /** `MergeWithProtected`: the in-place update of the base element for each kind of node. */
  function MergeProtected(syntax: NumberSyntax, s: SchemaNode, b: Element, e: Element, ep: seq<QName>, v: AttributeValidator): (r: Merged)
    ensures r.schema.name == s.name && r.base.name == b.name
    decreases s, 1
  {
    var val := Validate(v, e, ep);
    match s
    case Scalar(name, parents, _, t) =>
      var finalErr := if s.modifier == Final then [ErrorAt(FinalMessage, ElementPath(NodePath(s)))] else [];
      var m := val.attrs.modifier;
      var flagged := if s.modifier != m then b.(attrs := b.attrs.(modifier := m)) else b;
      var content := if m == Abstract then flagged.(children := [], text := "")
                     else flagged.(children := [], text := Value(e));
      Merged(Scalar(name, parents, m, t), content, val.diags + finalErr)
    case ListNode(_, _, _, _) =>
      var replace := val.attrs.listMergePolicy == Some(Replace);
      var kept := if replace then b.(children := [], text := "") else b;
      Merged(s, kept.(children := kept.children + Detached(Filtered(e.children))), val.diags)
    case MapNode(name, parents, modifier, _) =>
      var flagsErr := if val.attrs.modifier != None then [ErrorAt(MapFlagsMessage, ElementPath(ep))] else [];
      var r := MergeFields(syntax, s, b, Filtered(e.children), ep, v);
      Merged(MapNode(name, parents, modifier, r.children), r.base, val.diags + flagsErr + r.diags)
  }

  /** The updated children of a map node and its base element after merging some of the proposed children. */
  datatype FieldsMerged = FieldsMerged(children: seq<SchemaNode>, base: Element, diags: seq<Diagnostic>)

  /**
   * The child loop of a map merge: each proposed child is merged in turn, by
   * `MergeField`. The names of the schema children and of the base children
   * never change.
   */
  function MergeFields(syntax: NumberSyntax, m: SchemaNode, b: Element, items: seq<Element>, ep: seq<QName>, v: AttributeValidator): (r: FieldsMerged)
    requires m.MapNode?
    ensures |r.children| == |m.children| && NodeNames(r.children) == NodeNames(m.children)
    ensures r.base.name == b.name && r.base.attrs == b.attrs && r.base.text == b.text
    ensures |r.base.children| == |b.children|
    ensures forall k :: 0 <= k < |b.children| ==> r.base.children[k].name == b.children[k].name
    decreases m, 0, |items|
  {
    if items == [] then FieldsMerged(m.children, b, [])
    else
      var r := MergeFields(syntax, m, b, items[..|items| - 1], ep, v);
      MergeField(syntax, m, r, items[|items| - 1], ep, v)
  }

  /**
   * One pass of the child loop of a map merge: the proposed child `c` is
   * merged into the schema child of its name and into the first base child of
   * that name; when either lookup finds nothing, everything stays as it is.
   * Only those two children can change, and no name changes.
   */
  function MergeField(syntax: NumberSyntax, m: SchemaNode, r: FieldsMerged, c: Element, ep: seq<QName>, v: AttributeValidator): (out: FieldsMerged)
    requires m.MapNode? && NodeNames(r.children) == NodeNames(m.children)
    ensures NodeNames(out.children) == NodeNames(r.children)
    ensures forall j :: 0 <= j < |m.children| && m.children[j].name != c.name ==> out.children[j] == r.children[j]
    ensures out.base.name == r.base.name && out.base.attrs == r.base.attrs && out.base.text == r.base.text
    ensures |out.base.children| == |r.base.children|
    ensures forall k :: 0 <= k < |r.base.children| ==> out.base.children[k].name == r.base.children[k].name
    ensures forall k :: 0 <= k < |r.base.children| && r.base.children[k].name != c.name ==> out.base.children[k] == r.base.children[k]
    ensures r.diags <= out.diags
    decreases m, 0, 0
  {
    match FindChild(m.children, c.name)
    case Nothing => r
    case Some(j) =>
      match FirstNamed(r.base.children, c.name)
      case Nothing => r
      case Some(k) =>
        var o := MergeNode(syntax, m.children[j], r.base.children[k], c, ep + [c.name], v);
        assert r.children[j].name == m.children[j].name;
        RenamingNothing(r.children, j, o.schema);
        FieldsMerged(r.children[j := o.schema], r.base.(children := r.base.children[k := o.base]), r.diags + o.diags)
  }

  /** Replacing a node by one of the same name leaves the names as they were. */
  lemma RenamingNothing(nodes: seq<SchemaNode>, j: int, x: SchemaNode)
    requires 0 <= j < |nodes| && x.name == nodes[j].name
    ensures NodeNames(nodes[j := x]) == NodeNames(nodes)
  {
    assert forall i :: 0 <= i < |nodes| ==> NodeNames(nodes[j := x])[i] == NodeNames(nodes)[i];
  }

  /** The public `MergeWith`: true exactly when the match succeeded and the collector holds no error afterwards. */
  datatype MergeResult = MergeResult(ok: bool, schema: SchemaNode, base: Element, diags: seq<Diagnostic>)

  function MergeWith(syntax: NumberSyntax, s: SchemaNode, b: Element, e: Element, v: AttributeValidator, log: seq<Diagnostic>): (r: MergeResult)
    ensures r.ok <==> MergeNode(syntax, s, b, e, [e.name], v).matched && !ContainsError(log + r.diags)
    ensures !MergeNode(syntax, s, b, e, [e.name], v).matched ==> r.schema == s && r.base == b && !r.ok
  {
    var o := MergeNode(syntax, s, b, e, [e.name], v);
    MergeResult(o.matched && !ContainsError(log + o.diags), o.schema, o.base, o.diags)
  }
}
