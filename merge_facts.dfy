/**
 * What a merge promises: it is refused, with an error and nothing changed,
 * unless the override matches; a scalar takes the override's modifier and
 * value (or loses its content when it becomes Abstract) and a Final scalar
 * makes the merge fail; a list keeps or drops its items by its merge policy
 * and appends the override's items in order; a map only recurses into the
 * keys the override names. No merge changes a name, a key, a scalar type
 * or a list template.
 */
module MergeFacts {
  import opened Wrappers
  import opened Text
  import opened Xml
  import opened Diagnostics
  import opened ScalarTypes
  import opened Validators
  import opened Schema
  import opened SchemaFacts

  /** A refused merge changes nothing, reports an error, and makes `MergeWith` return false. */
  lemma RefusedMergeReports(syntax: NumberSyntax, s: SchemaNode, b: Element, e: Element, v: AttributeValidator, log: seq<Diagnostic>)
    requires !MergeNode(syntax, s, b, e, [e.name], v).matched
    ensures var r := MergeWith(syntax, s, b, e, v, log);
      !r.ok && r.schema == s && r.base == b && ContainsError(r.diags)
  {
  }

  /** A merge that reports an error, or follows one already collected, makes `MergeWith` return false. */
  lemma MergeWithFailsOnError(syntax: NumberSyntax, s: SchemaNode, b: Element, e: Element, v: AttributeValidator, log: seq<Diagnostic>)
    requires ContainsError(log) || ContainsError(MergeNode(syntax, s, b, e, [e.name], v).diags)
    ensures !MergeWith(syntax, s, b, e, v, log).ok
  {
    ContainsErrorConcat(log, MergeNode(syntax, s, b, e, [e.name], v).diags);
  }

  /**
   * Merging into a scalar: the node takes the override's modifier (the
   * base's `Flags` attribute is rewritten only when that changes it), its
   * type is kept, and its content becomes the override's value, or nothing
   * when the new modifier is Abstract. A Final node reports an error at its
   * own path.
   */
  lemma ScalarMergeEffect(syntax: NumberSyntax, s: SchemaNode, b: Element, e: Element, ep: seq<QName>, v: AttributeValidator)
    requires s.Scalar?
    ensures var r := MergeProtected(syntax, s, b, e, ep, v);
      && r.schema.Scalar? && r.schema.name == s.name && r.schema.parents == s.parents
      && r.schema.scalarType == s.scalarType && r.schema.modifier == e.attrs.modifier
      && r.base.name == b.name && r.base.children == []
      && (s.modifier != e.attrs.modifier ==> r.base.attrs == b.attrs.(modifier := e.attrs.modifier))
      && (b.attrs.modifier == s.modifier ==> r.base.attrs == b.attrs.(modifier := e.attrs.modifier))
      && (s.modifier == e.attrs.modifier ==> r.base.attrs == b.attrs)
      && Value(r.base) == (if e.attrs.modifier == Abstract then "" else Value(e))
      && (s.modifier == Final ==> ErrorAt(FinalMessage, ElementPath(NodePath(s))) in r.diags)
  {
    var r := MergeProtected(syntax, s, b, e, ep, v);
    ValueOfLeaf(r.base);
    if s.modifier == Final {
      var val := Validate(v, e, ep);
      assert r.diags[|val.diags|] == ErrorAt(FinalMessage, ElementPath(NodePath(s)));
    }
  }

  /** Merging into a Final scalar reports an error. */
  lemma FinalScalarReports(syntax: NumberSyntax, s: SchemaNode, b: Element, e: Element, ep: seq<QName>, v: AttributeValidator)
    requires s.Scalar? && s.modifier == Final
    ensures ContainsError(MergeProtected(syntax, s, b, e, ep, v).diags)
  {
    ScalarMergeEffect(syntax, s, b, e, ep, v);
    ErrorInLog(MergeProtected(syntax, s, b, e, ep, v).diags, ErrorAt(FinalMessage, ElementPath(NodePath(s))));
  }

  /** A Final scalar can never be overridden: `MergeWith` on it returns false. */
  lemma FinalScalarRefusesOverride(syntax: NumberSyntax, s: SchemaNode, b: Element, e: Element, v: AttributeValidator, log: seq<Diagnostic>)
    requires s.Scalar? && s.modifier == Final
    ensures !MergeWith(syntax, s, b, e, v, log).ok
  {
    var o := MergeNode(syntax, s, b, e, [e.name], v);
    if o.matched {
      FinalScalarReports(syntax, s, b, e, [e.name], v);
      ContainsErrorConcat(Match(syntax, s, e, [e.name], Subset, v).diags, MergeProtected(syntax, s, b, e, [e.name], v).diags);
      MergeWithFailsOnError(syntax, s, b, e, v, log);
    }
  }

  /**
   * Merging into a list: the schema, and so the template, is unchanged; the
   * override's filtered children are appended in order, after the existing
   * content, or after nothing when the override's policy is Replace; each
   * is copied without the text that followed it in the override.
   */
  lemma ListMergeEffect(syntax: NumberSyntax, s: SchemaNode, b: Element, e: Element, ep: seq<QName>, v: AttributeValidator)
    requires s.ListNode?
    ensures var r := MergeProtected(syntax, s, b, e, ep, v);
      && r.schema == s
      && r.base.name == b.name && r.base.attrs == b.attrs
      && (e.attrs.listMergePolicy == Some(Replace) ==>
            r.base.children == Detached(Filtered(e.children)) && r.base.text == "")
      && (e.attrs.listMergePolicy != Some(Replace) ==>
            r.base.children == b.children + Detached(Filtered(e.children)) && r.base.text == b.text)
  {
  }

  /** The child loop of a map merge leaves the schema children no proposed item names as they were. */
  lemma {:induction false} MergeFieldsKeys(syntax: NumberSyntax, m: SchemaNode, b: Element, items: seq<Element>, ep: seq<QName>, v: AttributeValidator)
    requires m.MapNode?
    ensures var r := MergeFields(syntax, m, b, items, ep, v);
      forall j :: 0 <= j < |m.children| && m.children[j].name !in Names(items) ==> r.children[j] == m.children[j]
  {
    if items != [] {
      var prefix := items[..|items| - 1];
      var c := items[|items| - 1];
      MergeFieldsKeys(syntax, m, b, prefix, ep, v);
      assert Names(items) == Names(prefix) + [c.name];
    }
  }

  /** The child loop of a map merge leaves the base children no proposed item names as they were. */
  lemma {:induction false} MergeFieldsUntouchedBase(syntax: NumberSyntax, m: SchemaNode, b: Element, items: seq<Element>, ep: seq<QName>, v: AttributeValidator)
    requires m.MapNode?
    ensures var r := MergeFields(syntax, m, b, items, ep, v);
      forall k :: 0 <= k < |b.children| && b.children[k].name !in Names(items) ==> r.base.children[k] == b.children[k]
  {
    if items != [] {
      var prefix := items[..|items| - 1];
      var c := items[|items| - 1];
      MergeFieldsUntouchedBase(syntax, m, b, prefix, ep, v);
      assert Names(items) == Names(prefix) + [c.name];
    }
  }

  /**
   * Merging into a map: the keys stay the same and in the same order, the
   * children the override does not name are untouched in both the schema and
   * the base element, and a modifier on the override is reported at the
   * override's path.
   */
  lemma MapMergeEffect(syntax: NumberSyntax, s: SchemaNode, b: Element, e: Element, ep: seq<QName>, v: AttributeValidator)
    requires s.MapNode?
    ensures var r := MergeProtected(syntax, s, b, e, ep, v);
      var named := Names(Filtered(e.children));
      && r.schema.MapNode? && r.schema.name == s.name && r.schema.modifier == s.modifier
      && NodeNames(r.schema.children) == NodeNames(s.children)
      && (forall j :: 0 <= j < |s.children| && s.children[j].name !in named ==> r.schema.children[j] == s.children[j])
      && r.base.name == b.name && r.base.attrs == b.attrs && |r.base.children| == |b.children|
      && (forall k :: 0 <= k < |b.children| && b.children[k].name !in named ==> r.base.children[k] == b.children[k])
      && (e.attrs.modifier != None ==> ErrorAt(MapFlagsMessage, ElementPath(ep)) in r.diags)
  {
    MergeFieldsKeys(syntax, s, b, Filtered(e.children), ep, v);
    MergeFieldsUntouchedBase(syntax, s, b, Filtered(e.children), ep, v);
    if e.attrs.modifier != None {
      var val := Validate(v, e, ep);
      var r := MergeProtected(syntax, s, b, e, ep, v);
      assert r.diags[|val.diags|] == ErrorAt(MapFlagsMessage, ElementPath(ep));
    }
  }

  /** Two element lists whose names agree position by position have their first element of every name in the same place. */
  lemma FirstNamedSameNames(a: seq<Element>, b: seq<Element>, name: QName)
    requires |a| == |b| && forall k :: 0 <= k < |a| ==> a[k].name == b[k].name
    ensures FirstNamed(a, name) == FirstNamed(b, name)
  {
    assert Names(a) == Names(b);
  }

  /**
   * The child loop of a map merge over proposed children with distinct
   * names: the schema child of each proposed name, and the first base child
   * of that name, end up as merging that proposed child into them makes them,
   * and everything that merge reported is among the loop's reports.
   */
  lemma {:induction false} MergeFieldsNamed(syntax: NumberSyntax, m: SchemaNode, b: Element, items: seq<Element>, ep: seq<QName>, v: AttributeValidator, i: int)
    requires m.MapNode? && 0 <= i < |items|
    requires forall p, q :: 0 <= p < q < |items| ==> items[p].name != items[q].name
    requires FindChild(m.children, items[i].name).Some? && FirstNamed(b.children, items[i].name).Some?
    ensures var r := MergeFields(syntax, m, b, items, ep, v);
      var j := FindChild(m.children, items[i].name).value;
      var k := FirstNamed(b.children, items[i].name).value;
      var o := MergeNode(syntax, m.children[j], b.children[k], items[i], ep + [items[i].name], v);
      && r.children[j] == o.schema && r.base.children[k] == o.base
      && forall d :: d in o.diags ==> d in r.diags
    decreases |items|
  {
    var prefix := items[..|items| - 1];
    var last := items[|items| - 1];
    var r0 := MergeFields(syntax, m, b, prefix, ep, v);
    var j := FindChild(m.children, items[i].name).value;
    var k := FirstNamed(b.children, items[i].name).value;
    if i == |items| - 1 {
      MergeFieldsUntouchedBase(syntax, m, b, prefix, ep, v);
      assert last.name !in Names(prefix);
      FirstNamedSameNames(r0.base.children, b.children, last.name);
    } else {
      MergeFieldsNamed(syntax, m, b, prefix, ep, v, i);
      assert items[i].name != last.name;
      assert r0.base.children[k].name == b.children[k].name;
    }
  }

  /**
   * A map merge that passed its match, on a schema that describes its base
   * element, merges every proposed key into the schema child of that key and
   * into the first base child of that name, both of which exist, and keeps
   * all that those merges report; the keys it does not name are untouched
   * (`MapMergeEffect`).
   */
  lemma MapMergeMergesNamed(syntax: NumberSyntax, s: SchemaNode, b: Element, e: Element, ep: seq<QName>, v: AttributeValidator, i: int)
    requires s.MapNode? && Corresponds(s, b)
    requires Match(syntax, s, e, ep, Subset, v).ok && 0 <= i < |Filtered(e.children)|
    ensures var c := Filtered(e.children)[i];
      FindChild(s.children, c.name).Some? && FirstNamed(b.children, c.name).Some?
    ensures var c := Filtered(e.children)[i];
      var r := MergeNode(syntax, s, b, e, ep, v);
      var j := FindChild(s.children, c.name).value;
      var k := FirstNamed(b.children, c.name).value;
      var o := MergeNode(syntax, s.children[j], b.children[k], c, ep + [c.name], v);
      && r.matched && r.schema.MapNode? && |r.schema.children| == |s.children| && |r.base.children| == |b.children|
      && r.schema.children[j] == o.schema && r.base.children[k] == o.base
      && forall d :: d in o.diags ==> d in r.diags
  {
    var items := Filtered(e.children);
    MapMatchKeysKnown(syntax, s, e, ep, v);
    KeyMatchesKnown(syntax, s, items[i], ep, v);
    MatchedMapMerge(syntax, s, b, e, ep, v);
    var j := FindChild(s.children, items[i].name).value;
    assert s.children[j].name == items[i].name;
    MergeFieldsNamed(syntax, s, b, items, ep, v, i);
  }

  /** Every merge into a Final scalar reports an error, whether or not the override matches. */
  lemma FinalScalarMergeReports(syntax: NumberSyntax, s: SchemaNode, b: Element, e: Element, ep: seq<QName>, v: AttributeValidator)
    requires s.Scalar? && s.modifier == Final
    ensures ContainsError(MergeNode(syntax, s, b, e, ep, v).diags)
  {
    if Match(syntax, s, e, ep, Subset, v).ok {
      FinalScalarReports(syntax, s, b, e, ep, v);
      ContainsErrorConcat(Match(syntax, s, e, ep, Subset, v).diags, MergeProtected(syntax, s, b, e, ep, v).diags);
    }
  }

  /**
   * A Final scalar under a map key cannot be overridden either: `MergeWith`
   * on a map that describes its base element returns false when the
   * override names that key.
   */
  lemma FinalKeyRefusesOverride(syntax: NumberSyntax, s: SchemaNode, b: Element, e: Element, v: AttributeValidator, log: seq<Diagnostic>, i: int)
    requires s.MapNode? && Corresponds(s, b) && 0 <= i < |Filtered(e.children)|
    requires var j := FindChild(s.children, Filtered(e.children)[i].name);
      j.Some? && s.children[j.value].Scalar? && s.children[j.value].modifier == Final
    ensures !MergeWith(syntax, s, b, e, v, log).ok
  {
    if Match(syntax, s, e, [e.name], Subset, v).ok {
      FinalKeyReports(syntax, s, b, e, [e.name], v, i);
      MergeWithFailsOnError(syntax, s, b, e, v, log);
    }
  }

  lemma FinalKeyReports(syntax: NumberSyntax, s: SchemaNode, b: Element, e: Element, ep: seq<QName>, v: AttributeValidator, i: int)
    requires s.MapNode? && Corresponds(s, b) && 0 <= i < |Filtered(e.children)|
    requires Match(syntax, s, e, ep, Subset, v).ok
    requires var j := FindChild(s.children, Filtered(e.children)[i].name);
      j.Some? && s.children[j.value].Scalar? && s.children[j.value].modifier == Final
    ensures ContainsError(MergeNode(syntax, s, b, e, ep, v).diags)
  {
    var c := Filtered(e.children)[i];
    MapMergeMergesNamed(syntax, s, b, e, ep, v, i);
    var j := FindChild(s.children, c.name).value;
    var k := FirstNamed(b.children, c.name).value;
    var o := MergeNode(syntax, s.children[j], b.children[k], c, ep + [c.name], v);
    FinalScalarMergeReports(syntax, s.children[j], b.children[k], c, ep + [c.name], v);
    ContainsErrorWithin(o.diags, MergeNode(syntax, s, b, e, ep, v).diags);
  }

  /**
   * A merge keeps the schema describing its base element: each key that is
   * merged is merged into the base child it describes, and names never change.
   */
  lemma {:induction false} MergeNodeCorresponds(syntax: NumberSyntax, s: SchemaNode, b: Element, e: Element, ep: seq<QName>, v: AttributeValidator)
    requires Corresponds(s, b)
    ensures var r := MergeNode(syntax, s, b, e, ep, v);
      Corresponds(r.schema, r.base)
    decreases s, 2
  {
    if Match(syntax, s, e, ep, Subset, v).ok {
      if s.MapNode? {
        MapMatchKeysKnown(syntax, s, e, ep, v);
      }
      MergeProtectedCorresponds(syntax, s, b, e, ep, v);
    }
  }

  lemma {:induction false} MergeProtectedCorresponds(syntax: NumberSyntax, s: SchemaNode, b: Element, e: Element, ep: seq<QName>, v: AttributeValidator)
    requires Corresponds(s, b)
    requires s.MapNode? ==> DistinctNames(Filtered(e.children))
    ensures var r := MergeProtected(syntax, s, b, e, ep, v);
      Corresponds(r.schema, r.base)
    decreases s, 1
  {
    match s
    case Scalar(_, _, _, _) =>
    case ListNode(_, _, _, _) =>
    case MapNode(n, p, mod, cs) =>
      var items := Filtered(e.children);
      var f := MergeFields(syntax, s, b, items, ep, v);
      MergeFieldsCorresponds(syntax, s, b, items, ep, v);
      var r := MergeProtected(syntax, s, b, e, ep, v);
      assert r.schema == s.(children := f.children) && r.base == f.base;
      RebuiltMapCorresponds(s, f.children, f.base);
  }

  /** A map whose children are replaced, key by key, by nodes described by the base element still describes it. */
  lemma RebuiltMapCorresponds(s: SchemaNode, children: seq<SchemaNode>, base: Element)
    requires s.MapNode? && UniqueNames(s.children) && base.name == s.name && NodeNames(children) == NodeNames(s.children)
    requires forall j :: 0 <= j < |s.children| ==>
      && FirstNamed(base.children, s.children[j].name).Some?
      && Corresponds(children[j], base.children[FirstNamed(base.children, s.children[j].name).value])
    ensures Corresponds(s.(children := children), base)
  {
    assert forall j :: 0 <= j < |children| ==> children[j].name == NodeNames(children)[j] == s.children[j].name;
  }

  lemma {:induction false} MergeFieldsCorresponds(syntax: NumberSyntax, m: SchemaNode, b: Element, items: seq<Element>, ep: seq<QName>, v: AttributeValidator)
    requires m.MapNode? && Corresponds(m, b) && DistinctNames(items)
    ensures var r := MergeFields(syntax, m, b, items, ep, v);
      forall j :: 0 <= j < |m.children| ==>
        && FirstNamed(r.base.children, m.children[j].name).Some?
        && Corresponds(r.children[j], r.base.children[FirstNamed(r.base.children, m.children[j].name).value])
    decreases m, 0, |items|
  {
    if items != [] {
      var prefix := items[..|items| - 1];
      var c := items[|items| - 1];
      var r0 := MergeFields(syntax, m, b, prefix, ep, v);
      var r := MergeFields(syntax, m, b, items, ep, v);
      assert r == MergeField(syntax, m, r0, c, ep, v);
      MergeFieldsCorresponds(syntax, m, b, prefix, ep, v);
      MergeFieldsUntouchedBase(syntax, m, b, prefix, ep, v);
      MergeFieldsKeys(syntax, m, b, prefix, ep, v);
      assert c.name !in Names(prefix);
      MergeFieldCorresponds(syntax, m, b, r0, c, ep, v);
    }
  }

  /** One pass of the child loop keeps every key described by the first base child of its name. */
  lemma {:induction false} MergeFieldCorresponds(syntax: NumberSyntax, m: SchemaNode, b: Element, r0: FieldsMerged, c: Element, ep: seq<QName>, v: AttributeValidator)
    requires m.MapNode? && Corresponds(m, b) && NodeNames(r0.children) == NodeNames(m.children)
    requires |r0.base.children| == |b.children| && forall k :: 0 <= k < |b.children| ==> r0.base.children[k].name == b.children[k].name
    requires forall j :: 0 <= j < |m.children| ==>
      && FirstNamed(r0.base.children, m.children[j].name).Some?
      && Corresponds(r0.children[j], r0.base.children[FirstNamed(r0.base.children, m.children[j].name).value])
    requires forall j :: 0 <= j < |m.children| && m.children[j].name == c.name ==> r0.children[j] == m.children[j]
    requires forall k :: 0 <= k < |b.children| && b.children[k].name == c.name ==> r0.base.children[k] == b.children[k]
    ensures var r := MergeField(syntax, m, r0, c, ep, v);
      forall j :: 0 <= j < |m.children| ==>
        && FirstNamed(r.base.children, m.children[j].name).Some?
        && Corresponds(r.children[j], r.base.children[FirstNamed(r.base.children, m.children[j].name).value])
    decreases m, 0, 0
  {
    var r := MergeField(syntax, m, r0, c, ep, v);
    var named := FindChild(m.children, c.name);
    if named.Some? {
      var j0 := named.value;
      var k0 := FirstNamed(b.children, c.name).value;
      FirstNamedSameNames(r0.base.children, b.children, c.name);
      assert r0.children[j0] == m.children[j0] && r0.base.children[k0] == b.children[k0];
      MergeNodeCorresponds(syntax, m.children[j0], b.children[k0], c, ep + [c.name], v);
    }
    forall j | 0 <= j < |m.children|
      ensures FirstNamed(r.base.children, m.children[j].name).Some?
      ensures Corresponds(r.children[j], r.base.children[FirstNamed(r.base.children, m.children[j].name).value])
    {
      var name := m.children[j].name;
      FirstNamedSameNames(r.base.children, r0.base.children, name);
      FirstNamedSameNames(r0.base.children, b.children, name);
      if name == c.name {
        assert named == Some(j);
      } else {
        assert r0.base.children[FirstNamed(b.children, name).value].name == name;
      }
    }
  }

  /** A map that passed its Subset match was given distinct keys, each of them a key of the schema whose child matches. */
  lemma MapMatchKeysKnown(syntax: NumberSyntax, s: SchemaNode, e: Element, ep: seq<QName>, v: AttributeValidator)
    requires s.MapNode? && Match(syntax, s, e, ep, Subset, v).ok
    ensures var items := Filtered(e.children);
      && (forall p, q :: 0 <= p < q < |items| ==> items[p].name != items[q].name)
      && (forall p :: 0 <= p < |items| ==> KeyMatches(syntax, s, items[p], ep, Subset, v))
  {
    MapMatchVerdict(syntax, s, e, ep, Subset, v);
  }

  /** A key that matches is a key of the schema. */
  lemma KeyMatchesKnown(syntax: NumberSyntax, s: SchemaNode, c: Element, ep: seq<QName>, v: AttributeValidator)
    requires s.MapNode? && KeyMatches(syntax, s, c, ep, Subset, v)
    ensures c.name in NodeNames(s.children)
  {
  }

  /** A map merge that passed its match is the child loop's result. */
  lemma MatchedMapMerge(syntax: NumberSyntax, s: SchemaNode, b: Element, e: Element, ep: seq<QName>, v: AttributeValidator)
    requires s.MapNode? && Match(syntax, s, e, ep, Subset, v).ok
    ensures var r := MergeNode(syntax, s, b, e, ep, v);
      var f := MergeFields(syntax, s, b, Filtered(e.children), ep, v);
      r.matched && r.schema == s.(children := f.children) && r.base == f.base
  {
  }

  /** A schema node with every modifier forgotten: what a merge may not change. */
  function Shape(s: SchemaNode): SchemaNode
    decreases s
  {
    match s
    case Scalar(n, p, _, t) => Scalar(n, p, None, t)
    case ListNode(n, p, _, t) => ListNode(n, p, None, t)
    case MapNode(n, p, _, cs) => MapNode(n, p, None, seq(|cs|, i requires 0 <= i < |cs| => Shape(cs[i])))
  }

  /** Merging changes modifiers only: names, keys, scalar types and list templates survive every merge. */
  lemma {:induction false} MergeNodeKeepsShape(syntax: NumberSyntax, s: SchemaNode, b: Element, e: Element, ep: seq<QName>, v: AttributeValidator)
    ensures Shape(MergeNode(syntax, s, b, e, ep, v).schema) == Shape(s)
    decreases s, 2
  {
    if Match(syntax, s, e, ep, Subset, v).ok {
      MergeProtectedKeepsShape(syntax, s, b, e, ep, v);
    }
  }

  lemma {:induction false} MergeProtectedKeepsShape(syntax: NumberSyntax, s: SchemaNode, b: Element, e: Element, ep: seq<QName>, v: AttributeValidator)
    ensures Shape(MergeProtected(syntax, s, b, e, ep, v).schema) == Shape(s)
    decreases s, 1
  {
    match s
    case Scalar(_, _, _, _) =>
    case ListNode(_, _, _, _) =>
    case MapNode(n, p, mod, cs) =>
      var r := MergeFields(syntax, s, b, Filtered(e.children), ep, v);
      MergeFieldsKeepShape(syntax, s, b, Filtered(e.children), ep, v);
      var after := MergeProtected(syntax, s, b, e, ep, v).schema;
      assert after == MapNode(n, p, mod, r.children);
      assert Shape(after).children == Shape(s).children;
  }

  lemma {:induction false} MergeFieldsKeepShape(syntax: NumberSyntax, m: SchemaNode, b: Element, items: seq<Element>, ep: seq<QName>, v: AttributeValidator)
    requires m.MapNode?
    ensures var r := MergeFields(syntax, m, b, items, ep, v);
      forall j :: 0 <= j < |m.children| ==> Shape(r.children[j]) == Shape(m.children[j])
    decreases m, 0, |items|
  {
    if items != [] {
      var prefix := items[..|items| - 1];
      var r := MergeFields(syntax, m, b, prefix, ep, v);
      MergeFieldsKeepShape(syntax, m, b, prefix, ep, v);
      MergeFieldKeepsShape(syntax, m, r, items[|items| - 1], ep, v);
    }
  }

  lemma {:induction false} MergeFieldKeepsShape(syntax: NumberSyntax, m: SchemaNode, r: FieldsMerged, c: Element, ep: seq<QName>, v: AttributeValidator)
    requires m.MapNode? && NodeNames(r.children) == NodeNames(m.children)
    requires forall j :: 0 <= j < |m.children| ==> Shape(r.children[j]) == Shape(m.children[j])
    ensures var out := MergeField(syntax, m, r, c, ep, v);
      forall j :: 0 <= j < |m.children| ==> Shape(out.children[j]) == Shape(m.children[j])
    decreases m, 0, 0
  {
    match FindChild(m.children, c.name)
    case Nothing =>
    case Some(j) =>
      match FirstNamed(r.base.children, c.name)
      case Nothing =>
      case Some(k) =>
        MergeNodeKeepsShape(syntax, m.children[j], r.base.children[k], c, ep + [c.name], v);
  }
}
