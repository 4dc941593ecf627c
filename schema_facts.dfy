/**
 * What the schema match promises: list items are matched strictly whatever
 * was asked, a map's keys form a closed set, Strict matching is stronger than Subset matching, and the verdict of
 * each kind of node is characterised without reference to the loops.
 */
module SchemaFacts {
  import opened Wrappers
  import opened Text
  import opened Xml
  import opened Diagnostics
  import opened ScalarTypes
  import opened Validators
  import opened Schema

  /** The item loop's test for one item: it carries the template's tag and matches the template strictly. */
  predicate ItemMatches(syntax: NumberSyntax, t: SchemaNode, c: Element, ep: seq<QName>, v: AttributeValidator)
  {
    c.name == t.name && Match(syntax, t, c, ep + [c.name], Strict, v).ok
  }

  lemma ListItemsStep(syntax: NumberSyntax, t: SchemaNode, items: seq<Element>, ep: seq<QName>, v: AttributeValidator)
    requires items != []
    ensures MatchListItems(syntax, t, items, ep, v).ok
         == (MatchListItems(syntax, t, items[..|items| - 1], ep, v).ok
             && ItemMatches(syntax, t, items[|items| - 1], ep, v))
  {
  }

  /**
   * The item loop succeeds exactly when every item carries the template's tag
   * and matches the template strictly; an empty list always matches.
   */
  lemma {:induction false} ListItemsVerdict(syntax: NumberSyntax, t: SchemaNode, items: seq<Element>, ep: seq<QName>, v: AttributeValidator)
    ensures MatchListItems(syntax, t, items, ep, v).ok
        <==> forall i :: 0 <= i < |items| ==> ItemMatches(syntax, t, items[i], ep, v)
    decreases |items|
  {
    if items != [] {
      var prefix := items[..|items| - 1];
      ListItemsVerdict(syntax, t, prefix, ep, v);
      ListItemsStep(syntax, t, items, ep, v);
      AllOfSnoc(items, prefix, c => ItemMatches(syntax, t, c, ep, v),
                MatchListItems(syntax, t, items, ep, v).ok, MatchListItems(syntax, t, prefix, ep, v).ok);
    }
  }

  /**
   * A list matches exactly when each of its filtered children has the
   * template's tag and matches the template Strictly, whichever kind of match
   * was asked for.
   */
  lemma ListMatchVerdict(syntax: NumberSyntax, s: SchemaNode, e: Element, ep: seq<QName>, kind: MatchKind, v: AttributeValidator)
    requires s.ListNode?
    ensures var items := Filtered(e.children);
      Match(syntax, s, e, ep, kind, v).ok
      <==> forall i :: 0 <= i < |items| ==> ItemMatches(syntax, s.template, items[i], ep, v)
  {
    ListItemsVerdict(syntax, s.template, Filtered(e.children), ep, v);
  }

  /** The kind of match asked for makes no difference to a list: its items are always matched strictly. */
  lemma ListMatchIgnoresKind(syntax: NumberSyntax, s: SchemaNode, e: Element, ep: seq<QName>, kind: MatchKind, v: AttributeValidator)
    requires s.ListNode?
    ensures Match(syntax, s, e, ep, kind, v) == Match(syntax, s, e, ep, Strict, v)
  {
  }

  /** A Flags attribute on a list is reported at the list's path (and does not by itself make the match fail). */
  lemma ListFlagsReported(syntax: NumberSyntax, s: SchemaNode, e: Element, ep: seq<QName>, kind: MatchKind, v: AttributeValidator)
    requires s.ListNode? && e.attrs.modifier != None
    ensures ErrorAt(ListFlagsMessage, ElementPath(ep)) in Match(syntax, s, e, ep, kind, v).diags
  {
    var val := Validate(v, e, ep);
    assert Match(syntax, s, e, ep, kind, v) == MatchList(syntax, s, e, ep, v);
    var d := MatchList(syntax, s, e, ep, v).diags;
    assert d[|val.diags|] == ErrorAt(ListFlagsMessage, ElementPath(ep));
  }

  /** The key loop's test for one key of the local dictionary: the schema knows it and its child matches. */
  predicate KeyMatches(syntax: NumberSyntax, m: SchemaNode, c: Element, ep: seq<QName>, kind: MatchKind, v: AttributeValidator)
    requires m.MapNode?
  {
    c.name in NodeNames(m.children)
    && Match(syntax, m.children[FindChild(m.children, c.name).value], c, ep + [c.name], kind, v).ok
  }

  /**
   * The key loop succeeds exactly when every key of the local dictionary is
   * a key of the schema and the value under it matches the schema child.
   */
  lemma {:induction false} MapKeysVerdict(syntax: NumberSyntax, m: SchemaNode, firsts: seq<Element>, ep: seq<QName>, kind: MatchKind, v: AttributeValidator)
    requires m.MapNode?
    ensures MatchMapKeys(syntax, m, firsts, ep, kind, v).ok
        <==> forall i :: 0 <= i < |firsts| ==> KeyMatches(syntax, m, firsts[i], ep, kind, v)
    decreases |firsts|
  {
    if firsts != [] {
      var prefix := firsts[..|firsts| - 1];
      MapKeysVerdict(syntax, m, prefix, ep, kind, v);
      MapKeysStep(syntax, m, firsts, ep, kind, v);
      AllOfSnoc(firsts, prefix, c => KeyMatches(syntax, m, c, ep, kind, v),
                MatchMapKeys(syntax, m, firsts, ep, kind, v).ok, MatchMapKeys(syntax, m, prefix, ep, kind, v).ok);
    }
  }

  /** A property holds of every element exactly when it holds of every element but the last, and of the last. */
  lemma AllOfSnoc<T>(xs: seq<T>, prefix: seq<T>, p: T -> bool, all: bool, allButLast: bool)
    requires xs != [] && prefix == xs[..|xs| - 1]
    requires allButLast <==> forall i :: 0 <= i < |prefix| ==> p(prefix[i])
    requires all == (allButLast && p(xs[|xs| - 1]))
    ensures all <==> forall i :: 0 <= i < |xs| ==> p(xs[i])
  {
    assert forall i :: 0 <= i < |prefix| ==> prefix[i] == xs[i];
  }

  lemma MapKeysStep(syntax: NumberSyntax, m: SchemaNode, firsts: seq<Element>, ep: seq<QName>, kind: MatchKind, v: AttributeValidator)
    requires m.MapNode? && firsts != []
    ensures MatchMapKeys(syntax, m, firsts, ep, kind, v).ok
         == (MatchMapKeys(syntax, m, firsts[..|firsts| - 1], ep, kind, v).ok
             && KeyMatches(syntax, m, firsts[|firsts| - 1], ep, kind, v))
  {
    var c := firsts[|firsts| - 1];
    match FindChild(m.children, c.name)
    case Some(j) =>
    case Nothing =>
  }

  /** When the first pass finds no repeat, its dictionary holds every proposed child, in order. */
  lemma {:induction false} ScanKeysNoRepeats(items: seq<Element>)
    ensures ScanKeys(items).repeats == [] ==> ScanKeys(items).firsts == items
    decreases |items|
  {
    if items != [] {
      var prefix := items[..|items| - 1];
      var c := items[|items| - 1];
      var r0 := ScanKeys(prefix);
      ScanKeysNoRepeats(prefix);
      if c.name !in Names(r0.firsts) {
        assert ScanKeys(items).firsts == r0.firsts + [c];
        LastSplit(items);
      }
    }
  }

  /**
   * The first pass keeps exactly the earliest child of each name, in their
   * order, and rejects exactly the later ones, in their order.
   */
  lemma ScanKeysByPosition(items: seq<Element>)
    ensures var r := ScanKeys(items);
      var f := KeyPositions(items, true);
      var p := KeyPositions(items, false);
      && |r.firsts| == |f| && (forall k :: 0 <= k < |f| ==> r.firsts[k] == items[f[k]])
      && |r.repeats| == |p| && (forall k :: 0 <= k < |p| ==> r.repeats[k] == items[p[k]])
  {
    ScanKeysFirstsByPosition(items);
    ScanKeysRepeatsByPosition(items);
  }

  lemma {:induction false} ScanKeysFirstsByPosition(items: seq<Element>)
    ensures var r := ScanKeys(items);
      var f := KeyPositions(items, true);
      |r.firsts| == |f| && forall k :: 0 <= k < |f| ==> r.firsts[k] == items[f[k]]
    decreases |items|
  {
    if items != [] {
      var n := |items| - 1;
      var prefix := items[..n];
      ScanKeysFirstsByPosition(prefix);
      var r0 := ScanKeys(prefix);
      var f0 := KeyPositions(prefix, true);
      var isNew := IsFirstOfName(items, n);
      assert ScanKeys(items).firsts == r0.firsts + (if isNew then [items[n]] else []) by {
        ScanKeysNewName(items);
      }
      IndexedSnoc(items, r0.firsts, f0, isNew);
    }
  }

  lemma {:induction false} ScanKeysRepeatsByPosition(items: seq<Element>)
    ensures var r := ScanKeys(items);
      var p := KeyPositions(items, false);
      |r.repeats| == |p| && forall k :: 0 <= k < |p| ==> r.repeats[k] == items[p[k]]
    decreases |items|
  {
    if items != [] {
      var n := |items| - 1;
      var prefix := items[..n];
      ScanKeysRepeatsByPosition(prefix);
      var r0 := ScanKeys(prefix);
      var p0 := KeyPositions(prefix, false);
      var repeated := !IsFirstOfName(items, n);
      assert ScanKeys(items).repeats == r0.repeats + (if repeated then [items[n]] else []) by {
        ScanKeysNewName(items);
      }
      IndexedSnoc(items, r0.repeats, p0, repeated);
    }
  }

  /** A non-empty sequence is its prefix followed by its last item. */
  lemma LastSplit(items: seq<Element>)
    requires items != []
    ensures items[..|items| - 1] + [items[|items| - 1]] == items
  {
  }

  /** Extending a selection of the earlier items by, possibly, the last one. */
  lemma IndexedSnoc(items: seq<Element>, xs: seq<Element>, f: seq<int>, add: bool)
    requires items != []
    requires |xs| == |f|
    requires forall k :: 0 <= k < |f| ==> 0 <= f[k] < |items| - 1 && xs[k] == items[..|items| - 1][f[k]]
    ensures var n := |items| - 1;
      var ys := xs + (if add then [items[n]] else []);
      var g := f + (if add then [n] else []);
      |ys| == |g| && forall k :: 0 <= k < |g| ==> ys[k] == items[g[k]]
  {
  }

  /** The last child is rejected by the first pass exactly when an earlier child has its name. */
  lemma ScanKeysNewName(items: seq<Element>)
    requires items != []
    ensures var n := |items| - 1;
      items[n].name in Names(ScanKeys(items[..n]).firsts) <==> !IsFirstOfName(items, n)
  {
    var n := |items| - 1;
    var prefix := items[..n];
    var firsts := ScanKeys(prefix).firsts;
    var c := items[n];
    if c.name in Names(firsts) {
      var k :| 0 <= k < |firsts| && Names(firsts)[k] == c.name;
      assert firsts[k] in prefix;
      var j :| 0 <= j < n && prefix[j] == firsts[k];
      assert items[j].name == c.name;
    }
    if !IsFirstOfName(items, n) {
      var j :| 0 <= j < n && items[j].name == c.name;
      assert prefix[j].name in Names(firsts);
    }
  }

  /** Pairwise distinct names give no repeat. */
  lemma {:induction false} ScanKeysOfDistinct(items: seq<Element>)
    requires forall i, j :: 0 <= i < j < |items| ==> items[i].name != items[j].name
    ensures ScanKeys(items).repeats == []
    decreases |items|
  {
    if items != [] {
      var prefix := items[..|items| - 1];
      var c := items[|items| - 1];
      ScanKeysOfDistinct(prefix);
      ScanKeysNewName(items);
      assert IsFirstOfName(items, |items| - 1);
      assert ScanKeys(items).repeats == ScanKeys(prefix).repeats;
    }
  }

  /** The first pass finds no repeat exactly when the proposed names are pairwise distinct, and then keeps every child. */
  lemma ScanKeysDistinct(items: seq<Element>)
    ensures ScanKeys(items).repeats == []
        <==> forall i, j :: 0 <= i < j < |items| ==> items[i].name != items[j].name
    ensures ScanKeys(items).repeats == [] ==> ScanKeys(items).firsts == items
  {
    ScanKeysNoRepeats(items);
    if forall i, j :: 0 <= i < j < |items| ==> items[i].name != items[j].name {
      ScanKeysOfDistinct(items);
    }
  }

  /** No names are missing exactly when every non-Optional child is present. */
  lemma MissingRequiredEmpty(nodes: seq<SchemaNode>, present: seq<QName>)
    ensures MissingRequired(nodes, present) == []
        <==> forall i :: 0 <= i < |nodes| && nodes[i].modifier != Optional ==> nodes[i].name in present
  {
    if MissingRequired(nodes, present) != [] {
      var q := MissingRequired(nodes, present)[0];
      assert q in MissingRequired(nodes, present);
    }
  }

  /**
   * A map matches exactly when the proposed filtered children carry pairwise
   * distinct names, every name is a key of the schema, the child under each
   * key matches with the same kind, and, under Strict only, every
   * non-Optional key is present. Extra keys are never allowed.
   */
  lemma MapMatchVerdict(syntax: NumberSyntax, s: SchemaNode, e: Element, ep: seq<QName>, kind: MatchKind, v: AttributeValidator)
    requires s.MapNode?
    ensures var items := Filtered(e.children);
      Match(syntax, s, e, ep, kind, v).ok
      <==> (forall i, j :: 0 <= i < j < |items| ==> items[i].name != items[j].name)
           && (forall i :: 0 <= i < |items| ==> KeyMatches(syntax, s, items[i], ep, kind, v))
           && (kind == Strict ==>
                 forall j :: 0 <= j < |s.children| && s.children[j].modifier != Optional
                   ==> s.children[j].name in Names(items))
  {
    var items := Filtered(e.children);
    var scan := ScanKeys(items);
    MapMatchUnfold(syntax, s, e, ep, kind, v);
    ScanKeysDistinct(items);
    if scan.repeats == [] {
      MapKeysVerdict(syntax, s, scan.firsts, ep, kind, v);
      MissingRequiredEmpty(s.children, Names(scan.firsts));
    }
  }

  lemma MapMatchUnfold(syntax: NumberSyntax, s: SchemaNode, e: Element, ep: seq<QName>, kind: MatchKind, v: AttributeValidator)
    requires s.MapNode?
    ensures var scan := ScanKeys(Filtered(e.children));
      Match(syntax, s, e, ep, kind, v).ok
      == (scan.repeats == [] && MatchMapKeys(syntax, s, scan.firsts, ep, kind, v).ok
          && (kind == Strict ==> MissingRequired(s.children, Names(scan.firsts)) == []))
  {
  }

  /** Strict matching is the stronger check: whatever matches Strictly also matches as a Subset. */
  lemma {:induction false} StrictImpliesSubset(syntax: NumberSyntax, s: SchemaNode, e: Element, ep: seq<QName>, v: AttributeValidator)
    ensures Match(syntax, s, e, ep, Strict, v).ok ==> Match(syntax, s, e, ep, Subset, v).ok
    decreases s, 2
  {
    match s
    case Scalar(_, _, _, _) =>
    case ListNode(_, _, _, _) =>
    case MapNode(_, _, _, _) =>
      var scan := ScanKeys(Filtered(e.children));
      KeysStrictImpliesSubset(syntax, s, scan.firsts, ep, v);
      assert MatchMap(syntax, s, e, ep, Strict, v).ok ==> MatchMap(syntax, s, e, ep, Subset, v).ok;
  }

  lemma {:induction false} KeysStrictImpliesSubset(syntax: NumberSyntax, m: SchemaNode, firsts: seq<Element>, ep: seq<QName>, v: AttributeValidator)
    requires m.MapNode?
    ensures MatchMapKeys(syntax, m, firsts, ep, Strict, v).ok ==> MatchMapKeys(syntax, m, firsts, ep, Subset, v).ok
    decreases m, 1, |firsts|
  {
    if firsts != [] {
      var c := firsts[|firsts| - 1];
      KeysStrictImpliesSubset(syntax, m, firsts[..|firsts| - 1], ep, v);
      match FindChild(m.children, c.name)
      case Some(j) =>
        StrictImpliesSubset(syntax, m.children[j], c, ep + [c.name], v);
      case Nothing =>
    }
  }

  /**
   * A scalar matches exactly when the proposed element has no child element
   * (metadata ones included) and its value parses as the scalar's type, the
   * parse being skipped for Abstract and Optional overrides. Both errors are
   * reported at the base node's path.
   */
  lemma ScalarMatchVerdict(syntax: NumberSyntax, s: SchemaNode, e: Element, ep: seq<QName>, kind: MatchKind, v: AttributeValidator)
    requires s.Scalar?
    ensures var r := Match(syntax, s, e, ep, kind, v);
      var path := ElementPath(NodePath(s));
      (r.ok <==> e.children == []
                 && (e.attrs.modifier in {Abstract, Optional} || s.scalarType.CanParse(syntax, Value(e))))
      && (e.children != [] ==> ErrorAt(ScalarChildrenMessage, path) in r.diags)
      && ((e.attrs.modifier !in {Abstract, Optional} && !s.scalarType.CanParse(syntax, Value(e)))
            ==> ErrorAt(ScalarParseMessage(Value(e), s.scalarType), path) in r.diags)
  {
  }

  /** A key of the proposed element that the schema does not know is reported at the key's path. */
  lemma {:induction false} NewKeyReported(syntax: NumberSyntax, m: SchemaNode, firsts: seq<Element>, ep: seq<QName>, kind: MatchKind, v: AttributeValidator, i: nat)
    requires m.MapNode? && i < |firsts| && firsts[i].name !in NodeNames(m.children)
    ensures ErrorAt(NewKeyMessage, ElementPath(ep + [firsts[i].name])) in MatchMapKeys(syntax, m, firsts, ep, kind, v).diags
    decreases |firsts|
  {
    var prefix := firsts[..|firsts| - 1];
    if i < |firsts| - 1 {
      assert prefix[i] == firsts[i];
      NewKeyReported(syntax, m, prefix, ep, kind, v, i);
    }
  }

  /** An item whose tag is not the template's is reported at the item's own path. */
  lemma {:induction false} TagMismatchReported(syntax: NumberSyntax, t: SchemaNode, items: seq<Element>, ep: seq<QName>, v: AttributeValidator, i: nat)
    requires i < |items| && items[i].name != t.name
    ensures ErrorAt(TagMismatchMessage(t.name, items[i].name), ElementPath(ep + [items[i].name]))
            in MatchListItems(syntax, t, items, ep, v).diags
    decreases |items|
  {
    var prefix := items[..|items| - 1];
    if i < |items| - 1 {
      assert prefix[i] == items[i];
      TagMismatchReported(syntax, t, prefix, ep, v, i);
    }
  }

  /** On a list, an override item with the wrong tag is reported at the item's path, whatever kind of match was asked for. */
  lemma ListTagMismatchReported(syntax: NumberSyntax, s: SchemaNode, e: Element, ep: seq<QName>, kind: MatchKind, v: AttributeValidator, i: nat)
    requires s.ListNode? && i < |Filtered(e.children)| && Filtered(e.children)[i].name != s.template.name
    ensures var c := Filtered(e.children)[i];
      ErrorAt(TagMismatchMessage(s.template.name, c.name), ElementPath(ep + [c.name])) in Match(syntax, s, e, ep, kind, v).diags
  {
    TagMismatchReported(syntax, s.template, Filtered(e.children), ep, v, i);
    assert Match(syntax, s, e, ep, kind, v) == MatchList(syntax, s, e, ep, v);
  }
}
