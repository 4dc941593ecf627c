/**
 * The XML tree the engine works on: qualified names, the metadata attributes
 * already extracted from an element, elements with ordered children and
 * text, the child filters and the document-path builder.
 */
module Xml {
  import opened Wrappers
  import opened Text

  /** The namespace of every Mixable-specific tag and attribute. */
  const MixableNamespace: string := "https://github.com/jamescourtney/mixable"

  /** An `XName`: a namespace (empty for none) and a local name. */
  datatype QName = QName(namespace: string, localName: string)

  /** `XName.ToString()`: `{namespace}local`, or just the local name when there is no namespace. */
  function NameString(q: QName): string
  {
    if q.namespace == "" then q.localName else "{" + q.namespace + "}" + q.localName
  }

  const MetadataTagName: QName := QName(MixableNamespace, "Metadata")
  const ListTemplateTagName: QName := QName(MixableNamespace, "ListItemTemplate")
  const FlagsAttributeName: QName := QName(MixableNamespace, "Flags")
  const TypeAttributeName: QName := QName(MixableNamespace, "Type")
  const ListMergeAttributeName: QName := QName(MixableNamespace, "ListMerge")

  /** The node modifiers; `Undefined` is a value cast from an integer outside the named members. */
  datatype NodeModifier = None | Optional | Abstract | Final | Undefined(code: int)

  /** `NodeModifier.ToString()`: the member name, or the number for an undefined value. */
  function ModifierName(m: NodeModifier): string
  {
    match m
    case None => "None"
    case Optional => "Optional"
    case Abstract => "Abstract"
    case Final => "Final"
    case Undefined(code) => IntToString(code)
  }

  datatype ListMergePolicy = Concatenate | Replace

  /**
   * What `MetadataAttributes.Extract` yields for an element: the raw `Type`
   * attribute, the explicit list flag, the `Flags` modifier (None when
   * absent) and the `ListMerge` policy.
   */
  datatype MetadataAttributes = MetadataAttributes(
    rawTypeName: Option<string>,
    list: Option<bool>,
    modifier: NodeModifier,
    listMergePolicy: Option<ListMergePolicy>)

  const NoAttributes: MetadataAttributes := MetadataAttributes(Nothing, Nothing, None, Nothing)

  /**
   * An `XElement`: its name, its extracted attributes and its child elements
   * in order. Its text nodes are kept where they stand among the children:
   * `text` is the text before the first child element, and each child's
   * `tail` is the text that follows that child inside this element, up to
   * the next child element. An element's own `tail` belongs to its parent's
   * content, not to its own.
   */
  datatype Element = Element(name: QName, attrs: MetadataAttributes, children: seq<Element>, text: string, tail: string)

  /** Concatenation of a sequence of strings. */
  function Concat(parts: seq<string>): string
  {
    if parts == [] then "" else parts[0] + Concat(parts[1..])
  }

  lemma {:induction false} ConcatSnoc(parts: seq<string>, x: string)
    ensures Concat(parts + [x]) == Concat(parts) + x
  {
    if parts != [] {
      assert (parts + [x])[1..] == parts[1..] + [x];
      ConcatSnoc(parts[1..], x);
    }
  }

  /** What each child contributes to its parent's value: its own value, then the text that follows it. */
  function Contributions(children: seq<Element>): seq<string>
    decreases children, 0
  {
    seq(|children|, i requires 0 <= i < |children| => Value(children[i]) + children[i].tail)
  }

  /** `XElement.Value`: the text of every descendant text node, in document order. */
  function Value(e: Element): string
    decreases e, 1
  {
    e.text + Concat(Contributions(e.children))
  }

  lemma ValueOfLeaf(e: Element)
    requires e.children == []
    ensures Value(e) == e.text
  {
  }

  /**
   * Adding a child element at the end adds, at the end of the value, the
   * child's value and then the text after it.
   */
  lemma {:induction false} ValueAppendChild(e: Element, c: Element)
    ensures Value(e.(children := e.children + [c])) == Value(e) + Value(c) + c.tail
  {
    var cs := e.children + [c];
    var before := Contributions(e.children);
    var after := Contributions(cs);
    assert |after| == |before| + 1;
    forall i | 0 <= i < |before|
      ensures after[i] == before[i]
    {
      assert cs[i] == e.children[i];
    }
    assert after[|before|] == Value(c) + c.tail;
    assert after == before + [Value(c) + c.tail];
    ConcatSnoc(before, Value(c) + c.tail);
  }

  /**
   * Text interleaved with a child element is read in document order:
   * `<BaseFile>a<b>c</b>d</BaseFile>` has the value "acd".
   */
  lemma ValueInDocumentOrder(n: QName, m: QName, attrs: MetadataAttributes)
    ensures Value(Element(n, attrs, [Element(m, attrs, [], "c", "d")], "a", "")) == "acd"
  {
    var inner := Element(m, attrs, [], "c", "d");
    var outer := Element(n, attrs, [inner], "a", "");
    assert Contributions(inner.children) == [];
    assert Value(inner) == "c";
    assert Contributions(outer.children)[0] == Value(inner) + "d" == "cd";
    assert |Contributions(outer.children)| == 1;
    assert Contributions(outer.children) == ["cd"];
    assert Concat(["cd"]) == "cd" + Concat([]);
  }

  /**
   * The elements as `XContainer.Add` copies them into a new parent: each
   * child element comes without the text that followed it in its old parent,
   * which is a separate text node.
   */
  function Detached(items: seq<Element>): (r: seq<Element>)
    ensures |r| == |items| && forall i :: 0 <= i < |items| ==> r[i] == items[i].(tail := "")
  {
    seq(|items|, i requires 0 <= i < |items| => items[i].(tail := ""))
  }

  /** Number of elements in a tree; every child's tree is strictly smaller. */
  function Size(e: Element): nat
  {
    1 + SumOf(seq(|e.children|, i requires 0 <= i < |e.children| => Size(e.children[i])))
  }

  function SumOf(s: seq<nat>): nat
  {
    if s == [] then 0 else s[0] + SumOf(s[1..])
  }

  lemma {:induction false} SumOfBound(s: seq<nat>, i: nat)
    requires i < |s|
    ensures s[i] <= SumOf(s)
  {
    if i > 0 {
      SumOfBound(s[1..], i - 1);
    }
  }

  lemma ChildSmaller(e: Element, c: Element)
    requires c in e.children
    ensures Size(c) < Size(e)
  {
    var i :| 0 <= i < |e.children| && e.children[i] == c;
    var sizes := seq(|e.children|, j requires 0 <= j < |e.children| => Size(e.children[j]));
    SumOfBound(sizes, i);
  }

  /** Whether a name is in the Mixable namespace (metadata tags and templates). */
  predicate IsMixableName(q: QName)
  {
    q.namespace == MixableNamespace
  }

  /**
   * `GetFilteredChildren`: the children outside the Mixable namespace, in
   * document order.
   */
  function Filtered(children: seq<Element>): (r: seq<Element>)
    ensures |r| <= |children|
    ensures forall c :: c in r <==> c in children && !IsMixableName(c.name)
  {
    if children == [] then []
    else (if IsMixableName(children[0].name) then [] else [children[0]]) + Filtered(children[1..])
  }

  /** Filtering keeps order: it distributes over concatenation. */
  lemma {:induction false} FilteredConcat(a: seq<Element>, b: seq<Element>)
    ensures Filtered(a + b) == Filtered(a) + Filtered(b)
  {
    if a == [] {
      assert a + b == b;
    } else {
      assert (a + b)[1..] == a[1..] + b;
      FilteredConcat(a[1..], b);
    }
  }

  /** Filtering twice is filtering once. */
  lemma {:induction false} FilteredIdempotent(children: seq<Element>)
    ensures Filtered(Filtered(children)) == Filtered(children)
  {
    if children != [] {
      var head := if IsMixableName(children[0].name) then [] else [children[0]];
      FilteredConcat(head, Filtered(children[1..]));
      FilteredIdempotent(children[1..]);
    }
  }

  /** No two of the elements share a name. */
  predicate DistinctNames(items: seq<Element>)
  {
    forall i, j :: 0 <= i < j < |items| ==> items[i].name != items[j].name
  }

  /** `GetChildren(tag)`: the children named `tag`, in document order. */
  function ChildrenNamed(children: seq<Element>, tag: QName): (r: seq<Element>)
    ensures |r| <= |children|
    ensures forall c :: c in r <==> c in children && c.name == tag
  {
    if children == [] then []
    else (if children[0].name == tag then [children[0]] else []) + ChildrenNamed(children[1..], tag)
  }

  /** The first child named `tag` heads the selection: no earlier child has that name. */
  lemma {:induction false} ChildrenNamedFirst(children: seq<Element>, tag: QName)
    requires ChildrenNamed(children, tag) != []
    ensures exists k :: 0 <= k < |children| && children[k] == ChildrenNamed(children, tag)[0]
                        && forall j :: 0 <= j < k ==> children[j].name != tag
  {
    if children[0].name == tag {
      assert children[0] == ChildrenNamed(children, tag)[0];
    } else {
      assert ChildrenNamed(children, tag) == ChildrenNamed(children[1..], tag);
      ChildrenNamedFirst(children[1..], tag);
      var k :| 0 <= k < |children[1..]| && children[1..][k] == ChildrenNamed(children[1..], tag)[0]
               && forall j :: 0 <= j < k ==> children[1..][j].name != tag;
      assert children[k + 1] == ChildrenNamed(children, tag)[0];
      forall j | 0 < j < k + 1
        ensures children[j].name != tag
      {
        assert children[j] == children[1..][j - 1];
      }
    }
  }

  lemma {:induction false} ChildrenNamedConcat(a: seq<Element>, b: seq<Element>, tag: QName)
    ensures ChildrenNamed(a + b, tag) == ChildrenNamed(a, tag) + ChildrenNamed(b, tag)
  {
    if a == [] {
      assert a + b == b;
    } else {
      assert (a + b)[1..] == a[1..] + b;
      ChildrenNamedConcat(a[1..], b, tag);
    }
  }

  /**
   * `GetDocumentPath(select, where)` of an element whose ancestor-or-self
   * names, root first, are `names`: "/" + select(name) for every name that
   * passes `where`.
   */
  function DocumentPath(names: seq<QName>, select: QName -> string, where: QName -> bool): string
  {
    if names == [] then ""
    else
      DocumentPath(names[..|names| - 1], select, where)
      + (if where(names[|names| - 1]) then "/" + select(names[|names| - 1]) else "")
  }

  /** `GetDocumentPath()` with the defaults: every name, written with `XName.ToString()`. */
  function ElementPath(names: seq<QName>): string
  {
    DocumentPath(names, NameString, _ => true)
  }

  /** `GetLocalDocumentPath()`: every name, written with its local name only. */
  function LocalPath(names: seq<QName>): string
  {
    DocumentPath(names, (q: QName) => q.localName, _ => true)
  }

  /** The components a path is built from: the selected names that pass the filter, root first. */
  function Components(names: seq<QName>, select: QName -> string, where: QName -> bool): seq<string>
  {
    if names == [] then []
    else
      Components(names[..|names| - 1], select, where)
      + (if where(names[|names| - 1]) then [select(names[|names| - 1])] else [])
  }

  lemma {:induction false} SplitAppend(s: string, sep: char, x: string)
    requires sep !in x
    ensures Split(s + [sep] + x, sep) == Split(s, sep) + [x]
    decreases |s|
  {
    if s == [] {
      assert s + [sep] + x == [sep] + x;
      SplitNoSep(x, sep);
      assert ([sep] + x)[1..] == x;
    } else {
      assert (s + [sep] + x)[1..] == s[1..] + [sep] + x;
      SplitAppend(s[1..], sep, x);
    }
  }

  lemma {:induction false} SplitNoSep(x: string, sep: char)
    requires sep !in x
    ensures Split(x, sep) == [x]
    decreases |x|
  {
    if x != [] {
      SplitNoSep(x[1..], sep);
      assert [x[0]] + x[1..] == x;
    }
  }

  /**
   * When no selected name contains '/', splitting a path on '/' gives back an
   * empty leading part followed by exactly the path's components, so the
   * number of separators is the number of components.
   */
  lemma {:induction false} PathParts(names: seq<QName>, select: QName -> string, where: QName -> bool)
    requires forall i :: 0 <= i < |names| ==> '/' !in select(names[i])
    ensures Split(DocumentPath(names, select, where), '/') == [""] + Components(names, select, where)
    ensures Occurrences(DocumentPath(names, select, where), '/') == |Components(names, select, where)|
    decreases |names|
  {
    if names != [] {
      var init := names[..|names| - 1];
      var last := names[|names| - 1];
      PathParts(init, select, where);
      if where(last) {
        var p := DocumentPath(init, select, where);
        assert "/" + select(last) == ['/'] + select(last);
        assert p + ("/" + select(last)) == p + ['/'] + select(last);
        SplitAppend(p, '/', select(last));
      } else {
        assert DocumentPath(names, select, where) == DocumentPath(init, select, where);
      }
    }
  }

  lemma {:induction false} ComponentsAll(names: seq<QName>, select: QName -> string)
    ensures |Components(names, select, _ => true)| == |names|
    decreases |names|
  {
    if names != [] {
      ComponentsAll(names[..|names| - 1], select);
    }
  }

  /**
   * With the default filter the path has one '/' per ancestor-or-self, so a
   * root's path is "/" followed by its name and the depth can be read back.
   */
  lemma LocalPathDepth(names: seq<QName>)
    requires forall i :: 0 <= i < |names| ==> '/' !in names[i].localName
    ensures Occurrences(LocalPath(names), '/') == |names|
    ensures |names| == 1 ==> LocalPath(names) == "/" + names[0].localName
  {
    PathParts(names, (q: QName) => q.localName, _ => true);
    ComponentsAll(names, (q: QName) => q.localName);
  }

  /** A child's default path is its parent's path, a '/', and the child's full name. */
  lemma ChildPath(names: seq<QName>, child: QName)
    ensures ElementPath(names + [child]) == ElementPath(names) + "/" + NameString(child)
  {
    assert (names + [child])[..|names|] == names;
  }
}
