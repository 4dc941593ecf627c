/**
 * The attribute validators, one per position in an inheritance chain: the
 * base validator used when a schema is first parsed, the intermediate
 * validator used when an override with further overrides above it is
 * merged, and the leaf validator used for the top-most override. Each
 * returns the element's extracted attributes unchanged and reports the
 * attributes its position forbids, at the element's document path.
 */
module Validators {
  import opened Wrappers
  import opened Text
  import opened Xml
  import opened Diagnostics

  datatype AttributeValidator = BaseValidator | IntermediateValidator | LeafValidator

  /** The attributes an element carries, and what the validator reported about them. */
  datatype Validated = Validated(attrs: MetadataAttributes, diags: seq<Diagnostic>)

  const MergePolicyMessage: string := "Base schemas may not have a merge policy defined."

  /** Built from the local name of the `Type` attribute. */
  const TypeAttributeMessage: string :=
    "Derived schemas may not have the " + TypeAttributeName.localName + " attribute defined."

  /** Built from the local name of the `Flags` attribute. */
  const LeafFlagsMessage: string :=
    "Leaf schemas may not use the Mixable '" + FlagsAttributeName.localName + "' attribute."

  /**
   * The intermediate validator's message for a forbidden modifier, as the
   * code builds it: the attribute is interpolated as a whole `XName`, whose
   * text is `{namespace}Flags`.
   */
  function IntermediateFlagsMessageAsWritten(m: NodeModifier): string
  {
    "Intermediate schemas may not use the " + NameString(FlagsAttributeName)
    + " attribute to set a node to " + ModifierName(m) + "."
  }

  /** The same message with the attribute's local name, as the unit tests expect it. */
  function IntermediateFlagsMessage(m: NodeModifier): string
  {
    "Intermediate schemas may not use the " + FlagsAttributeName.localName
    + " attribute to set a node to " + ModifierName(m) + "."
  }

  /** The modifiers an intermediate override may set. */
  predicate IntermediateAllows(m: NodeModifier)
  {
    m == None || m == Abstract || m == Final
  }

  /** Whether a validator objects to an element carrying `attrs`. */
  predicate Rejects(v: AttributeValidator, attrs: MetadataAttributes)
  {
    match v
    case BaseValidator => attrs.listMergePolicy.Some?
    case IntermediateValidator => attrs.rawTypeName.Some? || !IntermediateAllows(attrs.modifier)
    case LeafValidator => attrs.rawTypeName.Some? || attrs.modifier != None
  }

  /** `ValidateNoRawTypeName`: one error when a raw `Type` attribute is present. */
  function NoRawTypeName(attrs: MetadataAttributes, path: string): (r: seq<Diagnostic>)
    ensures r == [] <==> attrs.rawTypeName.Nothing?
    ensures AllErrorsAt(r, path) && |r| <= 1
  {
    if attrs.rawTypeName.Some? then [ErrorAt(TypeAttributeMessage, path)] else []
  }

  /**
   * `Validate(element, collector)` for an element whose ancestor-or-self
   * names are `ep`. The attributes come back unchanged whatever is reported.
   */
  function Validate(v: AttributeValidator, e: Element, ep: seq<QName>): (r: Validated)
    ensures r.attrs == e.attrs
    ensures AllErrorsAt(r.diags, ElementPath(ep))
    ensures ContainsError(r.diags) <==> Rejects(v, e.attrs)
    ensures r.diags == [] <==> !Rejects(v, e.attrs)
    ensures |r.diags| <= (if v.BaseValidator? then 1 else 2)
  {
    var path := ElementPath(ep);
    var attrs := e.attrs;
    var diags := match v
      case BaseValidator =>
        if attrs.listMergePolicy.Some? then [ErrorAt(MergePolicyMessage, path)] else []
      case IntermediateValidator =>
        NoRawTypeName(attrs, path)
        + if IntermediateAllows(attrs.modifier) then [] else [ErrorAt(IntermediateFlagsMessageAsWritten(attrs.modifier), path)]
      case LeafValidator =>
        NoRawTypeName(attrs, path)
        + if attrs.modifier != None then [ErrorAt(LeafFlagsMessage, path)] else [];
    OnlyErrors(diags);
    Validated(attrs, diags)
  }

  /** The derived-schema messages cannot be confused: each opens with its own word. */
  lemma MessagesDiffer(m: NodeModifier)
    ensures TypeAttributeMessage[0] == 'D'
    ensures LeafFlagsMessage[0] == 'L'
    ensures IntermediateFlagsMessageAsWritten(m)[0] == 'I' && IntermediateFlagsMessage(m)[0] == 'I'
  {
    var typePrefix := "Derived schemas may not have the ";
    assert TypeAttributeMessage == typePrefix + TypeAttributeName.localName + " attribute defined.";
    assert TypeAttributeMessage[0] == typePrefix[0] == 'D';
    var leafPrefix := "Leaf schemas may not use the Mixable '";
    assert LeafFlagsMessage == leafPrefix + FlagsAttributeName.localName + "' attribute.";
    assert LeafFlagsMessage[0] == leafPrefix[0] == 'L';
  }

  /**
   * The base validator reports the merge-policy error exactly when a
   * `ListMerge` policy is present, and no other report; neither a `Type`
   * attribute nor a modifier makes any difference to it.
   */
  lemma BaseValidatorMessages(e: Element, ep: seq<QName>, t: Option<string>, m: NodeModifier)
    ensures var d := Validate(BaseValidator, e, ep).diags;
      var err := ErrorAt(MergePolicyMessage, ElementPath(ep));
      && (err in d <==> e.attrs.listMergePolicy.Some?)
      && (forall x :: x in d ==> x == err)
    ensures Validate(BaseValidator, e.(attrs := e.attrs.(rawTypeName := t, modifier := m)), ep).diags
         == Validate(BaseValidator, e, ep).diags
  {
  }

  /**
   * The intermediate validator reports the `Type` error exactly when a raw
   * type name is present, and the modifier error exactly when the modifier
   * is Optional or an undefined value; nothing else, the `Type` error
   * first when there are both, whatever the `ListMerge` policy.
   */
  lemma IntermediateValidatorMessages(e: Element, ep: seq<QName>, p: Option<ListMergePolicy>)
    ensures var d := Validate(IntermediateValidator, e, ep).diags;
      var typeErr := ErrorAt(TypeAttributeMessage, ElementPath(ep));
      var flagsErr := ErrorAt(IntermediateFlagsMessageAsWritten(e.attrs.modifier), ElementPath(ep));
      && (typeErr in d <==> e.attrs.rawTypeName.Some?)
      && (flagsErr in d <==> e.attrs.modifier == Optional || e.attrs.modifier.Undefined?)
      && (forall x :: x in d ==> x == typeErr || x == flagsErr)
      && (|d| == 2 ==> d[0] == typeErr && d[1] == flagsErr)
    ensures Validate(IntermediateValidator, e.(attrs := e.attrs.(listMergePolicy := p)), ep).diags
         == Validate(IntermediateValidator, e, ep).diags
  {
    MessagesDiffer(e.attrs.modifier);
  }

  /**
   * The leaf validator reports the `Type` error exactly when a raw type name
   * is present, and the `Flags` error exactly when the modifier is anything
   * but None; nothing else, the `Type` error first when there are both,
   * whatever the `ListMerge` policy.
   */
  lemma LeafValidatorMessages(e: Element, ep: seq<QName>, p: Option<ListMergePolicy>)
    ensures var d := Validate(LeafValidator, e, ep).diags;
      var typeErr := ErrorAt(TypeAttributeMessage, ElementPath(ep));
      var flagsErr := ErrorAt(LeafFlagsMessage, ElementPath(ep));
      && (typeErr in d <==> e.attrs.rawTypeName.Some?)
      && (flagsErr in d <==> e.attrs.modifier != None)
      && (forall x :: x in d ==> x == typeErr || x == flagsErr)
      && (|d| == 2 ==> d[0] == typeErr && d[1] == flagsErr)
    ensures Validate(LeafValidator, e.(attrs := e.attrs.(listMergePolicy := p)), ep).diags
         == Validate(LeafValidator, e, ep).diags
  {
    MessagesDiffer(e.attrs.modifier);
  }

  /** A leaf override is held to at least the rules of an intermediate one. */
  lemma LeafStricterThanIntermediate(attrs: MetadataAttributes)
    ensures Rejects(IntermediateValidator, attrs) ==> Rejects(LeafValidator, attrs)
    ensures attrs.modifier in {Abstract, Final} && attrs.rawTypeName.Nothing?
        ==> Rejects(LeafValidator, attrs) && !Rejects(IntermediateValidator, attrs)
  {
  }

  /** The as-written message names the attribute as `{namespace}Flags`, so it never equals the expected text. */
  lemma IntermediateFlagsMessageDiffers(m: NodeModifier)
    ensures IntermediateFlagsMessageAsWritten(m) != IntermediateFlagsMessage(m)
    ensures NameString(FlagsAttributeName) == "{" + MixableNamespace + "}Flags"
  {
    var prefix := "Intermediate schemas may not use the ";
    var a := IntermediateFlagsMessageAsWritten(m);
    var b := IntermediateFlagsMessage(m);
    assert a[|prefix|] == '{';
    assert b[|prefix|] == 'F';
  }

  /**
   * The intermediate validator with the message the unit tests expect: the
   * same verdicts and the same number of reports as the code, the `Type`
   * error exactly when a raw type name is present and the modifier error,
   * naming the attribute `Flags`, exactly when the modifier is Optional or
   * an undefined value.
   */
  function ValidateIntermediate(e: Element, ep: seq<QName>): (r: Validated)
    ensures r.attrs == e.attrs
    ensures |r.diags| == |Validate(IntermediateValidator, e, ep).diags|
    ensures ContainsError(r.diags) <==> ContainsError(Validate(IntermediateValidator, e, ep).diags)
    ensures ErrorAt(TypeAttributeMessage, ElementPath(ep)) in r.diags <==> e.attrs.rawTypeName.Some?
    ensures ErrorAt(IntermediateFlagsMessage(e.attrs.modifier), ElementPath(ep)) in r.diags
        <==> e.attrs.modifier == Optional || e.attrs.modifier.Undefined?
  {
    var path := ElementPath(ep);
    var diags := NoRawTypeName(e.attrs, path)
      + if IntermediateAllows(e.attrs.modifier) then [] else [ErrorAt(IntermediateFlagsMessage(e.attrs.modifier), path)];
    MessagesDiffer(e.attrs.modifier);
    OnlyErrors(diags);
    Validated(e.attrs, diags)
  }

  /**
   * An intermediate override that sets a node to Optional: the code reports
   * the message with `{namespace}Flags` and never the text the unit tests
   * expect, which the corrected validator reports.
   */
  lemma IntermediateOptionalReport(e: Element, ep: seq<QName>)
    requires e.attrs.modifier == Optional
    ensures var expected := ErrorAt("Intermediate schemas may not use the Flags attribute to set a node to Optional.", ElementPath(ep));
      && ErrorAt(IntermediateFlagsMessageAsWritten(Optional), ElementPath(ep)) in Validate(IntermediateValidator, e, ep).diags
      && expected !in Validate(IntermediateValidator, e, ep).diags
      && expected in ValidateIntermediate(e, ep).diags
  {
    IntermediateValidatorMessages(e, ep, e.attrs.listMergePolicy);
    IntermediateFlagsMessageDiffers(Optional);
    IntermediateFlagsMessageOptional();
    MessagesDiffer(Optional);
  }

  /** The expected message for the modifier Optional, one of the two values the unit tests try. */
  lemma IntermediateFlagsMessageOptional()
    ensures IntermediateFlagsMessage(Optional)
         == "Intermediate schemas may not use the Flags attribute to set a node to Optional."
  {
  }

  /** The expected message for the undefined modifier value 255, the other value the unit tests try. */
  lemma IntermediateFlagsMessageUndefined()
    ensures IntermediateFlagsMessage(Undefined(255))
         == "Intermediate schemas may not use the Flags attribute to set a node to 255."
  {
    NatToString255();
    assert ModifierName(Undefined(255)) == "255";
  }
}
