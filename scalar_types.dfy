/**
 * The scalar type registry: the four scalar kinds, their parsers, the
 * inference priority order, and the explicit lookups by well-known type and
 * by type name.
 */
module ScalarTypes {
  import opened Wrappers
  import opened Text

  /** The well-known types; `Other` stands for every non-scalar member (lists, maps, ...). */
  datatype WellKnownType = Int | Double | Bool | String | Other(code: int)

  /**
   * `int.TryParse` and `double.TryParse` in the current culture, which are
   * not modelled: any predicates on the (already trimmed) text.
   */
  datatype NumberSyntax = NumberSyntax(int32: string -> bool, float64: string -> bool)

  /** `BoolScalarParser.CanParse`. */
  function BoolCanParse(value: string): bool
  {
    var v := ToLower(Trim(value));
    v == "true" || v == "false"
  }

  /** `StringScalarParser.CanParse`: anything but null, written `Nothing`. */
  function StringCanParse(value: Option<string>): bool
  {
    value.Some?
  }

  /** `IntScalarParser.CanParse`. */
  function IntCanParse(syntax: NumberSyntax, value: string): bool
  {
    syntax.int32(Trim(value))
  }

  /** `DoubleScalarParser.CanParse`. */
  function DoubleCanParse(syntax: NumberSyntax, value: string): bool
  {
    syntax.float64(Trim(value))
  }

  /** The four `ScalarType` singletons, each with its well-known type, type name and parser. */
  datatype ScalarType = BoolType | IntType | DoubleType | StringType
  {
    function Type(): WellKnownType
    {
      match this
      case BoolType => Bool
      case IntType => Int
      case DoubleType => Double
      case StringType => String
    }

    function TypeName(): string
    {
      match this
      case BoolType => "bool"
      case IntType => "int"
      case DoubleType => "double"
      case StringType => "string"
    }

    /** `Parser.CanParse(value)` of this scalar type. */
    function CanParse(syntax: NumberSyntax, value: string): bool
    {
      match this
      case BoolType => BoolCanParse(value)
      case IntType => IntCanParse(syntax, value)
      case DoubleType => DoubleCanParse(syntax, value)
      case StringType => StringCanParse(Some(value))
    }

    /** Position in `PriorityOrder`. */
    function Priority(): nat
    {
      match this
      case BoolType => 0
      case IntType => 1
      case DoubleType => 2
      case StringType => 3
    }
  }

  /** `WellKnownType.ToString()` for the scalar members. */
  function WellKnownTypeName(t: WellKnownType): string
  {
    match t
    case Int => "Int"
    case Double => "Double"
    case Bool => "Bool"
    case String => "String"
    case Other(code) => IntToString(code)
  }

  const PriorityOrder: seq<ScalarType> := [BoolType, IntType, DoubleType, StringType]

  /** The registry lists every scalar type once, at its priority, and in the order Bool, Int, Double, String. */
  lemma PriorityOrderShape()
    ensures |PriorityOrder| == 4
    ensures forall t: ScalarType :: t.Priority() < 4 && PriorityOrder[t.Priority()] == t
    ensures forall i, j :: 0 <= i < j < |PriorityOrder| ==> PriorityOrder[i] != PriorityOrder[j]
    ensures PriorityOrder[0].Type() == Bool && PriorityOrder[1].Type() == Int
    ensures PriorityOrder[2].Type() == Double && PriorityOrder[3].Type() == String
  {
  }

  /** The singletons carry pairwise distinct well-known types and pairwise distinct names. */
  lemma TypesDistinct(a: ScalarType, b: ScalarType)
    ensures a.Type() == b.Type() ==> a == b
    ensures a.TypeName() == b.TypeName() ==> a == b
  {
  }

  /** The first element of `order` whose well-known type is `t`. */
  function FindByType(order: seq<ScalarType>, t: WellKnownType): (r: Option<nat>)
    ensures r.Some? ==> (r.value < |order| && order[r.value].Type() == t
                         && forall j :: 0 <= j < r.value ==> order[j].Type() != t)
    ensures r.Nothing? ==> forall j :: 0 <= j < |order| ==> order[j].Type() != t
  {
    if order == [] then Nothing
    else if order[0].Type() == t then Some(0)
    else
      match FindByType(order[1..], t)
      case Nothing => Nothing
      case Some(k) => Some(k + 1)
  }

  /** The first element of `order` whose type name is `name`. */
  function FindByName(order: seq<ScalarType>, name: string): (r: Option<nat>)
    ensures r.Some? ==> (r.value < |order| && order[r.value].TypeName() == name
                         && forall j :: 0 <= j < r.value ==> order[j].TypeName() != name)
    ensures r.Nothing? ==> forall j :: 0 <= j < |order| ==> order[j].TypeName() != name
  {
    if order == [] then Nothing
    else if order[0].TypeName() == name then Some(0)
    else
      match FindByName(order[1..], name)
      case Nothing => Nothing
      case Some(k) => Some(k + 1)
  }

  /** The first element of `order` whose parser accepts `value`. */
  function FindAccepting(order: seq<ScalarType>, syntax: NumberSyntax, value: string): (r: Option<nat>)
    ensures r.Some? ==> (r.value < |order| && order[r.value].CanParse(syntax, value)
                         && forall j :: 0 <= j < r.value ==> !order[j].CanParse(syntax, value))
    ensures r.Nothing? ==> forall j :: 0 <= j < |order| ==> !order[j].CanParse(syntax, value)
  {
    if order == [] then Nothing
    else if order[0].CanParse(syntax, value) then Some(0)
    else
      match FindAccepting(order[1..], syntax, value)
      case Nothing => Nothing
      case Some(k) => Some(k + 1)
  }

  /**
   * `TryGetExplicitScalarType(WellKnownType)`: the scalar type with that
   * well-known type, or null (`Nothing`) when the type is not scalar.
   */
  function TryGetExplicitScalarType(t: WellKnownType): (r: Option<ScalarType>)
    ensures r.Some? <==> !t.Other?
    ensures r.Some? ==> r.value.Type() == t
  {
    match FindByType(PriorityOrder, t)
    case Some(i) => Some(PriorityOrder[i])
    case Nothing =>
      assert PriorityOrder[3].Type() == String && PriorityOrder[0].Type() == Bool;
      assert PriorityOrder[1].Type() == Int && PriorityOrder[2].Type() == Double;
      Nothing
  }

  /** The normalisation applied to an explicit type name: lower-cased, then trimmed. */
  function NormalizeTypeName(name: string): string
  {
    Trim(ToLower(name))
  }

  /**
   * `TryGetExplicitScalarType(string)`: the scalar type whose name equals the
   * normalised name, or null (`Nothing`) when there is none.
   */
  function TryGetExplicitScalarTypeByName(name: string): (r: Option<ScalarType>)
    ensures r.Some? <==> NormalizeTypeName(name) in {"bool", "int", "double", "string"}
    ensures r.Some? ==> r.value.TypeName() == NormalizeTypeName(name)
  {
    var n := NormalizeTypeName(name);
    match FindByName(PriorityOrder, n)
    case Some(i) => Some(PriorityOrder[i])
    case Nothing =>
      assert PriorityOrder[0].TypeName() == "bool" && PriorityOrder[1].TypeName() == "int";
      assert PriorityOrder[2].TypeName() == "double" && PriorityOrder[3].TypeName() == "string";
      Nothing
  }

  /**
   * `GetInferredScalarType`: the first type in priority order whose parser
   * accepts the value. The String parser accepts every string, so this never
   * fails.
   */
  function GetInferredScalarType(syntax: NumberSyntax, value: string): (t: ScalarType)
    ensures t.CanParse(syntax, value)
    ensures forall j :: 0 <= j < t.Priority() ==> !PriorityOrder[j].CanParse(syntax, value)
  {
    match FindAccepting(PriorityOrder, syntax, value)
    case Some(i) =>
      assert PriorityOrder[i].Priority() == i;
      PriorityOrder[i]
    case Nothing =>
      StringIsLast(syntax, value);
      assert false;
      StringType
  }

  lemma StringIsLast(syntax: NumberSyntax, value: string)
    ensures PriorityOrder[3] == StringType && PriorityOrder[3].CanParse(syntax, value)
  {
  }

  /**
   * Inference is characterised by the priority order: it returns `t` exactly
   * when `t` accepts the value and no type before it does.
   */
  lemma InferredIsFirstAccepting(syntax: NumberSyntax, value: string, t: ScalarType)
    ensures GetInferredScalarType(syntax, value) == t
        <==> t.CanParse(syntax, value)
             && forall j :: 0 <= j < t.Priority() ==> !PriorityOrder[j].CanParse(syntax, value)
  {
    var r := GetInferredScalarType(syntax, value);
    PriorityOrderShape();
    if t.CanParse(syntax, value) && forall j :: 0 <= j < t.Priority() ==> !PriorityOrder[j].CanParse(syntax, value) {
      if r.Priority() < t.Priority() {
        assert PriorityOrder[r.Priority()] == r;
      }
    }
  }

  /** The String parser accepts everything any parser accepts, and rejects only null. */
  lemma StringAcceptsAll(syntax: NumberSyntax, t: ScalarType, value: string)
    ensures t.CanParse(syntax, value) ==> StringType.CanParse(syntax, value)
    ensures StringCanParse(Some(value)) && !StringCanParse(Nothing)
  {
  }

  /** The Bool parser ignores surrounding white space and letter case. */
  lemma BoolCanParseNormalises(value: string)
    ensures BoolCanParse(value) == BoolCanParse(Trim(value))
    ensures BoolCanParse(value) == BoolCanParse(ToLower(value))
  {
    TrimIdempotent(value);
    TrimToLower(value);
    ToLowerIdempotent(Trim(value));
  }

  /** On trimmed lower-case text the Bool parser accepts exactly "true" and "false". */
  lemma BoolCanParseCanonical(value: string)
    requires value == [] || (!IsWhiteSpace(value[0]) && !IsWhiteSpace(value[|value| - 1]))
    requires forall i :: 0 <= i < |value| ==> !('A' <= value[i] <= 'Z')
    ensures BoolCanParse(value) <==> value == "true" || value == "false"
  {
    TrimOfTrimmed(value);
    ToLowerOfLower(value);
  }

  /** "True" and "FALSE" are booleans: the parser ignores case. */
  lemma BoolParserAccepts()
    ensures BoolCanParse("True") && BoolCanParse("FALSE")
  {
    TrimOfTrimmed("True");
    LowerTrue();
    TrimOfTrimmed("FALSE");
    LowerFalse();
  }

  /** "", "1" and "yes" are not booleans. */
  lemma BoolParserRejects()
    ensures !BoolCanParse("") && !BoolCanParse("1") && !BoolCanParse("yes")
  {
    BoolCanParseCanonical("");
    BoolCanParseCanonical("1");
    BoolCanParseCanonical("yes");
  }

  /** Values used by the unit tests: booleans infer as Bool whatever the number syntax says. */
  lemma InferBoolExamples(syntax: NumberSyntax)
    ensures GetInferredScalarType(syntax, "true") == BoolType
    ensures GetInferredScalarType(syntax, "false") == BoolType
  {
    BoolCanParseCanonical("true");
    BoolCanParseCanonical("false");
    InferredIsFirstAccepting(syntax, "true", BoolType);
    InferredIsFirstAccepting(syntax, "false", BoolType);
  }

  /** "2" is Int under a number syntax that reads it as a 32-bit integer. */
  lemma InferIntExample(syntax: NumberSyntax)
    requires syntax.int32("2")
    ensures GetInferredScalarType(syntax, "2") == IntType
  {
    BoolCanParseCanonical("2");
    TrimOfTrimmed("2");
    InferredIsFirstAccepting(syntax, "2", IntType);
  }

  /** "2.0" is Double under a number syntax that reads it as a double but not as an integer. */
  lemma InferDoubleExample(syntax: NumberSyntax)
    requires !syntax.int32("2.0") && syntax.float64("2.0")
    ensures GetInferredScalarType(syntax, "2.0") == DoubleType
  {
    BoolCanParseCanonical("2.0");
    TrimOfTrimmed("2.0");
    InferredIsFirstAccepting(syntax, "2.0", DoubleType);
  }

  /** "banana" is String under a number syntax that reads it as no number. */
  lemma InferStringExample(syntax: NumberSyntax)
    requires !syntax.int32("banana") && !syntax.float64("banana")
    ensures GetInferredScalarType(syntax, "banana") == StringType
  {
    BoolCanParseCanonical("banana");
    TrimOfTrimmed("banana");
    InferredIsFirstAccepting(syntax, "banana", StringType);
  }

  lemma NormalizeUpperInt()
    ensures NormalizeTypeName(" INT ") == "int"
  {
    LowerInt();
    TrimStartInt();
    TrimEndInt();
  }

  /** Explicit names are matched after normalisation; "long" is not a scalar type. */
  lemma ExplicitNameExamples()
    ensures TryGetExplicitScalarTypeByName(" INT ") == Some(IntType)
    ensures TryGetExplicitScalarTypeByName("long") == Nothing
  {
    NormalizeUpperInt();
    ToLowerOfLower("long");
    TrimOfTrimmed("long");
  }
}
