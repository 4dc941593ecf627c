# Mixable schema engine, modelled in Dafny

Mixable reads an XML schema document in the namespace
`https://github.com/jamescourtney/mixable` and builds a schema tree from it.
It then merges override documents on top, each override naming its base file
in its metadata node. Code generators consume the result, writing their output
through an indented code writer.

This project models the engine's core as Dafny values, functions, lemmas and a
few classes:

- **Schema tree** (`Schema`, `SchemaFacts`, `MergeFacts`). There are three node
  kinds:
  - a scalar, with a well-known type and a modifier;
  - a list, with one template node;
  - a map, with named children in insertion order.

  The module also gives the strict and subset matching of an XML element
  against a node, with every diagnostic the source reports, and the merge of
  an override into a node and into the base XML tree.
- **Schema parser** (`SchemaParser`). It covers:
  - the scalar, list and map element parsers, with their `CanParse` decisions and their `Parse` results;
  - the parser selection loop, which warns when more than one parser claims an element;
  - `TryParse` on a whole document.
- **Scalar types and validators** (`ScalarTypes`, `Validators`):
  - the priority order Bool, Int, Double, String, and type inference over it;
  - explicit type lookup by kind and by name;
  - the Bool and String parsers;
  - the base, intermediate and leaf attribute validators.
- **Document metadata** (`Metadata`):
  - the one metadata node a document must carry;
  - the `BaseFile` and `MergedXmlFile` entries;
  - the helpers that read optional strings, file paths and booleans.
- **File processor** (`Processor`). It follows an inheritance chain from the
  leaf document down through its base files. It detects cycles, parses the
  bottom-most document and merges each document above it with the validator
  its depth calls for. Every report goes to a deduplicating collector.
- **Diagnostics** (`Diagnostics`):
  - the error, warning and info records;
  - the no-op collector;
  - the deduplicating collector, a class over three sets that forwards each distinct report once.
- **XML helpers** (`Xml`, `Text`):
  - elements whose text nodes keep their place among the child elements, and `XElement.Value` read in document order;
  - child filtering by name and by namespace, and document paths;
  - the string functions the engine relies on (`Trim`, ASCII lower-casing, `Split`, `Join`, `Repeat`).
- **Indented code writer** (`CodeWriter`): a class with a nesting level and an
  output buffer that only grows, plus block objects that indent and close.

In the code, `SchemaElement.MergeWith` runs a subset match and merges only
when that match succeeds. It returns whether the error collector is free of
errors afterwards. The model keeps that order.

Parsing, matching and merging emit into a collector. In the model each of them
returns its diagnostics as a sequence, in emission order, and "has errors"
means the sequence holds an error. The processor's methods feed these
sequences into the collector class, and their contracts tie the collector's
log to the functional chain.

## Model

| member | source | states |
|---|---|---|
| ScalarTypes.PriorityOrderShape | src/Mixable.Core/Schema/ScalarType.cs:8-32 | The priority order has four distinct entries: Bool, Int, Double, String. Every scalar type sits at its own priority index. |
| ScalarTypes.TypesDistinct | src/Mixable.Core/Schema/ScalarType.cs:8-30 | Two scalar types with the same well-known type, or the same type name, are the same type. |
| ScalarTypes.FindByType | src/Mixable.Core/Schema/ScalarType.cs:45-55 | Returns the first index whose type is the one asked for, and nothing only when no entry has it. |
| ScalarTypes.FindByName | src/Schema/Schema/ScalarType.cs:48-58 | Returns the first index whose type name equals the name, and nothing only when none does. |
| ScalarTypes.FindAccepting | src/Mixable.Core/Schema/ScalarType.cs:60-68 | Returns the first index whose parser accepts the value, with every earlier parser rejecting it, and nothing only when none accepts. |
| ScalarTypes.TryGetExplicitScalarType | src/Mixable.Core/Schema/ScalarType.cs:43-56 | Finds a type exactly for the four well-known types, and the type found is the one asked for. |
| ScalarTypes.TryGetExplicitScalarTypeByName | src/Schema/Schema/ScalarType.cs:44-59 | Finds a type exactly when the trimmed, lower-cased name is bool, int, double or string, and that type carries that name. |
| ScalarTypes.GetInferredScalarType | src/Mixable.Core/Schema/ScalarType.cs:58-69 | The inferred type accepts the value, and every type before it in priority order rejects it. |
| ScalarTypes.InferredIsFirstAccepting | src/Mixable.Core/Schema/ScalarType.cs:58-69 | A type is the inferred one if and only if it accepts the value and every higher-priority type rejects it. |
| ScalarTypes.StringIsLast | src/Mixable.Core/Schema/ScalarType.cs:32 | String is last in priority order and accepts every value, so inference never fails. |
| ScalarTypes.StringAcceptsAll | src/Mixable.Core/ScalarParsers/StringScalarParser.cs:7 | The String parser accepts whatever any parser accepts, accepts every present value and rejects an absent one. |
| ScalarTypes.BoolCanParseNormalises | src/Mixable.Core/ScalarParsers/BoolScalarParser.cs:7 | Trimming or lower-casing a value never changes whether the Bool parser accepts it. |
| ScalarTypes.BoolCanParseCanonical | src/Mixable.Core/ScalarParsers/BoolScalarParser.cs:7-11 | On trimmed, lower-case text, the Bool parser accepts exactly "true" and "false". |
| ScalarTypes.BoolParserAccepts | src/Mixable.Core/ScalarParsers/BoolScalarParser.cs:7-9 | "True" and "FALSE" are accepted. |
| ScalarTypes.BoolParserRejects | src/Mixable.Core/ScalarParsers/BoolScalarParser.cs:10 | The empty text, "1" and "yes" are rejected. |
| ScalarTypes.InferBoolExamples | src/UnitTests/Schema/ScalarTests.cs:40-59 | "true" and "false" infer Bool. |
| ScalarTypes.InferIntExample | src/UnitTests/Schema/ScalarTests.cs:40-59 | A value the 32-bit integer syntax accepts infers Int. |
| ScalarTypes.InferDoubleExample | src/UnitTests/Schema/ScalarTests.cs:40-59 | A value only the floating-point syntax accepts infers Double. |
| ScalarTypes.InferStringExample | src/UnitTests/Schema/ScalarTests.cs:40-59 | A value neither number syntax accepts infers String. |
| ScalarTypes.NormalizeUpperInt | src/Schema/Schema/ScalarType.cs:46 | " INT " normalises to "int". |
| ScalarTypes.ExplicitNameExamples | src/Schema/Schema/ScalarType.cs:46-58 | " INT " names Int; "long" names no type. |
| Validators.NoRawTypeName | src/Schema/Schema/IntermediateSchemaAttributeValidator.cs:31-39 | Reports at most one error, at the element's path, and reports nothing exactly when no Type attribute is present. |
| Validators.MessagesDiffer | src/Mixable.Core/Schema/LeafSchemaAttributeValidator.cs:14-15 | The Type, leaf Flags and intermediate modifier messages start with different letters, so no two of them are ever equal. |
| Validators.Validate | src/Schema/Schema/BaseSchemaAttributeValidator.cs:5-15 | Returns the attributes unchanged and reports only errors, all at the element's path. It reports something exactly when the validator rejects the attributes, and at most one (base) or two (others) errors. Which messages it reports, including the code's own `{namespace}Flags` text for the intermediate modifier error, is stated by the three validator-message lemmas below. |
| Validators.BaseValidatorMessages | src/Schema/Schema/BaseSchemaAttributeValidator.cs:5-15 | The base validator reports the merge-policy error exactly when a ListMerge policy is present, and never anything else. Its report does not depend on the Type attribute or the modifier. |
| Validators.IntermediateValidatorMessages | src/Schema/Schema/IntermediateSchemaAttributeValidator.cs:7-39 | The Type error is reported exactly when a Type is present. The modifier error, with the `{namespace}Flags` text the code builds, is reported exactly when the modifier is Optional or undefined. Nothing else is reported, the Type error comes first when both are present, and the ListMerge policy makes no difference. |
| Validators.LeafValidatorMessages | src/Mixable.Core/Schema/LeafSchemaAttributeValidator.cs:7-20 | The Type error is reported exactly when a Type is present, and the Flags error exactly when the modifier is not None. Nothing else is reported, the Type error comes first when both are present, and the ListMerge policy makes no difference. |
| Validators.LeafStricterThanIntermediate | src/Mixable.Core/Schema/LeafSchemaAttributeValidator.cs:10-17 | Whatever the intermediate validator rejects, the leaf one rejects too. Abstract and Final separate them. |
| Validators.IntermediateFlagsMessageDiffers | src/Schema/Schema/IntermediateSchemaAttributeValidator.cs:22 | The message as written, which interpolates the whole `Flags` name, differs from the intended one for every modifier. |
| Validators.IntermediateFlagsMessageOptional | src/Tests/Mixable.Core.UnitTests/Schema/MapTests.cs:164-182 | The intended message for Optional is the one the unit test expects. |
| Validators.IntermediateFlagsMessageUndefined | src/Tests/Mixable.Core.UnitTests/Schema/MapTests.cs:164-182 | The intended message for an undefined modifier 255 names it as "255". |
| Validators.ValidateIntermediate | src/Schema/Schema/IntermediateSchemaAttributeValidator.cs:7-29 | The corrected intermediate validator. It has the same verdict and report count as the code. It reports the Type error exactly when a Type is present, and the local-name Flags message exactly when the modifier is Optional or undefined. |
| Validators.IntermediateOptionalReport | src/Schema/Schema/IntermediateSchemaAttributeValidator.cs:20-23 | For an override setting a node to Optional, the code reports the `{namespace}Flags` message and never the text the unit test expects. The corrected validator reports that text. |
| Text.TrimIdempotent | src/Mixable.Core/ScalarParsers/BoolScalarParser.cs:7 | Trimming twice is trimming once. |
| Text.TrimToLower | src/Schema/Schema/ScalarType.cs:46 | Trimming and ASCII lower-casing commute. |
| Text.JoinSplit | src/Mixable.Core/DocumentMetadata/MetadataParseHelpers.cs:23 | Splitting at a separator and joining with it gives back the original text. |
| Text.RepeatAdd | src/Mixable.Core/IndentedCodeWriter.cs:17 | Repeating a string m times and then n more times is repeating it m + n times. |
| Xml.ValueOfLeaf | src/Mixable.Core/Schema/ScalarSchemaElement.cs:47 | The value of an element without child elements is its own text. |
| Xml.ValueAppendChild | src/Mixable.Core/Schema/ListSchemaElement.cs:68-71 | Adding a child element at the end adds that child's value, then the text after it, at the end of the parent's value. |
| Xml.ValueInDocumentOrder | src/Mixable.Core/DocumentMetadata/MetadataParseHelpers.cs:23 | Text around and inside a child element is read in document order: `<BaseFile>a<b>c</b>d</BaseFile>` has the value "acd". |
| Xml.Filtered | src/Mixable.Core/XElementExtensions.cs:30-35 | Keeps exactly the children outside the Mixable namespace, never more than there were. |
| Xml.FilteredConcat | src/Mixable.Core/XElementExtensions.cs:30-35 | Filtering distributes over concatenation, so order is preserved. |
| Xml.FilteredIdempotent | src/Mixable.Core/XElementExtensions.cs:30-35 | Filtering twice is filtering once. |
| Xml.ChildrenNamed | src/Mixable.Core/XElementExtensions.cs:13-16 | Keeps exactly the children with the given name. |
| Xml.ChildrenNamedFirst | src/Mixable.Core/XElementExtensions.cs:13-16 | The head of the selection is the earliest child with the name: no child before it has that name. |
| Xml.ChildrenNamedConcat | src/Mixable.Core/XElementExtensions.cs:13-16 | Selecting by name distributes over concatenation, so document order is preserved. |
| Xml.PathParts | src/Mixable.Core/XElementExtensions.cs:43-71 | When the selected text of no name on the path contains '/' (always so for local names, never for the default text of a name in a URI namespace, which holds the URI), a document path split at '/' is an empty part followed by one part per ancestor-or-self that passes the filter, root first, and holds exactly that many separators. |
| Xml.LocalPathDepth | src/Mixable.Core/XElementExtensions.cs:76-79 | A local path has one '/' per level, and a root's path is "/" and its local name. |
| Xml.ChildPath | src/Mixable.Core/XElementExtensions.cs:48-58 | A child's path is its parent's path, "/", and the child's full name. |
| Diagnostics.Deduplicated | src/Schema/DeduplicatingErrorCollector.cs:22-44 | Holds the same reports as the log, each once, and is never longer; any two reports appear in the order of their first appearances in the log. |
| Diagnostics.DeduplicatedContainsError | src/Schema/DeduplicatingErrorCollector.cs:20-28 | Deduplication keeps whether the log holds an error. |
| Diagnostics.DeduplicatedIdempotent | src/Schema/DeduplicatingErrorCollector.cs:22-44 | Deduplicating twice is deduplicating once. |
| Diagnostics.DistinctDeduplicated | src/Schema/DeduplicatingErrorCollector.cs:22-44 | A log with no repeats is its own deduplication. |
| Diagnostics.NoOpErrorCollector.constructor | src/Mixable.Core/NoOpErrorCollector.cs:9 | A new collector has no errors. |
| Diagnostics.NoOpErrorCollector.Error | src/Mixable.Core/NoOpErrorCollector.cs:11-14 | After an error the collector has errors. Warning and Info modify nothing, so the flag never returns to false. |
| Diagnostics.DeduplicatingErrorCollector.constructor | src/Schema/DeduplicatingErrorCollector.cs:15-18 | Starts with empty sets, nothing reported or forwarded and no errors, and records whether an inner collector exists. |
| Diagnostics.DeduplicatingErrorCollector.HasErrorsReported | src/Schema/DeduplicatingErrorCollector.cs:20 | Has errors exactly when some reported diagnostic is an error. |
| Diagnostics.DeduplicatedSnoc | src/Schema/DeduplicatingErrorCollector.cs:24-27 | Appending a report extends the deduplicated log by that report exactly when it is new. |
| Diagnostics.DeduplicatingErrorCollector.Error | src/Schema/DeduplicatingErrorCollector.cs:22-28 | Records the error in the error set only. Forwards it just when an inner collector exists and the pair was not yet in that set. Afterwards the collector has errors. |
| Diagnostics.DeduplicatingErrorCollector.Info | src/Schema/DeduplicatingErrorCollector.cs:30-36 | Records the info in its own set only, forwards it once per distinct pair, and leaves HasErrors as it was. |
| Diagnostics.DeduplicatingErrorCollector.Warning | src/Schema/DeduplicatingErrorCollector.cs:38-44 | Records the warning in its own set only, forwards it once per distinct pair, and leaves HasErrors as it was. |
| Metadata.HasCodeGenComponentSpec | src/Mixable.Core/DocumentMetadata/DocumentMetadata.cs:103-107 | Code generation is on exactly when the C# or Python backend is present and enabled. |
| Metadata.ChildStep | src/Mixable.Core/DocumentMetadata/MetadataParseHelpers.cs:23 | One XPath child step selects the first child, in document order, with that local name and no namespace: no earlier child has that name. It selects nothing only when there is no such child. |
| Metadata.SelectSteps | src/Mixable.Core/DocumentMetadata/MetadataParseHelpers.cs:23 | A path of child steps selects an element the steps reach from the context element, and selects nothing only when the steps reach no element. |
| Metadata.SelectAllReaches | src/Mixable.Core/DocumentMetadata/MetadataParseHelpers.cs:23 | The node-set a path selects holds exactly the elements the steps reach from some node of the starting set. |
| Metadata.SelectAllConcat | src/Mixable.Core/DocumentMetadata/MetadataParseHelpers.cs:23 | Selecting from two node-sets one after the other gives the two selections one after the other, so document order is kept. |
| Metadata.SelectStepsSingle | src/Mixable.Core/DocumentMetadata/MetadataParseHelpers.cs:23 | A one-step path selects the first child of that name, as `ChildStep` does. |
| Metadata.SelectStepsDescends | src/Mixable.Core/DocumentMetadata/MetadataParseHelpers.cs:23 | A multi-step path looks under every child matching its first step, in document order, and selects from the first under which the rest of the path selects anything: the first reached element in document order. |
| Metadata.SelectBeyondFirstMatch | src/Mixable.Core/DocumentMetadata/MetadataParseHelpers.cs:18-24 | In `<M><A/><A><B>x</B></A></M>` the path "A/B" selects the `B` under the second `A`, and the optional string read there is "x". |
| Metadata.ParseOptionalString | src/Mixable.Core/DocumentMetadata/MetadataParseHelpers.cs:18-24 | Returns the value of the element the path selects, the first it reaches in document order, or the default when nothing is selected. |
| Metadata.ParseFilePath | src/Mixable.Core/DocumentMetadata/MetadataParseHelpers.cs:7-16 | Returns nothing exactly when the path selects no element; otherwise the selected element's value combined with the directory. |
| Metadata.InterpretBool | src/Mixable.Core/DocumentMetadata/MetadataParseHelpers.cs:41-59 | Returns true exactly for "true" after trimming and lower-casing, and reports nothing exactly when the text is a boolean. Otherwise it reports one error quoting the original text at the element's local path plus "/" and the entry path. |
| Metadata.ParseOptionalBool | src/Mixable.Core/DocumentMetadata/MetadataParseHelpers.cs:26-39 | Returns the default, silently, when the path selects no element; otherwise the interpretation of the selected element's value. |
| Metadata.InterpretBoolExamples | src/Mixable.Core/DocumentMetadata/MetadataParseHelpers.cs:45-53 | "True" reads as true and "FALSE" as false, without a report. |
| Metadata.InterpretBoolIgnoresWhiteSpace | src/Mixable.Core/DocumentMetadata/MetadataParseHelpers.cs:45 | Surrounding white space changes neither the value read nor whether a report is made. |
| Metadata.CreateMetadata | src/Mixable.Core/DocumentMetadata/DocumentMetadata.cs:84-92 | Builds the metadata from the node's BaseFile and MergedXmlFile entries and the backends. Of the reports the shown code makes, it reports an error, at /root/Metadata, exactly when code generation is on and a non-empty base file is given. The backend parsers' own reports are not part of this model. |
| Metadata.TryCreateFromXDocument | src/Mixable.Core/DocumentMetadata/DocumentMetadata.cs:58-93 | Succeeds exactly when the root has one metadata child. Otherwise it reports the missing-node or the too-many-nodes error. Names resolve against the document's directory, or the assembly's when none is given. |
| Metadata.CodeGenWithBaseFileReported | src/Mixable.Core/DocumentMetadata/DocumentMetadata.cs:86-90 | The code-generation-with-base-file error is reported at the root's local path followed by /Metadata. |
| Metadata.NestedMetadataIgnored | src/Mixable.Core/DocumentMetadata/DocumentMetadata.cs:64-66 | A metadata node below a direct child of the root is not found. |
| Metadata.NoRootNoMetadata | src/Mixable.Core/DocumentMetadata/DocumentMetadata.cs:64-73 | A document without a root reports the missing-metadata error. |
| Schema.AddChild | src/Mixable.Core/Schema/MapSchemaElement.cs:22-34 | A new name is appended. A present name leaves the children unchanged and reports the duplicate at the child's path. Unique names stay unique. |
| Schema.FindChild | src/Mixable.Core/Schema/MapSchemaElement.cs:65 | Finds the first schema child with the name, and finds nothing exactly when no key has it. |
| Schema.FirstNamed | src/Mixable.Core/Schema/MapSchemaElement.cs:116-120 | Finds the first element with the name, and finds nothing exactly when no element has it. |
| Schema.ScanKeys | src/Mixable.Core/Schema/MapSchemaElement.cs:45-61 | Splits items into first occurrences, which are items with pairwise distinct names covering every item's name, and repeats, the two together as many as the items. |
| Schema.KeyPositions | src/Mixable.Core/Schema/MapSchemaElement.cs:45-61 | Lists in increasing order exactly the positions whose item is, or is not, the earliest of its name. |
| Schema.MissingRequired | src/Mixable.Core/Schema/MapSchemaElement.cs:85-88 | Lists exactly the names of non-Optional schema children that are absent from the element. |
| Schema.Match | src/Schema/Schema/SchemaElement.cs:67-71 | A failed match always reports an error. |
| Schema.MatchScalar | src/Mixable.Core/Schema/ScalarSchemaElement.cs:23-57 | A failed scalar match always reports an error. |
| Schema.MatchList | src/Mixable.Core/Schema/ListSchemaElement.cs:22-53 | A failed list match always reports an error. |
| Schema.MatchMap | src/Mixable.Core/Schema/MapSchemaElement.cs:36-101 | A failed map match always reports an error. |
| Schema.DuplicateReports | src/Mixable.Core/Schema/MapSchemaElement.cs:47-61 | One duplicate-tag error per repeated child, at that child's path, in order. An error is present exactly when something repeats. |
| Schema.MissingReport | src/Mixable.Core/Schema/MapSchemaElement.cs:90-97 | Nothing when nothing is missing; otherwise one error listing the missing names at the map's path. |
| Schema.MatchListItems | src/Mixable.Core/Schema/ListSchemaElement.cs:35-50 | A failed item loop always reports an error. |
| Schema.MatchMapKeys | src/Mixable.Core/Schema/MapSchemaElement.cs:63-77 | A failed key loop always reports an error. |
| Schema.MergeNode | src/Schema/Schema/SchemaElement.cs:40-52 | Merging never renames the schema node or the base element. |
| Schema.MergeProtected | src/Mixable.Core/Schema/ScalarSchemaElement.cs:59-88 | The node-kind merge never renames the schema node or the base element. |
| Schema.MergeFields | src/Mixable.Core/Schema/MapSchemaElement.cs:114-120 | The map child loop keeps the keys in order and keeps the base element's name, attributes, text, number of children and child names. |
| Schema.MergeField | src/Mixable.Core/Schema/MapSchemaElement.cs:116-120 | One step of the loop changes only the schema child and the base child named by the override item. Names and sizes are kept. |
| Schema.MergeWith | src/Schema/Schema/SchemaElement.cs:40-52 | Succeeds exactly when the subset match passes and no error was collected before or during the merge. An unmatched merge changes neither the schema nor the base. |
| SchemaFacts.ListItemsVerdict | src/Mixable.Core/Schema/ListSchemaElement.cs:35-52 | The item loop succeeds exactly when every item matches the template, so one bad item does not stop the others from being checked. |
| SchemaFacts.ListMatchVerdict | src/Mixable.Core/Schema/ListSchemaElement.cs:22-53 | A list matches exactly when every filtered child matches the template. |
| SchemaFacts.ListMatchIgnoresKind | src/Mixable.Core/Schema/ListSchemaElement.cs:43-49 | List items are always matched strictly, whatever the requested kind. |
| SchemaFacts.ListFlagsReported | src/Mixable.Core/Schema/ListSchemaElement.cs:30-33 | A modifier on a list element is reported at the list's path. |
| SchemaFacts.TagMismatchReported | src/Mixable.Core/Schema/ListSchemaElement.cs:37-41 | Every item whose name differs from the template's is reported at its own path, naming both tags. |
| SchemaFacts.ListTagMismatchReported | src/Mixable.Core/Schema/ListSchemaElement.cs:35-41 | The same, for a whole list match. |
| SchemaFacts.MapKeysVerdict | src/Mixable.Core/Schema/MapSchemaElement.cs:63-77 | The key loop succeeds exactly when every first occurrence is a known key that matches its schema child. |
| SchemaFacts.ScanKeysByPosition | src/Mixable.Core/Schema/MapSchemaElement.cs:45-61 | The first occurrences are, position by position, the earliest item of each name in item order, and the repeats are, position by position, every later item in item order. |
| SchemaFacts.ScanKeysNewName | src/Mixable.Core/Schema/MapSchemaElement.cs:47-61 | The last item is rejected as a repeat exactly when an earlier item has its name. |
| SchemaFacts.ScanKeysNoRepeats | src/Mixable.Core/Schema/MapSchemaElement.cs:47-61 | With no repeats, the first occurrences are all the items. |
| SchemaFacts.ScanKeysOfDistinct | src/Mixable.Core/Schema/MapSchemaElement.cs:47-61 | Items with distinct names give no repeats. |
| SchemaFacts.ScanKeysDistinct | src/Mixable.Core/Schema/MapSchemaElement.cs:47-61 | There are no repeats if and only if the names are distinct, and then the first occurrences are all the items. |
| SchemaFacts.MissingRequiredEmpty | src/Mixable.Core/Schema/MapSchemaElement.cs:85-90 | Nothing is missing exactly when every non-Optional key is present. |
| SchemaFacts.MapMatchVerdict | src/Mixable.Core/Schema/MapSchemaElement.cs:36-101 | A map matches exactly when the names are distinct and every child matches its key. A strict match also needs every non-Optional key present. |
| SchemaFacts.MapMatchUnfold | src/Mixable.Core/Schema/MapSchemaElement.cs:36-101 | The map verdict is: no duplicates, the key loop succeeds, and for a strict match nothing required is missing. |
| SchemaFacts.StrictImpliesSubset | src/Mixable.Core/Schema/MapSchemaElement.cs:79-98 | Whatever matches strictly also matches as a subset, at every depth. |
| SchemaFacts.KeysStrictImpliesSubset | src/Mixable.Core/Schema/MapSchemaElement.cs:63-68 | The same, for the key loop. |
| SchemaFacts.ScalarMatchVerdict | src/Mixable.Core/Schema/ScalarSchemaElement.cs:29-56 | A scalar matches exactly when it has no children and is Abstract, Optional or parseable as its type. Child elements and an unparseable value are each reported at the node's path. |
| SchemaFacts.NewKeyReported | src/Mixable.Core/Schema/MapSchemaElement.cs:69-76 | A child whose name is not a key is reported at that child's path. |
| MergeFacts.RefusedMergeReports | src/Schema/Schema/SchemaElement.cs:45-48 | A merge whose match fails changes nothing, reports an error and returns false. |
| MergeFacts.MergeWithFailsOnError | src/Schema/Schema/SchemaElement.cs:50-51 | An error collected earlier, or reported by the merge, makes the merge return false. |
| MergeFacts.ScalarMergeEffect | src/Mixable.Core/Schema/ScalarSchemaElement.cs:59-88 | The scalar takes the override's modifier and keeps its type. The base element's content becomes the override's value, or nothing when Abstract. The base element's Flags attribute is set to the override's modifier when that differs from the node's modifier, and is left as it was otherwise. A Final node reports an error at its path. |
| MergeFacts.FinalScalarReports | src/Mixable.Core/Schema/ScalarSchemaElement.cs:67-72 | Merging into a Final scalar reports an error. |
| MergeFacts.FinalScalarRefusesOverride | src/Tests/Mixable.Core.UnitTests/Schema/MapTests.cs:85-100 | A Final scalar can never be overridden: the merge returns false. |
| MergeFacts.FinalScalarMergeReports | src/Mixable.Core/Schema/ScalarSchemaElement.cs:67-72 | Every merge into a Final scalar reports an error, whether its match fails or it goes on to the protected merge. |
| MergeFacts.FinalKeyReports | src/Mixable.Core/Schema/MapSchemaElement.cs:114-120 | In a map that describes its base element and passes its match, an override naming a key whose child is a Final scalar makes the map merge report an error. |
| MergeFacts.FinalKeyRefusesOverride | src/Tests/Mixable.Core.UnitTests/Schema/MapTests.cs:85-100 | A Final scalar under a map key cannot be overridden either: MergeWith on the map returns false when the override names the key. |
| MergeFacts.ListMergeEffect | src/Mixable.Core/Schema/ListSchemaElement.cs:55-72 | The list schema is unchanged. Under Replace the base element's content becomes the override's items; otherwise those items are appended after the existing content. Each item is copied without the text that followed it in the override. |
| MergeFacts.MergeFieldsKeys | src/Mixable.Core/Schema/MapSchemaElement.cs:114-120 | Schema children the override does not name are left as they were. |
| MergeFacts.MergeFieldsUntouchedBase | src/Mixable.Core/Schema/MapSchemaElement.cs:114-120 | Base children the override does not name are left as they were. |
| MergeFacts.MapMergeEffect | src/Mixable.Core/Schema/MapSchemaElement.cs:103-121 | Keys stay the same and in order, and unnamed children are untouched in schema and base. A modifier on the override is reported at its path. |
| MergeFacts.MergeFieldsNamed | src/Mixable.Core/Schema/MapSchemaElement.cs:114-120 | When the proposed children have distinct names, each schema child and first base child of a proposed name end up as merging that child into them makes them. Everything that merge reports is among the loop's reports. |
| MergeFacts.MapMergeMergesNamed | src/Mixable.Core/Schema/MapSchemaElement.cs:103-121 | On a schema that describes its base element, a map merge that passed its match merges every proposed key into the schema child of that key and into the first base child of that name. Both exist, and the map merge keeps every report of that child merge. |
| MergeFacts.MergeNodeCorresponds | src/Schema/Schema/SchemaElement.cs:40-52 | A merge keeps a schema describing its base element: names agree, and every map key still has a first base child of its name that it describes. |
| MergeFacts.MergeProtectedCorresponds | src/Mixable.Core/Schema/MapSchemaElement.cs:103-121 | The same, for the node-kind merge of a matched override with distinct child names. |
| MergeFacts.MergeFieldsCorresponds | src/Mixable.Core/Schema/MapSchemaElement.cs:114-120 | The same, for every key through the map's child loop. |
| MergeFacts.MergeFieldCorresponds | src/Mixable.Core/Schema/MapSchemaElement.cs:116-120 | One pass of that loop merges the key of the proposed name into the first base child of that name, which it describes, and leaves every other key and its base child as they were. |
| MergeFacts.MergeNodeKeepsShape | src/Schema/Schema/SchemaElement.cs:40-52 | A merge changes modifiers only: names, keys, scalar types and list templates survive, at every depth. |
| MergeFacts.MergeProtectedKeepsShape | src/Mixable.Core/Schema/ScalarSchemaElement.cs:59-88 | The same, for the node-kind merge. |
| MergeFacts.MergeFieldsKeepShape | src/Mixable.Core/Schema/MapSchemaElement.cs:114-120 | The same, for every child of the map loop. |
| MergeFacts.MergeFieldKeepsShape | src/Mixable.Core/Schema/MapSchemaElement.cs:118-119 | The same, for one step of the map loop. |
| SchemaParser.ScalarRejectsLong | src/Schema/SchemaParser/ScalarElementParser.cs:15-20 | An element whose explicit type is "long", a name no scalar type has, is not claimed as a scalar. |
| SchemaParser.ScalarRejectsAnyChild | src/Schema/SchemaParser/ScalarElementParser.cs:9-13 | An element with any child element, even one in the Mixable namespace, is not claimed as a scalar. |
| SchemaParser.ParseScalar | src/Schema/SchemaParser/ScalarElementParser.cs:25-63 | Builds a scalar with the element's name, parents and modifier. Its reports begin with the validator's. |
| SchemaParser.ScalarParseInferred | src/Schema/SchemaParser/ScalarElementParser.cs:36-39 | Without a Type attribute the type is inferred from the value, and only the validator reports. |
| SchemaParser.ScalarParseUnknown | src/Schema/SchemaParser/ScalarElementParser.cs:40-45 | An unknown type name gives a String scalar and one unknown-type error at the element's path. |
| SchemaParser.ScalarParseExplicit | src/Schema/SchemaParser/ScalarElementParser.cs:47-55 | A known type name is taken. A value it cannot parse is reported at the element's path. |
| SchemaParser.MarkerReports | src/Schema/SchemaParser/ListElementParser.cs:74-89 | The too-many-templates and the template-shape errors are reported exactly when their conditions hold, at the list's path. |
| SchemaParser.GetTemplateNode | src/Schema/SchemaParser/ListElementParser.cs:66-95 | Without a template marker the template is the first filtered child. With one, it is the first filtered child of the first marker, and the two errors are reported exactly when there are several markers or the marker has not exactly one child. |
| SchemaParser.NameSetSingleton | src/Schema/SchemaParser/ListElementParser.cs:20-23 | Items share one name set of size one exactly when every item has the first item's name. |
| SchemaParser.ListCanParseSpec | src/Schema/SchemaParser/ListElementParser.cs:8-30 | An element is claimed as a list exactly when it carries List=true, or a template marker, or more than one filtered child all with one name. |
| SchemaParser.MixedNamesAreNotAList | src/UnitTests/Schema/ListTests.cs:30-50 | Children with two different names, and no marker or List attribute, are not a list. |
| SchemaParser.ParseList | src/Schema/SchemaParser/ListElementParser.cs:32-64 | Builds a list node with the element's name and parents. |
| SchemaParser.ParseListReports | src/Schema/SchemaParser/ListElementParser.cs:39-61 | A missing template gives an empty map template and the unknown-item-type error. A found template is parsed under its own parents. A list whose own items fail to match it reports an error. |
| SchemaParser.MaxOf | src/Schema/SchemaParser/MapSchemaElementParser.cs:17 | The maximum is at least every entry and equals one of them. |
| SchemaParser.GroupCounts | src/Schema/SchemaParser/MapSchemaElementParser.cs:17 | One group count per item. |
| SchemaParser.MapCanParseSpec | src/Schema/SchemaParser/MapSchemaElementParser.cs:5-21 | An element is claimed as a map exactly when it has filtered children and their names are distinct. |
| SchemaParser.MapExcludesScalar | src/Schema/SchemaParser/ScalarElementParser.cs:9-13 | An element claimed as a map is never claimed as a scalar. |
| SchemaParser.RepeatedNameExcludesMap | src/Schema/SchemaParser/MapSchemaElementParser.cs:17-20 | Several children sharing one name are never claimed as a map. |
| SchemaParser.ParseEach | src/Schema/SchemaParser/MapSchemaElementParser.cs:32-37 | One parsed node per child, in order, with the child's name and the map's path as parents. |
| SchemaParser.AddParsedKeys | src/Mixable.Core/Schema/MapSchemaElement.cs:22-34 | Adding the parsed children gives unique keys, exactly the names parsed. |
| SchemaParser.AddParsedDuplicates | src/Mixable.Core/Schema/MapSchemaElement.cs:24-29 | Every child whose name came earlier is reported as a duplicate at its own path. |
| SchemaParser.ParseMap | src/Schema/SchemaParser/MapSchemaElementParser.cs:23-40 | Builds a map node with the element's name and parents. |
| SchemaParser.AddedFromKeys | src/Schema/SchemaParser/MapSchemaElementParser.cs:32-37 | Over the element's filtered children, the keys are exactly their names, each once, and every repeat is reported. |
| SchemaParser.AddParsedFirsts | src/Mixable.Core/Schema/MapSchemaElement.cs:22-34 | Every key holds the node of the first parsed child of that name. |
| SchemaParser.FirstNamedFiltered | src/Mixable.Core/XElementExtensions.cs:30-35 | The first non-Mixable child of a name is the first child of that name among all the children. |
| SchemaParser.ParseMapCorresponds | src/Schema/SchemaParser/MapSchemaElementParser.cs:23-40 | A parsed map describes the element it was parsed from: each key is described by the first child of that name. |
| SchemaParser.ParseKeyCorresponds | src/Mixable.Core/Schema/MapSchemaElement.cs:22-34 | The node a new key holds was parsed from the first child element of that name, and describes it. |
| SchemaParser.ParseMapKeys | src/Schema/SchemaParser/MapSchemaElementParser.cs:32-37 | A parsed map's keys are exactly the filtered children's names, each once. Every repeated name is reported at the child's path. |
| SchemaParser.Claimants | src/Schema/SchemaParser/SchemaParser.cs:61-74 | Exactly the parsers that claim the element, in order. |
| SchemaParser.SelectFrom | src/Schema/SchemaParser/SchemaParser.cs:61-74 | The first claimant is chosen, with one extra for every other claimant. Nothing is chosen exactly when nobody claims. |
| SchemaParser.SelectParser | src/Schema/SchemaParser/SchemaParser.cs:61-74 | The selection loop computes the first claimant and the number of extra claimants. |
| SchemaParser.ClaimWarnings | src/Schema/SchemaParser/SchemaParser.cs:69-72 | One two-parsers warning per extra claimant, and no error. |
| SchemaParser.Parse | src/Schema/SchemaParser/SchemaParser.cs:54-85 | The parsed node keeps the element's name and its parents. |
| SchemaParser.DefaultSelection | src/Schema/SchemaParser/SchemaParser.cs:13-18 | With the default parsers, scalar is preferred to list, list to map, and nothing is chosen when none claims. |
| SchemaParser.ParseDispatch | src/Schema/SchemaParser/SchemaParser.cs:54-85 | Parse produces the chosen parser's node. With no claimant it gives an empty map and the no-parser error at the element's path. |
| SchemaParser.ExtraClaimantsOnlyWarn | src/Schema/SchemaParser/SchemaParser.cs:69-72 | Extra claimants add warnings only: an error arises exactly from the validator or the chosen parser. |
| SchemaParser.TryParse | src/Schema/SchemaParser/SchemaParser.cs:33-52 | No root gives the no-root error. Otherwise a schema is produced exactly when the metadata is found, and it is the root's parse with the base validator. |
| SchemaParser.ParseCorresponds | src/Schema/SchemaParser/SchemaParser.cs:54-85 | Every node the dispatcher builds describes the element it was built from. |
| SchemaParser.TryParseCorresponds | src/Schema/SchemaParser/SchemaParser.cs:33-52 | A parsed document's schema describes the document's root, which is returned beside it. |
| Processor.RealStepsExplained | src/Mixable.Core/MxmlFileProcessor.cs:128-140 | The real parse, merge and metadata steps report an error whenever they fail. |
| Processor.RealStepsKeepCorrespondence | src/Mixable.Core/MxmlFileProcessor.cs:128-140 | The real parse yields a schema describing its root, and the real merge keeps that description. |
| Processor.LoadMetadata | src/Mixable.Core/MxmlFileProcessor.cs:67-88 | A missing file reports the read failure at its path. Otherwise the result is the metadata step's result and reports. |
| Processor.LoadExplained | src/Mixable.Core/MxmlFileProcessor.cs:76-85 | A failed load reports an error, and a successful one has a root. |
| Processor.ValidatorFor | src/Mixable.Core/MxmlFileProcessor.cs:121-125 | Depth 0 gets the leaf validator and every greater depth the intermediate one. |
| Processor.Above | src/Mixable.Core/MxmlFileProcessor.cs:119-132 | Merges a document on top of a successful lower chain. The merge succeeds exactly when it matched and no error has been collected. |
| Processor.AboveIsMergeWith | src/Mixable.Core/MxmlFileProcessor.cs:128-131 | With the real steps, that merge is MergeWith with the depth's validator. |
| Processor.AboveBailOutReports | src/Mixable.Core/MxmlFileProcessor.cs:128-131 | A merge step that bails out has reported an error. |
| Processor.BailOutReports | src/Mixable.Core/MxmlFileProcessor.cs:90-144 | Processing a chain bails out only after an error is collected. |
| Processor.ResolveBailOutReports | src/Mixable.Core/MxmlFileProcessor.cs:107-143 | The same, for a loaded document. |
| Processor.ChainCorresponds | src/Mixable.Core/MxmlFileProcessor.cs:90-144 | Every schema a chain resolves to describes the base document beside it, so every merge on top of it meets each map key in the base element. |
| Processor.ResolveCorresponds | src/Mixable.Core/MxmlFileProcessor.cs:107-143 | The same, for a loaded document. |
| Processor.SelfBaseIsCycle | src/Mixable.Core/MxmlFileProcessor.cs:101-105 | A document naming itself as its base fails with the cycle error at its path. |
| Processor.NoBaseIsParsed | src/Mixable.Core/MxmlFileProcessor.cs:133-141 | A document without a base file is parsed. The result carries the load's and the parse's reports. |
| Processor.BaseIsMerged | src/Mixable.Core/MxmlFileProcessor.cs:110-132 | A document with a base file processes the base one level deeper, then merges on top. A failed base fails the document. |
| Processor.MergeOnTop | src/Mixable.Core/MxmlFileProcessor.cs:119-131 | Reports the merge's diagnostics to the collector, and succeeds exactly when it matched and the collector holds no error. |
| Processor.ProcessFile | src/Mixable.Core/MxmlFileProcessor.cs:90-144 | The recursive method with its visited set returns the chain's result and reports exactly the chain's diagnostics. |
| Processor.ProcessLoaded | src/Mixable.Core/MxmlFileProcessor.cs:107-143 | The same, after a document has been loaded. |
| Processor.InvokedIffNoErrors | src/Mixable.Core/MxmlFileProcessor.cs:17-65 | The visitor is invoked exactly when the metadata loads, the document is not a no-op and no error was reported. |
| Processor.MissingFileNotInvoked | src/Mixable.Core/MxmlFileProcessor.cs:71-80 | A missing file reports its read failure and invokes nothing. |
| Processor.TryProcessFile | src/Mixable.Core/MxmlFileProcessor.cs:17-65 | The method builds a fresh deduplicating collector. Its result and reports are those of the specification above. |
| CodeWriter.Indent | src/Mixable.Core/IndentedCodeWriter.cs:29-32 | The indent is as wide as the level times the unit, and empty at or below level zero. |
| CodeWriter.IndentStep | src/Mixable.Core/IndentedCodeWriter.cs:29-32 | One more level is one more unit at the end. |
| CodeWriter.IndentIsSpaces | src/Mixable.Core/IndentedCodeWriter.cs:17 | An indent built from a unit of spaces is all spaces, level times width long. |
| CodeWriter.IndentedCodeWriter.constructor | src/Mixable.Core/IndentedCodeWriter.cs:13-18 | The unit is indentSize spaces, the level starts at zero and the output is empty. |
| CodeWriter.IndentedCodeWriter.AppendLine | src/Mixable.Core/IndentedCodeWriter.cs:27-35 | Appends the current indent, the line and a line terminator to the old output, and keeps the level. |
| CodeWriter.IndentedCodeWriter.WithBlock | src/Mixable.Core/IndentedCodeWriter.cs:22-25 | Writes the block start at the current level, then goes one level deeper. |
| CodeWriter.SimpleDisposable.constructor | src/Mixable.Core/IndentedCodeWriter.cs:41-46 | Writes the block start at the writer's level, then increments the level. |
| CodeWriter.SimpleDisposable.Dispose | src/Mixable.Core/IndentedCodeWriter.cs:48-53 | Decrements the level, then writes the block end and an empty line at the new level. |
| CodeWriter.BlockAround | src/Mixable.Core/IndentedCodeWriter.cs:22-53 | A block around one line restores the level and appends the opening line, the indented line, the closing line and an empty line after the old output. |

## Left out

- The model works on values rather than mutating live `XElement`s. A merge returns the new schema node and the new base element separately, so aliasing between the schema tree and the XML tree is not modelled. What the aliasing gives the source, that every map key's schema child belongs to a base child of that name, is the `Schema.Corresponds` invariant: parsing establishes it and every merge keeps it.
- Schema.MatchScalar and SchemaFacts.ScalarMatchVerdict report a scalar's child-element and parse errors at the path recorded when the schema was parsed. The source computes that path from the live element at the time of the report (src/Mixable.Core/Schema/ScalarSchemaElement.cs:36-47). A `ListMerge="Replace"` merge removes the list template's element from the document (src/Mixable.Core/Schema/ListSchemaElement.cs:63-66). Every later report for that template, or for any scalar at or below it, is then at a path cut short to the detached element, such as "/Item" or "/{ns}ListTemplate/Item". The model keeps the full path, such as "/Config/Items/Item". Verdicts are unaffected; only the paths in these reports differ.
- Xml.PathParts is stated only for paths where no name's selected text contains '/'. The default text of a name in a URI namespace, `{uri}local`, contains the URI's slashes, so splitting such a path at '/' gives more parts than it has components.
- XML comments, processing instructions and CDATA sections are not modelled. An element's text nodes are its `text` and its children's `tail`s.
- Schema.MergeField locates the override's schema child in the map's original children, not the partially merged ones. The two agree because merging never renames a child, and a matched override has distinct names.
- A map's children are each parsed first and then added with `AddChild`, instead of being interleaved. Each child's reports come before the duplicate report, in the source's order.
- File and XML I/O: reading files, parsing XML, XPath and writing the merged output are left out. Documents come from a map from path to parsed tree, and a missing path gives the read-failure report.
- Path operations (`Path.Combine`, `Path.GetDirectoryName`, `Path.IsPathRooted`, the assembly directory) and the text of a read exception are left out. They are the `FileSystem` record's functions.
- Int and Double parsing (`int.TryParse`, `double.TryParse`) is left out because it is a foreign call and floating point. It is an uninterpreted predicate on the text, in the `NumberSyntax` record.
- `ToLowerInvariant` is left out for non-ASCII characters; only ASCII letters are lowered. `char.IsWhiteSpace` is the exact set.
- The XPath selection in the metadata helpers covers relative paths of unprefixed child steps separated by '/', which include the paths the engine uses. Other XPath syntax (attributes, predicates, '..', '//', namespace prefixes, absolute paths) is not modelled; an empty step selects nothing rather than raising an XPath error.
- `MetadataAttributes.Extract` is left out: an element carries its already extracted attribute record.
- The C# and Python backend metadata parsers and `IsNoOp` are left out. A document carries its backend records, and `isNoOp` is a parameter.
- Metadata.CreateMetadata: the reports the C# and Python backend parsers make while the metadata is created are not modelled, such as the missing-namespace error that src/Tests/Mixable.Core.UnitTests/Schema/DocumentMetadataTests.cs:28-43 expects. The model's reports are only the base-file/code-generation error.
- The visitors, code emission, the root validator and the host programs are left out, because they are string templating and host plumbing.
- Exceptions are left out: `BailOutException` becomes a failed result, and the processor's bail-out lemmas show that an error was reported first.
- Processor.ProcessFile is proved over an abstract `Steps` value bound by `Explained`. `RealStepsExplained` and `AboveIsMergeWith` tie it to the real parser and merge.
- A document's metadata is loaded with no document path, so file names resolve against the assembly directory. This is how `SchemaParser.TryParse` calls it.
- SchemaParser.TryParse returns a schema whenever the metadata is found. Errors reported while parsing the root are left for the caller's collector to show, as the code does.
- The end-of-chain sweep for unresolved Abstract nodes is left out (src/Tests/Mixable.Core.UnitTests/Schema/MapTests.cs:102-117), because its code is not part of this model.
- The "'<modifier>' is not valid on Map nodes" check is left out (src/Tests/Mixable.Core.UnitTests/Schema/MapTests.cs:185-208), because its code is not part of this model. The modelled map merge reports the one map-modifier error the shown code emits.
- The invalid-ListMerge-value message is left out (src/UnitTests/Schema/ListTests.cs:167-182), because its code is not part of this model.
- The `allowAbstract` argument of the merge call is left out, because the `SchemaElement.MergeWith` that takes it is not part of this model. The model's merge takes the validator as a parameter, as the processor passes it.
- Validators.BaseValidatorMessages follows the code's wording, "merge policy". The unit tests at src/UnitTests/Schema/ListTests.cs:82-87 expect "ListMerge policy"; the model follows the code.
- Validators.Validate reports the intermediate modifier error as the code builds it, with `{namespace}Flags`; see Findings. The merge and the processor use this as-written validator. The corrected `Validators.ValidateIntermediate` has the same verdicts and report count, so every success or failure the model proves holds under either.
- CodeWriter.IndentedCodeWriter.constructor takes `indentSize` as a `nat`. The negative sizes the C# `int` admits, for which `new string(' ', indentSize)` throws, are not modelled.
- Loops that accumulate a result are modelled as recursive functions over a prefix, except the parser-selection loop and the writer's indent loop, which are methods with invariants.
- CodeWriter.IndentedCodeWriter.AppendLine: the line terminator is a parameter of the writer, not `Environment.NewLine`. The nesting level is an unbounded integer, not a 32-bit one.
- The processor's visited-path `HashSet` is a set of strings. Dictionary order in a map schema is insertion order, as `AddChild` builds it.

## Findings

| source | as written | input that shows it | evidently intended | confidence | as-written member | corrected member |
|---|---|---|---|---|---|---|
| src/Schema/Schema/IntermediateSchemaAttributeValidator.cs:22 | The message interpolates the whole `Flags` XName, whose text is `{https://github.com/jamescourtney/mixable}Flags`. | An intermediate override with `mx:Flags="Optional"` (or 255). The unit test at src/Tests/Mixable.Core.UnitTests/Schema/MapTests.cs:180 expects "…may not use the Flags attribute…". | Interpolate the attribute's local name, "Flags". | not executed | Validators.IntermediateOptionalReport | Validators.ValidateIntermediate |
