/**
 * The inheritance resolver: a document names its base file in its metadata,
 * the chain of base files is followed down to a document with no base,
 * which is parsed into a schema, and each document above it is merged on
 * top, the top-most one as the leaf. Documents are looked up in a store
 * keyed by path; paths are resolved with the host's path operations.
 */
module Processor {
  import opened Wrappers
  import opened Text
  import opened Xml
  import opened Diagnostics
  import opened ScalarTypes
  import opened Validators
  import opened Schema
  import opened Metadata
  import opened SchemaParser
  import MergeFacts

  const CycleMessage: string := "Cycle detected in include files."

  /**
   * The operations a chain is resolved with: creating a document's metadata,
   * parsing a document that names no base file, and merging a document's
   * root (with a validator) on top of a resolved schema and base document.
   */
  datatype Steps = Steps(
    metadata: Document -> MetadataResult,
    parse: Document -> ParseResult,
    merge: (SchemaNode, Element, Element, AttributeValidator) -> Outcome)

  /**
   * The operations `ProcessFile` uses: `TryCreateFromXDocument` (without a
   * document path), `SchemaParser.TryParse`, and `MergeWith`'s match-then-merge.
   */
  function RealSteps(syntax: NumberSyntax, fs: FileSystem): Steps
  {
    Steps((d: Document) => TryCreateFromXDocument(fs, d, Nothing),
          (d: Document) => TryParse(syntax, fs, d),
          (s: SchemaNode, b: Element, e: Element, v: AttributeValidator) => MergeNode(syntax, s, b, e, [e.name], v))
  }

  /**
   * Steps that explain their failures: metadata that is not created, a parse
   * that yields nothing and a merge that does not match all report an error;
   * and metadata is only created for a document with a root.
   */
  ghost predicate Explained(steps: Steps)
  {
    && (forall d :: steps.metadata(d).metadata.Nothing? ==> ContainsError(steps.metadata(d).diags))
    && (forall d :: steps.metadata(d).metadata.Some? ==> d.root.Some?)
    && (forall d :: steps.parse(d).root.Nothing? ==> ContainsError(steps.parse(d).diags))
    && (forall s, b, e, v :: !steps.merge(s, b, e, v).matched ==> ContainsError(steps.merge(s, b, e, v).diags))
  }

  lemma RealStepsExplained(syntax: NumberSyntax, fs: FileSystem)
    ensures Explained(RealSteps(syntax, fs))
  {
    var steps := RealSteps(syntax, fs);
    forall d | steps.metadata(d).metadata.Nothing?
      ensures ContainsError(steps.metadata(d).diags)
    {
      ErrorInLog(steps.metadata(d).diags, steps.metadata(d).diags[0]);
    }
    forall d | steps.parse(d).root.Nothing?
      ensures ContainsError(steps.parse(d).diags)
    {
      if d.root.Nothing? {
        ErrorInLog(steps.parse(d).diags, ErrorNoPath(NoRootMessage));
      }
    }
    forall s, b, e, v | !steps.merge(s, b, e, v).matched
      ensures ContainsError(steps.merge(s, b, e, v).diags)
    {
      MergeFacts.RefusedMergeReports(syntax, s, b, e, v, []);
    }
  }

  /**
   * Steps that keep every schema describing its base element: a parse yields
   * a schema for the root it returns, and a merge keeps the description.
   */
  ghost predicate KeepsCorrespondence(steps: Steps)
  {
    && (forall d :: steps.parse(d).root.Some? ==> Corresponds(steps.parse(d).root.value.0, steps.parse(d).root.value.1))
    && (forall s, b, e, v :: Corresponds(s, b) ==> Corresponds(steps.merge(s, b, e, v).schema, steps.merge(s, b, e, v).base))
  }

  lemma RealStepsKeepCorrespondence(syntax: NumberSyntax, fs: FileSystem)
    ensures KeepsCorrespondence(RealSteps(syntax, fs))
  {
    var steps := RealSteps(syntax, fs);
    forall d | steps.parse(d).root.Some?
      ensures Corresponds(steps.parse(d).root.value.0, steps.parse(d).root.value.1)
    {
      TryParseCorresponds(syntax, fs, d);
    }
    forall s, b, e, v | Corresponds(s, b)
      ensures Corresponds(steps.merge(s, b, e, v).schema, steps.merge(s, b, e, v).base)
    {
      MergeFacts.MergeNodeCorresponds(syntax, s, b, e, [e.name], v);
    }
  }

  /** A document and its metadata. */
  datatype Loaded = Loaded(doc: Document, metadata: DocumentMetadata)

  datatype LoadResult = LoadResult(loaded: Option<Loaded>, diags: seq<Diagnostic>)

  /**
   * `LoadMetadata`: reading a path missing from the store fails with the read
   * error at that path; otherwise the document's metadata is created, and
   * either failure ends the processing.
   */
  function LoadMetadata(steps: Steps, store: map<string, Document>, fs: FileSystem, path: string): (r: LoadResult)
    ensures path !in store ==> r == LoadResult(Nothing, [ErrorAt(fs.readFailure(path), path)])
    ensures path in store ==>
      var md := steps.metadata(store[path]);
      r.diags == md.diags && (r.loaded.Some? <==> md.metadata.Some?)
      && (r.loaded.Some? ==> r.loaded.value == Loaded(store[path], md.metadata.value))
  {
    if path !in store then LoadResult(Nothing, [ErrorAt(fs.readFailure(path), path)])
    else
      var doc := store[path];
      var md := steps.metadata(doc);
      match md.metadata
      case Nothing => LoadResult(Nothing, md.diags)
      case Some(m) => LoadResult(Some(Loaded(doc, m)), md.diags)
  }

  /** A load that fails reports an error, and one that succeeds has a document with a root. */
  lemma LoadExplained(steps: Steps, store: map<string, Document>, fs: FileSystem, path: string)
    requires Explained(steps)
    ensures var r := LoadMetadata(steps, store, fs, path);
      && (r.loaded.Nothing? ==> ContainsError(r.diags))
      && (r.loaded.Some? ==> r.loaded.value.doc.root.Some?)
  {
    if path !in store {
      ErrorInLog([ErrorAt(fs.readFailure(path), path)], ErrorAt(fs.readFailure(path), path));
    }
  }

  /** The validator for a document at `depth` above the top of the chain: the leaf at 0, intermediate above. */
  function ValidatorFor(depth: nat): (v: AttributeValidator)
    ensures v == LeafValidator <==> depth == 0
    ensures v == IntermediateValidator <==> depth > 0
  {
    if depth == 0 then LeafValidator else IntermediateValidator
  }

  /** Where a base file lives: as given when rooted, otherwise beside the document that names it. */
  function BasePath(fs: FileSystem, path: string, baseFile: string): string
  {
    if fs.isPathRooted(baseFile) then baseFile else fs.combine(fs.directoryName(path), baseFile)
  }

  /** The base file a document names, if it names a non-empty one. */
  function BaseFileOf(m: DocumentMetadata): Option<string>
  {
    if m.baseFileName.Some? && m.baseFileName.value != "" then m.baseFileName else Nothing
  }

  /** The schema and the base document a chain resolves to, or nothing when it bailed out, and what it reported. */
  datatype Chain = Chain(result: Option<(SchemaNode, Element)>, diags: seq<Diagnostic>)

  /**
   * Merging a document's root `root`, `depth` steps above the top, on top of
   * the chain `lower` its base file resolved to, after `log` was reported:
   * nothing when the base bailed out; otherwise the merged schema and base
   * when the merge matched and no error has been reported, before or by it.
   */
  function Above(steps: Steps, root: Element, depth: nat, lower: Chain, log: seq<Diagnostic>): (r: Chain)
    ensures lower.result.Nothing? ==> r == Chain(Nothing, lower.diags)
    ensures lower.result.Some? ==>
      var o := steps.merge(lower.result.value.0, lower.result.value.1, root, ValidatorFor(depth));
      && r.diags == lower.diags + o.diags
      && (r.result.Some? <==> o.matched && !ContainsError(log + lower.diags + o.diags))
      && (r.result.Some? ==> r.result.value == (o.schema, o.base))
  {
    match lower.result
    case Nothing => Chain(Nothing, lower.diags)
    case Some((schema, base)) =>
      var o := steps.merge(schema, base, root, ValidatorFor(depth));
      if o.matched && !ContainsError(log + lower.diags + o.diags) then Chain(Some((o.schema, o.base)), lower.diags + o.diags)
      else Chain(Nothing, lower.diags + o.diags)
  }

  /** With the real steps, a merge on top succeeds exactly when `MergeWith` returns true, and yields what it merged. */
  lemma AboveIsMergeWith(syntax: NumberSyntax, fs: FileSystem, root: Element, depth: nat, lower: Chain, log: seq<Diagnostic>)
    requires lower.result.Some?
    ensures var r := Above(RealSteps(syntax, fs), root, depth, lower, log);
      var merged := MergeWith(syntax, lower.result.value.0, lower.result.value.1, root, ValidatorFor(depth), log + lower.diags);
      && (r.result.Some? <==> merged.ok)
      && (r.result.Some? ==> r.result.value == (merged.schema, merged.base))
      && r.diags == lower.diags + merged.diags
  {
    var merged := MergeWith(syntax, lower.result.value.0, lower.result.value.1, root, ValidatorFor(depth), log + lower.diags);
    assert log + lower.diags + merged.diags == (log + lower.diags) + merged.diags;
  }

  /** A merge on top bails out only with an error reported, when its base chain bails out only so too. */
  lemma AboveBailOutReports(steps: Steps, root: Element, depth: nat, lower: Chain, log: seq<Diagnostic>)
    requires Explained(steps)
    requires lower.result.Nothing? ==> ContainsError(log + lower.diags)
    ensures var r := Above(steps, root, depth, lower, log);
      r.result.Nothing? ==> ContainsError(log + r.diags)
  {
    var r := Above(steps, root, depth, lower, log);
    if lower.result.Some? && r.result.Nothing? {
      var o := steps.merge(lower.result.value.0, lower.result.value.1, root, ValidatorFor(depth));
      ContainsErrorConcat(log + lower.diags, o.diags);
      assert log + lower.diags + o.diags == log + r.diags;
    }
  }

  /**
   * `ProcessFile` for the document at `path`, `depth` steps above the top of
   * the chain, after `visited` have been entered and `log` reported: a
   * document that does not load bails out, and a path entered twice is a
   * cycle.
   */
  function ProcessChain(steps: Steps, store: map<string, Document>, fs: FileSystem,
                        path: string, visited: set<string>, depth: nat, log: seq<Diagnostic>): (r: Chain)
    requires Explained(steps)
    decreases store.Keys - visited, 1
  {
    var load := LoadMetadata(steps, store, fs, path);
    LoadExplained(steps, store, fs, path);
    if load.loaded.Nothing? then Chain(Nothing, load.diags)
    else if path in visited then Chain(Nothing, load.diags + [ErrorAt(CycleMessage, path)])
    else
      var rest := ResolveLoaded(steps, store, fs, path, load.loaded.value, visited, depth, log + load.diags);
      Chain(rest.result, load.diags + rest.diags)
  }

  /**
   * The rest of `ProcessFile` once the document at a newly entered `path` has
   * loaded, after `log` was reported: with a base file, the base chain is
   * resolved (from the base path, one level deeper) and this document's root
   * is merged on top; without one, the document is parsed.
   */
  function ResolveLoaded(steps: Steps, store: map<string, Document>, fs: FileSystem,
                         path: string, loaded: Loaded, visited: set<string>, depth: nat, log: seq<Diagnostic>): (r: Chain)
    requires Explained(steps)
    requires path in store && path !in visited && loaded.doc.root.Some?
    decreases store.Keys - visited, 0
  {
    match BaseFileOf(loaded.metadata)
    case Some(baseFile) =>
      var lower := ProcessChain(steps, store, fs, BasePath(fs, path, baseFile), visited + {path}, depth + 1, log);
      Above(steps, loaded.doc.root.value, depth, lower, log)
    case Nothing =>
      var parsed := steps.parse(loaded.doc);
      Chain(parsed.root, parsed.diags)
  }

  /** Every bail-out is explained: a chain that yields nothing has reported an error, here or before. */
  lemma {:induction false} BailOutReports(steps: Steps, store: map<string, Document>, fs: FileSystem,
                                          path: string, visited: set<string>, depth: nat, log: seq<Diagnostic>)
    requires Explained(steps)
    ensures var r := ProcessChain(steps, store, fs, path, visited, depth, log);
      r.result.Nothing? ==> ContainsError(log + r.diags)
    decreases store.Keys - visited, 1
  {
    var load := LoadMetadata(steps, store, fs, path);
    LoadExplained(steps, store, fs, path);
    ContainsErrorConcat(log, load.diags);
    if load.loaded.Some? && path in visited {
      ContainsErrorConcat(log, load.diags + [ErrorAt(CycleMessage, path)]);
      ErrorInLog(load.diags + [ErrorAt(CycleMessage, path)], ErrorAt(CycleMessage, path));
    } else if load.loaded.Some? {
      var rest := ResolveLoaded(steps, store, fs, path, load.loaded.value, visited, depth, log + load.diags);
      ResolveBailOutReports(steps, store, fs, path, load.loaded.value, visited, depth, log + load.diags);
      assert log + load.diags + rest.diags == log + (load.diags + rest.diags);
    }
  }

  lemma {:induction false} ResolveBailOutReports(steps: Steps, store: map<string, Document>, fs: FileSystem,
                                                 path: string, loaded: Loaded, visited: set<string>, depth: nat, log: seq<Diagnostic>)
    requires Explained(steps)
    requires path in store && path !in visited && loaded.doc.root.Some?
    ensures var r := ResolveLoaded(steps, store, fs, path, loaded, visited, depth, log);
      r.result.Nothing? ==> ContainsError(log + r.diags)
    decreases store.Keys - visited, 0
  {
    match BaseFileOf(loaded.metadata)
    case Some(baseFile) =>
      var next := BasePath(fs, path, baseFile);
      var lower := ProcessChain(steps, store, fs, next, visited + {path}, depth + 1, log);
      BailOutReports(steps, store, fs, next, visited + {path}, depth + 1, log);
      AboveBailOutReports(steps, loaded.doc.root.value, depth, lower, log);
    case Nothing =>
      ContainsErrorConcat(log, steps.parse(loaded.doc).diags);
  }

  /**
   * Every schema a chain resolves to describes the base document it comes
   * with, so each merge on top of it meets a map's keys in its base element
   * (`MergeFacts.MapMergeMergesNamed`).
   */
  lemma {:induction false} ChainCorresponds(steps: Steps, store: map<string, Document>, fs: FileSystem,
                                            path: string, visited: set<string>, depth: nat, log: seq<Diagnostic>)
    requires Explained(steps) && KeepsCorrespondence(steps)
    ensures var r := ProcessChain(steps, store, fs, path, visited, depth, log);
      r.result.Some? ==> Corresponds(r.result.value.0, r.result.value.1)
    decreases store.Keys - visited, 1
  {
    var load := LoadMetadata(steps, store, fs, path);
    LoadExplained(steps, store, fs, path);
    if load.loaded.Some? && path !in visited {
      ResolveCorresponds(steps, store, fs, path, load.loaded.value, visited, depth, log + load.diags);
    }
  }

  lemma {:induction false} ResolveCorresponds(steps: Steps, store: map<string, Document>, fs: FileSystem,
                                              path: string, loaded: Loaded, visited: set<string>, depth: nat, log: seq<Diagnostic>)
    requires Explained(steps) && KeepsCorrespondence(steps)
    requires path in store && path !in visited && loaded.doc.root.Some?
    ensures var r := ResolveLoaded(steps, store, fs, path, loaded, visited, depth, log);
      r.result.Some? ==> Corresponds(r.result.value.0, r.result.value.1)
    decreases store.Keys - visited, 0
  {
    match BaseFileOf(loaded.metadata)
    case Some(baseFile) =>
      var next := BasePath(fs, path, baseFile);
      ChainCorresponds(steps, store, fs, next, visited + {path}, depth + 1, log);
    case Nothing =>
  }

  /** A document whose base file is itself is a cycle: it is reported at its path, and the chain bails out. */
  lemma SelfBaseIsCycle(steps: Steps, store: map<string, Document>, fs: FileSystem, path: string, log: seq<Diagnostic>)
    requires Explained(steps)
    requires var load := LoadMetadata(steps, store, fs, path);
      load.loaded.Some? && BaseFileOf(load.loaded.value.metadata).Some?
      && BasePath(fs, path, BaseFileOf(load.loaded.value.metadata).value) == path
    ensures var r := ProcessChain(steps, store, fs, path, {}, 0, log);
      r.result.Nothing? && ErrorAt(CycleMessage, path) in r.diags
  {
    var load := LoadMetadata(steps, store, fs, path);
    LoadExplained(steps, store, fs, path);
    var visited: set<string> := {};
    var lower := ProcessChain(steps, store, fs, path, visited + {path}, 0 + 1, log + load.diags);
    assert lower == Chain(Nothing, load.diags + [ErrorAt(CycleMessage, path)]);
    var rest := ResolveLoaded(steps, store, fs, path, load.loaded.value, visited, 0, log + load.diags);
    assert rest == Above(steps, load.loaded.value.doc.root.value, 0, lower, log + load.diags) == Chain(Nothing, lower.diags);
    var r := ProcessChain(steps, store, fs, path, {}, 0, log);
    assert r.diags == load.diags + lower.diags;
    assert r.diags[|load.diags| + |load.diags|] == ErrorAt(CycleMessage, path);
  }

  /** A document without a base file, entered for the first time, is parsed, and the chain yields the parse. */
  lemma NoBaseIsParsed(steps: Steps, store: map<string, Document>, fs: FileSystem,
                       path: string, visited: set<string>, depth: nat, log: seq<Diagnostic>)
    requires Explained(steps)
    requires path !in visited
    requires var load := LoadMetadata(steps, store, fs, path);
      load.loaded.Some? && BaseFileOf(load.loaded.value.metadata).Nothing?
    ensures var load := LoadMetadata(steps, store, fs, path);
      var parsed := steps.parse(load.loaded.value.doc);
      ProcessChain(steps, store, fs, path, visited, depth, log) == Chain(parsed.root, load.diags + parsed.diags)
  {
  }

  /**
   * A document with a base file, entered for the first time, is merged on top
   * of its resolved base with the validator for its depth: the chain bails
   * out when the base does, and otherwise yields what the merge on top does.
   */
  lemma BaseIsMerged(steps: Steps, store: map<string, Document>, fs: FileSystem,
                     path: string, visited: set<string>, depth: nat, log: seq<Diagnostic>)
    requires Explained(steps)
    requires path !in visited
    requires var load := LoadMetadata(steps, store, fs, path);
      load.loaded.Some? && BaseFileOf(load.loaded.value.metadata).Some?
    ensures var load := LoadMetadata(steps, store, fs, path);
      var lower := ProcessChain(steps, store, fs, BasePath(fs, path, BaseFileOf(load.loaded.value.metadata).value),
                                visited + {path}, depth + 1, log + load.diags);
      var r := ProcessChain(steps, store, fs, path, visited, depth, log);
      && (lower.result.Nothing? ==> r.result.Nothing?)
      && r.result == Above(steps, load.loaded.value.doc.root.value, depth, lower, log + load.diags).result
  {
  }

  // ------------------------------------------------------- the imperative run

  /** Passes one diagnostic to the collector method for its severity. */
  method ReportOne(c: DeduplicatingErrorCollector, d: Diagnostic)
    requires c.Valid()
    modifies c
    ensures c.Valid()
    ensures c.reported == old(c.reported) + [d]
  {
    match d.severity {
      case Error => c.Error(d.message, d.path);
      case Warning => c.Warning(d.message, d.path);
      case Info => c.Info(d.message, d.path);
    }
  }

  /** Passes each diagnostic to the collector, in order. */
  method Report(c: DeduplicatingErrorCollector, diags: seq<Diagnostic>)
    requires c.Valid()
    modifies c
    ensures c.Valid()
    ensures c.reported == old(c.reported) + diags
  {
    var i := 0;
    while i < |diags|
      invariant 0 <= i <= |diags|
      invariant c.Valid()
      invariant c.reported == old(c.reported) + diags[..i]
    {
      ReportOne(c, diags[i]);
      assert diags[..i + 1] == diags[..i] + [diags[i]];
      i := i + 1;
    }
    assert diags[..|diags|] == diags;
  }

  /**
   * The merge step of `ProcessFile`: its diagnostics go to the collector, and
   * it succeeds when it matched and the collector then holds no error.
   */
  method MergeOnTop(steps: Steps, schema: SchemaNode, base: Element, root: Element, depth: nat, c: DeduplicatingErrorCollector)
    returns (result: Option<(SchemaNode, Element)>)
    requires c.Valid()
    modifies c
    ensures c.Valid()
    ensures var o := steps.merge(schema, base, root, ValidatorFor(depth));
      && c.reported == old(c.reported) + o.diags
      && (result.Some? <==> o.matched && !ContainsError(c.reported))
      && (result.Some? ==> result.value == (o.schema, o.base))
  {
    var o := steps.merge(schema, base, root, ValidatorFor(depth));
    Report(c, o.diags);
    c.HasErrorsReported();
    if !o.matched || c.HasErrors() {
      return Nothing;
    }
    result := Some((o.schema, o.base));
  }

  /**
   * `ProcessFile` as the source runs it: diagnostics go to the collector as
   * they arise, `visited` grows by this path before the base chain is
   * followed, and the merge's success is read back from the collector.
   */
  method ProcessFile(steps: Steps, store: map<string, Document>, fs: FileSystem,
                     path: string, c: DeduplicatingErrorCollector, visited: set<string>, depth: nat)
    returns (result: Option<(SchemaNode, Element)>)
    requires Explained(steps)
    requires c.Valid()
    modifies c
    ensures c.Valid()
    ensures var chain := ProcessChain(steps, store, fs, path, visited, depth, old(c.reported));
      result == chain.result && c.reported == old(c.reported) + chain.diags
    decreases store.Keys - visited, 1
  {
    ghost var log := c.reported;
    var load := LoadMetadata(steps, store, fs, path);
    LoadExplained(steps, store, fs, path);
    Report(c, load.diags);
    if load.loaded.Nothing? {
      return Nothing;
    }
    if path in visited {
      c.Error(CycleMessage, Some(path));
      return Nothing;
    }
    result := ProcessLoaded(steps, store, fs, path, load.loaded.value, c, visited, depth);
  }

  /** `ProcessFile` once the document at a newly entered `path` has loaded: follow its base file, or parse it. */
  method ProcessLoaded(steps: Steps, store: map<string, Document>, fs: FileSystem,
                       path: string, loaded: Loaded, c: DeduplicatingErrorCollector, visited: set<string>, depth: nat)
    returns (result: Option<(SchemaNode, Element)>)
    requires Explained(steps)
    requires c.Valid()
    requires path in store && path !in visited && loaded.doc.root.Some?
    modifies c
    ensures c.Valid()
    ensures var rest := ResolveLoaded(steps, store, fs, path, loaded, visited, depth, old(c.reported));
      result == rest.result && c.reported == old(c.reported) + rest.diags
    decreases store.Keys - visited, 0
  {
    var baseFile := BaseFileOf(loaded.metadata);
    if baseFile.Some? {
      var lower := ProcessFile(steps, store, fs, BasePath(fs, path, baseFile.value), c, visited + {path}, depth + 1);
      if lower.Nothing? {
        return Nothing;
      }
      result := MergeOnTop(steps, lower.value.0, lower.value.1, loaded.doc.root.value, depth, c);
    } else {
      var parsed := steps.parse(loaded.doc);
      Report(c, parsed.diags);
      result := parsed.root;
    }
  }

  /** `TryProcessFile`'s verdict: whether the visitor was invoked, and everything reported. */
  datatype Run = Run(invoked: bool, diags: seq<Diagnostic>)

  /**
   * `TryProcessFile`: the metadata is loaded (and loaded again as the chain's
   * first document), a no-op document stops here, and the visitor is invoked
   * only when the chain resolved and no error was reported at all.
   */
  function TryProcessFileSpec(steps: Steps, store: map<string, Document>, fs: FileSystem,
                              path: string, isNoOp: DocumentMetadata -> bool): (r: Run)
    requires Explained(steps)
  {
    var load := LoadMetadata(steps, store, fs, path);
    if load.loaded.Nothing? || isNoOp(load.loaded.value.metadata) then Run(false, load.diags)
    else
      var chain := ProcessChain(steps, store, fs, path, {}, 0, load.diags);
      Run(chain.result.Some? && !ContainsError(load.diags + chain.diags), load.diags + chain.diags)
  }

  /**
   * The visitor runs exactly when the metadata loads, the document is not a
   * no-op, and nothing at all reported an error: every bail-out reports one.
   */
  lemma InvokedIffNoErrors(steps: Steps, store: map<string, Document>, fs: FileSystem,
                           path: string, isNoOp: DocumentMetadata -> bool)
    requires Explained(steps)
    ensures var r := TryProcessFileSpec(steps, store, fs, path, isNoOp);
      var load := LoadMetadata(steps, store, fs, path);
      r.invoked <==> load.loaded.Some? && !isNoOp(load.loaded.value.metadata) && !ContainsError(r.diags)
  {
    var load := LoadMetadata(steps, store, fs, path);
    if load.loaded.Some? && !isNoOp(load.loaded.value.metadata) {
      BailOutReports(steps, store, fs, path, {}, 0, load.diags);
    }
  }

  /** A path missing from the store is reported with the read failure, and the visitor does not run. */
  lemma MissingFileNotInvoked(steps: Steps, store: map<string, Document>, fs: FileSystem,
                              path: string, isNoOp: DocumentMetadata -> bool)
    requires Explained(steps)
    requires path !in store
    ensures TryProcessFileSpec(steps, store, fs, path, isNoOp) == Run(false, [ErrorAt(fs.readFailure(path), path)])
  {
  }

  /**
   * `TryProcessFile` as the source runs it, with a fresh deduplicating
   * collector in front of the caller's (when there is one). Code emission
   * and writing the merged document are not modelled; `invoked` says whether
   * the visitor would run.
   */
  method TryProcessFile(steps: Steps, store: map<string, Document>, fs: FileSystem,
                        path: string, isNoOp: DocumentMetadata -> bool, hasInner: bool)
    returns (invoked: bool, c: DeduplicatingErrorCollector)
    requires Explained(steps)
    ensures fresh(c) && c.Valid() && c.hasInner == hasInner
    ensures var spec := TryProcessFileSpec(steps, store, fs, path, isNoOp);
      invoked == spec.invoked && c.reported == spec.diags
  {
    c := new DeduplicatingErrorCollector(hasInner);
    var load := LoadMetadata(steps, store, fs, path);
    Report(c, load.diags);
    assert c.reported == load.diags;
    if load.loaded.Nothing? || isNoOp(load.loaded.value.metadata) {
      return false, c;
    }
    ghost var chain := ProcessChain(steps, store, fs, path, {}, 0, load.diags);
    var result := ProcessFile(steps, store, fs, path, c, {}, 0);
    assert c.reported == load.diags + chain.diags;
    c.HasErrorsReported();
    if result.Nothing? || c.HasErrors() {
      return false, c;
    }
    invoked := true;
  }
}
