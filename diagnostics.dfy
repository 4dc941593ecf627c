/**
 * Diagnostics: the (severity, message, path) entries that every component
 * reports, and the two error collectors of the engine — the no-op collector,
 * which only remembers whether an error was seen, and the deduplicating
 * collector, which forwards each distinct (message, path) pair once.
 */
module Diagnostics {
  import opened Wrappers

  datatype Severity = Error | Warning | Info

  datatype Diagnostic = Diagnostic(severity: Severity, message: string, path: Option<string>)

  /** An error reported at a document path. */
  function ErrorAt(message: string, path: string): Diagnostic
  {
    Diagnostic(Error, message, Some(path))
  }

  /** An error reported without a path. */
  function ErrorNoPath(message: string): Diagnostic
  {
    Diagnostic(Error, message, Nothing)
  }

  /** A warning reported at a document path. */
  function WarningAt(message: string, path: string): Diagnostic
  {
    Diagnostic(Warning, message, Some(path))
  }

  /** Whether a collector that has received `log` holds an error: some entry is an error. */
  predicate ContainsError(log: seq<Diagnostic>)
  {
    exists i :: 0 <= i < |log| && log[i].severity == Error
  }

  /** Every entry is an error reported at `path`. */
  predicate AllErrorsAt(log: seq<Diagnostic>, path: string)
  {
    forall i :: 0 <= i < |log| ==> log[i] == ErrorAt(log[i].message, path)
  }

  /** A log whose every entry is an error contains an error exactly when it is not empty. */
  lemma OnlyErrors(log: seq<Diagnostic>)
    requires forall i :: 0 <= i < |log| ==> log[i].severity == Error
    ensures ContainsError(log) <==> log != []
  {
    if log != [] {
      assert log[0].severity == Error;
    }
  }

  /** A log holding an error entry contains an error. */
  lemma ErrorInLog(log: seq<Diagnostic>, d: Diagnostic)
    requires d in log && d.severity == Error
    ensures ContainsError(log)
  {
    var i :| 0 <= i < |log| && log[i] == d;
  }

  /** A log that keeps every entry of a log holding an error holds an error too. */
  lemma ContainsErrorWithin(a: seq<Diagnostic>, b: seq<Diagnostic>)
    requires ContainsError(a) && forall d :: d in a ==> d in b
    ensures ContainsError(b)
  {
    var i :| 0 <= i < |a| && a[i].severity == Error;
    ErrorInLog(b, a[i]);
  }

  lemma ContainsErrorConcat(a: seq<Diagnostic>, b: seq<Diagnostic>)
    ensures ContainsError(a + b) <==> ContainsError(a) || ContainsError(b)
  {
    if ContainsError(a + b) {
      var i :| 0 <= i < |a + b| && (a + b)[i].severity == Error;
      if i >= |a| {
        assert b[i - |a|].severity == Error;
      }
    }
    if ContainsError(a) {
      var i :| 0 <= i < |a| && a[i].severity == Error;
      assert (a + b)[i] == a[i];
    }
    if ContainsError(b) {
      var i :| 0 <= i < |b| && b[i].severity == Error;
      assert (a + b)[|a| + i] == b[i];
    }
  }

  /**
   * What a deduplicating collector passes on to its inner collector after
   * receiving `log`: each entry the first time it is seen, in order. Because
   * the severity is part of an entry, an error and a warning with the same
   * message and path are both passed on.
   */
  function Deduplicated(log: seq<Diagnostic>): (r: seq<Diagnostic>)
    ensures forall d :: d in r <==> d in log
    ensures forall i, j :: 0 <= i < j < |r| ==> r[i] != r[j]
    ensures |r| <= |log|
    ensures InFirstSeenOrder(r, log)
  {
    if log == [] then []
    else
      var prefix := Deduplicated(log[..|log| - 1]);
      var last := log[|log| - 1];
      assert forall d :: d in log <==> d in log[..|log| - 1] || d == last;
      if last in log[..|log| - 1] then
        FirstSeenKept(log, prefix);
        prefix
      else
        FirstSeenAdded(log, prefix);
        prefix + [last]
  }

  /** The entries of `r` come from `log`, ordered by where each first appears in it. */
  predicate InFirstSeenOrder(r: seq<Diagnostic>, log: seq<Diagnostic>)
  {
    forall i, j {:trigger FirstIndex(log, r[i]), FirstIndex(log, r[j])} ::
      0 <= i < j < |r| ==> r[i] in log && r[j] in log && FirstIndex(log, r[i]) < FirstIndex(log, r[j])
  }

  /** Appending a report extends the deduplicated log by that report exactly when it is new. */
  lemma DeduplicatedSnoc(log: seq<Diagnostic>, d: Diagnostic)
    ensures Deduplicated(log + [d]) == Deduplicated(log) + (if d in log then [] else [d])
  {
    assert (log + [d])[..|log|] == log;
  }

  /** Where `d` first appears in `log`. */
  function FirstIndex(log: seq<Diagnostic>, d: Diagnostic): (k: nat)
    requires d in log
    ensures k < |log| && log[k] == d
  {
    if log[0] == d then 0 else FirstIndex(log[1..], d) + 1
  }

  /** No entry before the first appearance of `d` is `d`. */
  lemma {:induction false} FirstIndexIsFirst(log: seq<Diagnostic>, d: Diagnostic)
    requires d in log
    ensures forall j :: 0 <= j < FirstIndex(log, d) ==> log[j] != d
  {
    if log[0] != d {
      FirstIndexIsFirst(log[1..], d);
      assert forall j :: 1 <= j < FirstIndex(log, d) ==> log[j] == log[1..][j - 1];
    }
  }

  /** Extending a log keeps where its entries first appear. */
  lemma FirstIndexPrefix(log: seq<Diagnostic>, d: Diagnostic)
    requires log != [] && d in log[..|log| - 1]
    ensures FirstIndex(log, d) == FirstIndex(log[..|log| - 1], d)
  {
    var prefix := log[..|log| - 1];
    var k := FirstIndex(prefix, d);
    FirstIndexIsFirst(prefix, d);
    FirstIndexIsFirst(log, d);
    assert forall j :: 0 <= j <= k ==> log[j] == prefix[j];
  }

  /** Entries already seen keep their order when the log grows. */
  lemma FirstSeenKept(log: seq<Diagnostic>, r: seq<Diagnostic>)
    requires log != [] && InFirstSeenOrder(r, log[..|log| - 1])
    requires forall d :: d in r ==> d in log[..|log| - 1]
    ensures InFirstSeenOrder(r, log)
  {
    forall d | d in r
      ensures d in log && FirstIndex(log, d) == FirstIndex(log[..|log| - 1], d)
    {
      FirstIndexPrefix(log, d);
    }
  }

  /** A new last entry first appears after every entry seen before it. */
  lemma FirstSeenAdded(log: seq<Diagnostic>, r: seq<Diagnostic>)
    requires log != [] && log[|log| - 1] !in log[..|log| - 1] && InFirstSeenOrder(r, log[..|log| - 1])
    requires forall d :: d in r ==> d in log[..|log| - 1]
    ensures InFirstSeenOrder(r + [log[|log| - 1]], log)
  {
    var last := log[|log| - 1];
    FirstSeenKept(log, r);
    assert FirstIndex(log, last) == |log| - 1;
    forall d | d in r
      ensures d in log && FirstIndex(log, d) < |log| - 1
    {
      FirstIndexPrefix(log, d);
    }
    var r' := r + [last];
    forall i, j | 0 <= i < j < |r'|
      ensures r'[i] in log && r'[j] in log && FirstIndex(log, r'[i]) < FirstIndex(log, r'[j])
    {
      if j < |r| {
        assert r'[i] == r[i] && r'[j] == r[j];
      } else {
        assert r'[i] == r[i] && r'[j] == last;
      }
    }
  }

  /** Deduplication loses no error: the forwarded entries hold an error exactly when the received ones do. */
  lemma DeduplicatedContainsError(log: seq<Diagnostic>)
    ensures ContainsError(Deduplicated(log)) <==> ContainsError(log)
  {
    var r := Deduplicated(log);
    if ContainsError(log) {
      var i :| 0 <= i < |log| && log[i].severity == Error;
      assert log[i] in r;
      var j :| 0 <= j < |r| && r[j] == log[i];
    }
    if ContainsError(r) {
      var j :| 0 <= j < |r| && r[j].severity == Error;
      assert r[j] in log;
      var i :| 0 <= i < |log| && log[i] == r[j];
    }
  }

  /** Passing the same log through a second deduplicating collector forwards the same entries. */
  lemma DeduplicatedIdempotent(log: seq<Diagnostic>)
    ensures Deduplicated(Deduplicated(log)) == Deduplicated(log)
  {
    DistinctDeduplicated(Deduplicated(log));
  }

  /** A log without repeated entries is forwarded unchanged. */
  lemma {:induction false} DistinctDeduplicated(log: seq<Diagnostic>)
    requires forall i, j :: 0 <= i < j < |log| ==> log[i] != log[j]
    ensures Deduplicated(log) == log
  {
    if log != [] {
      var p := log[..|log| - 1];
      var last := log[|log| - 1];
      assert last !in p && forall i, j :: 0 <= i < j < |p| ==> p[i] != p[j] by {
        assert forall i :: 0 <= i < |p| ==> p[i] == log[i];
      }
      assert Deduplicated(p + [last]) == p + [last] by {
        DistinctDeduplicated(p);
        DeduplicatedSnoc(p, last);
      }
      assert p + [last] == log;
    }
  }

  /** `pairs` holds exactly the (message, path) pairs of the entries of `log` with severity `sev`. */
  ghost predicate Tracks(pairs: set<(string, Option<string>)>, sev: Severity, log: seq<Diagnostic>)
  {
    forall k :: k in pairs <==> Diagnostic(sev, k.0, k.1) in log
  }

  lemma TracksAppendSame(pairs: set<(string, Option<string>)>, sev: Severity, log: seq<Diagnostic>, d: Diagnostic)
    requires Tracks(pairs, sev, log) && d.severity == sev
    ensures Tracks(pairs + {(d.message, d.path)}, sev, log + [d])
  {
    forall k
      ensures k in pairs + {(d.message, d.path)} <==> Diagnostic(sev, k.0, k.1) in log + [d]
    {
      assert Diagnostic(sev, k.0, k.1) in log + [d] <==> Diagnostic(sev, k.0, k.1) in log || Diagnostic(sev, k.0, k.1) == d;
    }
  }

  lemma TracksAppendOther(pairs: set<(string, Option<string>)>, sev: Severity, log: seq<Diagnostic>, d: Diagnostic)
    requires Tracks(pairs, sev, log) && d.severity != sev
    ensures Tracks(pairs, sev, log + [d])
  {
    forall k
      ensures k in pairs <==> Diagnostic(sev, k.0, k.1) in log + [d]
    {
      assert Diagnostic(sev, k.0, k.1) in log + [d] <==> Diagnostic(sev, k.0, k.1) in log || Diagnostic(sev, k.0, k.1) == d;
    }
  }

  class NoOpErrorCollector {
    var hasErrors: bool

    constructor()
      ensures !hasErrors
    {
      hasErrors := false;
    }

    function HasErrors(): bool
      reads this
    {
      hasErrors
    }

    method Error(message: string, path: Option<string>)
      modifies this
      ensures hasErrors
    {
      hasErrors := true;
    }

    /** Changes nothing, so `HasErrors` keeps its value. */
    method Warning(message: string, path: Option<string>)
    {
    }

    /** Changes nothing, so `HasErrors` keeps its value. */
    method Info(message: string, path: Option<string>)
    {
    }
  }

  /**
   * A collector that remembers every (message, path) pair per severity and
   * forwards a report to its inner collector only when the pair is new for
   * that severity. `forwarded` stands for what the inner collector has
   * received; `reported` is the ghost history of everything reported here.
   */
  class DeduplicatingErrorCollector {
    var errors: set<(string, Option<string>)>
    var warnings: set<(string, Option<string>)>
    var infos: set<(string, Option<string>)>
    const hasInner: bool
    var forwarded: seq<Diagnostic>
    ghost var reported: seq<Diagnostic>

    /** The pairs recorded for a severity are those of the reports of that severity. */
    ghost predicate Valid()
      reads this
    {
      Tracks(errors, Severity.Error, reported)
      && Tracks(warnings, Severity.Warning, reported)
      && Tracks(infos, Severity.Info, reported)
      && forwarded == (if hasInner then Deduplicated(reported) else [])
    }

    constructor(hasInner: bool)
      ensures Valid() && this.hasInner == hasInner
      ensures reported == [] && forwarded == []
      ensures !HasErrors()
    {
      errors, warnings, infos := {}, {}, {};
      this.hasInner := hasInner;
      forwarded := [];
      reported := [];
    }

    /** `errors.Count > 0`. */
    function HasErrors(): bool
      reads this
    {
      errors != {}
    }

    /** `HasErrors` says whether any error has been reported here; warnings and infos do not count. */
    lemma HasErrorsReported()
      requires Valid()
      ensures HasErrors() <==> ContainsError(reported)
    {
      if ContainsError(reported) {
        var i :| 0 <= i < |reported| && reported[i].severity == Severity.Error;
        var d := reported[i];
        assert (d.message, d.path) in errors;
      }
      if HasErrors() {
        var k :| k in errors;
        var j :| 0 <= j < |reported| && reported[j] == Diagnostic(Severity.Error, k.0, k.1);
      }
    }

    method Error(message: string, path: Option<string>)
      requires Valid()
      modifies this
      ensures Valid()
      ensures reported == old(reported) + [Diagnostic(Severity.Error, message, path)]
      ensures errors == old(errors) + {(message, path)}
      ensures warnings == old(warnings) && infos == old(infos)
      ensures forwarded == old(forwarded)
        + (if hasInner && (message, path) !in old(errors) then [Diagnostic(Severity.Error, message, path)] else [])
      ensures HasErrors()
    {
      var d := Diagnostic(Severity.Error, message, path);
      var isNew := (message, path) !in errors;
      assert isNew <==> d !in reported;
      DeduplicatedSnoc(reported, d);
      TracksAppendSame(errors, Severity.Error, reported, d);
      TracksAppendOther(warnings, Severity.Warning, reported, d);
      TracksAppendOther(infos, Severity.Info, reported, d);
      errors := errors + {(message, path)};
      assert (message, path) in errors;
      reported := reported + [d];
      if isNew && hasInner {
        forwarded := forwarded + [d];
      }
    }

    method Warning(message: string, path: Option<string>)
      requires Valid()
      modifies this
      ensures Valid()
      ensures reported == old(reported) + [Diagnostic(Severity.Warning, message, path)]
      ensures warnings == old(warnings) + {(message, path)}
      ensures errors == old(errors) && infos == old(infos)
      ensures forwarded == old(forwarded)
        + (if hasInner && (message, path) !in old(warnings) then [Diagnostic(Severity.Warning, message, path)] else [])
      ensures HasErrors() == old(HasErrors())
    {
      var d := Diagnostic(Severity.Warning, message, path);
      var isNew := (message, path) !in warnings;
      assert isNew <==> d !in reported;
      DeduplicatedSnoc(reported, d);
      TracksAppendSame(warnings, Severity.Warning, reported, d);
      TracksAppendOther(errors, Severity.Error, reported, d);
      TracksAppendOther(infos, Severity.Info, reported, d);
      warnings := warnings + {(message, path)};
      reported := reported + [d];
      if isNew && hasInner {
        forwarded := forwarded + [d];
      }
    }

    method Info(message: string, path: Option<string>)
      requires Valid()
      modifies this
      ensures Valid()
      ensures reported == old(reported) + [Diagnostic(Severity.Info, message, path)]
      ensures infos == old(infos) + {(message, path)}
      ensures errors == old(errors) && warnings == old(warnings)
      ensures forwarded == old(forwarded)
        + (if hasInner && (message, path) !in old(infos) then [Diagnostic(Severity.Info, message, path)] else [])
      ensures HasErrors() == old(HasErrors())
    {
      var d := Diagnostic(Severity.Info, message, path);
      var isNew := (message, path) !in infos;
      assert isNew <==> d !in reported;
      DeduplicatedSnoc(reported, d);
      TracksAppendSame(infos, Severity.Info, reported, d);
      TracksAppendOther(errors, Severity.Error, reported, d);
      TracksAppendOther(warnings, Severity.Warning, reported, d);
      infos := infos + {(message, path)};
      reported := reported + [d];
      if isNew && hasInner {
        forwarded := forwarded + [d];
      }
    }
  }
}
