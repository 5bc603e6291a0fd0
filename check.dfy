/**
 * The check command: picks the collector whose lockfile name occurs in the
 * given path, drains the stream that collector returns, validates every
 * record against the .licrc policy and collects the validated records.
 */
module Check {
  import opened Wrappers
  import opened Core
  import opened CollectorCommon
  import NpmCollector
  import NpmRetriever

  /** The message of the panic when no collector applies or the chosen one cannot parse the lockfile. */
  const NoCollectorFound := "No collector found for dependency file"

  /** The prefix of the error reported when the dependency file cannot be read. */
  const DependencyFileErrorPrefix := "Error reading dependency file: "

  /**
   * A registered collector. The npm collector is modelled; the yarn, Rust and
   * Dart collectors are known only by their lockfile name and what they return.
   */
  datatype FileCollector =
    | NpmFile(npm: NpmCollector.Npm)
    | Other(filename: string, getDependencies: string -> Result<seq<Pending>, ParseError>)

  /** The loaded .licrc policy; `validate` is the in-place update it applies to one record. */
  datatype LicRc = LicRc(validate: RetrievedDependency -> RetrievedDependency)

  /** How a run ends: the validated records, an error returned to the caller, or a panic. */
  datatype RunOutcome =
    | Completed(deps: seq<RetrievedDependency>)
    | Failed(error: string)
    | Panicked(message: string)

  function DependencyFilename(c: FileCollector): string
  {
    match c
    case NpmFile(npm) => NpmCollector.GetDependencyFilename(npm)
    case Other(filename, _) => filename
  }

  function GetDependencies(c: FileCollector, content: string): Result<seq<Pending>, ParseError>
  {
    match c
    case NpmFile(npm) => NpmCollector.GetDependencies(npm, content)
    case Other(_, getDependencies) => getDependencies(content)
  }

  /** The collectors in the order they are registered: npm, yarn, Rust, Dart. */
  function RegisteredCollectors(npm: NpmCollector.Npm, yarn: FileCollector, rust: FileCollector, dart: FileCollector)
    : (cs: seq<FileCollector>)
    ensures |cs| == 4
    ensures cs[0].NpmFile? && DependencyFilename(cs[0]) == "package-lock.json"
    ensures forall s :: GetDependencies(cs[0], s) == NpmCollector.GetDependencies(npm, s)
    ensures DependencyFilename(cs[1]) == DependencyFilename(yarn)
    ensures DependencyFilename(cs[2]) == DependencyFilename(rust)
    ensures DependencyFilename(cs[3]) == DependencyFilename(dart)
  {
    [NpmFile(npm), yarn, rust, dart]
  }

  /** `sub` occurs in `s` starting at position `i`. */
  ghost predicate OccursAt(sub: string, s: string, i: nat)
  {
    i + |sub| <= |s| && s[i..i + |sub|] == sub
  }

  ghost predicate IsSubstring(sub: string, s: string)
  {
    exists i: nat :: OccursAt(sub, s, i)
  }

  /** Substring search, as the path test of collector selection performs it. */
  function Contains(s: string, sub: string): bool
    decreases |s|
  {
    if |sub| == 0 then true
    else if |s| < |sub| then false
    else s[..|sub|] == sub || Contains(s[1..], sub)
  }

  /** The search finds `sub` in `s` exactly when it occurs there at some position. */
  lemma {:induction false} ContainsIsSubstring(s: string, sub: string)
    ensures Contains(s, sub) <==> IsSubstring(sub, s)
    decreases |s|
  {
    if |sub| == 0 {
      assert OccursAt(sub, s, 0);
    } else if |s| < |sub| {
    } else if s[..|sub|] == sub {
      assert OccursAt(sub, s, 0);
    } else {
      ContainsIsSubstring(s[1..], sub);
      if IsSubstring(sub, s) {
        var i: nat :| OccursAt(sub, s, i);
        assert i != 0;
        assert s[1..][i - 1..i - 1 + |sub|] == s[i..i + |sub|];
        assert OccursAt(sub, s[1..], i - 1);
      }
      if IsSubstring(sub, s[1..]) {
        var j: nat :| OccursAt(sub, s[1..], j);
        assert s[1..][j..j + |sub|] == s[j + 1..j + 1 + |sub|];
        assert OccursAt(sub, s, j + 1);
      }
    }
  }

  /** The collector applies to `path` when its lockfile name occurs in the path. */
  predicate Matches(c: FileCollector, path: string)
  {
    Contains(path, DependencyFilename(c))
  }

  /** Collector `i` is the first registered one that applies to `path`. */
  predicate IsFirstMatch(cs: seq<FileCollector>, path: string, i: int)
  {
    && 0 <= i < |cs|
    && Matches(cs[i], path)
    && forall j :: 0 <= j < i ==> !Matches(cs[j], path)
  }

  /** The position of the first registered collector that applies to `path`, if any. */
  function FindCollector(cs: seq<FileCollector>, path: string): (r: Option<nat>)
    ensures r.Some? ==> IsFirstMatch(cs, path, r.value)
    ensures r.None? ==> forall i :: 0 <= i < |cs| ==> !Matches(cs[i], path)
  {
    if cs == [] then None
    else if Matches(cs[0], path) then Some(0)
    else match FindCollector(cs[1..], path)
      case None => None
      case Some(i) => Some(i + 1)
  }

  /**
   * The stream to drain: that of the first collector that applies, when it
   * parses the lockfile. Nothing is returned when no collector applies or when
   * the first one that applies fails to parse; later collectors are not tried.
   */
  function SelectStream(cs: seq<FileCollector>, path: string, content: string): (r: Option<seq<Pending>>)
    ensures r.Some? ==> exists i :: IsFirstMatch(cs, path, i) && GetDependencies(cs[i], content) == Ok(r.value)
    ensures (forall i :: 0 <= i < |cs| ==> !Matches(cs[i], path)) ==> r.None?
    ensures forall i :: IsFirstMatch(cs, path, i) ==> (r.Some? <==> GetDependencies(cs[i], content).Ok?)
  {
    match FindCollector(cs, path)
    case None => None
    case Some(i) =>
      match GetDependencies(cs[i], content)
      case Ok(stream) => Some(stream)
      case Err(_) => None
  }

  /** `validated` records followed by what the rest of the stream gives; a panic stays a panic. */
  function Prepend(validated: seq<RetrievedDependency>, rest: RunOutcome): RunOutcome
  {
    match rest
    case Completed(deps) => Completed(validated + deps)
    case _ => rest
  }

  /**
   * Draining a stream: every item is awaited in turn and its record validated
   * and appended; the first item that panics ends the run with its panic.
   */
  function Drain(items: seq<Pending>, validate: RetrievedDependency -> RetrievedDependency): RunOutcome
  {
    if items == [] then Completed([])
    else match items[0]
      case Panics(reason) => Panicked(reason)
      case Resolves(record) => Prepend([validate(record)], Drain(items[1..], validate))
  }

  /**
   * The drain completes exactly when no item panics, and then holds one
   * validated record per item, in stream order.
   */
  lemma {:induction false} DrainCompletes(items: seq<Pending>, validate: RetrievedDependency -> RetrievedDependency)
    ensures Drain(items, validate).Completed? <==> forall i :: 0 <= i < |items| ==> items[i].Resolves?
    ensures Drain(items, validate).Completed? ==>
      var deps := Drain(items, validate).deps;
      && |deps| == |items|
      && forall i :: 0 <= i < |items| ==> deps[i] == validate(items[i].record)
  {
    if items != [] {
      DrainCompletes(items[1..], validate);
      if items[0].Resolves? && Drain(items, validate).Completed? {
        var deps := Drain(items, validate).deps;
        var rest := Drain(items[1..], validate).deps;
        assert deps == [validate(items[0].record)] + rest;
        forall i | 0 <= i < |items|
          ensures deps[i] == validate(items[i].record)
        {
          if i > 0 {
            assert deps[i] == rest[i - 1];
            assert items[1..][i - 1] == items[i];
          }
        }
      }
      if Drain(items, validate).Completed? {
        assert items[0].Resolves?;
        assert forall i :: 1 <= i < |items| ==> items[1..][i - 1] == items[i];
      }
    }
  }

  /** Validating one resolved item moves its record from the drain of the rest to the validated prefix. */
  lemma DrainStep(validated: seq<RetrievedDependency>, record: RetrievedDependency, rest: seq<Pending>,
                  validate: RetrievedDependency -> RetrievedDependency)
    ensures Prepend(validated, Drain([Resolves(record)] + rest, validate))
         == Prepend(validated + [validate(record)], Drain(rest, validate))
  {
  }

  /** A drain that panics does so with the reason of the first item that panics. */
  lemma {:induction false} DrainPanicsAtFirst(
    items: seq<Pending>, validate: RetrievedDependency -> RetrievedDependency, k: nat)
    requires k < |items| && items[k].Panics?
    requires forall i :: 0 <= i < k ==> items[i].Resolves?
    ensures Drain(items, validate) == Panicked(items[k].reason)
  {
    if k > 0 {
      assert forall i :: 0 <= i < k - 1 ==> items[1..][i] == items[i + 1];
      DrainPanicsAtFirst(items[1..], validate, k - 1);
    }
  }

  /**
   * What `run` does, as a value: a .licrc that fails to load and a dependency
   * file that cannot be read are returned as errors; no stream to drain is a
   * panic; otherwise the stream is drained through the policy.
   */
  function RunSpec(cs: seq<FileCollector>, path: string, licrc: Result<LicRc, string>, content: Result<string, string>)
    : RunOutcome
  {
    if licrc.Err? then Failed(licrc.error)
    else if content.Err? then Failed(DependencyFileErrorPrefix + content.error)
    else match SelectStream(cs, path, content.value)
      case None => Panicked(NoCollectorFound)
      case Some(items) => Drain(items, licrc.value.validate)
  }

  /** The stream of pending retrievals; awaiting the next item removes it. */
  class PendingStream {
    var pending: seq<Pending>

    constructor (items: seq<Pending>)
      ensures pending == items
    {
      pending := items;
    }

    method Next() returns (item: Option<Pending>)
      modifies this
      ensures old(pending) == [] ==> item.None? && pending == []
      ensures old(pending) != [] ==> item == Some(old(pending)[0]) && pending == old(pending)[1..]
    {
      if pending == [] {
        item := None;
      } else {
        item := Some(pending[0]);
        pending := pending[1..];
      }
    }
  }

  /**
   * The check command: load the policy and the dependency file, select the
   * stream, then await each item, validate its record and append it.
   */
  method Run(cs: seq<FileCollector>, path: string, licrc: Result<LicRc, string>, content: Result<string, string>)
    returns (outcome: RunOutcome)
    ensures outcome == RunSpec(cs, path, licrc, content)
  {
    if licrc.Err? {
      return Failed(licrc.error);
    }
    if content.Err? {
      return Failed(DependencyFileErrorPrefix + content.error);
    }
    var selected := SelectStream(cs, path, content.value);
    if selected.None? {
      return Panicked(NoCollectorFound);
    }
    var validate := licrc.value.validate;
    var stream := new PendingStream(selected.value);
    var validatedDeps: seq<RetrievedDependency> := [];
    var next := stream.Next();
    while next.Some?
      invariant next.None? ==> stream.pending == []
      invariant Drain(selected.value, validate) ==
        Prepend(validatedDeps, Drain(if next.Some? then [next.value] + stream.pending else [], validate))
      decreases |stream.pending| + (if next.Some? then 1 else 0)
    {
      match next.value
      case Panics(reason) =>
        return Panicked(reason);
      case Resolves(dependency) =>
        DrainStep(validatedDeps, dependency, stream.pending, validate);
        var validated := validate(dependency);
        validatedDeps := validatedDeps + [validated];
      next := stream.Next();
    }
    assert validatedDeps + [] == validatedDeps;
    outcome := Completed(validatedDeps);
  }

  /**
   * A package-lock.json run over the registered collectors: the npm collector
   * is chosen, and when the lockfile parses the run completes with one
   * validated record per lockfile entry, the record the npm retriever built
   * for that entry's name and version.
   */
  lemma NpmLockfileRun(
    retriever: NpmRetriever.Npm,
    parseLockfile: string -> Result<NpmCollector.NpmDependencies, ParseError>,
    yarn: FileCollector, rust: FileCollector, dart: FileCollector,
    path: string, licrc: LicRc, content: string)
    requires Contains(path, "package-lock.json")
    requires parseLockfile(content).Ok?
    ensures var entries := parseLockfile(content).value.dependencies;
      var outcome := RunSpec(RegisteredCollectors(NpmCollector.New(retriever, parseLockfile), yarn, rust, dart),
                             path, Ok(licrc), Ok(content));
      && outcome.Completed?
      && |outcome.deps| == |entries|
      && forall i :: 0 <= i < |entries| ==>
           outcome.deps[i] == licrc.validate(NpmRetriever.GetDependency(retriever, entries[i].0, entries[i].1.version))
  {
    var npm := NpmCollector.New(retriever, parseLockfile);
    var cs := RegisteredCollectors(npm, yarn, rust, dart);
    assert IsFirstMatch(cs, path, 0);
    NpmCollector.NpmStreamResolvesEveryEntry(retriever, parseLockfile, content);
    var items := NpmCollector.GetDependencies(npm, content).value;
    assert SelectStream(cs, path, content) == Some(items);
    DrainCompletes(items, licrc.validate);
  }
}
