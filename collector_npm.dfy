/**
 * The npm collector: recognises package-lock.json, reads the lockfile's
 * `dependencies` object and starts one retrieval per entry.
 */
module NpmCollector {
  import opened Wrappers
  import opened Core
  import opened CollectorCommon
  import NpmRetriever

  /** One entry of the lockfile's `dependencies` object; only its version is read. */
  datatype NpmDependency = NpmDependency(version: string)

  /**
   * The parsed lockfile: the entries of its `dependencies` object, keyed by
   * package name, in the order the parser hands them out.
   */
  datatype NpmDependencies = NpmDependencies(dependencies: seq<(string, NpmDependency)>)

  /**
   * The collector: its retriever, shared with the stream it creates, and the
   * JSON parser that reads lockfile text.
   */
  datatype Npm = Npm(
    retriever: (string, string) -> Result<RetrievedDependency, string>,
    parseLockfile: string -> Result<NpmDependencies, ParseError>)

  /** A collector over the npm retriever: every retrieval it starts resolves to that retriever's record. */
  function New(retriever: NpmRetriever.Npm, parseLockfile: string -> Result<NpmDependencies, ParseError>)
    : (c: Npm)
    ensures forall name, version :: c.retriever(name, version) == Ok(NpmRetriever.GetDependency(retriever, name, version))
    ensures forall content :: c.parseLockfile(content) == parseLockfile(content)
  {
    Npm(NpmRetriever.AsRetriever(retriever), parseLockfile)
  }

  /** The collector's name is the npm ecosystem tag. */
  function GetName(c: Npm): (name: string)
    ensures name == "npm"
  {
    NPM
  }

  /** The lockfile this collector recognises. */
  function GetDependencyFilename(c: Npm): (filename: string)
    ensures filename == "package-lock.json"
  {
    "package-lock.json"
  }

  /** One dependency per lockfile entry: the entry's key is the name, its version the version. */
  function ToDependencies(entries: seq<(string, NpmDependency)>): (deps: seq<Dependency>)
    ensures |deps| == |entries|
    ensures forall i :: 0 <= i < |entries| ==> deps[i] == Dependency(entries[i].0, entries[i].1.version)
  {
    if entries == [] then []
    else [Dependency(entries[0].0, entries[0].1.version)] + ToDependencies(entries[1..])
  }

  /**
   * The stream for a lockfile: a parse error is returned as it is, before any
   * retrieval exists; otherwise one retrieval per entry, with the entry's key
   * and version.
   */
  function GetDependencies(c: Npm, content: string): (r: Result<seq<Pending>, ParseError>)
    ensures c.parseLockfile(content).Err? ==> r == Err(c.parseLockfile(content).error)
    ensures c.parseLockfile(content).Ok? ==>
      var entries := c.parseLockfile(content).value.dependencies;
      && r.Ok?
      && |r.value| == |entries|
      && forall i :: 0 <= i < |entries| ==> r.value[i] == Unwrap(c.retriever(entries[i].0, entries[i].1.version))
  {
    match c.parseLockfile(content)
    case Err(e) => Err(e)
    case Ok(parsed) => Ok(RetrieveFromNpm(ToDependencies(parsed.dependencies), c.retriever))
  }

  /**
   * Over the npm retriever, every item of the stream resolves, and the i-th
   * one to the record for the i-th lockfile entry.
   */
  lemma NpmStreamResolvesEveryEntry(
    retriever: NpmRetriever.Npm, parseLockfile: string -> Result<NpmDependencies, ParseError>, content: string)
    requires parseLockfile(content).Ok?
    ensures var entries := parseLockfile(content).value.dependencies;
      var r := GetDependencies(New(retriever, parseLockfile), content);
      && r.Ok?
      && |r.value| == |entries|
      && forall i :: 0 <= i < |entries| ==>
           r.value[i] == Resolves(NpmRetriever.GetDependency(retriever, entries[i].0, entries[i].1.version))
  {
  }
}
