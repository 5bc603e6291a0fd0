/**
 * What the JavaScript collectors share: the ecosystem name and the fan-out
 * that starts one retrieval per dependency.
 */
module CollectorCommon {
  import opened Wrappers
  import opened Core

  /** The name the npm collector reports. */
  const NPM := "npm"

  /**
   * One item of the retrieval stream, as it will resolve: the retriever's
   * record, or a panic when the retriever answered with an error (the item
   * unwraps the answer).
   */
  datatype Pending = Resolves(record: RetrievedDependency) | Panics(reason: string)

  /** The stream item for one retriever answer: an `Ok` resolves to its record, an `Err` panics. */
  function Unwrap(answer: Result<RetrievedDependency, string>): (p: Pending)
    ensures p.Resolves? <==> answer.Ok?
    ensures p.Resolves? ==> p.record == answer.value
    ensures p.Panics? ==> p.reason == answer.error
  {
    match answer
    case Ok(record) => Resolves(record)
    case Err(e) => Panics(e)
  }

  /**
   * The stream of retrievals: exactly one retriever call per dependency, in
   * the order given, each with that dependency's name and version.
   */
  function RetrieveFromNpm(deps: seq<Dependency>, retriever: (string, string) -> Result<RetrievedDependency, string>)
    : (stream: seq<Pending>)
    ensures |stream| == |deps|
    ensures forall i :: 0 <= i < |deps| ==> stream[i] == Unwrap(retriever(deps[i].name, deps[i].version))
  {
    if deps == [] then []
    else [Unwrap(retriever(deps[0].name, deps[0].version))] + RetrieveFromNpm(deps[1..], retriever)
  }

  /** With a retriever that never answers `Err`, no item of the stream panics. */
  lemma InfallibleRetrieverNeverPanics(
    deps: seq<Dependency>, retriever: (string, string) -> Result<RetrievedDependency, string>)
    requires forall name, version :: retriever(name, version).Ok?
    ensures forall i :: 0 <= i < |deps| ==> RetrieveFromNpm(deps, retriever)[i].Resolves?
  {
  }
}
