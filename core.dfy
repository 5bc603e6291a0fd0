/**
 * The record types shared by every collector and retriever (the
 * licensebat_core crate). That crate's source is not part of this model;
 * the types are rebuilt from the way the npm collector, the npm retriever
 * and the check command use them.
 */
module Core {
  import opened Wrappers

  /** A (name, version) identity read from a lockfile. */
  datatype Dependency = Dependency(name: string, version: string)

  /** An annotation attached to a record; `removable` marks a hint the user may dismiss. */
  datatype Comment = Comment(text: string, removable: bool)

  /** The uniform record produced for one dependency by a retriever. */
  datatype RetrievedDependency = RetrievedDependency(
    name: string,
    version: string,
    url: Option<string>,
    dependencyType: string,
    validated: bool,
    isValid: bool,
    isIgnored: bool,
    error: Option<string>,
    licenses: Option<seq<string>>,
    comment: Option<Comment>)

  /** The error a collector reports when the lockfile content does not parse. */
  datatype ParseError = ParseError(message: string)
}
