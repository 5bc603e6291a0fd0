# licensebat: the npm collection and validation pipeline, in Dafny

licensebat checks the third-party dependencies in a lockfile against a license policy
(the `.licrc` file). This project models the npm part of that pipeline, from the lockfile
to the validated list:

- **Collector selection** (`Check`). The check command registers the npm, yarn, Rust and
  Dart collectors in that order. It picks the first one whose lockfile name occurs in the
  path it was given. If no collector applies, or the chosen collector cannot parse the
  lockfile, the command panics with "No collector found for dependency file".
- **The npm collector** (`NpmCollector`). It recognises `package-lock.json` and reads the
  lockfile's `dependencies` object. It turns each entry into one dependency: the entry's
  key is the name and the entry's `version` is the version. A parse error is returned
  before any retrieval starts.
- **Fan-out** (`CollectorCommon.RetrieveFromNpm`). It makes exactly one retriever call per
  dependency and passes the name and version through unchanged. Each stream item unwraps
  the retriever's answer, so an `Err` answer would panic.
- **The npm retriever** (`NpmRetriever`). It requests `https://registry.npmjs.org/<name>`.
  It takes the license of the requested version if that version has one. Otherwise it
  falls back to the package-level `license`: a string as it is, or an object's string
  `"type"` member. It then builds the uniform record:
  - the page URL `https://www.npmjs.com/package/<name>/v/<version>`;
  - type `npm`;
  - `is_valid` exactly when licenses were found and the request did not fail;
  - a `NO-LICENSE` sentinel list and a removable hint whenever no licenses were found;
  - the request's error text, or `No License`.
- **The drain loop** (`Check.Run`). It awaits each stream item, validates the record
  against the policy, and appends it to the result.

Pure code is written as datatypes and functions. The stream, which `run` drains by calling
`next()` repeatedly, is a class (`Check.PendingStream`). The drain loop is a `while` loop in
`Check.Run`, proved equal to the specification function `Check.RunSpec`. What `run` promises
is proved about `Check.Drain` and `Check.RunSpec`.

Foreign code enters as function-typed fields and parameters:
- the HTTP client, which includes decoding the response body, is `NpmRetriever.Npm.client`.
  It maps a URL to a JSON document or to the error's text. The document is a full JSON value
  (`NpmRetriever.Json`): null, booleans, numbers (as their text), strings, arrays and objects;
- serde's decoding of a version entry is `decodeVersion`. It receives the whole version
  entry as a JSON value;
- `NpmMetadata::get_licenses` is `getLicenses`;
- the lockfile parser is `NpmCollector.Npm.parseLockfile`;
- `LicRc::validate` is `Check.LicRc.validate`. It is the new value of the record it updates
  in place.

The npm collector is generic over the npm retriever's own trait, whose future yields a bare
record (licensebat-js/src/retriever/npm.rs:15 and :87). `retrieve_from_npm` instead takes
the shared core retriever trait and unwraps a `Result` (licensebat-js/src/collector/common.rs:18).
The code that connects the two traits is not part of this model. The model connects them
with `NpmRetriever.AsRetriever`, which answers `Ok` with the record every time.

Reading the `.licrc` file and reading the dependency file are inputs of `Check.Run`, given
as `Result` values.

Three behaviours of the code are worth stating plainly:
- A failed registry request still produces `licenses = Some(["NO-LICENSE"])` and the
  removable comment, next to the error text. The licenses are not left absent.
- `run` does not return distinct errors for "no collector" and "parse failure". Both
  panic with the same message through `expect`. After a parse failure, later collectors
  are not tried.
- A found but empty license list (`Some([])`) makes the record valid. The code tests only
  for presence.

The record types of the licensebat_core crate (`Dependency`, `RetrievedDependency`,
`Comment`) are rebuilt in `Core` from the way the modelled files use them. That crate's
source is not part of this model.

## Model

| member | source | states |
|---|---|---|
| `NpmRetriever.Member` | licensebat-js/src/retriever/npm.rs:63-65 | Indexing a JSON value by a key gives the member when the value is an object holding that key, and `Null` in every other case |
| `NpmRetriever.RegistryUrl` | licensebat-js/src/retriever/npm.rs:48 | The request URL is the registry base `https://registry.npmjs.org/` followed by the package name, which can be read back from it |
| `NpmRetriever.PackageUrl` | licensebat-js/src/retriever/npm.rs:97-100 | The record URL is `https://www.npmjs.com/package/`, the name, `/v/` and the version, each at its position |
| `NpmRetriever.FallbackLicense` | licensebat-js/src/retriever/npm.rs:71-78 | The package-level license yields a license exactly when it is a string or an object whose `"type"` member is a string. A string yields itself, an object yields its `"type"` text, and any other shape yields none |
| `NpmRetriever.WithFallbackLicense` | licensebat-js/src/retriever/npm.rs:68-79 | A version entry that has a license is left unchanged. Only a missing license is replaced, by the package-level fallback. The other fields are kept |
| `NpmRetriever.VersionLicenses` | licensebat-js/src/retriever/npm.rs:61-82 | An entry that does not decode gives no licenses. A decoded entry with its own license gives `get_licenses` of that entry. An entry without one gives `get_licenses` of the entry with the package-level fallback filled in |
| `NpmRetriever.VersionLicensePreferred` | licensebat-js/src/retriever/npm.rs:65-79 | When the version entry has its own license, the package-level `license` of the document does not affect the licenses found |
| `NpmRetriever.BuildRetrievedDependency` | licensebat-js/src/retriever/npm.rs:92-130 | Name and version are copied, and the URL, type `npm`, `validated = false` and `is_ignored = false` are fixed. `is_valid` holds iff licenses are given and there is no error, which is also iff the output error is absent. Licenses are always present: the given list, or exactly `["NO-LICENSE"]`. The error is the given error, else absent when licenses are given, else `No License`. The comment is present iff no licenses are given |
| `NpmRetriever.GetDependency` | licensebat-js/src/retriever/npm.rs:47-89 | The record has the requested name and version and keeps the record invariants. A failed request gives its error text, `is_valid = false`, the `NO-LICENSE` list and a comment. A received document gives a valid record iff licenses were found. When they were, the record carries them and has no error. When they were not, the error is `No License` and the comment is present |
| `NpmRetriever.AsRetriever` | licensebat-js/src/retriever/npm.rs:83-88 | The retriever's answer is always `Ok`, and its value is the record `GetDependency` builds |
| `NpmRetriever.OnlyRegistryUrlRequested` | licensebat-js/src/retriever/npm.rs:48-60 | The record depends on the client only through its answer for the package's registry URL |
| `NpmRetriever.LeftPadResolvedFromPackageLicense` | licensebat-js/src/retriever/npm.rs:61-85 | The registry document `{"license": "MIT", "versions": {"1.3.0": {}}}` yields a valid left-pad 1.3.0 record listing `MIT`, with no error and no comment |
| `CollectorCommon.Unwrap` | licensebat-js/src/collector/common.rs:18 | A stream item resolves iff the retriever answered `Ok`, and then to the answer's record. An `Err` answer panics with its error |
| `CollectorCommon.RetrieveFromNpm` | licensebat-js/src/collector/common.rs:9-22 | One stream item per dependency, in input order. Item i is the unwrapped answer of the retriever called with dependency i's name and version |
| `CollectorCommon.InfallibleRetrieverNeverPanics` | licensebat-js/src/collector/common.rs:14-21 | With a retriever that never answers `Err`, no stream item panics |
| `NpmCollector.New` | licensebat-js/src/collector/npm.rs:27-33 | A collector built over the npm retriever answers every retrieval with `Ok` of that retriever's record, and parses with the given parser |
| `NpmCollector.GetName` | licensebat-js/src/collector/npm.rs:35-39 | The collector's name is `npm` |
| `NpmCollector.GetDependencyFilename` | licensebat-js/src/collector/npm.rs:41-44 | The recognised lockfile name is always `package-lock.json` |
| `NpmCollector.ToDependencies` | licensebat-js/src/collector/npm.rs:49-55 | One dependency per lockfile entry, in the same order: the entry's key is the name and the entry's version is the version |
| `NpmCollector.GetDependencies` | licensebat-js/src/collector/npm.rs:46-58 | A parse failure is returned unchanged, and no stream is created. Otherwise the stream has one item per lockfile entry, and item i is the unwrapped retriever answer for entry i's key and version |
| `NpmCollector.NpmStreamResolvesEveryEntry` | licensebat-js/src/collector/npm.rs:47-57 | Over the npm retriever, a lockfile that parses gives a stream with one item per entry. Item i resolves to the npm record for entry i |
| `Check.RegisteredCollectors` | licensebat-cli/src/check.rs:46-51 | Four collectors in the order npm, yarn, Rust, Dart. The first is the npm collector, recognising `package-lock.json` |
| `Check.ContainsIsSubstring` | licensebat-cli/src/check.rs:56 | The path test succeeds exactly when the lockfile name occurs in the path at some position. The empty name occurs everywhere |
| `Check.FindCollector` | licensebat-cli/src/check.rs:54-56 | The found collector is the first registered one whose lockfile name occurs in the path. Nothing is found only when no collector's name occurs in it |
| `Check.SelectStream` | licensebat-cli/src/check.rs:54-58 | A selected stream comes from the first collector that applies and is what that collector's parse returned. No collector applying means no stream. When the first applicable collector fails to parse, there is no stream, and later collectors are not tried |
| `Check.DrainCompletes` | licensebat-cli/src/check.rs:62-67 | Draining completes iff no item panics. It then holds exactly one validated record per item, in stream order |
| `Check.DrainPanicsAtFirst` | licensebat-cli/src/check.rs:63-65 | A drain whose first panicking item is at position k ends with that item's panic |
| `Check.PendingStream.constructor` | licensebat-js/src/collector/common.rs:14-21 | A new stream holds the given pending items |
| `Check.PendingStream.Next` | licensebat-cli/src/check.rs:63 | Awaiting the next item of an empty stream gives nothing. Otherwise it gives the first pending item and removes it |
| `Check.Run` | licensebat-cli/src/check.rs:19-71 | The loop's result equals `RunSpec`: a policy load error or an unreadable dependency file is returned as an error, and no stream to drain is a panic with "No collector found for dependency file". Otherwise the result is the drain of the selected stream through `validate`. With `DrainCompletes`, every drained record is validated once and appended in arrival order |
| `Check.NpmLockfileRun` | licensebat-cli/src/check.rs:39-67 | For a `package-lock.json` path whose lockfile parses, the run completes with one record per lockfile entry. Record i is the policy applied to the npm retriever's record for entry i |

## Left out

- HTTP through reqwest and the decoding of the response body are the `client` parameter: a URL maps to a JSON document or to the error's text. A timeout or a retry policy is not modelled.
- serde_json parsing of the lockfile and of a version entry, the `NpmDependencies` schema and `NpmMetadata::get_licenses` are foreign code. They are uninterpreted functions in the model.
- The lockfile's `dependencies` object is a hash map in the source, so its iteration order is unspecified. The model takes the entries in the order the parser hands them out.
- Completion order of the concurrent retrievals is not modelled. `Check.PendingStream` yields items in lockfile order, so "arrival order" in the model is that order.
- Futures, `BoxFuture`, the stream type and cancellation are not modelled. A retrieval is represented by its eventual result (`CollectorCommon.Pending`).
- `Npm::default` and `Npm::new` of the retriever only wrap a `reqwest::Client`. The client is the `client` field itself, so they are not modelled separately.
- `get_dependencies` takes `&self`, and the retriever is shared through `Arc`. In a model of immutable values the collector is unchanged by construction, so no contract states it.
- `LicRc::from_relative_path` and the reading of the dependency file are I/O. Their outcomes are `Result` inputs of `Check.Run`.
- `LicRc::validate` is not part of this model. It is an abstract function from a record to its updated value, so policy semantics (allow/deny/ignore, `validated = true`) are not modelled.
- The askalono store and the embedded license cache are not modelled: they form an opaque license matcher used only by other collectors.
- The yarn, Rust and Dart collectors are not part of this model. Each is known only by its lockfile name and its `get_dependencies` result.
- `tracing` instrumentation is left out, because it has no effect on results.
- `reqwest::Error` is represented by its `to_string()` text.
