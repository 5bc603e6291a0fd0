/**
 * The npm retriever: asks the npm registry for one package's metadata,
 * resolves the license of the requested version and builds the uniform
 * record. The retriever never fails: a failed request becomes a record that
 * carries the error.
 *
 * The HTTP client (request plus JSON decoding of the body), the decoding of
 * a version entry into `NpmMetadata` and `NpmMetadata::get_licenses` are
 * foreign code; they are the three fields of `Npm`.
 */
module NpmRetriever {
  import opened Wrappers
  import opened Core

  /** A serde_json `Value`; a number is kept as the text it was written with. */
  datatype Json =
    | JNull
    | JBool(b: bool)
    | JNumber(text: string)
    | JString(str: string)
    | JArray(items: seq<Json>)
    | JObject(fields: map<string, Json>)

  /** What the GET request and the decoding of its body give: a JSON document or the error's text. */
  datatype Fetched = Received(metadata: Json) | Failed(message: string)

  /** A version entry of the registry document: its license field and the fields this model does not read. */
  datatype NpmMetadata = NpmMetadata(license: Option<string>, others: map<string, Json>)

  /** The retriever with its foreign collaborators. */
  datatype Npm = Npm(
    client: string -> Fetched,
    decodeVersion: Json -> Option<NpmMetadata>,
    getLicenses: NpmMetadata -> Option<seq<string>>)

  const RegistryBase := "https://registry.npmjs.org/"
  const PackagePageBase := "https://www.npmjs.com/package/"
  const VersionSegment := "/v/"
  const DependencyType := "npm"
  const NoLicenseKey := "NO-LICENSE"
  const NoLicenseError := "No License"
  const NoLicenseHint := "Consider **ignoring** this specific dependency. You can also accept the **NO-LICENSE** key to avoid these issues."

  /** serde_json's `value[key]`: the member when `value` is an object holding `key`, `Null` otherwise. */
  function Member(value: Json, key: string): (r: Json)
    ensures value.JObject? && key in value.fields ==> r == value.fields[key]
    ensures !(value.JObject? && key in value.fields) ==> r == JNull
  {
    if value.JObject? && key in value.fields then value.fields[key] else JNull
  }

  /** The registry document's address: the base followed by the package name, which can be read back. */
  function RegistryUrl(name: string): (url: string)
    ensures |url| == |RegistryBase| + |name|
    ensures url[..|RegistryBase|] == RegistryBase
    ensures url[|RegistryBase|..] == name
  {
    RegistryBase + name
  }

  /** The browsable page of one version: base, name, "/v/", version, each at its place. */
  function PackageUrl(name: string, version: string): (url: string)
    ensures |url| == |PackagePageBase| + |name| + |VersionSegment| + |version|
    ensures url[..|PackagePageBase|] == PackagePageBase
    ensures url[|PackagePageBase|..|PackagePageBase| + |name|] == name
    ensures url[|PackagePageBase| + |name|..|PackagePageBase| + |name| + |VersionSegment|] == VersionSegment
    ensures url[|PackagePageBase| + |name| + |VersionSegment|..] == version
  {
    PackagePageBase + name + VersionSegment + version
  }

  /**
   * The package-level license used when the version entry has none: a string
   * is taken as it is, an object contributes its "type" member when that
   * member is a string, and every other shape gives no license.
   */
  function FallbackLicense(license: Json): (r: Option<string>)
    ensures r.Some? <==> license.JString? || (license.JObject? && Member(license, "type").JString?)
    ensures license.JString? ==> r == Some(license.str)
    ensures license.JObject? && r.Some? ==> r.value == Member(license, "type").str
  {
    match license
    case JString(lic) => Some(lic)
    case JObject(fields) =>
      if "type" in fields && fields["type"].JString? then Some(fields["type"].str) else None
    case _ => None
  }

  /** The version entry after the fallback: its own license wins; only a missing one is filled in. */
  function WithFallbackLicense(md: NpmMetadata, packageLicense: Json): (r: NpmMetadata)
    ensures md.license.Some? ==> r == md
    ensures md.license.None? ==> r.license == FallbackLicense(packageLicense)
    ensures r.others == md.others
  {
    if md.license.None? then md.(license := FallbackLicense(packageLicense)) else md
  }

  /** The version entry the registry document holds for `version`, decoded. */
  function VersionEntry(npm: Npm, metadata: Json, version: string): Option<NpmMetadata>
  {
    npm.decodeVersion(Member(Member(metadata, "versions"), version))
  }

  /**
   * The licenses found in a registry document: none when the version entry
   * does not decode; otherwise those of the entry, whose own license is
   * preferred to the package-level one.
   */
  function VersionLicenses(npm: Npm, metadata: Json, version: string): (r: Option<seq<string>>)
    ensures VersionEntry(npm, metadata, version).None? ==> r.None?
    ensures var entry := VersionEntry(npm, metadata, version);
      entry.Some? && entry.value.license.Some? ==> r == npm.getLicenses(entry.value)
    ensures var entry := VersionEntry(npm, metadata, version);
      entry.Some? && entry.value.license.None? ==>
        r == npm.getLicenses(entry.value.(license := FallbackLicense(Member(metadata, "license"))))
  {
    match VersionEntry(npm, metadata, version)
    case None => None
    case Some(md) => npm.getLicenses(WithFallbackLicense(md, Member(metadata, "license")))
  }

  /** The invariants every record built by this retriever keeps. */
  predicate WellFormed(r: RetrievedDependency)
  {
    && r.url == Some(PackageUrl(r.name, r.version))
    && r.dependencyType == DependencyType
    && !r.validated
    && !r.isIgnored
    && r.licenses.Some?
    && (r.isValid <==> r.error.None?)
    && (r.comment.Some? ==> !r.isValid && r.licenses == Some([NoLicenseKey]))
  }

  /**
   * The record for `dependency`, given the licenses found (if any) and the
   * error of a failed request (if any).
   */
  function BuildRetrievedDependency(dependency: Dependency, licenses: Option<seq<string>>, error: Option<string>)
    : (r: RetrievedDependency)
    ensures r.name == dependency.name && r.version == dependency.version
    ensures r.url == Some(PackageUrl(dependency.name, dependency.version))
    ensures r.dependencyType == DependencyType && !r.validated && !r.isIgnored
    ensures r.isValid <==> licenses.Some? && error.None?
    ensures r.isValid <==> r.error.None?
    ensures r.licenses.Some?
    ensures licenses.Some? ==> r.licenses == licenses
    ensures licenses.None? ==> r.licenses == Some([NoLicenseKey])
    ensures error.Some? ==> r.error == error
    ensures error.None? && licenses.Some? ==> r.error.None?
    ensures error.None? && licenses.None? ==> r.error == Some(NoLicenseError)
    ensures r.comment.Some? <==> licenses.None?
    ensures WellFormed(r)
  {
    var hasLicenses := licenses.Some?;
    RetrievedDependency(
      name := dependency.name,
      version := dependency.version,
      url := Some(PackageUrl(dependency.name, dependency.version)),
      dependencyType := DependencyType,
      validated := false,
      isValid := hasLicenses && error.None?,
      isIgnored := false,
      error := if error.Some? then error else if hasLicenses then None else Some(NoLicenseError),
      licenses := if hasLicenses then licenses else Some([NoLicenseKey]),
      comment := if hasLicenses then None else Some(Comment(NoLicenseHint, true)))
  }

  /**
   * One retrieval: the registry document of `name` is requested, and the
   * record is built from its licenses, or from the request's error.
   */
  function GetDependency(npm: Npm, name: string, version: string): (r: RetrievedDependency)
    ensures r.name == name && r.version == version
    ensures WellFormed(r)
    ensures npm.client(RegistryUrl(name)).Failed? ==>
      && r.error == Some(npm.client(RegistryUrl(name)).message)
      && !r.isValid
      && r.licenses == Some([NoLicenseKey])
      && r.comment.Some?
    ensures npm.client(RegistryUrl(name)).Received? ==>
      var found := VersionLicenses(npm, npm.client(RegistryUrl(name)).metadata, version);
      && (r.isValid <==> found.Some?)
      && (found.Some? ==> r.licenses == found && r.error.None? && r.comment.None?)
      && (found.None? ==> r.error == Some(NoLicenseError) && r.licenses == Some([NoLicenseKey]) && r.comment.Some?)
  {
    var dependency := Dependency(name, version);
    match npm.client(RegistryUrl(name))
    case Received(metadata) => BuildRetrievedDependency(dependency, VersionLicenses(npm, metadata, version), None)
    case Failed(message) => BuildRetrievedDependency(dependency, None, Some(message))
  }

  /**
   * The retriever seen through the collectors' interface, whose answer is a
   * `Result`: it is never an error.
   */
  function AsRetriever(npm: Npm): (retrieve: (string, string) -> Result<RetrievedDependency, string>)
    ensures forall name, version :: retrieve(name, version).Ok?
    ensures forall name, version :: retrieve(name, version).value == GetDependency(npm, name, version)
  {
    (name, version) => Ok(GetDependency(npm, name, version))
  }

  /** Only the document at the package's registry URL matters to the record: the request goes there. */
  lemma OnlyRegistryUrlRequested(npm: Npm, client: string -> Fetched, name: string, version: string)
    requires client(RegistryUrl(name)) == npm.client(RegistryUrl(name))
    ensures GetDependency(npm.(client := client), name, version) == GetDependency(npm, name, version)
  {
  }

  /** The package-level license is not consulted when the version entry has one of its own. */
  lemma VersionLicensePreferred(npm: Npm, metadata: Json, other: Json, version: string)
    requires Member(Member(other, "versions"), version) == Member(Member(metadata, "versions"), version)
    requires VersionEntry(npm, metadata, version).Some?
    requires VersionEntry(npm, metadata, version).value.license.Some?
    ensures VersionLicenses(npm, other, version) == VersionLicenses(npm, metadata, version)
  {
  }

  /**
   * The left-pad example: the registry document has a package-level "MIT"
   * and an empty entry for version 1.3.0; the record lists MIT and is valid.
   */
  lemma LeftPadResolvedFromPackageLicense(npm: Npm)
    requires npm.client(RegistryUrl("left-pad")) ==
      Received(JObject(map["license" := JString("MIT"), "versions" := JObject(map["1.3.0" := JObject(map[])])]))
    requires npm.decodeVersion(JObject(map[])) == Some(NpmMetadata(None, map[]))
    requires npm.getLicenses(NpmMetadata(Some("MIT"), map[])) == Some(["MIT"])
    ensures var r := GetDependency(npm, "left-pad", "1.3.0");
      r.licenses == Some(["MIT"]) && r.isValid && r.error.None? && r.comment.None?
  {
  }
}
