/** The OS registry of osregistry/operating_system.go: the details Packer
    needs for one operating system, looked up by name in a registry keyed
    by lower-case OS names.  JSON decoding is not modelled: the registry
    arrives as the outcome of decoding its outer map, each entry being the
    outcome of decoding that entry. */
module OsRegistry {
  import opened Common
  import opened Text

  /** One registry entry.  `productKey` is read by the render options but
      is not declared by the Go struct; the model carries it. */
  datatype OperatingSystem = OperatingSystem(
    name: string,
    isoChecksum: string,
    isoChecksumType: string,
    isoUrl: string,
    virtualboxGuestOsType: string,
    vmwareGuestOsType: string,
    windowsImageName: string,
    productKey: string)

  /** The decoded registry: a decode error, or a map from OS name to the
      outcome of decoding that OS's entry. */
  type Registry = Result<map<string, Result<OperatingSystem>>>

  /** The error for a name the registry does not have; it carries the name
      as the caller spelled it. */
  function NotFound(osName: string): Error
  {
    Message("Could not find " + osName)
  }

  /** `New`: the entry under the lower-cased name, named by that key. */
  function New(osName: string, registry: Registry): (r: Result<OperatingSystem>)
    ensures r.Success? ==> r.value.name == ToLower(osName) && ToLower(r.value.name) == r.value.name
  {
    ToLowerIdempotent(osName);
    var osKey := ToLower(osName);
    if registry.Failure? then Failure(registry.error)
    else if osKey !in registry.value then Failure(NotFound(osName))
    else
      var entry := registry.value[osKey];
      if entry.Failure? then Failure(entry.error)
      else Success(entry.value.(name := osKey))
  }

  /** The lookup succeeds exactly when the registry decodes, has the
      lower-cased name, and that entry decodes; the result is the entry with
      its name set to the key. */
  lemma NewSucceeds(osName: string, registry: Registry)
    ensures New(osName, registry).Success? <==>
      registry.Success? && ToLower(osName) in registry.value && registry.value[ToLower(osName)].Success?
    ensures New(osName, registry).Success? ==>
      var e := registry.value[ToLower(osName)].value;
      var os := New(osName, registry).value;
      os.isoChecksum == e.isoChecksum && os.isoChecksumType == e.isoChecksumType &&
      os.isoUrl == e.isoUrl && os.virtualboxGuestOsType == e.virtualboxGuestOsType &&
      os.vmwareGuestOsType == e.vmwareGuestOsType && os.windowsImageName == e.windowsImageName &&
      os.productKey == e.productKey
  {
  }

  /** Each decode error is passed on as it is, and a missing name reports
      the name in the caller's spelling. */
  lemma NewFailures(osName: string, registry: Registry)
    ensures registry.Failure? ==> New(osName, registry) == Failure(registry.error)
    ensures registry.Success? && ToLower(osName) !in registry.value ==>
      New(osName, registry) == Failure(NotFound(osName))
    ensures registry.Success? && ToLower(osName) in registry.value && registry.value[ToLower(osName)].Failure? ==>
      New(osName, registry) == Failure(registry.value[ToLower(osName)].error)
  {
  }

  /** Names that differ only in ASCII case find the same entry. */
  lemma NewIgnoresCase(a: string, b: string, registry: Registry)
    requires ToLower(a) == ToLower(b)
    ensures New(a, registry).Success? <==> New(b, registry).Success?
    ensures New(a, registry).Success? ==> New(a, registry) == New(b, registry)
  {
  }

  /** A registry key that is not lower case can never be found. */
  lemma UpperCaseKeyUnreachable(osName: string, registry: Registry, key: string)
    requires ToLower(key) != key
    ensures New(osName, registry).Success? ==> New(osName, registry).value.name != key
  {
  }
}
