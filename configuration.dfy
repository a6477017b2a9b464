/** The inductor configuration of configuration/inductor_configuration.go:
    global settings and the operating systems that can be built, each with
    its editions.  JSON decoding is not modelled: what each decoding step
    yields arrives as an input. */
module Configuration {
  import opened Common

  /** A Windows edition, e.g. Enterprise or Home. */
  datatype Edition = Edition(windowsImageName: string, productKey: string)

  datatype OperatingSystem = OperatingSystem(
    name: string,
    isoChecksum: string,
    isoChecksumType: string,
    isoUrl: string,
    virtualboxGuestOsType: string,
    vmwareGuestOsType: string,
    editions: map<string, Edition>)

  datatype InductorConfiguration = InductorConfiguration(
    gui: bool,
    windowsUpdates: bool,
    communicator: string,
    outDir: string,
    operatingSystems: map<string, OperatingSystem>)
  {
    /** `Get`: the entry stored under exactly this name, if any. */
    function Get(osName: string): (r: Option<OperatingSystem>)
      ensures r.Some? <==> osName in operatingSystems
      ensures r.Some? ==> r.value == operatingSystems[osName]
    {
      if osName in operatingSystems then Some(operatingSystems[osName]) else None
    }

    /** `List`: every OS name, each once, in map order, written into a
        slice of the map's length by a running index. */
    method List() returns (names: seq<string>)
      ensures |names| == |operatingSystems|
      ensures forall k :: k in names <==> k in operatingSystems
      ensures forall i, j :: 0 <= i < j < |names| ==> names[i] != names[j]
    {
      var keys := new string[|operatingSystems|];
      var i := 0;
      var left := operatingSystems.Keys;
      while left != {}
        invariant left <= operatingSystems.Keys
        invariant i + |left| == |operatingSystems|
        invariant forall j :: 0 <= j < i ==> keys[j] in operatingSystems && keys[j] !in left
        invariant forall k :: k in operatingSystems && k !in left ==> k in keys[..i]
        invariant forall a, b :: 0 <= a < b < i ==> keys[a] != keys[b]
        decreases left
      {
        var k :| k in left;
        ghost var listed := keys[..i];
        keys[i] := k;
        assert keys[..i + 1] == listed + [k];
        i := i + 1;
        left := left - {k};
      }
      return keys[..];
    }
  }

  /** The settings a "config" block may give; an absent one is `None`. */
  datatype ConfigFields = ConfigFields(
    gui: Option<bool>,
    windowsUpdates: Option<bool>,
    communicator: Option<string>,
    outDir: Option<string>)

  /** What the decoding steps of `New` yield: the outer object, its
      "config" block, and its "operating_systems" object with the outcome
      of decoding each entry. */
  datatype Source = Source(
    top: Outcome,
    config: Result<ConfigFields>,
    operatingSystems: Result<map<string, Result<OperatingSystem>>>)

  /** The configuration before anything is decoded into it. */
  function Defaults(): InductorConfiguration
  {
    InductorConfiguration(false, true, "winrm", "out", map[])
  }

  /** Decoding a "config" block into `c`: the fields it gives replace those
      of `c`, the others stay. */
  function ApplyConfig(c: InductorConfiguration, fields: ConfigFields): InductorConfiguration
  {
    c.(gui := if fields.gui.Some? then fields.gui.value else c.gui,
       windowsUpdates := if fields.windowsUpdates.Some? then fields.windowsUpdates.value else c.windowsUpdates,
       communicator := if fields.communicator.Some? then fields.communicator.value else c.communicator,
       outDir := if fields.outDir.Some? then fields.outDir.value else c.outDir)
  }

  /** Every entry is named by its key. */
  predicate NamesMatchKeys(oss: map<string, OperatingSystem>)
  {
    forall k :: k in oss ==> oss[k].name == k
  }

  /** The defaults: no GUI, Windows updates on, WinRM, output to "out", no
      operating systems; a "config" block that omits a setting leaves its
      default, and one that gives it replaces it. */
  lemma ApplyConfigToDefaults(fields: ConfigFields)
    ensures var c := ApplyConfig(Defaults(), fields);
      c.gui == (fields.gui.Some? && fields.gui.value) &&
      c.windowsUpdates == (fields.windowsUpdates.None? || fields.windowsUpdates.value) &&
      c.communicator == (if fields.communicator.Some? then fields.communicator.value else "winrm") &&
      c.outDir == (if fields.outDir.Some? then fields.outDir.value else "out") &&
      c.operatingSystems == map[]
  {
  }

  /** In a configuration whose entries are named by their keys, `Get`
      finds an entry with the name asked for. */
  lemma GetNameMatches(c: InductorConfiguration, osName: string)
    requires NamesMatchKeys(c.operatingSystems)
    ensures c.Get(osName).Some? ==> c.Get(osName).value.name == osName
  {
  }

  /** `New`: the defaults, the "config" block over them, then each OS entry
      stored under its key with its name set to the key.  The first error,
      in that order and then in map order over the entries, is returned
      instead of a configuration. */
  method New(src: Source) returns (r: Result<InductorConfiguration>)
    ensures src.top.Fail? ==> r == Failure(src.top.error)
    ensures src.top.Pass? && src.config.Failure? ==> r == Failure(src.config.error)
    ensures src.top.Pass? && src.config.Success? && src.operatingSystems.Failure? ==>
      r == Failure(src.operatingSystems.error)
    ensures src.top.Pass? && src.config.Success? && src.operatingSystems.Success? ==>
      var entries := src.operatingSystems.value;
      (r.Failure? <==> exists k :: k in entries && entries[k].Failure?) &&
      (r.Failure? ==> exists k :: k in entries && entries[k] == Failure(r.error))
    ensures r.Success? ==>
      src.top.Pass? && src.config.Success? && src.operatingSystems.Success? &&
      var entries := src.operatingSystems.value;
      var c := ApplyConfig(Defaults(), src.config.value);
      r.value.gui == c.gui && r.value.windowsUpdates == c.windowsUpdates &&
      r.value.communicator == c.communicator && r.value.outDir == c.outDir &&
      r.value.operatingSystems.Keys == entries.Keys &&
      forall k :: k in entries ==> entries[k].Success? && r.value.operatingSystems[k] == entries[k].value.(name := k)
    ensures r.Success? ==> NamesMatchKeys(r.value.operatingSystems)
  {
    var configuration := Defaults();
    if src.top.Fail? {
      return Failure(src.top.error);
    }
    if src.config.Failure? {
      return Failure(src.config.error);
    }
    configuration := ApplyConfig(configuration, src.config.value);
    if src.operatingSystems.Failure? {
      return Failure(src.operatingSystems.error);
    }
    var osObjMap := src.operatingSystems.value;
    var left := osObjMap.Keys;
    while left != {}
      invariant left <= osObjMap.Keys
      invariant configuration.operatingSystems.Keys == osObjMap.Keys - left
      invariant forall k :: k in configuration.operatingSystems ==>
        osObjMap[k].Success? && configuration.operatingSystems[k] == osObjMap[k].value.(name := k)
      invariant configuration.(operatingSystems := map[]) == ApplyConfig(Defaults(), src.config.value)
      decreases left
    {
      var k :| k in left;
      var v := osObjMap[k];
      if v.Failure? {
        return Failure(v.error);
      }
      var os := v.value;
      os := os.(name := k);
      configuration := configuration.(operatingSystems := configuration.operatingSystems[k := os]);
      left := left - {k};
    }
    return Success(configuration);
  }
}
