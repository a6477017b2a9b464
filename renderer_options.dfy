/** The render options of renderer/render_options.go: the values a Packer
    template and an answer file are rendered with, defaulting to the
    Windows 10 trial and overridden from an OS registry entry. */
module RendererOptions {
  import opened Common
  import opened OsRegistry

  type uint8 = x: int | 0 <= x < 0x100
  type uint32 = x: int | 0 <= x < 0x1_0000_0000

  datatype RenderOptions = RenderOptions(
    osName: string,
    productKey: string,
    windowsImageName: string,
    virtualboxGuestOsType: string,
    vmwareGuestOsType: string,
    isoUrl: string,
    isoChecksumType: string,
    isoChecksum: string,
    communicator: string,
    username: string,
    password: string,
    diskSize: uint32,
    ram: uint32,
    cpu: uint8,
    headless: bool,
    windowsUpdates: bool)

  /** The Windows 10 Enterprise evaluation ISO and its SHA-1 checksum. */
  const TrialIsoUrl: string := "http://care.dlservice.microsoft.com/dl/download/C/3/9/C399EEA8-135D-4207-92C9-6AAB3259F6EF/10240.16384.150709-1700.TH1_CLIENTENTERPRISEEVAL_OEMRET_X64FRE_EN-US.ISO"
  const TrialIsoChecksum: string := "56ab095075be28a90bc0b510835280975c6bb2ce"

  /** `NewRenderOptions`: the Windows 10 Enterprise evaluation defaults. */
  function NewRenderOptions(): RenderOptions
  {
    RenderOptions(
      osName := "windows10",
      productKey := "",
      windowsImageName := "Windows 10 Enterprise Evaluation",
      virtualboxGuestOsType := "Windows81_64",
      vmwareGuestOsType := "windows8srv-64",
      isoUrl := TrialIsoUrl,
      isoChecksumType := "sha1",
      isoChecksum := TrialIsoChecksum,
      communicator := "winrm",
      username := "vagrant",
      password := "vagrant",
      diskSize := 61400,
      ram := 2048,
      cpu := 2,
      headless := true,
      windowsUpdates := true)
  }

  /** The fields `NewRenderOptionsWithOverrides` does not assign: the
      connection, the credentials, the machine's sizes and both flags. */
  predicate KeepsMachineSettings(opts: RenderOptions, base: RenderOptions)
  {
    opts.communicator == base.communicator && opts.username == base.username &&
    opts.password == base.password && opts.diskSize == base.diskSize &&
    opts.ram == base.ram && opts.cpu == base.cpu &&
    opts.headless == base.headless && opts.windowsUpdates == base.windowsUpdates
  }

  /** The defaults, field by field; the machine settings are a WinRM
      connection as vagrant/vagrant to a 2-CPU, 2048 MB, 61400 MB-disk
      headless machine that installs Windows updates. */
  lemma NewRenderOptionsDefaults()
    ensures var ro := NewRenderOptions();
      ro.osName == "windows10" && ro.productKey == [] &&
      ro.communicator == "winrm" && ro.username == "vagrant" && ro.password == "vagrant" &&
      ro.diskSize == 61400 && ro.ram == 2048 && ro.cpu == 2 && ro.headless && ro.windowsUpdates
  {
  }

  /** `NewRenderOptionsWithOverrides`: the defaults, then the eight OS
      fields assigned one by one from the registry entry.  It never fails. */
  method NewRenderOptionsWithOverrides(os: OperatingSystem) returns (r: Result<RenderOptions>)
    ensures r.Success?
    ensures r.value.osName == os.name && r.value.isoChecksum == os.isoChecksum
    ensures r.value.isoChecksumType == os.isoChecksumType && r.value.isoUrl == os.isoUrl
    ensures r.value.virtualboxGuestOsType == os.virtualboxGuestOsType
    ensures r.value.vmwareGuestOsType == os.vmwareGuestOsType
    ensures r.value.windowsImageName == os.windowsImageName && r.value.productKey == os.productKey
    ensures KeepsMachineSettings(r.value, NewRenderOptions())
  {
    var opts := NewRenderOptions();
    opts := opts.(osName := os.name);
    opts := opts.(isoChecksum := os.isoChecksum);
    opts := opts.(isoChecksumType := os.isoChecksumType);
    opts := opts.(isoUrl := os.isoUrl);
    opts := opts.(virtualboxGuestOsType := os.virtualboxGuestOsType);
    opts := opts.(vmwareGuestOsType := os.vmwareGuestOsType);
    opts := opts.(windowsImageName := os.windowsImageName);
    opts := opts.(productKey := os.productKey);
    return Success(opts);
  }
}
