/** Hardware property spoofing: CPU cores, memory and touch points come from a
    small table of common machines, and every device API reports unavailable. */
module Hardware {
  import opened Ints

  datatype HardwareProfile = HardwareProfile(
    hardwareConcurrency: u8, deviceMemory: u8, maxTouchPoints: u8)

  /** Common laptop, mid-range desktop, higher-end machine, basic laptop. */
  const PROFILES: seq<HardwareProfile> := [
    HardwareProfile(4, 8, 0),
    HardwareProfile(8, 8, 0),
    HardwareProfile(8, 16, 0),
    HardwareProfile(2, 4, 0)]

  /** The anonymity set the table stays within: no touch screen, 2, 4 or 8 cores
      and 4, 8 or 16 GB of memory. */
  predicate Common(p: HardwareProfile)
  {
    p.maxTouchPoints == 0
    && p.hardwareConcurrency in {2, 4, 8}
    && p.deviceMemory in {4, 8, 16}
  }

  /** Every profile of the table is a common one. */
  lemma ProfilesCommon()
    ensures forall p :: p in PROFILES ==> Common(p)
  {
  }

  /** `HardwareProfile::random`: any profile of the table. */
  method Random() returns (p: HardwareProfile)
    ensures p in PROFILES && Common(p)
  {
    var idx :| 0 <= idx < |PROFILES|;
    p := PROFILES[idx];
  }

  /** `HardwareProfile::default_profile`: the first profile, 4 cores and 8 GB. */
  function DefaultProfile(): (p: HardwareProfile)
    ensures p in PROFILES && Common(p)
    ensures p.hardwareConcurrency == 4 && p.deviceMemory == 8
  {
    PROFILES[0]
  }

  datatype HardwareDefense = HardwareDefense(profile: HardwareProfile)

  /** `HardwareDefense::default_defense`, which `Default::default` also gives. */
  function DefaultDefense(): (d: HardwareDefense)
    ensures d.profile == DefaultProfile()
  {
    HardwareDefense(DefaultProfile())
  }

  function HardwareConcurrency(d: HardwareDefense): u8 { d.profile.hardwareConcurrency }
  function DeviceMemory(d: HardwareDefense): u8 { d.profile.deviceMemory }
  function MaxTouchPoints(d: HardwareDefense): u8 { d.profile.maxTouchPoints }

  datatype HardwareProperties = HardwareProperties(
    hardwareConcurrency: u8, deviceMemory: u8, maxTouchPoints: u8,
    bluetoothAvailable: bool, usbAvailable: bool, nfcAvailable: bool,
    midiAvailable: bool, hidAvailable: bool, serialAvailable: bool,
    batteryAvailable: bool, geolocationAvailable: bool,
    accelerometerAvailable: bool, gyroscopeAvailable: bool,
    magnetometerAvailable: bool, ambientLightAvailable: bool)

  /** None of the twelve device APIs is reported available. */
  predicate NoDeviceApis(p: HardwareProperties)
  {
    !p.bluetoothAvailable && !p.usbAvailable && !p.nfcAvailable
    && !p.midiAvailable && !p.hidAvailable && !p.serialAvailable
    && !p.batteryAvailable && !p.geolocationAvailable
    && !p.accelerometerAvailable && !p.gyroscopeAvailable
    && !p.magnetometerAvailable && !p.ambientLightAvailable
  }

  /** `get_properties`: the profile's three numbers, every device API off. */
  function GetProperties(d: HardwareDefense): (p: HardwareProperties)
    ensures p.hardwareConcurrency == d.profile.hardwareConcurrency
    ensures p.deviceMemory == d.profile.deviceMemory
    ensures p.maxTouchPoints == d.profile.maxTouchPoints
    ensures NoDeviceApis(p)
  {
    HardwareProperties(HardwareConcurrency(d), DeviceMemory(d), MaxTouchPoints(d),
      false, false, false, false, false, false, false, false, false, false, false, false)
  }

  /** A defense over a profile of the table reports a common machine: the
      properties a page sees are those of some row of the table. */
  lemma PropertiesCommon(d: HardwareDefense)
    requires d.profile in PROFILES
    ensures var p := GetProperties(d);
      exists i :: 0 <= i < |PROFILES|
        && PROFILES[i] == HardwareProfile(p.hardwareConcurrency, p.deviceMemory, p.maxTouchPoints)
    ensures var p := GetProperties(d);
      Common(HardwareProfile(p.hardwareConcurrency, p.deviceMemory, p.maxTouchPoints))
  {
    var p := GetProperties(d);
    var i :| 0 <= i < |PROFILES| && PROFILES[i] == d.profile;
    assert PROFILES[i] == HardwareProfile(p.hardwareConcurrency, p.deviceMemory, p.maxTouchPoints);
    ProfilesCommon();
  }

  /** The examples of the source's tests: the default defense has 4 cores, and
      Bluetooth, battery and the four sensors are off. */
  lemma DefaultDefenseExample()
    ensures HardwareConcurrency(DefaultDefense()) == 4
    ensures var p := GetProperties(DefaultDefense());
      !p.bluetoothAvailable && !p.batteryAvailable && !p.accelerometerAvailable
      && !p.gyroscopeAvailable && !p.magnetometerAvailable && !p.ambientLightAvailable
  {
  }
}
