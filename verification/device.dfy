/**
 * `RUPNP::Device` (lib/rupnp/device.rb): a root device's configuration and its two
 * counters. `start` advertises the device and steps the boot id modulo 2^31;
 * `update_config` steps the configuration id modulo 2^24 and advertises again. Each
 * advertisement is one `SSDP.notify` per target, recorded in `announcements`.
 *
 * The model follows the evident intent of the constructor: each configuration value is
 * read from the caller's hash (the code indexes the `CONFIG` arrays with a Symbol,
 * which raises TypeError), and the default boot id 1 goes to `@boot_id` (the code
 * assigns `@bootid`, a variable nothing reads).
 */
module UpnpDevice {
  import opened RubyText
  import opened Constants
  import Ssdp
  import SsdpNotifier

  const BootIdModulus: int := 0x8000_0000    // 2^31
  const ConfigIdModulus: int := 0x100_0000   // 2^24
  const DefaultRenewAdvertisement: int := 1800

  /**
   * The configuration hash: a required or optional key is None when it is absent.
   * The optional description texts (manufacturer URL, model number, ...) are read by
   * nothing in this part of the library and are not kept.
   */
  datatype DeviceConfig = DeviceConfig(
    deviceType: Option<string>, typeVersion: Option<string>, friendlyName: Option<string>,
    manufacturer: Option<string>, modelName: Option<string>, ip: Option<string>, notifyInterval: Option<int>,
    uuid: Option<string>, renewAdvertisement: Option<int>, bootId: Option<int>, uSearchPort: Option<int>)

  /** `CONFIG[:required].all? { |key| config.has_key? key }` */
  predicate HasRequired(c: DeviceConfig) {
    && c.deviceType.Some? && c.typeVersion.Some? && c.friendlyName.Some?
    && c.manufacturer.Some? && c.modelName.Some? && c.ip.Some? && c.notifyInterval.Some?
  }

  /** One `SSDP.notify(target, subtype, options)` call. */
  datatype Announcement = Announcement(target: Ssdp.Target, subtype: SsdpNotifier.Subtype, options: SsdpNotifier.NotifyOptions)

  /** `schemas-upnp-org:device:<device_type>:<type_version>` */
  function DeviceUrn(deviceType: string, typeVersion: string): (u: string)
    ensures StartsWith(u, "schemas-upnp-org:device:") && EndsWith(u, ":" + typeVersion)
  {
    var u := "schemas-upnp-org:device:" + deviceType + ":" + typeVersion;
    assert u[..24] == "schemas-upnp-org:device:";
    assert u[|u| - |":" + typeVersion|..] == ":" + typeVersion;
    u
  }

  /** The targets of one `notify`: the root, the uuid, the device urn, then each service urn. */
  function NotifyTargets(uuid: string, urn: string, serviceUrns: seq<string>): (ts: seq<Ssdp.Target>)
    ensures |ts| == 3 + |serviceUrns|
    ensures ts[0] == Ssdp.Symbol("root") && ts[1] == Ssdp.Text("uuid:" + uuid) && ts[2] == Ssdp.Text("urn:" + urn)
    ensures forall i :: 0 <= i < |serviceUrns| ==> ts[3 + i] == Ssdp.Text("urn:" + serviceUrns[i])
  {
    [Ssdp.Symbol("root"), Ssdp.Text("uuid:" + uuid), Ssdp.Text("urn:" + urn)]
      + seq(|serviceUrns|, i requires 0 <= i < |serviceUrns| => Ssdp.Text("urn:" + serviceUrns[i]))
  }

  /** The same options for every target of one `notify`. */
  function Announcements(ts: seq<Ssdp.Target>, subtype: SsdpNotifier.Subtype, o: SsdpNotifier.NotifyOptions): (as_: seq<Announcement>)
    ensures |as_| == |ts| && forall i :: 0 <= i < |ts| ==> as_[i] == Announcement(ts[i], subtype, o)
  {
    seq(|ts|, i requires 0 <= i < |ts| => Announcement(ts[i], subtype, o))
  }

  class Device {
    var deviceType: string
    var typeVersion: string
    var friendlyName: string
    var manufacturer: string
    var modelName: string
    var ip: string
    var notifyInterval: int
    var uuid: string
    var renewAdvertisement: int
    var bootId: int
    var uSearchPort: int
    var configId: int
    /** The urn of each service, in the order of `@services`. */
    var services: seq<string>
    /** `@notify_timer`: the period of the armed periodic timer, if any. */
    var notifyTimer: Option<int>
    var announcements: seq<Announcement>

    /** The configuration of a device built from `c`, `generatedUuid` standing for `UUID.generate`. */
    predicate Configured(c: DeviceConfig, generatedUuid: string)
      requires HasRequired(c)
      reads this
    {
      && deviceType == c.deviceType.value && typeVersion == c.typeVersion.value
      && friendlyName == c.friendlyName.value && manufacturer == c.manufacturer.value
      && modelName == c.modelName.value && ip == c.ip.value && notifyInterval == c.notifyInterval.value
      && uuid == OrElse(c.uuid, generatedUuid)
      && renewAdvertisement == OrElse(c.renewAdvertisement, DefaultRenewAdvertisement)
      && bootId == OrElse(c.bootId, 1)
      && uSearchPort == OrElse(c.uSearchPort, DiscoveryPort)
    }

    /** `Device.new(config)` once the required keys are known to be there. */
    constructor(c: DeviceConfig, generatedUuid: string)
      requires HasRequired(c)
      ensures Configured(c, generatedUuid)
      ensures configId == 1 && services == [] && notifyTimer.None? && announcements == []
    {
      configId := 1;
      services := [];
      deviceType := c.deviceType.value;
      typeVersion := c.typeVersion.value;
      friendlyName := c.friendlyName.value;
      manufacturer := c.manufacturer.value;
      modelName := c.modelName.value;
      ip := c.ip.value;
      notifyInterval := c.notifyInterval.value;
      uuid := OrElse(c.uuid, generatedUuid);
      renewAdvertisement := OrElse(c.renewAdvertisement, DefaultRenewAdvertisement);
      bootId := OrElse(c.bootId, 1);
      uSearchPort := OrElse(c.uSearchPort, DiscoveryPort);
      notifyTimer := None;
      announcements := [];
    }

    function Urn(): (u: string)
      reads this
      ensures u == DeviceUrn(deviceType, typeVersion)
    {
      DeviceUrn(deviceType, typeVersion)
    }

    /** The options hash `notify` passes with every target. */
    function NotifyOptions(): (o: SsdpNotifier.NotifyOptions)
      reads this
      ensures o.maxAge == notifyInterval && o.ip == ip && o.uuid == uuid && o.bootId == bootId
      ensures o.configId == configId && o.uSearchPort == uSearchPort && o.tryNumber.None?
    {
      SsdpNotifier.NotifyOptions(notifyInterval, ip, uuid, bootId, configId, uSearchPort, None)
    }

    /** `notify(subtype)`: one announcement per target, all with the current options. */
    method Notify(subtype: SsdpNotifier.Subtype)
      modifies this`announcements
      ensures announcements == old(announcements) + Announcements(NotifyTargets(uuid, Urn(), services), subtype, NotifyOptions())
    {
      var o := NotifyOptions();
      announcements := announcements + [Announcement(Ssdp.Symbol("root"), subtype, o)];
      announcements := announcements + [Announcement(Ssdp.Text("uuid:" + uuid), subtype, o)];
      announcements := announcements + [Announcement(Ssdp.Text("urn:" + Urn()), subtype, o)];
      var i := 0;
      while i < |services|
        invariant 0 <= i <= |services|
        invariant announcements == old(announcements)
          + Announcements(NotifyTargets(uuid, Urn(), services[..i]), subtype, o)
      {
        announcements := announcements + [Announcement(Ssdp.Text("urn:" + services[i]), subtype, o)];
        i := i + 1;
        assert services[..i] == services[..i - 1] + [services[i - 1]];
      }
      assert services[..i] == services;
    }

    /** `start`: advertise alive with the current boot id, then step it and arm the periodic timer. */
    method Start()
      modifies this`announcements, this`bootId, this`notifyTimer
      ensures announcements == old(announcements)
        + Announcements(NotifyTargets(uuid, Urn(), services), SsdpNotifier.Alive, old(NotifyOptions()))
      ensures bootId == (old(bootId) + 1) % BootIdModulus && 0 <= bootId < BootIdModulus
      ensures old(bootId) == BootIdModulus - 1 ==> bootId == 0
      ensures notifyTimer == Some(notifyInterval)
    {
      Notify(SsdpNotifier.Alive);
      bootId := (bootId + 1) % BootIdModulus;
      notifyTimer := Some(notifyInterval);
    }

    /** `stop`: advertise byebye; the servers it stops are not part of this model. */
    method Stop()
      modifies this`announcements
      ensures announcements == old(announcements)
        + Announcements(NotifyTargets(uuid, Urn(), services), SsdpNotifier.ByeBye, NotifyOptions())
    {
      Notify(SsdpNotifier.ByeBye);
    }

    /** `update_config`: step the configuration id, then advertise alive with the new one. */
    method UpdateConfig()
      modifies this`announcements, this`configId
      ensures configId == (old(configId) + 1) % ConfigIdModulus && 0 <= configId < ConfigIdModulus
      ensures old(configId) == ConfigIdModulus - 1 ==> configId == 0
      ensures announcements == old(announcements)
        + Announcements(NotifyTargets(uuid, Urn(), services), SsdpNotifier.Alive, NotifyOptions())
    {
      configId := (configId + 1) % ConfigIdModulus;
      Notify(SsdpNotifier.Alive);
    }
  }

  /** `Device.new(config)`: DeviceInitializationError (None) unless every required key is given. */
  method New(c: DeviceConfig, generatedUuid: string) returns (d: Option<Device>)
    ensures d.None? <==> !HasRequired(c)
    ensures d.Some? ==> fresh(d.value) && d.value.Configured(c, generatedUuid)
    ensures d.Some? ==> d.value.configId == 1 && d.value.services == [] && d.value.announcements == []
  {
    if !HasRequired(c) {
      return None;
    }
    var device := new Device(c, generatedUuid);
    return Some(device);
  }

  /**
   * The update message a device would send after `start` announces the boot id that the
   * alive before it carried: `(boot_id - 1) mod 2^31` undoes the step.
   */
  lemma UpdateAnnouncesPreviousBoot(b: int)
    requires 0 <= b < BootIdModulus
    ensures SsdpNotifier.PreviousBootId((b + 1) % BootIdModulus) == b
  {
  }
}
