/**
 * `RUPNP::ControlPoint` (lib/rupnp/control_point.rb): the client side of discovery. It
 * searches for devices, then listens for their advertisements; each search response and
 * each `ssdp:alive` becomes a remote device to fetch, a fetched device is added to the
 * registry `devices`, and an `ssdp:byebye` removes the devices of its UDN.
 *
 * Channels are append-only sequences: `newDevices` for `@new_device_channel`,
 * `byeDevices` for `@bye_device_channel`. A device handed to `create_device` is recorded
 * by its notification in `created`; its fetch is RemoteDevice's, and its success
 * callback is `AddDevice`. The timer of a search is an entry of `timers` until it fires.
 * `usn2udn`, which no file of the library defines, is a parameter.
 */
module ControlPoint {
  import opened RubyText
  import Ssdp
  import SsdpSearcher
  import CpRemoteDevice
  import GenaEvent

  type RemoteDevice = CpRemoteDevice.RemoteDevice

  /** `DEFAULT_RESPONSE_WAIT_TIME`: the largest MX UPnP 1.1 allows. */
  const DefaultResponseWaitTime: int := 5

  // ---------------------------------------------------------------------------
  // The registry's queries

  /** The index of the first device at or after `i` whose UDN is `udn`. */
  function FindFrom(ds: seq<RemoteDevice>, udn: Option<string>, i: nat): (r: Option<nat>)
    requires i <= |ds|
    reads ds
    ensures r.Some? ==> i <= r.value < |ds| && ds[r.value].udn == udn
    ensures r.Some? ==> forall j :: i <= j < r.value ==> ds[j].udn != udn
    ensures r.None? ==> forall j :: i <= j < |ds| ==> ds[j].udn != udn
    decreases |ds| - i
  {
    if i == |ds| then None
    else if ds[i].udn == udn then Some(i)
    else FindFrom(ds, udn, i + 1)
  }

  /** `@devices.find { |d| d.udn == udn }`, as the index of the device found. */
  function FindIndex(ds: seq<RemoteDevice>, udn: Option<string>): (r: Option<nat>)
    reads ds
    ensures r.Some? ==> r.value < |ds| && ds[r.value].udn == udn
    ensures r.Some? ==> forall j :: 0 <= j < r.value ==> ds[j].udn != udn
    ensures r.None? <==> forall j :: 0 <= j < |ds| ==> ds[j].udn != udn
  {
    FindFrom(ds, udn, 0)
  }

  /** `has_already_device?(dev)`: some device has the UDN or the USN of `dev`. */
  predicate HasAlreadyDevice(ds: seq<RemoteDevice>, dev: RemoteDevice)
    reads ds, dev
  {
    exists i :: 0 <= i < |ds| && (ds[i].udn == dev.udn || ds[i].usn == dev.usn)
  }

  /** `@devices.reject! { |d| d.udn == udn }`: the devices of another UDN, each as many times. */
  function RejectUdn(ds: seq<RemoteDevice>, udn: Option<string>): (r: seq<RemoteDevice>)
    reads ds
    ensures forall x :: x in r ==> x in ds && x.udn != udn
    ensures |r| == |ds| <==> forall i :: 0 <= i < |ds| ==> ds[i].udn != udn
    ensures |r| <= |ds|
  {
    if ds == [] then []
    else
      var tail := RejectUdn(ds[1..], udn);
      assert forall i :: 1 <= i < |ds| ==> ds[i] == ds[1..][i - 1];
      (if ds[0].udn == udn then [] else [ds[0]]) + tail
  }

  /** The devices of another UDN stay, each as many times as it was there. */
  lemma {:induction false} RejectUdnKeepsOthers(ds: seq<RemoteDevice>, udn: Option<string>, x: RemoteDevice)
    requires x in ds && x.udn != udn
    ensures multiset(RejectUdn(ds, udn))[x] == multiset(ds)[x]
  {
    assert ds == [ds[0]] + ds[1..];
    if x in ds[1..] {
      RejectUdnKeepsOthers(ds[1..], udn, x);
    } else {
      assert x !in RejectUdn(ds[1..], udn);
    }
  }

  /** Each UDN names at most one device object of the registry. */
  predicate UdnDetermines(ds: seq<RemoteDevice>)
    reads ds
  {
    forall x, y :: x in ds && y in ds && x.udn == y.udn ==> x == y
  }

  // ---------------------------------------------------------------------------
  // The byebye log line

  /** What the byebye branch logs once the devices are rejected. */
  datatype RemovalLog =
    | NothingRemoved            // `reject!` returned nil: no log line
    | DeviceRemoved(udn: string)  // "<udn> device removed"
    | RaisesNoMethodError       // `rejected.udn` on the Array that `reject!` returned

  /**
   * As written: `reject!` returns the array itself when it removed something, and the
   * log line then calls `udn` on that Array.
   */
  function ByeByeLogAsWritten(ds: seq<RemoteDevice>, udn: string): (l: RemovalLog)
    reads ds
    ensures l == RaisesNoMethodError <==> |RejectUdn(ds, Some(udn))| < |ds|
    ensures l != RaisesNoMethodError ==> l == NothingRemoved
  {
    if exists i :: 0 <= i < |ds| && ds[i].udn == Some(udn) then RaisesNoMethodError else NothingRemoved
  }

  /** Every removal by a byebye raises after the devices are gone. */
  lemma RemovalRaisesAsWritten(ds: seq<RemoteDevice>, d: RemoteDevice, udn: string)
    requires d in ds && d.udn == Some(udn)
    ensures ByeByeLogAsWritten(ds, udn) == RaisesNoMethodError
    ensures d !in RejectUdn(ds, Some(udn))
  {
  }

  /** As intended: the log line names the UDN whose devices were removed. */
  function ByeByeLog(ds: seq<RemoteDevice>, udn: string): (l: RemovalLog)
    reads ds
    ensures l == DeviceRemoved(udn) <==> |RejectUdn(ds, Some(udn))| < |ds|
    ensures l != DeviceRemoved(udn) ==> l == NothingRemoved
  {
    if |RejectUdn(ds, Some(udn))| < |ds| then DeviceRemoved(udn) else NothingRemoved
  }

  // ---------------------------------------------------------------------------
  // The control point

  /** What `add_device` did. */
  datatype AddOutcome =
    | Appended     // a new device: stored and announced
    | Replaced     // a known device with a later expiration: stored in place of the old one
    | Kept         // a known device whose expiration is not later: nothing changes
    | Raised       // known by its USN only: `find_device_by_udn` is nil and `nil.expiration` raises

  /** What the notification subscriber did with one notification. */
  datatype Reaction = Created | ByeBye(udn: string, log: RemovalLog) | UnknownType(nts: Option<string>)

  /** An armed search timer: its delay and whether listening starts when it fires. */
  datatype SearchTimer = SearchTimer(delay: int, listenAfter: bool)

  class ControlPoint {
    const searchTarget: Ssdp.Target
    /** The caller's options hash, shared with the caller. */
    const searchOptions: Ssdp.SearchOptions
    var devices: seq<RemoteDevice>
    var newDevices: seq<RemoteDevice>
    var byeDevices: seq<RemoteDevice>
    var created: seq<CpRemoteDevice.Notification>
    var timers: seq<SearchTimer>
    /** The number of listeners subscribed so far. */
    var listeners: nat
    var eventPort: Option<int>
    /** The port the event server listens on, while there is one. */
    var eventServer: Option<int>
    var hasEventUrlChannel: bool
    /** What was pushed to the `add_event_url` channel: a callback path and its event. */
    var eventUrls: seq<(string, GenaEvent.Event)>

    /** `ControlPoint.new(target, options)`: the wait time is filled into the caller's hash. */
    constructor(target: Ssdp.Target, options: Ssdp.SearchOptions)
      modifies options
      ensures searchTarget == target && searchOptions == options
      ensures options.responseWaitTime ==
        Some(if old(options.responseWaitTime).Some? then old(options.responseWaitTime).value else DefaultResponseWaitTime)
      ensures options.searchTarget == old(options.searchTarget) && options.tryNumber == old(options.tryNumber)
      ensures devices == [] && newDevices == [] && byeDevices == [] && created == [] && timers == []
      ensures listeners == 0 && eventPort.None? && eventServer.None? && !hasEventUrlChannel && eventUrls == []
    {
      searchTarget := target;
      searchOptions := options;
      devices, newDevices, byeDevices, created, timers := [], [], [], [], [];
      listeners := 0;
      eventPort, eventServer, hasEventUrlChannel := None, None, false;
      eventUrls := [];
      new;
      if options.responseWaitTime.None? {
        options.responseWaitTime := Some(DefaultResponseWaitTime);
      }
    }

    /** `find_device_by_udn(udn)`: the first device with that UDN, or nil. */
    function FindDeviceByUdn(udn: Option<string>): (d: Option<RemoteDevice>)
      reads this, devices
      ensures d.Some? ==> d.value in devices && d.value.udn == udn
      ensures d.Some? ==> exists i :: 0 <= i < |devices| && devices[i] == d.value && forall j :: 0 <= j < i ==> devices[j].udn != udn
      ensures d.None? <==> forall j :: 0 <= j < |devices| ==> devices[j].udn != udn
    {
      match FindIndex(devices, udn)
      case Some(i) => Some(devices[i])
      case None => None
    }

    /**
     * `add_device(dev)`: an unknown device is stored and announced once; a known one
     * replaces the first device of its UDN when that one expires earlier, unannounced.
     */
    method AddDevice(dev: RemoteDevice) returns (o: AddOutcome)
      modifies this`devices, this`newDevices
      ensures !HasAlreadyDevice(old(devices), dev) ==>
        o == Appended && devices == old(devices) + [dev] && newDevices == old(newDevices) + [dev]
      ensures HasAlreadyDevice(old(devices), dev) ==> newDevices == old(newDevices)
      ensures HasAlreadyDevice(old(devices), dev) && FindIndex(old(devices), dev.udn).None? ==>
        o == Raised && devices == old(devices)
      ensures HasAlreadyDevice(old(devices), dev) && FindIndex(old(devices), dev.udn).Some? ==>
        var e := old(devices)[FindIndex(old(devices), dev.udn).value];
        if e.expiration < dev.expiration then o == Replaced && devices == ArrayDelete(old(devices), e) + [dev]
        else o == Kept && devices == old(devices)
      ensures o != Raised ==> HasAlreadyDevice(devices, dev)
    {
      if HasAlreadyDevice(devices, dev) {
        var existing := FindDeviceByUdn(dev.udn);
        if existing.None? {
          return Raised;
        }
        var e := existing.value;
        if e.expiration < dev.expiration {
          devices := ArrayDelete(devices, e) + [dev];
          assert devices[|devices| - 1] == dev;
          return Replaced;
        }
        return Kept;
      }
      devices := devices + [dev];
      newDevices := newDevices + [dev];
      assert devices[|devices| - 1] == dev;
      return Appended;
    }

    /**
     * The notification subscriber: `ssdp:alive` creates a device, `ssdp:byebye` removes
     * every device of the UDN `usn2udn` gives for its USN, anything else is only logged.
     * Nothing is ever pushed onto the bye channel.
     */
    method OnNotification(n: CpRemoteDevice.Notification, usn2udn: Option<string> -> string) returns (r: Reaction)
      modifies this`devices, this`created
      ensures HashGet(n, "nts") == Some("ssdp:alive") ==>
        r == Created && created == old(created) + [n] && devices == old(devices)
      ensures HashGet(n, "nts") == Some("ssdp:byebye") ==>
        var udn := usn2udn(HashGet(n, "usn"));
        && r == ByeBye(udn, ByeByeLog(old(devices), udn))
        && devices == RejectUdn(old(devices), Some(udn)) && created == old(created)
      ensures HashGet(n, "nts") != Some("ssdp:alive") && HashGet(n, "nts") != Some("ssdp:byebye") ==>
        r == UnknownType(HashGet(n, "nts")) && devices == old(devices) && created == old(created)
    {
      var nts := HashGet(n, "nts");
      if nts == Some("ssdp:alive") {
        created := created + [n];
        return Created;
      } else if nts == Some("ssdp:byebye") {
        var udn := usn2udn(HashGet(n, "usn"));
        r := ByeBye(udn, ByeByeLog(devices, udn));
        devices := RejectUdn(devices, Some(udn));
      } else {
        r := UnknownType(nts);
      }
    }

    /** A search response: every one creates a device, duplicates included. */
    method OnDiscoveryResponse(n: CpRemoteDevice.Notification)
      modifies this`created
      ensures created == old(created) + [n]
    {
      created := created + [n];
    }

    /**
     * `search_devices_and_listen(target, options)`: search with `options`, and arm a timer
     * of the wait time plus one second, after which listening starts unless the search
     * was a search only.
     */
    method SearchDevicesAndListen(options: Ssdp.SearchOptions, searchOnly: bool, userAgent: string)
      returns (searcher: SsdpSearcher.Searcher)
      requires searchOptions.responseWaitTime.Some?
      modifies options, this`timers
      ensures options.searchTarget == Some(Ssdp.Resolve(searchTarget))
      ensures options.responseWaitTime == old(options.responseWaitTime) && options.tryNumber == old(options.tryNumber)
      ensures searchOptions.responseWaitTime == old(searchOptions.responseWaitTime)
      ensures timers == old(timers) + [SearchTimer(searchOptions.responseWaitTime.value + 1, !searchOnly)]
      ensures fresh(searcher) && searcher.sent == [] && searcher.discoveryResponses == []
    {
      searcher := Ssdp.Search(searchTarget, options, userAgent);
      timers := timers + [SearchTimer(searchOptions.responseWaitTime.value + 1, !searchOnly)];
    }

    /** `start`: search with the caller's own options hash, then listen. */
    method Start(userAgent: string) returns (searcher: SsdpSearcher.Searcher)
      requires searchOptions.responseWaitTime.Some?
      modifies searchOptions, this`timers
      ensures searchOptions.searchTarget == Some(Ssdp.Resolve(searchTarget))
      ensures searchOptions.responseWaitTime == old(searchOptions.responseWaitTime)
      ensures timers == old(timers) + [SearchTimer(searchOptions.responseWaitTime.value + 1, true)]
      ensures fresh(searcher)
    {
      searcher := SearchDevicesAndListen(searchOptions, false, userAgent);
    }

    /**
     * `search_only`: search with a copy of the options hash, so the caller's hash keeps its
     * search target, and never listen.
     */
    method SearchOnly(userAgent: string) returns (searcher: SsdpSearcher.Searcher, copy: Ssdp.SearchOptions)
      requires searchOptions.responseWaitTime.Some?
      modifies this`timers
      ensures fresh(copy) && copy.searchTarget == Some(Ssdp.Resolve(searchTarget))
      ensures copy.responseWaitTime == searchOptions.responseWaitTime && copy.tryNumber == searchOptions.tryNumber
      ensures timers == old(timers) + [SearchTimer(searchOptions.responseWaitTime.value + 1, false)]
      ensures fresh(searcher)
    {
      copy := new Ssdp.SearchOptions(searchOptions.responseWaitTime, searchOptions.tryNumber);
      copy.searchTarget := searchOptions.searchTarget;
      searcher := SearchDevicesAndListen(copy, true, userAgent);
    }

    /** The search timer `i` fires: it is disarmed, and a listener subscribes if it says so. */
    method SearchTimeout(i: nat)
      requires i < |timers|
      modifies this`timers, this`listeners
      ensures timers == old(timers[..i] + timers[i + 1..])
      ensures listeners == old(listeners) + (if old(timers[i]).listenAfter then 1 else 0)
    {
      var t := timers[i];
      timers := timers[..i] + timers[i + 1..];
      if t.listenAfter {
        listeners := listeners + 1;
      }
    }

    /**
     * `start_event_server(port)`: the port and the server are set only when unset, the
     * server on the port given. `port` is `EVENT_SUB_DEFAULT_PORT` when the caller gives
     * none; that constant is not part of this model.
     */
    method StartEventServer(port: int)
      modifies this`eventPort, this`eventServer, this`hasEventUrlChannel
      ensures eventPort == (if old(eventPort).Some? then old(eventPort) else Some(port))
      ensures eventServer == (if old(eventServer).Some? then old(eventServer) else Some(port))
      ensures hasEventUrlChannel
    {
      if eventPort.None? {
        eventPort := Some(port);
      }
      hasEventUrlChannel := true;
      if eventServer.None? {
        eventServer := Some(port);
      }
    }

    /** `add_event_url << [path, event]`: the channel exists once the event server was started. */
    method AddEventUrl(path: string, e: GenaEvent.Event)
      requires hasEventUrlChannel
      modifies this`eventUrls
      ensures eventUrls == old(eventUrls) + [(path, e)]
    {
      eventUrls := eventUrls + [(path, e)];
    }

    /** `stop_event_server` */
    method StopEventServer()
      modifies this`eventPort, this`eventServer
      ensures eventPort.None? && eventServer.None?
    {
      eventPort := None;
      eventServer := None;
    }
  }

  /** `add_device` keeps each UDN naming one device object. */
  lemma AddDeviceKeepsUdnsUnique(ds: seq<RemoteDevice>, dev: RemoteDevice)
    requires UdnDetermines(ds)
    ensures !HasAlreadyDevice(ds, dev) ==> UdnDetermines(ds + [dev])
    ensures FindIndex(ds, dev.udn).Some? ==> UdnDetermines(ArrayDelete(ds, ds[FindIndex(ds, dev.udn).value]) + [dev])
  {
    if !HasAlreadyDevice(ds, dev) {
      forall x | x in ds ensures x.udn != dev.udn {
        var i :| 0 <= i < |ds| && ds[i] == x;
      }
    }
    if FindIndex(ds, dev.udn).Some? {
      var e := ds[FindIndex(ds, dev.udn).value];
      var r := ArrayDelete(ds, e);
      forall x | x in r ensures x in ds && x != e {
        assert multiset(r)[x] == multiset(ds)[x];
      }
    }
  }

  /** After a byebye no device of that UDN is left, and the registry stays unique. */
  lemma ByeByeRemovesUdn(ds: seq<RemoteDevice>, udn: string)
    requires UdnDetermines(ds)
    ensures forall x :: x in RejectUdn(ds, Some(udn)) ==> x.udn != Some(udn)
    ensures UdnDetermines(RejectUdn(ds, Some(udn)))
  {
  }
}
