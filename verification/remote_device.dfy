/**
 * `RUPNP::CP::RemoteDevice` (lib/rupnp/cp/remote_device.rb): a device the control point
 * learnt of from an SSDP notification or search response. `fetch` checks the
 * notification's boot id, copies its headers, computes when the advertisement expires
 * and asks for the device description; when the description arrives it is validated and
 * the URL base and the device information are taken from it.
 *
 * The description is the nested hash an XML parser makes of it (`Description`). Getting
 * it over HTTP, the services and icons it lists and the methods defined for them are not
 * part of this model. Time is integer seconds: `now` stands for `Time.now` and
 * `parseDate` for `Time.parse`.
 */
module CpRemoteDevice {
  import opened RubyText

  /** Seconds an advertisement stays valid when it does not say (`DEFAULT_MAX_AGE`). */
  const DefaultMaxAge: int := 600
  const DeviceXmlns := "urn:schemas-upnp-org:device-1-0"
  const MaxAgeName := "max-age"
  const UuidTag := "uuid:"

  /** A header map as the SSDP codecs build it: downcased names to stripped values. */
  type Notification = map<string, string>

  // ---------------------------------------------------------------------------
  // Header checks of `fetch` and `update`

  /** The boot id `fetch` takes: NEXTBOOTID.UPNP.ORG when present, else BOOTID.UPNP.ORG. */
  function FetchBootId(n: Notification): (b: Option<int>)
    ensures b.None? <==> "nextbootid.upnp.org" !in n && "bootid.upnp.org" !in n
    ensures "nextbootid.upnp.org" in n ==> b == Some(ToI(n["nextbootid.upnp.org"]))
    ensures "nextbootid.upnp.org" !in n && "bootid.upnp.org" in n ==> b == Some(ToI(n["bootid.upnp.org"]))
  {
    match HashGet(n, "nextbootid.upnp.org")
    case Some(v) => Some(ToI(v))
    case None =>
      match HashGet(n, "bootid.upnp.org")
      case Some(v) => Some(ToI(v))
      case None => None
  }

  /** The config id `fetch` takes, from the key spelt `confgid.upnp.org`. */
  function FetchConfigId(n: Notification): (c: Option<int>)
    ensures c.Some? <==> "confgid.upnp.org" in n
    ensures c.Some? ==> c.value == ToI(n["confgid.upnp.org"])
  {
    match HashGet(n, "confgid.upnp.org")
    case Some(v) => Some(ToI(v))
    case None => None
  }

  /**
   * A notification whose boot id is under BOOTID.UPNP.ORG but whose config id is under
   * the correctly spelt CONFIGID.UPNP.ORG passes the boot-id check yet gets no config id.
   */
  lemma ConfigIdSpelling(n: Notification)
    requires "bootid.upnp.org" in n && "configid.upnp.org" in n && "confgid.upnp.org" !in n
    ensures FetchBootId(n).Some? && FetchConfigId(n).None?
  {
  }

  // ---------------------------------------------------------------------------
  // update_expiration

  /** The match of `max-age\s*=\s*(\d+)` that starts at `p`, as its captured digits. */
  function MaxAgeAt(s: string, p: nat): (d: Option<string>)
    requires p <= |s|
    ensures d.Some? ==> d.value != [] && forall i :: 0 <= i < |d.value| ==> IsDigit(d.value[i])
  {
    if p + |MaxAgeName| <= |s| && s[p..p + |MaxAgeName|] == MaxAgeName then
      var e := RunEnd(s, p + |MaxAgeName|, Space);
      if e < |s| && s[e] == '=' then
        var b := RunEnd(s, e + 1, Space);
        var c := RunEnd(s, b, Digit);
        if b < c then
          var d := s[b..c];
          assert forall i :: 0 <= i < |d| ==> d[i] == s[b + i];
          Some(d)
        else None
      else None
    else None
  }

  /** The leftmost match at or after `p`. */
  function MaxAgeFrom(s: string, p: nat): (d: Option<string>)
    requires p <= |s|
    ensures d.Some? ==> d.value != [] && forall i :: 0 <= i < |d.value| ==> IsDigit(d.value[i])
    decreases |s| - p
  {
    match MaxAgeAt(s, p)
    case Some(d) => Some(d)
    case None => if p < |s| then MaxAgeFrom(s, p + 1) else None
  }

  /**
   * `cache_control.match(/max-age\s*=\s*(\d+)/)[1].to_i`: the value of the first
   * `max-age` directive; None is the NoMethodError raised when there is none.
   */
  function MaxAge(cacheControl: string): (r: Option<nat>) {
    match MaxAgeFrom(cacheControl, 0)
    case Some(d) => Some(DigitsValue(d))
    case None => None
  }

  /** The CACHE-CONTROL a notifier writes, `max-age = <n>`, is read back as `n`. */
  lemma MaxAgeOfNotifierHeader(n: int)
    requires n >= 0
    ensures MaxAge("max-age = " + IntToS(n)) == Some(n)
  {
    var digits := NatToDigits(n);
    var s := "max-age = " + digits;
    assert s[..7] == MaxAgeName;
    assert s[7] == ' ' && s[8] == '=' && s[9] == ' ';
    RunEndIs(s, 7, 8, Space);
    RunEndIs(s, 9, 10, Space);
    assert forall t :: 10 <= t < |s| ==> s[t] == digits[t - 10];
    RunEndIs(s, 10, |s|, Digit);
    assert s[10..|s|] == digits;
  }

  /** An empty CACHE-CONTROL has no directive: an alive notification without one raises. */
  lemma NoMaxAgeInEmpty()
    ensures MaxAge("") == None
  {
  }

  /** `@date`: the DATE value, or "" without one. */
  function DateOf(n: Notification): string {
    OrEmpty(HashGet(n, "date"))
  }

  /** `@cache_control`: the CACHE-CONTROL value, or "" without one. */
  function CacheControlOf(n: Notification): string {
    OrEmpty(HashGet(n, "cache-control"))
  }

  /** The instant the validity is counted from: the date, or now when the date is empty. */
  function Issued(n: Notification, now: int, parseDate: string -> int): (t: int)
    ensures DateOf(n) == "" ==> t == now
    ensures DateOf(n) != "" ==> t == parseDate(DateOf(n))
  {
    if DateOf(n) == "" then now else parseDate(DateOf(n))
  }

  /**
   * `update_expiration`: the issue instant plus the max-age, read from CACHE-CONTROL for
   * an `ssdp:alive` and 600 seconds for anything else. None is the NoMethodError of an
   * alive notification with no `max-age` directive.
   */
  function Expiration(n: Notification, now: int, parseDate: string -> int): (r: Option<int>)
    ensures HashGet(n, "nts") != Some("ssdp:alive") ==> r == Some(Issued(n, now, parseDate) + DefaultMaxAge)
    ensures HashGet(n, "nts") == Some("ssdp:alive") ==> (r.None? <==> MaxAge(CacheControlOf(n)).None?)
    ensures r.Some? ==> r.value >= Issued(n, now, parseDate)
  {
    if HashGet(n, "nts") == Some("ssdp:alive") then
      match MaxAge(CacheControlOf(n))
      case Some(m) => Some(Issued(n, now, parseDate) + m)
      case None => None
    else Some(Issued(n, now, parseDate) + DefaultMaxAge)
  }

  /**
   * An alive notification that carries the CACHE-CONTROL and DATE a device writes expires
   * exactly its max-age after its date, whatever the time of reception.
   */
  lemma AliveExpiresAfterMaxAge(n: Notification, maxAge: int, now: int, parseDate: string -> int)
    requires maxAge >= 0
    requires HashGet(n, "nts") == Some("ssdp:alive") && HashGet(n, "cache-control") == Some("max-age = " + IntToS(maxAge))
    requires DateOf(n) != ""
    ensures Expiration(n, now, parseDate) == Some(parseDate(DateOf(n)) + maxAge)
  {
    MaxAgeOfNotifierHeader(maxAge);
  }

  // ---------------------------------------------------------------------------
  // bad_description?, extract_url_base, extract_device_info

  datatype SpecVersion = SpecVersion(major: Option<string>, minor: Option<string>)

  /** The `root` element of a device description; the device element is a hash of texts. */
  datatype Root = Root(xmlns: Option<string>, specVersion: Option<SpecVersion>, urlBase: Option<string>,
                       device: Option<map<string, string>>)

  datatype Description = Description(root: Option<Root>)

  /** `spec_version[:major].to_i == 1` */
  predicate MajorIsOne(v: SpecVersion) {
    NilToI(v.major) == 1
  }

  /** What `bad_description?` accepts: root, device namespace, major version 1 and a device. */
  predicate Acceptable(d: Description) {
    && d.root.Some?
    && d.root.value.xmlns == Some(DeviceXmlns)
    && d.root.value.specVersion.Some?
    && MajorIsOne(d.root.value.specVersion.value)
    && d.root.value.specVersion.value.minor.Some?
    && d.root.value.device.Some?
  }

  /** The `major.minor` text `bad_description?` builds once the major version is checked. */
  function VersionText(v: SpecVersion): (t: string)
    requires v.major.Some? && v.minor.Some?
    ensures StartsWith(t, v.major.value) && EndsWith(t, v.minor.value)
    ensures |t| == |v.major.value| + 1 + |v.minor.value| && t[|v.major.value|] == '.'
  {
    var t := v.major.value + "." + v.minor.value;
    assert t[..|v.major.value|] == v.major.value;
    assert t[|t| - |v.minor.value|..] == v.minor.value;
    t
  }

  /**
   * The leftmost start of `[^\/]*\z` at or after `p`: the position just after the last
   * '/', or `p` when there is none from `p` on.
   */
  function SlashFreeFrom(s: string, p: nat): (q: nat)
    requires p <= |s|
    ensures p <= q <= |s|
    ensures forall i :: q <= i < |s| ==> s[i] != '/'
    ensures q == p || s[q - 1] == '/'
    decreases |s| - p
  {
    if forall i :: p <= i < |s| ==> s[i] != '/' then p
    else
      var q := SlashFreeFrom(s, p + 1);
      assert q == p + 1 ==> s[p] == '/';
      q
  }

  /** `location.match(/[^\/]*\z/).pre_match`: the location up to and including its last '/'. */
  function LocationDir(location: string): (dir: string)
    ensures StartsWith(location, dir)
    ensures dir == [] || dir[|dir| - 1] == '/'
    ensures forall i :: |dir| <= i < |location| ==> location[i] != '/'
  {
    location[..SlashFreeFrom(location, 0)]
  }

  /** The directory of `dir + file` is `dir` when `dir` ends in '/' and `file` has none. */
  lemma LocationDirOf(dir: string, file: string)
    requires dir != [] && dir[|dir| - 1] == '/'
    requires forall i :: 0 <= i < |file| ==> file[i] != '/'
    ensures LocationDir(dir + file) == dir
  {
    var s := dir + file;
    var q := SlashFreeFrom(s, 0);
    assert s[|dir| - 1] == '/';
    assert forall i :: |dir| <= i < |s| ==> s[i] != '/' by {
      forall i | |dir| <= i < |s| ensures s[i] != '/' { assert s[i] == file[i - |dir|]; }
    }
    assert q == |dir|;
    assert s[..|dir|] == dir;
  }

  /**
   * `extract_url_base`: the description's URLBase, with a '/' ensured at its end, unless
   * the device speaks UPnP 1.1 (which has no URLBase); otherwise the directory of the
   * location.
   */
  function UrlBase(root: Root, upnpVersion: string, location: string): (u: string)
    ensures root.urlBase.Some? && upnpVersion != "1.1" ==>
      u == (if EndsWith(root.urlBase.value, "/") then root.urlBase.value else root.urlBase.value + "/")
    ensures root.urlBase.Some? && upnpVersion != "1.1" ==> u != [] && u[|u| - 1] == '/'
    ensures !(root.urlBase.Some? && upnpVersion != "1.1") ==> u == LocationDir(location)
    ensures u == [] || u[|u| - 1] == '/'
  {
    if root.urlBase.Some? && upnpVersion != "1.1" then
      var b := root.urlBase.value;
      var u := if EndsWith(b, "/") then b else b + "/";
      u
    else LocationDir(location)
  }

  /**
   * A URLBase `b` without a final '/' gives the same base as `b/`: the slash is added
   * once and never doubled. A UPnP 1.1 device, or one without URLBase, at `dir + file` gets `dir`.
   */
  lemma UrlBaseSlashInsensitive(root: Root, b: string, upnpVersion: string, location: string,
                                dir: string, file: string)
    requires upnpVersion != "1.1"
    requires dir != [] && dir[|dir| - 1] == '/'
    requires forall i :: 0 <= i < |file| ==> file[i] != '/'
    ensures !EndsWith(b, "/") ==>
      UrlBase(root.(urlBase := Some(b)), upnpVersion, location)
      == UrlBase(root.(urlBase := Some(b + "/")), upnpVersion, location)
    ensures UrlBase(root.(urlBase := None), upnpVersion, dir + file) == dir
    ensures UrlBase(root, "1.1", dir + file) == dir
  {
    var b' := b + "/";
    assert EndsWith(b', "/") by { assert b'[|b'| - 1..] == "/"; }
    LocationDirOf(dir, file);
  }

  /** `s.gsub(/uuid:/, '')`: every `uuid:` found scanning left to right is removed. */
  function RemoveUuid(s: string): (r: string)
    ensures |r| <= |s|
    decreases |s|
  {
    if |s| >= |UuidTag| && s[..|UuidTag|] == UuidTag then RemoveUuid(s[|UuidTag|..])
    else if s == [] then []
    else [s[0]] + RemoveUuid(s[1..])
  }

  /** `uuid:` occurs in `s` at `i`. */
  predicate UuidAt(s: string, i: nat) {
    i + |UuidTag| <= |s| && s[i..i + |UuidTag|] == UuidTag
  }

  /** A text with no `uuid:` in it is left as it is. */
  lemma {:induction false} RemoveUuidOfPlain(s: string)
    requires forall i :: 0 <= i <= |s| ==> !UuidAt(s, i)
    ensures RemoveUuid(s) == s
    decreases |s|
  {
    if s != [] {
      assert !UuidAt(s, 0);
      var t := s[1..];
      forall i | 0 <= i <= |t| ensures !UuidAt(t, i) {
        assert !UuidAt(s, i + 1);
        if i + |UuidTag| <= |t| { assert t[i..i + |UuidTag|] == s[i + 1..i + 1 + |UuidTag|]; }
      }
      RemoveUuidOfPlain(t);
      assert s == [s[0]] + t;
    }
  }

  /** The UDN a device advertises, `uuid:<uuid>`, is read back as its uuid. */
  lemma RemoveUuidOfUdn(uuid: string)
    requires forall i :: 0 <= i <= |uuid| ==> !UuidAt(uuid, i)
    ensures RemoveUuid(UuidTag + uuid) == uuid
  {
    var s := UuidTag + uuid;
    assert s[..|UuidTag|] == UuidTag;
    assert s[|UuidTag|..] == uuid;
    RemoveUuidOfPlain(uuid);
  }

  /** The scan is one pass: a `uuid:` that a removal brings together is kept. */
  lemma RemoveUuidIsOnePass()
    ensures RemoveUuid("uuiuuid:d:") == "uuid:"
  {
    var s := "uuiuuid:d:";
    assert s[..5] != UuidTag by { assert s[3] != UuidTag[3]; }
    assert s[1..][..5] != UuidTag by { assert s[1..][1] != UuidTag[1]; }
    assert s[2..][..5] != UuidTag by { assert s[2..][0] != UuidTag[0]; }
    assert s[3..][..5] == UuidTag;
    var t := s[3..][5..];
    assert t == "d:";
    assert t[..0] == [];
    assert RemoveUuid(t) == t by {
      RemoveUuidOfPlain(t);
    }
    assert s[1..][1..] == s[2..];
    assert s[2..][1..] == s[3..];
  }

  /** The device information that `extract_device_info` copies out of the device element. */
  datatype DeviceInfo = DeviceInfo(
    deviceType: Option<string>, friendlyName: Option<string>, manufacturer: Option<string>,
    manufacturerUrl: string, modelDescription: string, modelName: Option<string>,
    modelNumber: string, modelUrl: string, serialNumber: string, upc: string,
    presentationUrl: string)

  /** The optional texts default to '', the others stay nil when missing. */
  function DeviceInfoOf(device: map<string, string>): (info: DeviceInfo)
    ensures info.deviceType == HashGet(device, "device_type") && info.friendlyName == HashGet(device, "friendly_name")
    ensures info.manufacturer == HashGet(device, "manufacturer") && info.modelName == HashGet(device, "model_name")
    ensures "manufacturer_url" !in device ==> info.manufacturerUrl == ""
    ensures "model_description" !in device ==> info.modelDescription == ""
    ensures "model_number" !in device ==> info.modelNumber == ""
    ensures "model_url" !in device ==> info.modelUrl == ""
    ensures "serial_number" !in device ==> info.serialNumber == ""
    ensures "upc" !in device ==> info.upc == ""
    ensures "presentation_url" !in device ==> info.presentationUrl == ""
  {
    DeviceInfo(
      HashGet(device, "device_type"), HashGet(device, "friendly_name"), HashGet(device, "manufacturer"),
      OrEmpty(HashGet(device, "manufacturer_url")), OrEmpty(HashGet(device, "model_description")),
      HashGet(device, "model_name"), OrEmpty(HashGet(device, "model_number")),
      OrEmpty(HashGet(device, "model_url")), OrEmpty(HashGet(device, "serial_number")),
      OrEmpty(HashGet(device, "upc")), OrEmpty(HashGet(device, "presentation_url")))
  }

  // ---------------------------------------------------------------------------
  // The device record

  /** Why the device's deferrable failed. */
  datatype Failure =
    | NoBootId                // "no BOOTID.UPNP.ORG field. Message discarded."
    | NoLocation              // "M-SEARCH response has no location"
    | DescriptionUnavailable  // "Failed getting description"
    | BadDescription          // "Bad description returned: <description>"

  /** The state of the device's `EM::Deferrable`. */
  datatype Status = Pending | Failed(reason: Failure) | Succeeded

  /** Where `fetch` stopped: it failed, it raised, or it asked for the description at a location. */
  datatype FetchStep = Stopped | Raised | Requested(location: string)

  class RemoteDevice {
    /** The notification or search response the device was created from. */
    const notification: Notification
    var bootId: Option<int>
    var configId: Option<int>
    var st: Option<string>
    var usn: Option<string>
    var server: Option<string>
    var location: Option<string>
    var ext: Option<string>
    var date: string
    var cacheControl: string
    /** Seconds; 0 until `fetch` computes it (the code leaves it nil). */
    var expiration: int
    var xmlns: Option<string>
    var upnpVersion: Option<string>
    var urlBase: string
    var udn: Option<string>
    var info: Option<DeviceInfo>
    var status: Status

    constructor(notification: Notification)
      ensures this.notification == notification && status == Pending
      ensures bootId.None? && configId.None? && usn.None? && location.None? && udn.None? && info.None?
    {
      this.notification := notification;
      bootId, configId := None, None;
      st, usn, server, location, ext := None, None, None, None, None;
      date, cacheControl, expiration := "", "", 0;
      xmlns, upnpVersion, urlBase := None, None, "";
      udn, info := None, None;
      status := Pending;
    }

    /** `update_expiration`: always from the notification the device was created from. */
    method UpdateExpiration(now: int, parseDate: string -> int) returns (raised: bool)
      modifies this`date, this`cacheControl, this`expiration
      ensures date == DateOf(notification) && cacheControl == CacheControlOf(notification)
      ensures raised <==> Expiration(notification, now, parseDate).None?
      ensures !raised ==> expiration == Expiration(notification, now, parseDate).value
      ensures raised ==> expiration == old(expiration)
    {
      date := DateOf(notification);
      cacheControl := CacheControlOf(notification);
      var e := Expiration(notification, now, parseDate);
      if e.None? {
        return true;
      }
      expiration := e.value;
      return false;
    }

    /** The header copies of `extract_from_ssdp_notification`. */
    method CopyHeaders()
      modifies this`st, this`usn, this`server, this`location, this`ext
      ensures st == HashGet(notification, "st") && usn == HashGet(notification, "usn")
      ensures server == HashGet(notification, "server") && location == HashGet(notification, "location")
      ensures ext == HashGet(notification, "ext")
    {
      st := HashGet(notification, "st");
      usn := HashGet(notification, "usn");
      server := HashGet(notification, "server");
      location := HashGet(notification, "location");
      ext := HashGet(notification, "ext");
    }

    /**
     * `fetch` up to the description request: the boot id check, the config id, the
     * copied headers, the expiration and the location check.
     */
    method Fetch(now: int, parseDate: string -> int) returns (step: FetchStep)
      modifies this`bootId, this`configId, this`st, this`usn, this`server, this`location, this`ext
      modifies this`date, this`cacheControl, this`expiration, this`status
      ensures FetchBootId(notification).None? ==>
        step == Stopped && status == Failed(NoBootId) && bootId == old(bootId) && usn == old(usn) && location == old(location)
      ensures FetchBootId(notification).Some? ==>
        && bootId == FetchBootId(notification) && configId == FetchConfigId(notification)
        && st == HashGet(notification, "st") && usn == HashGet(notification, "usn")
        && server == HashGet(notification, "server") && location == HashGet(notification, "location")
        && ext == HashGet(notification, "ext")
        && date == DateOf(notification) && cacheControl == CacheControlOf(notification)
      ensures FetchBootId(notification).Some? && Expiration(notification, now, parseDate).None? ==>
        step == Raised && status == old(status)
      ensures FetchBootId(notification).Some? && Expiration(notification, now, parseDate).Some? ==>
        && expiration == Expiration(notification, now, parseDate).value
        && (location.Some? ==> step == Requested(location.value) && status == old(status))
        && (location.None? ==> step == Stopped && status == Failed(NoLocation))
    {
      var b := FetchBootId(notification);
      if b.None? {
        status := Failed(NoBootId);
        return Stopped;
      }
      bootId := b;
      configId := FetchConfigId(notification);
      CopyHeaders();
      var raised := UpdateExpiration(now, parseDate);
      if raised {
        return Raised;
      }
      if location.Some? {
        step := Requested(location.value);
      } else {
        status := Failed(NoLocation);
        step := Stopped;
      }
    }

    /** The errback of the description request. */
    method DescriptionUnavailable()
      modifies this`status
      ensures status == Failed(Failure.DescriptionUnavailable)
    {
      status := Failed(Failure.DescriptionUnavailable);
    }

    /**
     * `bad_description?`: true unless the description is `Acceptable`. On the way it keeps
     * the namespace and the version text. None is the TypeError of a missing minor version
     * once the major version has passed.
     */
    method IsBadDescription(d: Description) returns (bad: Option<bool>)
      modifies this`xmlns, this`upnpVersion
      ensures bad == Some(false) <==> Acceptable(d)
      ensures bad.None? <==>
        && d.root.Some? && d.root.value.xmlns == Some(DeviceXmlns) && d.root.value.specVersion.Some?
        && MajorIsOne(d.root.value.specVersion.value) && d.root.value.specVersion.value.minor.None?
      ensures xmlns == (if d.root.Some? then d.root.value.xmlns else old(xmlns))
      ensures Acceptable(d) ==> upnpVersion == Some(VersionText(d.root.value.specVersion.value))
    {
      if d.root.None? {
        return Some(true);
      }
      var root := d.root.value;
      xmlns := root.xmlns;
      if xmlns != Some(DeviceXmlns) {
        return Some(true);
      }
      if root.specVersion.None? {
        return Some(true);
      }
      var v := root.specVersion.value;
      if !MajorIsOne(v) {
        return Some(true);
      }
      if v.minor.None? {
        return None;
      }
      upnpVersion := Some(VersionText(v));
      if root.device.None? {
        return Some(true);
      }
      return Some(false);
    }

    /**
     * The callback of the description request: a bad description fails the device, a good
     * one gives the URL base and the device information, and the device succeeds. The
     * result is false when the code raises (a missing minor version, a device without UDN).
     */
    method DescriptionReceived(d: Description) returns (ok: bool)
      requires location.Some?
      modifies this`xmlns, this`upnpVersion, this`urlBase, this`udn, this`info, this`status
      ensures Acceptable(d) && "udn" in d.root.value.device.value ==>
        && ok && status == Succeeded
        && urlBase == UrlBase(d.root.value, VersionText(d.root.value.specVersion.value), location.value)
        && udn == Some(RemoveUuid(d.root.value.device.value["udn"]))
        && info == Some(DeviceInfoOf(d.root.value.device.value))
      ensures !Acceptable(d) ==> status == (if ok then Failed(BadDescription) else old(status))
      ensures status == Succeeded ==> old(status) == Succeeded || Acceptable(d)
    {
      var bad := IsBadDescription(d);
      if bad.None? {
        return false;
      }
      if bad.value {
        status := Failed(BadDescription);
        return true;
      }
      var root := d.root.value;
      var device := root.device.value;
      urlBase := UrlBase(root, upnpVersion.value, location.value);
      if "udn" !in device {
        return false;
      }
      udn := Some(RemoveUuid(device["udn"]));
      info := Some(DeviceInfoOf(device));
      status := Succeeded;
      return true;
    }

    /**
     * `update(n)`: the expiration is computed again from the notification the device was
     * created from, not from `n`; the boot id is NEXTBOOTID.UPNP.ORG of `n` (0 when absent)
     * and the config id changes only when `n` has CONFIGID.UPNP.ORG.
     */
    method Update(n: Notification, now: int, parseDate: string -> int) returns (raised: bool)
      modifies this`date, this`cacheControl, this`expiration, this`bootId, this`configId
      ensures raised <==> Expiration(notification, now, parseDate).None?
      ensures !raised ==>
        && expiration == Expiration(notification, now, parseDate).value
        && bootId == Some(NilToI(HashGet(n, "nextbootid.upnp.org")))
        && configId == (if "configid.upnp.org" in n then Some(ToI(n["configid.upnp.org"])) else old(configId))
      ensures raised ==> bootId == old(bootId) && configId == old(configId) && expiration == old(expiration)
    {
      raised := UpdateExpiration(now, parseDate);
      if raised {
        return;
      }
      bootId := Some(NilToI(HashGet(n, "nextbootid.upnp.org")));
      if "configid.upnp.org" in n {
        configId := Some(ToI(n["configid.upnp.org"]));
      }
    }
  }
}
