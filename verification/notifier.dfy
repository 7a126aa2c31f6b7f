/**
 * `SSDP::Notifier` (lib/rupnp/ssdp/notifier.rb): builds one NOTIFY message for a type
 * and a subtype and multicasts it a number of times. A message is its request line
 * `NOTIFY * HTTP/1.1` followed by a list of header lines; `Render` gives its text.
 *
 * The model follows the evident intent where the code names `subtype`, `options` and
 * `options.delete[...]` for `@subtype`, `@options` and `options.delete(...)`, and uses
 * `DEFAULT_NOTIFY_TRY` for the default count.
 */
module SsdpNotifier {
  import opened RubyText
  import opened Constants
  import Ssdp

  /** Number of NOTIFY datagrams sent when `try_number` is not given. */
  const DefaultNotifyTry: int := 2

  datatype Subtype = Alive | ByeBye | Update

  /** The options hash the device passes; `try_number` is removed from it by the constructor. */
  datatype NotifyOptions = NotifyOptions(
    maxAge: int, ip: string, uuid: string, bootId: int, configId: int, uSearchPort: int, tryNumber: Option<int>)

  /** The header names a NOTIFY message uses. */
  datatype HeaderName =
    | Host | CacheControl | Location | Nt | Nts | Server | UsnHeader
    | BootId | ConfigId | SearchPort | NextBootId

  /** The name as written in the message. */
  function NameText(n: HeaderName): (t: string)
    ensures t != []
  {
    match n
    case Host => "HOST"
    case CacheControl => "CACHE-CONTROL"
    case Location => "LOCATION"
    case Nt => "NT"
    case Nts => "NTS"
    case Server => "SERVER"
    case UsnHeader => "USN"
    case BootId => "BOOTID.UPNP.ORG"
    case ConfigId => "CONFIGID.UPNP.ORG"
    case SearchPort => "SEARCHPORT.UPNP.ORG"
    case NextBootId => "NEXTBOOTID.UPNP.ORG"
  }

  /** One header line `name: value`. */
  datatype Header = Header(name: HeaderName, value: string)

  function SubtypeName(s: Subtype): string {
    match s
    case Alive => "alive"
    case ByeBye => "byebye"
    case Update => "update"
  }

  /** The NTS header value, `ssdp:<subtype>`. */
  function NtsValue(s: Subtype): (v: string)
    ensures StartsWith(v, "ssdp:")
  {
    "ssdp:" + SubtypeName(s)
  }

  /** `(type == :root) ? 'upnp:rootdevice' : type` */
  function NormaliseType(t: Ssdp.Target): (r: string)
    ensures t == Ssdp.Symbol("root") ==> r == "upnp:rootdevice"
    ensures t != Ssdp.Symbol("root") ==> r == Ssdp.TargetText(t)
  {
    if t == Ssdp.Symbol("root") then "upnp:rootdevice" else Ssdp.TargetText(t)
  }

  /** The type itself when it starts with `uuid`, else `uuid:<uuid>::<type>`. */
  function Usn(typ: string, uuid: string): (usn: string)
    ensures StartsWith(typ, "uuid") ==> usn == typ
    ensures !StartsWith(typ, "uuid") ==> StartsWith(usn, "uuid:" + uuid + "::") && EndsWith(usn, typ)
  {
    if |typ| >= 4 && typ[..4] == "uuid" then typ
    else
      var usn := "uuid:" + uuid + "::" + typ;
      assert usn[..|"uuid:" + uuid + "::"|] == "uuid:" + uuid + "::";
      assert usn[|usn| - |typ|..] == typ;
      usn
  }

  /** `BOOTID.UPNP.ORG` of an update: the previous boot id, modulo 2^31. */
  function PreviousBootId(bootId: int): (b: int)
    ensures 0 <= b < 0x8000_0000
    ensures 0 < bootId <= 0x8000_0000 ==> b == bootId - 1
    ensures bootId == 0 ==> b == 0x7FFF_FFFF
  {
    (bootId - 1) % 0x8000_0000
  }

  /** The header lines of `notify_request`, per subtype, in the order of the message. */
  function NotifyHeaders(typ: string, subtype: Subtype, o: NotifyOptions, userAgent: string): (hs: seq<Header>)
    ensures |hs| == match subtype case Alive => 10 case ByeBye => 6 case Update => 9
  {
    match subtype
    case Alive => AliveHeaders(typ, o, userAgent)
    case ByeBye => ByeByeHeaders(typ, o)
    case Update => UpdateHeaders(typ, o)
  }

  /** `HOST: <MULTICAST_IP>:<DISCOVERY_PORT>`, the group every message is addressed to. */
  const HostValue: string := MulticastIp + ":" + IntToS(DiscoveryPort)

  function AliveHeaders(typ: string, o: NotifyOptions, userAgent: string): seq<Header> {
    [Header(Host, HostValue),
     Header(CacheControl, "max-age = " + IntToS(o.maxAge)),
     Header(Location, "http://" + o.ip + "/root_description.xml"),
     Header(Nt, typ),
     Header(Nts, NtsValue(Alive)),
     Header(Server, userAgent),
     Header(UsnHeader, Usn(typ, o.uuid)),
     Header(BootId, IntToS(o.bootId)),
     Header(ConfigId, IntToS(o.configId)),
     Header(SearchPort, IntToS(o.uSearchPort))]
  }

  function ByeByeHeaders(typ: string, o: NotifyOptions): seq<Header> {
    [Header(Host, HostValue),
     Header(Nt, typ),
     Header(Nts, NtsValue(ByeBye)),
     Header(UsnHeader, Usn(typ, o.uuid)),
     Header(BootId, IntToS(o.bootId)),
     Header(ConfigId, IntToS(o.configId))]
  }

  function UpdateHeaders(typ: string, o: NotifyOptions): seq<Header> {
    [Header(Host, HostValue),
     Header(Location, "http://" + o.ip + "/root_description.xml"),
     Header(Nt, typ),
     Header(Nts, NtsValue(Update)),
     Header(UsnHeader, Usn(typ, o.uuid)),
     Header(BootId, IntToS(PreviousBootId(o.bootId))),
     Header(ConfigId, IntToS(o.configId)),
     Header(NextBootId, IntToS(o.bootId)),
     Header(SearchPort, IntToS(o.uSearchPort))]
  }

  function Names(hs: seq<Header>): (ns: seq<HeaderName>)
    ensures |ns| == |hs| && forall i :: 0 <= i < |hs| ==> ns[i] == hs[i].name
  {
    seq(|hs|, i requires 0 <= i < |hs| => hs[i].name)
  }

  /** The value of the first header with that name. */
  function Lookup(hs: seq<Header>, name: HeaderName): Option<string> {
    if hs == [] then None
    else if hs[0].name == name then Some(hs[0].value)
    else Lookup(hs[1..], name)
  }

  /** A lookup fails exactly when no header has the name. */
  lemma {:induction false} LookupNone(hs: seq<Header>, name: HeaderName)
    ensures Lookup(hs, name).None? <==> name !in Names(hs)
  {
    if hs != [] {
      assert Names(hs) == [hs[0].name] + Names(hs[1..]);
      LookupNone(hs[1..], name);
    }
  }

  /** The first header with a name is the one that answers a lookup. */
  lemma {:induction false} LookupAt(hs: seq<Header>, k: nat)
    requires k < |hs| && hs[k].name !in Names(hs)[..k]
    ensures Lookup(hs, hs[k].name) == Some(hs[k].value)
  {
    if k > 0 {
      assert Names(hs)[1..][..k - 1] == Names(hs)[..k][1..];
      assert Names(hs[1..]) == Names(hs)[1..];
      LookupAt(hs[1..], k - 1);
    }
  }

  /** No two headers share a name. */
  predicate DistinctNames(hs: seq<Header>) {
    forall i, j :: 0 <= i < j < |hs| ==> hs[i].name != hs[j].name
  }

  /** With distinct names, every header answers the lookup of its own name. */
  lemma {:induction false} LookupDistinct(hs: seq<Header>, k: nat)
    requires DistinctNames(hs) && k < |hs|
    ensures Lookup(hs, hs[k].name) == Some(hs[k].value)
  {
    if k > 0 {
      assert hs[0].name != hs[k].name;
      assert hs[1..][k - 1] == hs[k];
      LookupDistinct(hs[1..], k - 1);
    }
  }

  /** The text of a message: the request line, one CR LF-terminated line per header, an empty line. */
  function Render(hs: seq<Header>): string {
    "NOTIFY * HTTP/1.1\r\n" + HeaderText(hs) + "\r\n"
  }

  function HeaderText(hs: seq<Header>): string {
    if hs == [] then "" else NameText(hs[0].name) + ": " + hs[0].value + "\r\n" + HeaderText(hs[1..])
  }

  /** An alive message carries exactly these headers, in this order. */
  lemma AliveHeaderNames(typ: string, o: NotifyOptions, userAgent: string)
    ensures Names(NotifyHeaders(typ, Alive, o, userAgent)) ==
      [Host, CacheControl, Location, Nt, Nts, Server, UsnHeader, BootId, ConfigId, SearchPort]
  {
  }

  /** A byebye message carries exactly these headers, in this order. */
  lemma ByeByeHeaderNames(typ: string, o: NotifyOptions, userAgent: string)
    ensures Names(NotifyHeaders(typ, ByeBye, o, userAgent)) ==
      [Host, Nt, Nts, UsnHeader, BootId, ConfigId]
  {
  }

  /** So a byebye has neither LOCATION nor CACHE-CONTROL. */
  lemma ByeByeHasNoLocation(typ: string, o: NotifyOptions, userAgent: string)
    ensures Lookup(NotifyHeaders(typ, ByeBye, o, userAgent), Location) == None
    ensures Lookup(NotifyHeaders(typ, ByeBye, o, userAgent), CacheControl) == None
  {
    ByeByeHeaderNames(typ, o, userAgent);
    LookupNone(NotifyHeaders(typ, ByeBye, o, userAgent), Location);
    LookupNone(NotifyHeaders(typ, ByeBye, o, userAgent), CacheControl);
  }

  /** An update message carries exactly these headers, in this order. */
  lemma UpdateHeaderNames(typ: string, o: NotifyOptions, userAgent: string)
    ensures Names(NotifyHeaders(typ, Update, o, userAgent)) ==
      [Host, Location, Nt, Nts, UsnHeader, BootId, ConfigId, NextBootId, SearchPort]
  {
  }

  /** An update message announces the previous boot id, modulo 2^31, and the next one. */
  lemma UpdateBootIds(typ: string, o: NotifyOptions, userAgent: string)
    ensures var hs := NotifyHeaders(typ, Update, o, userAgent);
      && Lookup(hs, BootId) == Some(IntToS((o.bootId - 1) % 0x8000_0000))
      && Lookup(hs, NextBootId) == Some(IntToS(o.bootId))
  {
    UpdateHeaderAt(typ, o, userAgent, 5);
    UpdateHeaderAt(typ, o, userAgent, 7);
  }

  /** The lookup of an update header by its position. */
  lemma UpdateHeaderAt(typ: string, o: NotifyOptions, userAgent: string, k: nat)
    requires k < 9
    ensures var hs := NotifyHeaders(typ, Update, o, userAgent);
      Lookup(hs, hs[k].name) == Some(hs[k].value)
  {
    UpdateHeaderNames(typ, o, userAgent);
    var hs := NotifyHeaders(typ, Update, o, userAgent);
    assert DistinctNames(hs) by {
      forall i, j | 0 <= i < j < |hs| ensures hs[i].name != hs[j].name {
        assert hs[i].name == Names(hs)[i] && hs[j].name == Names(hs)[j];
      }
    }
    LookupDistinct(hs, k);
  }

  /** Every message has NT = the type, NTS = `ssdp:<subtype>`, the USN of the type and the group as HOST. */
  lemma NotificationTypeHeaders(typ: string, subtype: Subtype, o: NotifyOptions, userAgent: string)
    ensures var hs := NotifyHeaders(typ, subtype, o, userAgent);
      && Lookup(hs, Nt) == Some(typ)
      && Lookup(hs, Nts) == Some(NtsValue(subtype))
      && Lookup(hs, UsnHeader) == Some(Usn(typ, o.uuid))
      && Lookup(hs, Host) == Some(HostValue)
  {
    match subtype
    case Alive => AliveTypeHeaders(typ, o, userAgent);
    case ByeBye => ByeByeTypeHeaders(typ, o, userAgent);
    case Update => UpdateTypeHeaders(typ, o, userAgent);
  }

  lemma AliveTypeHeaders(typ: string, o: NotifyOptions, userAgent: string)
    ensures var hs := NotifyHeaders(typ, Alive, o, userAgent);
      && Lookup(hs, Nt) == Some(typ) && Lookup(hs, Nts) == Some(NtsValue(Alive))
      && Lookup(hs, UsnHeader) == Some(Usn(typ, o.uuid)) && Lookup(hs, Host) == Some(HostValue)
  {
    AliveHeaderAt(typ, o, userAgent, 0);
    AliveHeaderAt(typ, o, userAgent, 3);
    AliveHeaderAt(typ, o, userAgent, 4);
    AliveHeaderAt(typ, o, userAgent, 6);
  }

  /** The lookup of an alive header by its position. */
  lemma AliveHeaderAt(typ: string, o: NotifyOptions, userAgent: string, k: nat)
    requires k < 10
    ensures var hs := NotifyHeaders(typ, Alive, o, userAgent);
      Lookup(hs, hs[k].name) == Some(hs[k].value)
  {
    AliveHeaderNames(typ, o, userAgent);
    var hs := NotifyHeaders(typ, Alive, o, userAgent);
    assert DistinctNames(hs) by {
      forall i, j | 0 <= i < j < |hs| ensures hs[i].name != hs[j].name {
        assert hs[i].name == Names(hs)[i] && hs[j].name == Names(hs)[j];
      }
    }
    LookupDistinct(hs, k);
  }

  lemma ByeByeTypeHeaders(typ: string, o: NotifyOptions, userAgent: string)
    ensures var hs := NotifyHeaders(typ, ByeBye, o, userAgent);
      && Lookup(hs, Nt) == Some(typ) && Lookup(hs, Nts) == Some(NtsValue(ByeBye))
      && Lookup(hs, UsnHeader) == Some(Usn(typ, o.uuid)) && Lookup(hs, Host) == Some(HostValue)
  {
    var hs := NotifyHeaders(typ, ByeBye, o, userAgent);
    ByeByeHeaderNames(typ, o, userAgent);
    LookupAt(hs, 0);
    LookupAt(hs, 1);
    LookupAt(hs, 2);
    LookupAt(hs, 3);
  }

  lemma UpdateTypeHeaders(typ: string, o: NotifyOptions, userAgent: string)
    ensures var hs := NotifyHeaders(typ, Update, o, userAgent);
      && Lookup(hs, Nt) == Some(typ) && Lookup(hs, Nts) == Some(NtsValue(Update))
      && Lookup(hs, UsnHeader) == Some(Usn(typ, o.uuid)) && Lookup(hs, Host) == Some(HostValue)
  {
    UpdateHeaderAt(typ, o, userAgent, 0);
    UpdateHeaderAt(typ, o, userAgent, 2);
    UpdateHeaderAt(typ, o, userAgent, 3);
    UpdateHeaderAt(typ, o, userAgent, 4);
  }

  class Notifier {
    var typ: string
    var subtype: Subtype
    var notifyCount: int
    var options: NotifyOptions
    var sent: seq<seq<Header>>
    var closed: bool

    /** `Notifier.new(type, subtype, options)` */
    constructor(t: Ssdp.Target, subtype: Subtype, options: NotifyOptions)
      ensures typ == NormaliseType(t) && this.subtype == subtype && this.options == options.(tryNumber := None)
      ensures notifyCount == (if options.tryNumber.Some? then options.tryNumber.value else DefaultNotifyTry)
      ensures sent == [] && !closed
    {
      typ := NormaliseType(t);
      this.subtype := subtype;
      notifyCount := if options.tryNumber.Some? then options.tryNumber.value else DefaultNotifyTry;
      this.options := options.(tryNumber := None);
      sent := [];
      closed := false;
    }

    /** `notify_request` */
    function NotifyRequest(userAgent: string): (hs: seq<Header>)
      reads this
      ensures Lookup(hs, Nt) == Some(typ)
    {
      NotificationTypeHeaders(typ, subtype, options, userAgent);
      NotifyHeaders(typ, subtype, options, userAgent)
    }

    /** `post_init`: `notify_count` identical messages to the multicast group, then close. */
    method PostInit(userAgent: string)
      modifies this
      ensures |sent| == |old(sent)| + (if notifyCount < 0 then 0 else notifyCount)
      ensures sent[..|old(sent)|] == old(sent)
      ensures forall i :: |old(sent)| <= i < |sent| ==> sent[i] == NotifyRequest(userAgent)
      ensures closed
      ensures typ == old(typ) && subtype == old(subtype) && notifyCount == old(notifyCount) && options == old(options)
    {
      var notify := NotifyRequest(userAgent);
      var i := 0;
      while i < notifyCount
        invariant 0 <= i && (notifyCount >= 0 ==> i <= notifyCount) && (notifyCount < 0 ==> i == 0)
        invariant |sent| == |old(sent)| + i && sent[..|old(sent)|] == old(sent)
        invariant forall k :: |old(sent)| <= k < |sent| ==> sent[k] == notify
        invariant typ == old(typ) && subtype == old(subtype) && notifyCount == old(notifyCount) && options == old(options)
      {
        sent := sent + [notify];
        i := i + 1;
      }
      closed := true;
    }
  }
}
