/**
 * `SSDP::SearchResponder` (lib/rupnp/ssdp/search_responder.rb): the device side of a
 * search. `receive_data` filters the request, decides from its ST header which targets
 * to answer for, and either answers at once (unicast), arms a timer below the clamped
 * MX (multicast), or drops the request. `send_response` writes one 200 OK per target.
 *
 * Decisions are made on the parsed request line and header map, so they do not depend on
 * which codec read them. `Decide` checks for an unparsed request line before reading its
 * verb; `DecideAsWritten` reads the verb first, as the code does, and raises on nil.
 */
module SearchResponder {
  import opened RubyText
  import opened HttpMatch
  import Http
  import SsdpHttp
  import Tools

  /** What `receive_data` needs of `@device`: its uuid, its urn and the urn of each service. */
  datatype DeviceView = DeviceView(uuid: string, urn: string, serviceUrns: seq<string>)

  /** What `send_response` reads from `@options`; `DATE` and `USER_AGENT` are parameters. */
  datatype ResponseOptions = ResponseOptions(maxAge: int, ip: string, bootId: int, configId: int, uSearchPort: int)

  /** The targets a request is answered for, or why it is not. */
  datatype Dispatch =
    | NoCallback             // no `when` branch set a callback
    | Respond(sts: seq<string>)
    | DispatchCrash          // urn_are_equivalent? raised on a text that is not a URN

  /** How `receive_data` ends. */
  datatype Outcome =
    | ReadError                       // readline raised EOFError on an empty datagram
    | Crash                           // NoMethodError
    | NotifyIgnored                   // a NOTIFY: no response, no warning
    | UnknownCommand                  // warning "Unknown HTTP command"
    | UnknownMan                      // warning "Unknown MAN field"
    | NoResponse                      // log "No response sent"
    | Discarded                       // multicast request without MX: warning, dropped
    | Delayed(bound: nat, sts: seq<string>)  // timer armed, the wait drawn below `bound`
    | Immediate(sts: seq<string>)     // unicast: answered at once

  // ---------------------------------------------------------------------------
  // The two search-target patterns. `^` matches at the start of the text and after each '\n'.

  predicate LineStart(s: string, p: nat) {
    p <= |s| && (p == 0 || s[p - 1] == '\n')
  }

  /** The literal `lit` occurs in `s` at `p`. */
  predicate HasAt(s: string, p: nat, lit: string) {
    p + |lit| <= |s| && forall k :: 0 <= k < |lit| ==> s[p + k] == lit[k]
  }

  const UuidPrefix: string := "uuid:"
  const UrnPrefix: string := "urn:schemas-upnp-org:"

  /** `/^uuid:([0-9a-fA-F-]+)/` tried at `p`: the capture is the longest hex-or-dash run. */
  function UuidAt(s: string, p: nat): (c: Option<string>)
    ensures c.Some? ==> c.value != [] && AllIn(c.value, 0, |c.value|, HexDash)
  {
    if LineStart(s, p) && HasAt(s, p, UuidPrefix) then
      var e := RunEnd(s, p + 5, HexDash);
      if e > p + 5 then
        var c := s[p + 5..e];
        assert AllIn(c, 0, |c|, HexDash) by {
          forall t | 0 <= t < |c| ensures InClass(c[t], HexDash) { assert c[t] == s[p + 5 + t]; }
        }
        Some(c)
      else None
    else None
  }

  /** The leftmost match at or after `p`. */
  function UuidCapture(s: string, p: nat): Option<string>
    requires p <= |s|
    decreases |s| - p
  {
    match UuidAt(s, p)
    case Some(c) => Some(c)
    case None => if p < |s| then UuidCapture(s, p + 1) else None
  }

  /** `/^urn:schemas-upnp-org:(\w+):(\w+):(\w+)/` tried at `p`; the capture is `$1`, the kind. */
  function UrnKindAt(s: string, p: nat): (c: Option<string>)
    ensures c.Some? ==> c.value != [] && HasAt(s, p, UrnPrefix)
  {
    if LineStart(s, p) && HasAt(s, p, UrnPrefix) then
      var e1 := RunEnd(s, p + 21, Word);
      if !(p + 21 < e1 < |s| && s[e1] == ':') then None
      else
        var e2 := RunEnd(s, e1 + 1, Word);
        if !(e1 + 1 < e2 < |s| && s[e2] == ':') then None
        else if RunEnd(s, e2 + 1, Word) == e2 + 1 then None
        else Some(s[p + 21..e1])
    else None
  }

  function UrnKind(s: string, p: nat): (c: Option<string>)
    requires p <= |s|
    ensures c.Some? ==> |s| >= |UrnPrefix|
    decreases |s| - p
  {
    match UrnKindAt(s, p)
    case Some(c) => Some(c)
    case None => if p < |s| then UrnKind(s, p + 1) else None
  }

  /** `/^urn/`, as `send_response` tests it. */
  function StartsUrnLine(s: string, p: nat): (b: bool)
    requires p <= |s|
    decreases |s| - p
  {
    (LineStart(s, p) && HasAt(s, p, "urn")) || (p < |s| && StartsUrnLine(s, p + 1))
  }

  // ---------------------------------------------------------------------------
  // The ST dispatch.

  /**
   * `@device.services.one? { |s| urn_are_equivalent?(st, s.urn) }`: `one?` stops at the
   * second match, so a later service that is not a URN raises only if it is reached.
   */
  function OneEquivalent(st: string, urns: seq<string>, seen: bool): Option<bool> {
    if urns == [] then Some(seen)
    else
      match Tools.UrnAreEquivalent(st, urns[0])
      case None => None
      case Some(eq) =>
        if eq && seen then Some(false)
        else OneEquivalent(st, urns[1..], seen || eq)
  }

  /** The number of services whose urn is equivalent to `st`. */
  function CountEquivalent(st: string, urns: seq<string>): nat {
    if urns == [] then 0
    else (if Tools.UrnAreEquivalent(st, urns[0]) == Some(true) then 1 else 0) + CountEquivalent(st, urns[1..])
  }

  /** The `case h['st']` of `receive_data`; a missing ST matches no branch. */
  function StDispatch(st: Option<string>, dev: DeviceView): (d: Dispatch)
    ensures d.Respond? ==> d.sts != []
  {
    match st
    case None => NoCallback
    case Some(s) =>
      if s == "ssdp:all" then
        Respond(["upnp:rootdevice", "uuid:" + dev.uuid, "urn:" + dev.urn] + seq(|dev.serviceUrns|, i requires 0 <= i < |dev.serviceUrns| => "urn:" + dev.serviceUrns[i]))
      else if s == "upnp:rootdevice" then Respond(["upnp:rootdevice"])
      else if UuidCapture(s, 0).Some? then
        if UuidCapture(s, 0).value == dev.uuid then Respond(["uuid:" + dev.uuid]) else NoCallback
      else
        match UrnKind(s, 0)
        case None => NoCallback
        case Some(kind) =>
          if kind == "device" then
            match Tools.UrnAreEquivalent(s, dev.urn)
            case None => DispatchCrash
            case Some(eq) => if eq then Respond(["urn:" + dev.urn]) else NoCallback
          else if kind == "service" then
            match OneEquivalent(s, dev.serviceUrns, false)
            case None => DispatchCrash
            case Some(one) => if one then Respond([s]) else NoCallback
          else NoCallback
  }

  // ---------------------------------------------------------------------------
  // The MX rule.

  /** MX read with `to_i` and capped at 5. */
  function ClampedMx(mx: string): (m: int)
    ensures m <= 5
    ensures ToI(mx) <= 5 ==> m == ToI(mx)
  {
    var m := ToI(mx);
    if m > 5 then 5 else m
  }

  /**
   * The range of `Kernel#rand(m)` for an integer `m`: integers below `|m|`, since a
   * negative bound is replaced by its absolute value; `rand(0)` draws a fraction of a
   * second, which the model rounds down to 0 (range 1).
   */
  function RandRange(m: int): (b: nat)
    ensures b >= 1
    ensures m != 0 ==> b == (if m < 0 then -m else m)
  {
    if m == 0 then 1 else if m < 0 then -m else m
  }

  /** The range of the wait as written: `rand` of the clamped MX, which a negative MX escapes. */
  function WaitBoundAsWritten(mx: string): (b: nat)
    ensures b >= 1
  {
    RandRange(ClampedMx(mx))
  }

  /** The range of the wait with MX held to `1..5`, as the cap on line 69 intends. */
  function WaitBound(mx: string): (b: nat)
    ensures 1 <= b <= 5
    ensures 1 <= ToI(mx) <= 5 ==> b == ToI(mx)
    ensures ToI(mx) >= 5 ==> b == 5
  {
    var m := ClampedMx(mx);
    if m < 1 then 1 else m
  }

  /** A negative MX such as -100 lets the wait reach 99 seconds, far past the cap of 5. */
  lemma NegativeMxEscapesCap(n: int)
    requires n > 5
    ensures WaitBoundAsWritten(IntToS(-n)) == n && WaitBound(IntToS(-n)) == 1
  {
    IntToSRoundTrip(-n);
  }

  /** Where MX is 1..5, or above, both rules agree. */
  lemma WaitBoundAgrees(mx: string)
    requires ToI(mx) >= 1
    ensures WaitBound(mx) == WaitBoundAsWritten(mx)
  {
  }

  /** The random draw: `seed` stands for the generator's output, reduced into range. */
  function Wait(mx: string, seed: nat): (w: nat)
    ensures w < WaitBound(mx)
  {
    seed % WaitBound(mx)
  }

  /** What happens once the dispatch chose to respond. */
  function Schedule(sts: seq<string>, headers: map<string, string>, multicast: bool): (o: Outcome)
    ensures !multicast ==> o == Immediate(sts)
    ensures multicast && "mx" !in headers ==> o == Discarded
    ensures multicast && "mx" in headers ==> o == Delayed(WaitBound(headers["mx"]), sts)
  {
    if multicast then
      if "mx" in headers then Delayed(WaitBound(headers["mx"]), sts) else Discarded
    else Immediate(sts)
  }

  /** Everything after the request line has been accepted as `M-SEARCH * 1.1`. */
  function DecideSearch(headers: map<string, string>, dev: DeviceView, multicast: bool): (o: Outcome)
    ensures o != ReadError
    ensures o.Delayed? ==> multicast && "mx" in headers && o.bound == WaitBound(headers["mx"])
    ensures o.Immediate? ==> !multicast
  {
    if "man" !in headers || headers["man"] != "\"ssdp:discover\"" then UnknownMan
    else
      match StDispatch(if "st" in headers then Some(headers["st"]) else None, dev)
      case NoCallback => NoResponse
      case DispatchCrash => Crash
      case Respond(sts) => Schedule(sts, headers, multicast)
  }

  predicate IsMSearchLine(r: RequestLine) {
    Upcase(r.verb) == "M-SEARCH" && r.path == "*" && r.httpVersion == "1.1"
  }

  /** `receive_data` with the nil check first, as the `h.nil? or` on line 20 intends. */
  function Decide(h: Option<RequestLine>, headers: map<string, string>, dev: DeviceView, multicast: bool): (o: Outcome)
    ensures o != ReadError
    ensures h.None? ==> o == UnknownCommand
    ensures h.Some? && Upcase(h.value.verb) == "NOTIFY" ==> o == NotifyIgnored
    ensures h.Some? && Upcase(h.value.verb) != "NOTIFY" && !IsMSearchLine(h.value) ==> o == UnknownCommand
    ensures h.Some? && IsMSearchLine(h.value) ==> o == DecideSearch(headers, dev, multicast)
  {
    match h
    case None => UnknownCommand
    case Some(r) =>
      if Upcase(r.verb) == "NOTIFY" then NotifyIgnored
      else if !IsMSearchLine(r) then UnknownCommand
      else DecideSearch(headers, dev, multicast)
  }

  /** `receive_data` as written: `h[:verb]` is read before `h.nil?` is tested. */
  function DecideAsWritten(h: Option<RequestLine>, headers: map<string, string>, dev: DeviceView, multicast: bool): (o: Outcome)
    ensures o != ReadError
    ensures h.Some? ==> o == Decide(h, headers, dev, multicast)
  {
    match h
    case None => Crash
    case Some(r) =>
      if Upcase(r.verb) == "NOTIFY" then NotifyIgnored
      else if !IsMSearchLine(r) then UnknownCommand
      else DecideSearch(headers, dev, multicast)
  }

  /** A datagram read with the `RUPNP::HTTP` patterns. */
  function OutcomeOf(data: string, dev: DeviceView, multicast: bool): (o: Outcome)
    ensures o == ReadError <==> data == []
  {
    match Http.GetHttpVerb(data)
    case None => ReadError
    case Some((h, rest)) => Decide(h, HeaderMap(Lines(rest), Http.HeaderNames, Stripped), dev, multicast)
  }

  /**
   * The reading step with the codec the includer resolves to: `USearchResponder` mixes in
   * `SSDP::HTTP` after `RUPNP::HTTP`, so the `SSDP::HTTP` patterns read the request line.
   * The model assumes the includer also supplies `peer_info`, `log` and
   * `urn_are_equivalent?`, which `USearchResponder` itself does not.
   */
  function OutcomeAsWritten(data: string, dev: DeviceView, multicast: bool): (o: Outcome)
    ensures o == ReadError <==> data == []
  {
    match SsdpHttp.GetHttpVerb(data)
    case None => ReadError
    case Some((h, rest)) => DecideAsWritten(h, HeaderMap(Lines(rest), SsdpHttp.HeaderNames, Stripped), dev, multicast)
  }

  /** An unparsable request line raises where the nil check meant to log it. */
  lemma NilRequestLineCrashes(headers: map<string, string>, dev: DeviceView, multicast: bool)
    ensures DecideAsWritten(None, headers, dev, multicast) == Crash
    ensures Decide(None, headers, dev, multicast) == UnknownCommand
  {
  }

  /**
   * As assembled, every search request raises: its line reads as nil under the
   * `SSDP::HTTP` pattern, and `h[:verb]` is then called on nil.
   */
  lemma MSearchCrashesAsWritten(rest: string, dev: DeviceView, multicast: bool)
    ensures OutcomeAsWritten("M-SEARCH * HTTP/1.1\r\n" + rest, dev, multicast) == Crash
  {
    SsdpHttp.GetHttpVerbRejectsMSearch(rest);
  }

  // ---------------------------------------------------------------------------
  // send_response

  /** `uuid:<uuid>`, followed by `::<st>` for the root device and for URN targets. */
  function ResponseUsn(uuid: string, st: string): (usn: string)
    ensures st == "upnp:rootdevice" || StartsUrnLine(st, 0) ==> usn == "uuid:" + uuid + "::" + st
    ensures !(st == "upnp:rootdevice" || StartsUrnLine(st, 0)) ==> usn == "uuid:" + uuid
  {
    "uuid:" + uuid + (if st == "upnp:rootdevice" || StartsUrnLine(st, 0) then "::" + st else "")
  }

  /**
   * The lines of the response. The ST line ends in a bare '\n' and LOCATION has two
   * spaces after its colon, as in the code.
   */
  function ResponseLines(st: string, dev: DeviceView, o: ResponseOptions, date: string, userAgent: string): (ls: seq<string>)
    ensures |ls| == 12
  {
    ["HTTP/1.1 200 OK\r\n",
     "CACHE-CONTROL: max-age = " + IntToS(o.maxAge) + "\r\n",
     "DATE: " + date + "\r\n",
     "EXT:\r\n",
     "LOCATION:  http://" + o.ip + "/root_description.xml\r\n",
     "SERVER: " + userAgent + "\r\n",
     "ST: " + st + "\n",
     "USN: " + ResponseUsn(dev.uuid, st) + "\r\n",
     "BOOTID.UPNP.ORG: " + IntToS(o.bootId) + "\r\n",
     "CONFIGID.UPNP.ORG: " + IntToS(o.configId) + "\r\n",
     "SEARCHPORT.UPNP.ORG: " + IntToS(o.uSearchPort) + "\r\n",
     "\r\n"]
  }

  function Response(st: string, dev: DeviceView, o: ResponseOptions, date: string, userAgent: string): string {
    Concat(ResponseLines(st, dev, o, date, userAgent))
  }

  // ---------------------------------------------------------------------------
  // Properties of the dispatch

  /** A NOTIFY is ignored: no response and no warning. */
  lemma NotifyIsIgnored(rest: string, dev: DeviceView, multicast: bool)
    ensures OutcomeOf("NOTIFY * HTTP/1.1\r\n" + rest, dev, multicast) == NotifyIgnored
  {
    Http.GetHttpVerbOfNotify(rest);
    VerbUpcase();
  }

  lemma VerbUpcase()
    ensures Upcase("NOTIFY") == "NOTIFY" && Upcase("M-SEARCH") == "M-SEARCH"
    ensures IsMSearchLine(RequestLine("M-SEARCH", "*", "1.1", "M-SEARCH * HTTP/1.1\r\n"))
    ensures Upcase("M-SEARCH") != "NOTIFY"
  {
    assert Upcase("M-SEARCH")[0] == 'M';
  }

  /** `M-SEARCH * HTTP/1.1` reaches the MAN check and the ST dispatch. */
  lemma MSearchIsDispatched(rest: string, dev: DeviceView, multicast: bool)
    ensures OutcomeOf("M-SEARCH * HTTP/1.1\r\n" + rest, dev, multicast) ==
      DecideSearch(HeaderMap(Lines(rest), Http.HeaderNames, Stripped), dev, multicast)
  {
    Http.GetHttpVerbOfMSearch(rest);
    VerbUpcase();
  }

  /** A request whose MAN is missing or not `"ssdp:discover"` gets no response. */
  lemma WrongManIsRefused(headers: map<string, string>, dev: DeviceView, multicast: bool)
    requires "man" !in headers || headers["man"] != "\"ssdp:discover\""
    ensures DecideSearch(headers, dev, multicast) == UnknownMan
  {
  }

  /** The request-line tests reach the search only for `M-SEARCH * 1.1`. */
  lemma OnlyMSearchIsAnswered(h: Option<RequestLine>, headers: map<string, string>, dev: DeviceView, multicast: bool)
    requires Decide(h, headers, dev, multicast).Immediate? || Decide(h, headers, dev, multicast).Delayed?
    ensures h.Some? && IsMSearchLine(h.value)
    ensures "man" in headers && headers["man"] == "\"ssdp:discover\""
  {
  }

  /** `ssdp:all`: the root device, the uuid, the device urn, then every service urn in order. */
  lemma AllTargets(dev: DeviceView)
    ensures var d := StDispatch(Some("ssdp:all"), dev);
      && d.Respond? && |d.sts| == 3 + |dev.serviceUrns|
      && d.sts[0] == "upnp:rootdevice" && d.sts[1] == "uuid:" + dev.uuid && d.sts[2] == "urn:" + dev.urn
      && forall i :: 0 <= i < |dev.serviceUrns| ==> d.sts[3 + i] == "urn:" + dev.serviceUrns[i]
  {
  }

  /** `uuid:X`, X a run of hex digits and dashes, is answered iff X is the device's uuid. */
  lemma UuidTarget(x: string, dev: DeviceView)
    requires x != [] && AllIn(x, 0, |x|, HexDash)
    ensures StDispatch(Some("uuid:" + x), dev) == (if x == dev.uuid then Respond(["uuid:" + dev.uuid]) else NoCallback)
  {
    var s := "uuid:" + x;
    assert HasAt(s, 0, UuidPrefix);
    RunEndShift("uuid:", x, 0, HexDash);
    RunEndIs(x, 0, |x|, HexDash);
    assert s[5..|s|] == x;
    assert s != "ssdp:all" by { assert s[0] != "ssdp:all"[0]; }
    assert s != "upnp:rootdevice" by { assert s[1] != "upnp:rootdevice"[1]; }
  }

  /** A device URN is answered iff it is equivalent to the device's; a text that is not a URN raises. */
  lemma DeviceUrnTarget(st: string, dev: DeviceView)
    requires UrnKind(st, 0) == Some("device") && UuidCapture(st, 0).None?
    ensures var d := StDispatch(Some(st), dev);
      && (d == Respond(["urn:" + dev.urn]) <==> Tools.UrnAreEquivalent(st, dev.urn) == Some(true))
      && (d == DispatchCrash <==> Tools.UrnAreEquivalent(st, dev.urn).None?)
  {
    assert st != "ssdp:all" && st != "upnp:rootdevice" by { assert |st| >= 21; }
  }

  /** `one?` over services none of which raises: exactly one equivalent service. */
  lemma {:induction false} OneEquivalentCounts(st: string, urns: seq<string>, seen: bool)
    requires forall i :: 0 <= i < |urns| ==> Tools.UrnAreEquivalent(st, urns[i]).Some?
    ensures OneEquivalent(st, urns, seen) == Some((if seen then 1 else 0) + CountEquivalent(st, urns) == 1)
  {
    if urns != [] {
      assert forall i :: 0 <= i < |urns[1..]| ==> Tools.UrnAreEquivalent(st, urns[1..][i]).Some? by {
        forall i | 0 <= i < |urns[1..]| ensures Tools.UrnAreEquivalent(st, urns[1..][i]).Some? { assert urns[1..][i] == urns[i + 1]; }
      }
      assert Tools.UrnAreEquivalent(st, urns[0]).Some?;
      OneEquivalentCounts(st, urns[1..], seen || Tools.UrnAreEquivalent(st, urns[0]) == Some(true));
    }
  }

  /** A service URN is answered, echoing the requested text, iff exactly one service is equivalent to it. */
  lemma ServiceUrnTarget(st: string, dev: DeviceView)
    requires UrnKind(st, 0) == Some("service") && UuidCapture(st, 0).None?
    requires forall i :: 0 <= i < |dev.serviceUrns| ==> Tools.UrnAreEquivalent(st, dev.serviceUrns[i]).Some?
    ensures StDispatch(Some(st), dev) == (if CountEquivalent(st, dev.serviceUrns) == 1 then Respond([st]) else NoCallback)
  {
    assert st != "ssdp:all" && st != "upnp:rootdevice" by { assert |st| >= 21; }
    OneEquivalentCounts(st, dev.serviceUrns, false);
  }

  /** A multicast answer waits less than 5 seconds, and less than MX when MX is 1..5. */
  lemma DelayIsBounded(headers: map<string, string>, dev: DeviceView, seed: nat)
    requires DecideSearch(headers, dev, true).Delayed?
    ensures "mx" in headers
    ensures Wait(headers["mx"], seed) < DecideSearch(headers, dev, true).bound <= 5
    ensures 1 <= ToI(headers["mx"]) <= 5 ==> Wait(headers["mx"], seed) < ToI(headers["mx"])
  {
  }

  /** A multicast search without MX is discarded; a unicast one is answered at once. */
  lemma MxDecidesMulticastOnly(headers: map<string, string>, dev: DeviceView)
    requires StDispatch(if "st" in headers then Some(headers["st"]) else None, dev).Respond?
    requires "man" in headers && headers["man"] == "\"ssdp:discover\""
    ensures "mx" !in headers ==> DecideSearch(headers, dev, true) == Discarded
    ensures DecideSearch(headers, dev, false).Immediate?
  {
  }

  /** Every target the dispatch produces gets the USN the UPnP rules ask for. */
  lemma ResponseUsnOfTargets(uuid: string, rest: string)
    requires forall k :: 0 <= k < |uuid| ==> uuid[k] != '\n'
    ensures ResponseUsn(uuid, "upnp:rootdevice") == "uuid:" + uuid + "::upnp:rootdevice"
    ensures ResponseUsn(uuid, "uuid:" + uuid) == "uuid:" + uuid
    ensures ResponseUsn(uuid, "urn:" + rest) == "uuid:" + uuid + "::urn:" + rest
  {
    assert HasAt("urn:" + rest, 0, "urn");
    NoUrnLine(uuid);
  }

  /** `uuid:<uuid>` has no line that starts with `urn` when the uuid has no line break. */
  lemma NoUrnLine(uuid: string)
    requires forall k :: 0 <= k < |uuid| ==> uuid[k] != '\n'
    ensures !StartsUrnLine("uuid:" + uuid, 0)
  {
    var pre := "uuid:";
    assert pre[1] == 'u' && forall k :: 0 <= k < |pre| ==> pre[k] != '\n';
    NoUrnLineAfter(pre, uuid);
  }

  /** A text with no line break whose second character is not 'r' has no line that starts with `urn`. */
  lemma NoUrnLineAfter(pre: string, rest: string)
    requires |pre| >= 2 && pre[1] != 'r'
    requires forall k :: 0 <= k < |pre| ==> pre[k] != '\n'
    requires forall k :: 0 <= k < |rest| ==> rest[k] != '\n'
    ensures !StartsUrnLine(pre + rest, 0)
  {
    var s := pre + rest;
    NoBreakInConcat(pre, rest);
    NoLineStartAfterZero(s);
    assert s[1] == pre[1];
    NoUrnLineFrom(s, 0);
  }

  lemma NoBreakInConcat(a: string, b: string)
    requires forall k :: 0 <= k < |a| ==> a[k] != '\n'
    requires forall k :: 0 <= k < |b| ==> b[k] != '\n'
    ensures forall k :: 0 <= k < |a + b| ==> (a + b)[k] != '\n'
  {
  }

  lemma NoLineStartAfterZero(s: string)
    requires forall k :: 0 <= k < |s| ==> s[k] != '\n'
    ensures forall q :: 0 < q <= |s| ==> !LineStart(s, q)
  {
  }

  lemma {:induction false} NoUrnLineFrom(s: string, p: nat)
    requires p <= |s| && (forall q :: 0 < q <= |s| ==> !LineStart(s, q))
    requires p == 0 ==> |s| >= 2 && s[1] != 'r'
    ensures !StartsUrnLine(s, p)
    decreases |s| - p
  {
    if p == 0 {
      assert !HasAt(s, 0, "urn") by { assert "urn"[1] == 'r'; }
    }
    if p < |s| { NoUrnLineFrom(s, p + 1); }
  }

  /** An armed timer: its wait and the targets its callback answers for. */
  datatype Timer = Timer(wait: nat, sts: seq<string>)

  class Responder {
    var device: DeviceView
    var options: ResponseOptions
    var sent: seq<string>
    var timers: seq<Timer>

    constructor(device: DeviceView, options: ResponseOptions)
      ensures this.device == device && this.options == options && sent == [] && timers == []
    {
      this.device := device;
      this.options := options;
      sent := [];
      timers := [];
    }

    /** The responses for a list of targets, in order. */
    function Responses(sts: seq<string>, date: string, userAgent: string): (rs: seq<string>)
      reads this
      ensures |rs| == |sts|
      ensures forall i :: 0 <= i < |sts| ==> rs[i] == Response(sts[i], device, options, date, userAgent)
    {
      seq(|sts|, i requires 0 <= i < |sts| reads this => Response(sts[i], device, options, date, userAgent))
    }

    /** `send_response` for each target, in order. */
    method SendResponses(sts: seq<string>, date: string, userAgent: string)
      modifies this
      ensures sent == old(sent) + Responses(sts, date, userAgent)
      ensures device == old(device) && options == old(options) && timers == old(timers)
    {
      var i := 0;
      while i < |sts|
        invariant 0 <= i <= |sts|
        invariant sent == old(sent) + Responses(sts[..i], date, userAgent)
        invariant device == old(device) && options == old(options) && timers == old(timers)
      {
        sent := sent + [Response(sts[i], device, options, date, userAgent)];
        i := i + 1;
      }
      assert sts[..i] == sts;
    }

    /**
     * `receive_data`: a unicast request is answered at once; a multicast one arms one
     * timer whose wait is below the bound on MX; every other outcome sends nothing.
     */
    method ReceiveData(data: string, multicast: bool, seed: nat, date: string, userAgent: string) returns (o: Outcome)
      modifies this
      ensures o == OutcomeOf(data, old(device), multicast)
      ensures Acted(o, old(sent), old(timers), date, userAgent)
      ensures device == old(device) && options == old(options)
    {
      if data == [] {
        return ReadError;
      }
      var (h, rest) := Http.GetHttpVerb(data).value;
      var headers := Http.GetHttpHeaders(rest);
      o := Decide(h, headers, device, multicast);
      Act(o, if "mx" in headers then Some(headers["mx"]) else None, seed, date, userAgent);
    }

    /** The effect of an outcome on what was sent and on the armed timers. */
    ghost predicate Acted(o: Outcome, sent0: seq<string>, timers0: seq<Timer>, date: string, userAgent: string)
      reads this
    {
      && (o.Immediate? ==> sent == sent0 + Responses(o.sts, date, userAgent) && timers == timers0)
      && (o.Delayed? ==>
            && sent == sent0 && |timers| == |timers0| + 1 && timers[..|timers0|] == timers0
            && timers[|timers0|].sts == o.sts && timers[|timers0|].wait < o.bound)
      && (!o.Immediate? && !o.Delayed? ==> sent == sent0 && timers == timers0)
    }

    /** Run the callback now, arm it with a random wait, or do nothing. */
    method Act(o: Outcome, mx: Option<string>, seed: nat, date: string, userAgent: string)
      requires o.Delayed? ==> mx.Some? && o.bound == WaitBound(mx.value)
      modifies this
      ensures Acted(o, old(sent), old(timers), date, userAgent)
      ensures device == old(device) && options == old(options)
    {
      match o {
        case Immediate(sts) => SendResponses(sts, date, userAgent);
        case Delayed(bound, sts) => timers := timers + [Timer(Wait(mx.value, seed), sts)];
        case _ =>
      }
    }
  }
}
