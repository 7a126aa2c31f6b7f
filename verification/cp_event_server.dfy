/**
 * `RUPNP::CP::EventServer` (lib/rupnp/cp/event_server.rb): the control point's HTTP
 * server for GENA event notifications. A class-wide table holds the events subscribed
 * to; a request is checked in a fixed order (verb, callback URL, NT/NTS presence,
 * NT/NTS/SID values, SID of the subscription), the first failing check decides the
 * error status, and a request that passes them all is pushed to its event.
 *
 * The request's headers are the server's `@http` hash, keyed by lower-case name; the
 * content is passed on as text.
 */
module CpEventServer {
  import opened RubyText
  import GenaEvent

  type Event = GenaEvent.Event

  const NotifyVerb: string := "NOTIFY"
  const EventNt: string := "upnp:event"
  const PropChange: string := "upnp:propchange"

  /** How a request is answered. */
  datatype Verdict =
    | MethodNotAllowed                       // 405, with `Allow: NOTIFY`
    | NotFound                               // 404: no event has this callback URL
    | BadRequest                             // 400: NT or NTS missing
    | PreconditionFailed                     // 412: NT, NTS or SID wrong
    | UnknownSid                             // 412: the SID is not the subscription's
    | Deliver(event: Event, seqNumber: int)  // the change goes to `event`

  /** The response status of a verdict (a delivery keeps the response's default 200). */
  function StatusOf(v: Verdict): (code: int)
    ensures code == 200 <==> v.Deliver?
    ensures code == 412 <==> v.PreconditionFailed? || v.UnknownSid?
  {
    match v
    case MethodNotAllowed => 405
    case NotFound => 404
    case BadRequest => 400
    case PreconditionFailed => 412
    case UnknownSid => 412
    case Deliver(_, _) => 200
  }

  /** `@@events.find { |e| e.callback_url == uri }`, as the index of the first such event. */
  function CallbackIndex(events: seq<Event>, uri: string): (i: Option<nat>)
    ensures i.Some? ==> i.value < |events| && events[i.value].callbackUrl == uri
    ensures i.Some? ==> forall j :: 0 <= j < i.value ==> events[j].callbackUrl != uri
    ensures i.None? <==> forall j :: 0 <= j < |events| ==> events[j].callbackUrl != uri
  {
    if events == [] then None
    else if events[0].callbackUrl == uri then Some(0)
    else
      match CallbackIndex(events[1..], uri)
      case None => None
      case Some(k) => Some(k + 1)
  }

  /** NT and NTS are those of a property change and the SID is given and not empty. */
  predicate IsPropChange(headers: map<string, string>) {
    && "nt" in headers && headers["nt"] == EventNt
    && "nts" in headers && headers["nts"] == PropChange
    && "sid" in headers && headers["sid"] != ""
  }

  /**
   * `process_http_request`: the checks in the source's order; the first that fails
   * decides. A request is delivered exactly when it is a NOTIFY to the callback URL of an
   * event, it is a property change, and its SID is the one that event's subscription got;
   * it then goes to the first such event, with SEQ read as an integer (0 when absent).
   */
  function Decide(verb: string, uri: string, headers: map<string, string>, events: seq<Event>): (v: Verdict)
    ensures v.MethodNotAllowed? <==> verb != NotifyVerb
    ensures v.NotFound? <==> (verb == NotifyVerb && CallbackIndex(events, uri).None?)
    ensures v.BadRequest? <==>
      (verb == NotifyVerb && CallbackIndex(events, uri).Some? && ("nt" !in headers || "nts" !in headers))
    ensures v.PreconditionFailed? <==>
      (verb == NotifyVerb && CallbackIndex(events, uri).Some?
       && "nt" in headers && "nts" in headers && !IsPropChange(headers))
    ensures v.Deliver? <==>
      (verb == NotifyVerb && CallbackIndex(events, uri).Some? && IsPropChange(headers)
       && events[CallbackIndex(events, uri).value].sid == Some(headers["sid"]))
    ensures v.Deliver? ==>
      (v.event in events && v.event.callbackUrl == uri && v.event.sid == Some(headers["sid"])
       && v.event.sid.value != "" && v.seqNumber == NilToI(HashGet(headers, "seq")))
  {
    if verb != NotifyVerb then MethodNotAllowed
    else match CallbackIndex(events, uri)
      case None => NotFound
      case Some(i) =>
        if "nt" !in headers || "nts" !in headers then BadRequest
        else if !IsPropChange(headers) then PreconditionFailed
        else if events[i].sid != Some(headers["sid"]) then UnknownSid
        else Deliver(events[i], NilToI(HashGet(headers, "seq")))
  }

  /** The headers of a GENA property-change NOTIFY as a device sends them. */
  function PropChangeHeaders(sid: string, seqNumber: nat): (h: map<string, string>)
    ensures h.Keys == {"nt", "nts", "sid", "seq"}
  {
    map["nt" := EventNt, "nts" := PropChange, "sid" := sid, "seq" := IntToS(seqNumber)]
  }

  /**
   * A device's property change, sent to the callback URL of the subscription it belongs
   * to with that subscription's SID, reaches the event with its sequence number.
   */
  lemma DeviceNotifyDelivered(events: seq<Event>, i: nat, seqNumber: nat)
    requires i < |events| && events[i].sid.Some? && events[i].sid.value != ""
    requires forall j :: 0 <= j < i ==> events[j].callbackUrl != events[i].callbackUrl
    ensures Decide(NotifyVerb, events[i].callbackUrl, PropChangeHeaders(events[i].sid.value, seqNumber), events)
      == Deliver(events[i], seqNumber)
  {
    var h := PropChangeHeaders(events[i].sid.value, seqNumber);
    var c := CallbackIndex(events, events[i].callbackUrl);
    assert c == Some(i);
    assert IsPropChange(h);
    IntToSRoundTrip(seqNumber);
  }

  /** The class-wide table `@@events`, with `add_event`, `remove_event` and the request handler. */
  class EventTable {
    var events: seq<Event>

    constructor()
      ensures events == []
    {
      events := [];
    }

    /** `add_event(event)`: through the `@@add_event` channel, the event is appended. */
    method AddEvent(e: Event)
      modifies this
      ensures events == old(events) + [e]
    {
      events := events + [e];
    }

    /** `remove_event(event)`: every entry that is this event goes. */
    method RemoveEvent(e: Event)
      modifies this
      ensures events == ArrayDelete(old(events), e)
    {
      events := ArrayDelete(events, e);
    }

    /**
     * `process_http_request`: answer with the verdict's status (and `Allow: NOTIFY` on a
     * 405); a delivery pushes `{seq, content}` to its event and changes nothing else.
     */
    method ProcessHttpRequest(verb: string, uri: string, headers: map<string, string>, content: string)
      returns (status: int, allow: Option<string>)
      modifies events
      ensures var v := Decide(verb, uri, headers, events);
        && status == StatusOf(v)
        && (allow.Some? <==> v.MethodNotAllowed?) && (allow.Some? ==> allow.value == NotifyVerb)
        && (v.Deliver? ==> v.event.messages == old(v.event.messages) + [GenaEvent.Notified(v.seqNumber, content)])
        && (v.Deliver? ==> unchanged(v.event`timeout, v.event`timer, v.event`cancelled, v.event`requests))
        && (forall e :: e in events && !(v.Deliver? && e == v.event) ==> unchanged(e))
    {
      var v := Decide(verb, uri, headers, events);
      status := StatusOf(v);
      allow := if v.MethodNotAllowed? then Some(NotifyVerb) else None;
      if v.Deliver? {
        v.event.Push(GenaEvent.Notified(v.seqNumber, content));
      }
    }
  }
}
