/**
 * `RUPNP::EventServer` (lib/rupnp/event_server.rb): an HTTP server fed, through a
 * channel, with `[url, event]` pairs. A request to the URL of a pair whose second element
 * is an event is forwarded to that event when it is a property-change NOTIFY, and logged
 * otherwise; a request to any other URL is ignored. No response is sent.
 */
module UpnpEventServer {
  import opened RubyText
  import GenaEvent

  type Event = GenaEvent.Event

  /** A pair received on the `add_url` channel; None stands for a second element that is not an event. */
  type UrlEntry = (string, Option<Event>)

  const NotifyVerb: string := "NOTIFY"
  const EventNt: string := "upnp:event"
  const PropChange: string := "upnp:propchange"

  /** What becomes of a request. */
  datatype Outcome =
    | Ignored                 // no event for this URL
    | Forwarded(event: Event) // pushed to `event`
    | MalformedLogged         // a NOTIFY that is not a property change
    | UnknownVerbLogged       // any other verb

  /** `@urls.find { |a| a[0] == uri }`, as the index of the first such pair. */
  function UrlIndex(urls: seq<UrlEntry>, uri: string): (i: Option<nat>)
    ensures i.Some? ==> i.value < |urls| && urls[i.value].0 == uri
    ensures i.Some? ==> forall j :: 0 <= j < i.value ==> urls[j].0 != uri
    ensures i.None? <==> forall j :: 0 <= j < |urls| ==> urls[j].0 != uri
  {
    if urls == [] then None
    else if urls[0].0 == uri then Some(0)
    else
      match UrlIndex(urls[1..], uri)
      case None => None
      case Some(k) => Some(k + 1)
  }

  /** The event registered for `uri`: the second element of the first pair for it, when that is an event. */
  function EventFor(urls: seq<UrlEntry>, uri: string): (e: Option<Event>)
    ensures e.Some? ==> UrlIndex(urls, uri).Some? && urls[UrlIndex(urls, uri).value].1 == e
    ensures (forall j :: 0 <= j < |urls| ==> urls[j].0 != uri) ==> e.None?
  {
    match UrlIndex(urls, uri)
    case None => None
    case Some(i) => urls[i].1
  }

  /**
   * `process_http_request`: nothing happens unless the URL belongs to an event; then a
   * NOTIFY whose NT and NTS are those of a property change is forwarded, and anything
   * else is logged.
   */
  function Decide(urls: seq<UrlEntry>, verb: string, uri: string, headers: map<string, string>): (o: Outcome)
    ensures o.Ignored? <==> EventFor(urls, uri).None?
    ensures o.Forwarded? <==>
      (EventFor(urls, uri).Some? && verb == NotifyVerb
       && HashGet(headers, "nt") == Some(EventNt) && HashGet(headers, "nts") == Some(PropChange))
    ensures o.Forwarded? ==> o.event == EventFor(urls, uri).value
    ensures o.UnknownVerbLogged? <==> (EventFor(urls, uri).Some? && verb != NotifyVerb)
  {
    match EventFor(urls, uri)
    case None => Ignored
    case Some(e) =>
      if verb != NotifyVerb then UnknownVerbLogged
      else if HashGet(headers, "nt") == Some(EventNt) && HashGet(headers, "nts") == Some(PropChange) then Forwarded(e)
      else MalformedLogged
  }

  /** The events the pairs hold. */
  function EventsOf(urls: seq<UrlEntry>): (es: set<Event>)
    ensures forall i :: 0 <= i < |urls| && urls[i].1.Some? ==> urls[i].1.value in es
  {
    set i | 0 <= i < |urls| && urls[i].1.Some? :: urls[i].1.value
  }

  class EventServer {
    var urls: seq<UrlEntry>

    /** `EventServer.new(add_url_channel)`: no URL yet. */
    constructor()
      ensures urls == []
    {
      urls := [];
    }

    /** A pair arrives on the `add_url` channel: it is appended. */
    method AddUrl(entry: UrlEntry)
      modifies this
      ensures urls == old(urls) + [entry]
    {
      urls := urls + [entry];
    }

    /** `process_http_request`: a forwarded request pushes `{sid, seq, content}` to its event and changes nothing else. */
    method ProcessHttpRequest(verb: string, uri: string, headers: map<string, string>, content: string)
      returns (o: Outcome)
      modifies EventsOf(urls)
      ensures o == Decide(urls, verb, uri, headers)
      ensures o.Forwarded? ==>
        (o.event.messages == old(o.event.messages) + [GenaEvent.Forwarded(HashGet(headers, "sid"), HashGet(headers, "seq"), content)])
      ensures o.Forwarded? ==> unchanged(o.event`timeout, o.event`timer, o.event`cancelled, o.event`requests)
      ensures forall e :: e in EventsOf(urls) && !(o.Forwarded? && e == o.event) ==> unchanged(e)
    {
      o := Decide(urls, verb, uri, headers);
      if o.Forwarded? {
        assert o.event in EventsOf(urls);
        o.event.Push(GenaEvent.Forwarded(HashGet(headers, "sid"), HashGet(headers, "seq"), content));
      }
    }
  }

  /** A pair added later does not hide an earlier one for the same URL: the first registration wins. */
  lemma {:induction false} FirstRegistrationWins(urls: seq<UrlEntry>, entry: UrlEntry, uri: string)
    requires UrlIndex(urls, uri).Some?
    ensures EventFor(urls + [entry], uri) == EventFor(urls, uri)
  {
    assert forall k :: 0 <= k < |urls| ==> (urls + [entry])[k] == urls[k];
  }

  /** An event registered under a URL no earlier pair uses is found under exactly that URL. */
  lemma RegisteredEventFound(urls: seq<UrlEntry>, url: string, e: Event)
    requires forall j :: 0 <= j < |urls| ==> urls[j].0 != url
    ensures EventFor(urls + [(url, Some(e))], url) == Some(e)
  {
    var s := urls + [(url, Some(e))];
    assert s[|urls|].0 == url;
    assert forall j :: 0 <= j < |urls| ==> s[j] == urls[j];
  }
}
