/**
 * `SSDP::Listener` (lib/rupnp/ssdp/listener.rb): classifies every multicast datagram by
 * its request line and pushes the header map of each `NOTIFY * HTTP/1.1` onto
 * `notifications`. Logged warnings are appended to `warnings`.
 *
 * The listener reads with the `RUPNP::HTTP` patterns (see Http); with the
 * `RUPNP::SSDP::HTTP` patterns it mixes in, every NOTIFY line reads as nil
 * (NotifyDroppedWithSsdpCodec).
 */
module SsdpListener {
  import opened RubyText
  import opened HttpMatch
  import Http
  import SsdpHttp

  /** The four ways `receive_data` ends for a request line. */
  datatype Verdict =
    | NoHttpCommand    // nil request line: warning "No HTTP command"
    | MSearchIgnored   // verb exactly "M-SEARCH": dropped silently
    | UnknownCommand   // anything but NOTIFY * 1.1: warning "Unknown HTTP command: <cmd>"
    | Notification     // header map pushed

  /** What became of a datagram: the EOFError of an empty one, or a verdict. */
  datatype Receipt = ReadError | Handled(verdict: Verdict)

  /** The tests of `receive_data`, in their order. */
  function Classify(h: Option<RequestLine>): (v: Verdict)
    ensures v == NoHttpCommand <==> h.None?
    ensures v == MSearchIgnored <==> h.Some? && h.value.verb == "M-SEARCH"
    ensures v == Notification <==>
      h.Some? && h.value.verb != "M-SEARCH" && Upcase(h.value.verb) == "NOTIFY" && h.value.path == "*" && h.value.httpVersion == "1.1"
  {
    match h
    case None => NoHttpCommand
    case Some(r) =>
      if r.verb == "M-SEARCH" then MSearchIgnored
      else if !(Upcase(r.verb) == "NOTIFY" && r.path == "*" && r.httpVersion == "1.1") then UnknownCommand
      else Notification
  }

  /** The verdict on a datagram read with the `RUPNP::HTTP` request-line pattern. */
  function ReceiptOf(data: string): (r: Receipt)
    ensures r == ReadError <==> data == []
  {
    match Http.GetHttpVerb(data)
    case None => ReadError
    case Some((h, _)) => Handled(Classify(h))
  }

  /** The same with the `RUPNP::SSDP::HTTP` request-line pattern. */
  function ReceiptWithSsdpCodec(data: string): (r: Receipt)
    ensures r == ReadError <==> data == []
  {
    match SsdpHttp.GetHttpVerb(data)
    case None => ReadError
    case Some((h, _)) => Handled(Classify(h))
  }

  /** The warning a verdict logs, if any. */
  function WarningOf(v: Verdict, h: Option<RequestLine>): (w: Option<string>)
    ensures w.Some? <==> v == NoHttpCommand || v == UnknownCommand
  {
    match v
    case NoHttpCommand => Some("No HTTP command")
    case UnknownCommand => Some("Unknown HTTP command: " + (if h.Some? then h.value.cmd else ""))
    case _ => None
  }

  class Listener {
    var notifications: seq<map<string, string>>
    var warnings: seq<string>

    constructor()
      ensures notifications == [] && warnings == []
    {
      notifications := [];
      warnings := [];
    }

    /**
     * `receive_data`: a NOTIFY * 1.1 datagram appends exactly one header map, read from
     * the lines after the request line; every other datagram appends none.
     */
    method ReceiveData(data: string) returns (r: Receipt)
      modifies this
      ensures r == ReceiptOf(data)
      ensures r == Handled(Notification) ==>
        notifications == old(notifications) + [HeaderMap(Lines(ReadLine(data).value.1), Http.HeaderNames, Stripped)]
      ensures r != Handled(Notification) ==> notifications == old(notifications)
      ensures r.Handled? && WarningOf(r.verdict, Http.GetHttpVerb(data).value.0).Some? ==>
        warnings == old(warnings) + [WarningOf(r.verdict, Http.GetHttpVerb(data).value.0).value]
      ensures (r.ReadError? || WarningOf(r.verdict, Http.GetHttpVerb(data).value.0).None?) ==> warnings == old(warnings)
    {
      r := ReceiptOf(data);
      if r.Handled? {
        var (h, rest) := Http.GetHttpVerb(data).value;
        match WarningOf(r.verdict, h) {
          case Some(w) => warnings := warnings + [w];
          case None =>
        }
        if r.verdict == Notification {
          var headers := Http.GetHttpHeaders(rest);
          notifications := notifications + [headers];
        }
      }
    }
  }

  /** Every advertisement is pushed: `NOTIFY * HTTP/1.1` is a notification. */
  lemma NotifyIsNotification(rest: string)
    ensures ReceiptOf("NOTIFY * HTTP/1.1\r\n" + rest) == Handled(Notification)
  {
    Http.GetHttpVerbOfNotify(rest);
    NotifyUpcase();
  }

  lemma NotifyUpcase()
    ensures Upcase("NOTIFY") == "NOTIFY" && Upcase("notify") == "NOTIFY"
  {
  }

  /** With the `RUPNP::SSDP::HTTP` patterns every advertisement is dropped as "No HTTP command". */
  lemma NotifyDroppedWithSsdpCodec(rest: string)
    ensures ReceiptWithSsdpCodec("NOTIFY * HTTP/1.1\r\n" + rest) == Handled(NoHttpCommand)
  {
    SsdpHttp.GetHttpVerbRejectsNotify(rest);
  }

  /** A search request is dropped without a warning. */
  lemma MSearchIsIgnored(rest: string)
    ensures ReceiptOf("M-SEARCH * HTTP/1.1\r\n" + rest) == Handled(MSearchIgnored)
    ensures WarningOf(MSearchIgnored, None).None?
  {
    Http.GetHttpVerbOfMSearch(rest);
  }

  /** The NOTIFY verb is compared case-insensitively; the M-SEARCH verb is not. */
  lemma VerbCase(cmd: string)
    ensures Classify(Some(RequestLine("notify", "*", "1.1", cmd))) == Notification
    ensures Classify(Some(RequestLine("m-search", "*", "1.1", cmd))) == UnknownCommand
  {
    NotifyUpcase();
    assert Upcase("m-search") != "NOTIFY" by { assert |Upcase("m-search")| == 8; }
  }
}
