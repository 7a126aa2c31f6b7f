/**
 * `RUPNP::CP::EventSubscriber` (lib/rupnp/cp/event_subscriber.rb): the connection that
 * sends a SUBSCRIBE message and reads the device's reply. The reply's first line must
 * match `HTTP\/1\.1 (\d+) (.+)`; then the reason goes under `status`, the digits under
 * `status_code`, every later line that matches `(\w+):\s*(.*)` stores its chomped value
 * under the downcased name, and the hash is pushed to the `response` channel. A reply
 * whose first line does not match pushes nothing.
 */
module CpEventSubscriber {
  import opened RubyText
  import opened HttpMatch

  /** The reply hash, keyed by the symbols' names. */
  type Response = map<string, string>

  /** The names of header keys: `\w+`. */
  const HeaderNames: CharClass := Word

  /** The hash a matched status line starts with. */
  function StatusFields(code: string, reason: string): (r: Response)
    ensures r.Keys == {"status", "status_code"} && r["status"] == reason && r["status_code"] == code
  {
    map["status" := reason, "status_code" := code]
  }

  /**
   * What `receive_data` makes of `data`: None is the EOFError of `readline` on empty data;
   * `Some(None)` a first line that does not match; otherwise the hash it pushes, whose
   * header entries override the status fields of the same name.
   */
  function Reply(data: string): (r: Option<Option<Response>>)
    ensures r.None? <==> data == []
    ensures r.Some? ==> (r.value.Some? <==> MatchResponseLine(ReadLine(data).value.0).Some?)
  {
    match ReadLine(data)
    case None => None
    case Some((line, rest)) =>
      match MatchResponseLine(line)
      case None => Some(None)
      case Some((code, reason)) => Some(Some(StatusFields(code, reason) + HeaderMap(Lines(rest), HeaderNames, Chomped)))
  }

  /** Storing into a merged hash is storing into its right-hand side. */
  lemma MergeThenStore(base: Response, h: Response, k: string, v: string)
    ensures (base + h)[k := v] == base + h[k := v]
  {
  }

  /** The `each_line` loop: each matching line stores its chomped value under its downcased name. */
  method FillHeaders(base: Response, ls: seq<string>) returns (resp: Response)
    ensures resp == base + HeaderMap(ls, HeaderNames, Chomped)
  {
    resp := base;
    var i := 0;
    while i < |ls|
      invariant 0 <= i <= |ls|
      invariant resp == base + HeaderMap(ls[..i], HeaderNames, Chomped)
    {
      HeaderMapStep(ls, i, HeaderNames, Chomped);
      match HeaderEntry(ls[i], HeaderNames, Chomped) {
        case Some((k, v)) =>
          MergeThenStore(base, HeaderMap(ls[..i], HeaderNames, Chomped), k, v);
          resp := resp[k := v];
        case None =>
      }
      i := i + 1;
    }
    assert ls[..|ls|] == ls;
  }

  class EventSubscriber {
    const msg: string
    /** What `send_data` wrote. */
    var sent: seq<string>
    /** What was pushed to the `response` channel. */
    var responses: seq<Response>

    /** `EventSubscriber.new(msg)` */
    constructor(msg: string)
      ensures this.msg == msg && sent == [] && responses == []
    {
      this.msg := msg;
      sent := [];
      responses := [];
    }

    /** `post_init`: the message is sent once. */
    method PostInit()
      modifies this`sent
      ensures sent == old(sent) + [msg]
    {
      sent := sent + [msg];
    }

    /** `receive_data(data)`: the hash is filled line by line, then pushed; `raised` is the EOFError of empty data. */
    method ReceiveData(data: string) returns (raised: bool)
      modifies this`responses
      ensures raised <==> Reply(data).None?
      ensures responses == old(responses) + (if Reply(data).Some? && Reply(data).value.Some? then [Reply(data).value.value] else [])
    {
      var r := ReadLine(data);
      if r.None? {
        return true;
      }
      var (line, rest) := r.value;
      raised := false;
      var m := MatchResponseLine(line);
      if m.Some? {
        var (code, reason) := m.value;
        var resp := FillHeaders(StatusFields(code, reason), Lines(rest));
        responses := responses + [resp];
      }
    }
  }

  /** A header line `Name: value` CR LF gives the downcased name and the value without the line end. */
  lemma HeaderEntryOfLine(name: string, value: string)
    requires name != [] && AllIn(name, 0, |name|, HeaderNames)
    requires value != [] && !IsSpace(value[0]) && forall k :: 0 <= k < |value| ==> value[k] != '\n'
    ensures HeaderEntry(name + ": " + value + "\r\n", HeaderNames, Chomped) == Some((Downcase(name), value))
  {
    var rest := " " + value + "\r\n";
    assert name + ": " + value + "\r\n" == name + ":" + rest;
    HeaderLineOf(name, rest, HeaderNames);
    ValueOfHeaderRest(value);
    assert (value + "\r")[..|value|] == value;
  }

  /**
   * The status line of a reply `HTTP/1.1 <code> <reason>` CR LF: the digits go under
   * `status_code` and the reason, with the line's carriage return (`.` matches '\r'),
   * under `status`, unless a header line of the same name overrides them.
   */
  lemma ReplyStatusFields(code: string, reason: string, rest: string)
    requires code != [] && forall i :: 0 <= i < |code| ==> IsDigit(code[i])
    requires reason != [] && forall i :: 0 <= i < |reason| ==> reason[i] != '\n'
    requires forall k :: k in HeaderMap(Lines(rest), HeaderNames, Chomped) ==> k != "status" && k != "status_code"
    ensures var r := Reply("HTTP/1.1 " + code + " " + reason + "\r\n" + rest);
      r.Some? && r.value.Some? && r.value.value["status_code"] == code && r.value.value["status"] == reason + "\r"
  {
    var line := "HTTP/1.1 " + code + " " + reason + "\r\n";
    assert line == "HTTP/1.1 " + code + " " + (reason + "\r") + "\n";
    ResponseLineOf(code, reason + "\r", "\n");
    ReadLineOf(line, rest);
    assert line + rest == "HTTP/1.1 " + code + " " + reason + "\r\n" + rest;
  }
}
