/**
 * `RUPNP::HTTP` (lib/rupnp/http.rb): the helpers that read an HTTPU message from a
 * stream. A stream is its remaining text; each helper returns what it leaves unread.
 * Header names are `[\w\.-]+`, so a dotted name such as `BOOTID.UPNP.ORG` is kept whole;
 * the request line has `HTTP/` before the version.
 */
module Http {
  import opened RubyText
  import opened HttpMatch

  /** The character class of header names. */
  const HeaderNames: CharClass := WordDotDash

  /**
   * `is_http_status_ok?`: read the first line and match the status pattern. None is the
   * EOFError that `readline` raises on an empty stream.
   */
  function IsHttpStatusOk(data: string): (r: Option<(bool, string)>)
    ensures r.None? <==> data == []
    ensures r.Some? ==> var (line, rest) := ReadLine(data).value;
      r.value.1 == rest && (r.value.0 <==> EndsWithStatusOk(line))
  {
    match ReadLine(data)
    case None => None
    case Some((line, rest)) =>
      StatusSearchIffEndsWith(line);
      Some((StatusSearch(line, 0), rest))
  }

  /**
   * `get_http_verb`: read the first line and split it with `([\w-]+)\s+(.*)\s+HTTP\/(\d\.\d)`;
   * None is the EOFError of an empty stream, `Some((None, rest))` the nil of a line that
   * does not match.
   */
  function GetHttpVerb(data: string): (r: Option<(Option<RequestLine>, string)>)
    ensures r.None? <==> data == []
    ensures r.Some? ==> r.value.1 == ReadLine(data).value.1
    ensures r.Some? && r.value.0.Some? ==> var h := r.value.0.value;
      h.cmd == ReadLine(data).value.0 && |h.httpVersion| == 3 && h.verb != []
  {
    match ReadLine(data)
    case None => None
    case Some((line, rest)) => Some((MatchRequestLine(line, WordDash, Slash), rest))
  }

  /**
   * `get_http_headers`: every remaining line that matches `([\w\.-]+):\s*(.*)` stores the
   * stripped value under the downcased name, in order.
   */
  method GetHttpHeaders(data: string) returns (headers: map<string, string>)
    ensures headers == HeaderMap(Lines(data), HeaderNames, Stripped)
  {
    headers := CollectHeaders(Lines(data), HeaderNames, Stripped);
  }

  /** A well-formed request line is split into its verb, path and version. */
  lemma GetHttpVerbOfRequest(verb: string, path: string, d1: char, d2: char, rest: string)
    requires verb != [] && AllIn(verb, 0, |verb|, WordDash)
    requires NoSpaceIn(path) && path != [] && IsDigit(d1) && IsDigit(d2)
    ensures var line := RequestText(verb, path, d1, d2);
      GetHttpVerb(line + rest) == Some((Some(RequestLine(verb, path, [d1, '.', d2], line)), rest))
  {
    var line := RequestText(verb, path, d1, d2);
    RequestTextHasLayout(verb, path, d1, d2);
    ReadLineOf(line, rest);
    SlashSeparatorSplitsRequestText(verb, path, d1, d2);
  }

  /** `NOTIFY * HTTP/1.1` is read as verb `NOTIFY`, path `*`, version `1.1`. */
  lemma GetHttpVerbOfNotify(rest: string)
    ensures GetHttpVerb("NOTIFY * HTTP/1.1\r\n" + rest) ==
      Some((Some(RequestLine("NOTIFY", "*", "1.1", "NOTIFY * HTTP/1.1\r\n")), rest))
  {
    NotifyLineIsRequestText();
    assert AllIn("NOTIFY", 0, 6, WordDash);
    GetHttpVerbOfRequest("NOTIFY", "*", '1', '1', rest);
  }

  /** `M-SEARCH * HTTP/1.1` is read as verb `M-SEARCH`, path `*`, version `1.1`. */
  lemma GetHttpVerbOfMSearch(rest: string)
    ensures GetHttpVerb("M-SEARCH * HTTP/1.1\r\n" + rest) ==
      Some((Some(RequestLine("M-SEARCH", "*", "1.1", "M-SEARCH * HTTP/1.1\r\n")), rest))
  {
    MSearchLineIsRequestText();
    assert AllIn("M-SEARCH", 0, 8, WordDash);
    GetHttpVerbOfRequest("M-SEARCH", "*", '1', '1', rest);
  }

  /** A header line `Name: value` is stored under the whole downcased name, dots included. */
  lemma HeaderEntryOfDottedName(name: string, value: string)
    requires name != [] && AllIn(name, 0, |name|, WordDotDash)
    requires value != [] && !IsStripChar(value[0]) && !IsStripChar(value[|value| - 1])
    requires forall k :: 0 <= k < |value| ==> value[k] != '\n'
    ensures HeaderEntry(name + ": " + value + "\r\n", HeaderNames, Stripped) == Some((Downcase(name), value))
  {
    var rest := " " + value + "\r\n";
    assert name + ": " + value + "\r\n" == name + ":" + rest;
    HeaderLineOf(name, rest, WordDotDash);
    ValueOfHeaderRest(value);
    StripDropsCr(value);
  }

  lemma BootIdLineLayout()
    ensures "BOOTID.UPNP.ORG: 7\r\n" == "BOOTID.UPNP.ORG" + ": " + "7" + "\r\n"
    ensures AllIn("BOOTID.UPNP.ORG", 0, 15, WordDotDash) && Downcase("BOOTID.UPNP.ORG") == "bootid.upnp.org"
  {
  }

  /** `BOOTID.UPNP.ORG: 7` is stored under `bootid.upnp.org`. */
  lemma BootIdHeaderKeyedWhole()
    ensures HeaderEntry("BOOTID.UPNP.ORG: 7\r\n", HeaderNames, Stripped) == Some(("bootid.upnp.org", "7"))
  {
    BootIdLineLayout();
    HeaderEntryOfDottedName("BOOTID.UPNP.ORG", "7");
  }
}
