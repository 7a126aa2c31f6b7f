/**
 * `RUPNP::SSDP::HTTP` (lib/rupnp/ssdp/http.rb): the same three stream helpers as
 * `RUPNP::HTTP`, with narrower patterns. Header names are `[\w-]+`, so a dotted name is
 * keyed by its last segment; verbs are `\w+`; and `HTTP\s+` demands white space between
 * `HTTP` and the version, which no `HTTP/1.1` request line has.
 */
module SsdpHttp {
  import opened RubyText
  import opened HttpMatch
  import Http

  /** The character class of header names. */
  const HeaderNames: CharClass := WordDash

  /** `is_http_status_ok?`: the same pattern as in `RUPNP::HTTP`. */
  function IsHttpStatusOk(data: string): (r: Option<(bool, string)>)
    ensures r.None? <==> data == []
    ensures r.Some? ==> var (line, rest) := ReadLine(data).value;
      r.value.1 == rest && (r.value.0 <==> EndsWithStatusOk(line))
  {
    match ReadLine(data)
    case None => None
    case Some((line, rest)) =>
      StatusSearchIffEndsWith(line);
      Some((StatusSearch(line, 0), rest))
  }

  /** `get_http_verb` with `(\w+)\s+(.*)\s+HTTP\s+(\d\.\d)`. */
  function GetHttpVerb(data: string): (r: Option<(Option<RequestLine>, string)>)
    ensures r.None? <==> data == []
    ensures r.Some? ==> r.value.1 == ReadLine(data).value.1
    ensures r.Some? && r.value.0.Some? ==> var h := r.value.0.value;
      h.cmd == ReadLine(data).value.0 && |h.httpVersion| == 3 && h.verb != []
  {
    match ReadLine(data)
    case None => None
    case Some((line, rest)) => Some((MatchRequestLine(line, Word, Spaces), rest))
  }

  /** `get_http_headers` with `([\w-]+):\s*(.*)`. */
  method GetHttpHeaders(data: string) returns (headers: map<string, string>)
    ensures headers == HeaderMap(Lines(data), HeaderNames, Stripped)
  {
    headers := CollectHeaders(Lines(data), HeaderNames, Stripped);
  }

  /** Both codecs accept the same status lines. */
  lemma StatusCheckAgrees(data: string)
    ensures IsHttpStatusOk(data) == Http.IsHttpStatusOk(data)
  {
  }

  /**
   * No well-formed request line `VERB SP path SP HTTP/d.d CRLF` is recognised: the
   * pattern wants white space after `HTTP`, where the line has '/'.
   */
  lemma GetHttpVerbRejectsRequest(verb: string, path: string, d1: char, d2: char, rest: string)
    requires NoSpaceIn(verb) && NoSpaceIn(path) && path != [] && !IsDigit(path[0])
    requires IsDigit(d1) && IsDigit(d2)
    ensures GetHttpVerb(RequestText(verb, path, d1, d2) + rest) == Some((None, rest))
  {
    var line := RequestText(verb, path, d1, d2);
    RequestTextHasLayout(verb, path, d1, d2);
    ReadLineOf(line, rest);
    SpacesSeparatorRejectsRequestText(verb, path, d1, d2, Word);
  }

  /** In particular every SSDP advertisement line `NOTIFY * HTTP/1.1` reads as nil. */
  lemma GetHttpVerbRejectsNotify(rest: string)
    ensures GetHttpVerb("NOTIFY * HTTP/1.1\r\n" + rest) == Some((None, rest))
  {
    NotifyLineIsRequestText();
    GetHttpVerbRejectsRequest("NOTIFY", "*", '1', '1', rest);
  }

  /** And so does every search line `M-SEARCH * HTTP/1.1`. */
  lemma GetHttpVerbRejectsMSearch(rest: string)
    ensures GetHttpVerb("M-SEARCH * HTTP/1.1\r\n" + rest) == Some((None, rest))
  {
    MSearchLineIsRequestText();
    GetHttpVerbRejectsRequest("M-SEARCH", "*", '1', '1', rest);
  }

  /** A dotted header `prefix.last: value` is stored under its downcased last segment only. */
  lemma HeaderEntryOfDottedName(prefix: string, last: string, value: string)
    requires forall t :: 0 <= t < |prefix| ==> prefix[t] != ':'
    requires last != [] && AllIn(last, 0, |last|, WordDash)
    requires value != [] && !IsStripChar(value[0]) && !IsStripChar(value[|value| - 1])
    requires forall k :: 0 <= k < |value| ==> value[k] != '\n'
    ensures HeaderEntry(prefix + "." + last + ": " + value + "\r\n", HeaderNames, Stripped) == Some((Downcase(last), value))
  {
    var rest := " " + value + "\r\n";
    assert prefix + "." + last + ": " + value + "\r\n" == prefix + "." + last + ":" + rest;
    DottedHeaderLine(prefix, last, rest);
    ValueOfHeaderRest(value);
    StripDropsCr(value);
  }

  lemma BootIdLineLayout()
    ensures "BOOTID.UPNP.ORG: 7\r\n" == "BOOTID.UPNP" + "." + "ORG" + ": " + "7" + "\r\n"
    ensures AllIn("ORG", 0, 3, WordDash) && Downcase("ORG") == "org"
  {
  }

  /** `BOOTID.UPNP.ORG: 7` is stored under `org`. */
  lemma BootIdHeaderKeyedOrg()
    ensures HeaderEntry("BOOTID.UPNP.ORG: 7\r\n", HeaderNames, Stripped) == Some(("org", "7"))
  {
    BootIdLineLayout();
    HeaderEntryOfDottedName("BOOTID.UPNP", "ORG", "7");
  }
}
