/**
 * `SSDP::Searcher` (lib/rupnp/ssdp/searcher.rb): multicasts the M-SEARCH request a
 * number of times and pushes the header map of every OK response onto
 * `discovery_responses`. Sending a datagram appends it to `sent`; the channel is a sequence.
 */
module SsdpSearcher {
  import opened RubyText
  import opened HttpMatch
  import opened Constants
  import MSearch
  import Http

  /** Number of M-SEARCH datagrams sent when `try_number` is not given. */
  const DefaultMSearchTry: int := 2

  /** A datagram sent to an address. */
  datatype Datagram = Datagram(request: MSearch.Request, ip: string, port: int)

  /** What became of a received datagram. */
  datatype Receipt =
    | Accepted     // pushed onto discovery_responses
    | BadResponse  // logged "bad HTTP response" and dropped
    | ReadError    // readline raised EOFError on an empty datagram

  /** `n.times { x }` collects n copies of x; no copies for n <= 0. */
  function Copies<T>(x: T, n: int): (r: seq<T>)
    ensures |r| == (if n < 0 then 0 else n)
    ensures forall i :: 0 <= i < |r| ==> r[i] == x
  {
    seq(if n < 0 then 0 else n, _ => x)
  }

  /** The verdict on a received datagram: the status check of its first line. */
  function ReceiptOf(data: string): (r: Receipt)
    ensures r == ReadError <==> data == []
    ensures r == Accepted <==> data != [] && EndsWithStatusOk(ReadLine(data).value.0)
  {
    match Http.IsHttpStatusOk(data)
    case None => ReadError
    case Some((ok, _)) => if ok then Accepted else BadResponse
  }

  class Searcher {
    var mSearch: MSearch.Request
    var mSearchCount: int
    var sent: seq<Datagram>
    var discoveryResponses: seq<map<string, string>>

    /** `Searcher.new(options)`: the request text and the number of copies to send. */
    constructor(searchTarget: string, responseWaitTime: Option<int>, tryNumber: Option<int>, userAgent: string)
      ensures mSearch == MSearch.Build(searchTarget, responseWaitTime, userAgent)
      ensures mSearchCount == (if tryNumber.Some? then tryNumber.value else DefaultMSearchTry)
      ensures sent == [] && discoveryResponses == []
    {
      mSearch := MSearch.Build(searchTarget, responseWaitTime, userAgent);
      mSearchCount := if tryNumber.Some? then tryNumber.value else DefaultMSearchTry;
      sent := [];
      discoveryResponses := [];
    }

    /** `post_init`: `m_search_count` identical datagrams to the multicast group. */
    method PostInit()
      modifies this
      ensures sent == old(sent) + Copies(Datagram(mSearch, MulticastIp, DiscoveryPort), mSearchCount)
      ensures mSearch == old(mSearch) && mSearchCount == old(mSearchCount)
      ensures discoveryResponses == old(discoveryResponses)
    {
      var d := Datagram(mSearch, MulticastIp, DiscoveryPort);
      var i := 0;
      while i < mSearchCount
        invariant 0 <= i && (mSearchCount >= 0 ==> i <= mSearchCount) && (mSearchCount < 0 ==> i == 0)
        invariant sent == old(sent) + Copies(d, i)
        invariant mSearch == old(mSearch) && mSearchCount == old(mSearchCount)
        invariant discoveryResponses == old(discoveryResponses)
      {
        sent := sent + [d];
        i := i + 1;
      }
      assert Copies(d, i) == Copies(d, mSearchCount);
    }

    /**
     * `receive_data`: a response whose first line is an OK status pushes exactly one
     * header map, made from the lines after it; anything else pushes nothing.
     */
    method ReceiveData(data: string) returns (r: Receipt)
      modifies this
      ensures r == ReceiptOf(data)
      ensures r == Accepted ==>
        discoveryResponses == old(discoveryResponses) + [HeaderMap(Lines(ReadLine(data).value.1), Http.HeaderNames, Stripped)]
      ensures r != Accepted ==> discoveryResponses == old(discoveryResponses)
      ensures mSearch == old(mSearch) && mSearchCount == old(mSearchCount) && sent == old(sent)
    {
      r := ReceiptOf(data);
      if r == Accepted {
        var headers := Http.GetHttpHeaders(ReadLine(data).value.1);
        discoveryResponses := discoveryResponses + [headers];
      }
    }
  }

  /** The default count sends two datagrams, all equal. */
  lemma DefaultSendsTwo(d: Datagram)
    ensures Copies(d, DefaultMSearchTry) == [d, d]
  {
  }
}
