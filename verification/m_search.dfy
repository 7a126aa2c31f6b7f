/**
 * `SSDP::M_Search` (lib/rupnp/ssdp/m_search.rb): the search request a control point
 * multicasts, before serialisation. Its serialisation is delegated to Net::HTTP and is
 * not part of this model.
 */
module MSearch {
  import opened RubyText
  import opened Constants

  /** A request: method, path and header hash. */
  datatype Request = Request(verb: string, path: string, headers: map<string, string>)

  /** `M_Search.new(search_target, response_wait_time)`; `USER_AGENT` is a parameter. */
  function Build(searchTarget: string, responseWaitTime: Option<int>, userAgent: string): (r: Request)
    ensures r.verb == "M-SEARCH" && r.path == "*"
    ensures r.headers.Keys == {"HOST", "MAN", "MX", "ST", "USER-AGENT"}
    ensures r.headers["HOST"] == MulticastIp && r.headers["MAN"] == "\"ssdp:discover\""
    ensures r.headers["ST"] == searchTarget && r.headers["USER-AGENT"] == userAgent
    ensures responseWaitTime.None? ==> r.headers["MX"] == ""
  {
    Request("M-SEARCH", "*", map[
      "HOST" := MulticastIp,
      "MAN" := "\"ssdp:discover\"",
      "MX" := MxText(responseWaitTime),
      "ST" := searchTarget,
      "USER-AGENT" := userAgent])
  }

  /** `response_wait_time.to_s`: the decimal text of the wait, "" for nil. */
  function MxText(responseWaitTime: Option<int>): (t: string)
    ensures responseWaitTime.Some? ==> ToI(t) == responseWaitTime.value
    ensures responseWaitTime.None? <==> t == []
  {
    match responseWaitTime
    case None => ""
    case Some(w) => IntToSRoundTrip(w); IntToS(w)
  }

  /** A responder reading MX back with `to_i` gets the wait the searcher asked for. */
  lemma MxReadsBack(searchTarget: string, responseWaitTime: int, userAgent: string)
    ensures ToI(Build(searchTarget, Some(responseWaitTime), userAgent).headers["MX"]) == responseWaitTime
  {
  }
}
