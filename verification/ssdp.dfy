/**
 * `RUPNP::SSDP` (lib/rupnp/ssdp.rb): `SSDP.search` resolves a search target through
 * `KNOWN_TARGETS`, stores it in the caller's options hash and opens a Searcher on it.
 * Opening the datagram socket is not part of this model: the searcher is returned.
 */
module Ssdp {
  import opened RubyText
  import SsdpSearcher
  import MSearch

  /** A search target as the caller gives it: a Symbol or a String. */
  datatype Target = Symbol(name: string) | Text(s: string)

  /** `KNOWN_TARGETS[target]`: nil for anything but `:all` and `:root`. */
  function KnownTarget(t: Target): (r: Option<string>)
    ensures r.Some? <==> t == Symbol("all") || t == Symbol("root")
  {
    if t == Symbol("all") then Some("ssdp:all")
    else if t == Symbol("root") then Some("upnp:rootdevice")
    else None
  }

  /** `KNOWN_TARGETS[target] || target` */
  function Resolve(t: Target): (r: Target)
    ensures t == Symbol("all") ==> r == Text("ssdp:all")
    ensures t == Symbol("root") ==> r == Text("upnp:rootdevice")
    ensures t != Symbol("all") && t != Symbol("root") ==> r == t
  {
    match KnownTarget(t)
    case Some(s) => Text(s)
    case None => t
  }

  /** Resolving is idempotent: a resolved target resolves to itself. */
  lemma ResolveIdempotent(t: Target)
    ensures Resolve(Resolve(t)) == Resolve(t)
  {
  }

  /** The text a target stands for in the ST header; an unknown Symbol by its name. */
  function TargetText(t: Target): string {
    match t
    case Symbol(n) => n
    case Text(s) => s
  }

  /** The caller's options hash, with the entries `SSDP.search` and the Searcher use. */
  class SearchOptions {
    var searchTarget: Option<Target>
    var responseWaitTime: Option<int>
    var tryNumber: Option<int>

    constructor(responseWaitTime: Option<int>, tryNumber: Option<int>)
      ensures this.searchTarget.None?
      ensures this.responseWaitTime == responseWaitTime && this.tryNumber == tryNumber
    {
      this.searchTarget := None;
      this.responseWaitTime := responseWaitTime;
      this.tryNumber := tryNumber;
    }
  }

  /** `SSDP.search(target, options)`: writes the resolved target into `options` and starts a Searcher. */
  method Search(target: Target, options: SearchOptions, userAgent: string) returns (searcher: SsdpSearcher.Searcher)
    modifies options
    ensures options.searchTarget == Some(Resolve(target))
    ensures options.responseWaitTime == old(options.responseWaitTime) && options.tryNumber == old(options.tryNumber)
    ensures fresh(searcher)
    ensures searcher.mSearch == MSearch.Build(TargetText(Resolve(target)), options.responseWaitTime, userAgent)
    ensures searcher.mSearchCount == (if options.tryNumber.Some? then options.tryNumber.value else SsdpSearcher.DefaultMSearchTry)
    ensures searcher.sent == [] && searcher.discoveryResponses == []
  {
    options.searchTarget := Some(Resolve(target));
    searcher := new SsdpSearcher.Searcher(TargetText(Resolve(target)), options.responseWaitTime, options.tryNumber, userAgent);
  }
}
