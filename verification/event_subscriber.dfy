/**
 * `RUPNP::EventSubscriber` (lib/rupnp/event_subscriber.rb): the same connection as the
 * control point's subscriber without the guard on the status line. The reply hash always
 * gets `status` and `status_code` (nil when the first line does not match), the header
 * lines are read in any case, and the hash is always pushed.
 */
module UpnpEventSubscriber {
  import opened RubyText
  import opened HttpMatch
  import CpEventSubscriber

  /** The reply hash; None is a nil value. */
  type Response = map<string, Option<string>>

  const HeaderNames: CharClass := CpEventSubscriber.HeaderNames

  /** `$2` and `$1` after the status match, stored whether it matched or not. */
  function StatusFields(m: Option<(string, string)>): (r: Response)
    ensures r.Keys == {"status", "status_code"}
    ensures m.None? ==> r["status"].None? && r["status_code"].None?
    ensures m.Some? ==> r["status"] == Some(m.value.1) && r["status_code"] == Some(m.value.0)
  {
    match m
    case None => map["status" := None, "status_code" := None]
    case Some((code, reason)) => map["status" := Some(reason), "status_code" := Some(code)]
  }

  /** A hash of texts as a hash whose values are all set. */
  function Lift(h: map<string, string>): (r: Response)
    ensures r.Keys == h.Keys && forall k :: k in h ==> r[k] == Some(h[k])
  {
    map k | k in h :: Some(h[k])
  }

  /** What `receive_data` pushes for `data`; None is the EOFError of `readline` on empty data. */
  function Reply(data: string): (r: Option<Response>)
    ensures r.None? <==> data == []
  {
    match ReadLine(data)
    case None => None
    case Some((line, rest)) =>
      Some(StatusFields(MatchResponseLine(line)) + Lift(HeaderMap(Lines(rest), HeaderNames, Chomped)))
  }

  lemma MergeThenStore(base: Response, h: map<string, string>, k: string, v: string)
    ensures base + Lift(h[k := v]) == (base + Lift(h))[k := Some(v)]
  {
  }

  /** The `each_line` loop, storing set values. */
  method FillHeaders(base: Response, ls: seq<string>) returns (resp: Response)
    ensures resp == base + Lift(HeaderMap(ls, HeaderNames, Chomped))
  {
    resp := base;
    ghost var h: map<string, string> := map[];
    var i := 0;
    while i < |ls|
      invariant 0 <= i <= |ls|
      invariant h == HeaderMap(ls[..i], HeaderNames, Chomped)
      invariant resp == base + Lift(h)
    {
      HeaderMapStep(ls, i, HeaderNames, Chomped);
      match HeaderEntry(ls[i], HeaderNames, Chomped) {
        case Some((k, v)) =>
          MergeThenStore(base, h, k, v);
          h := h[k := v];
          resp := resp[k := Some(v)];
        case None =>
      }
      i := i + 1;
    }
    assert ls[..|ls|] == ls;
  }

  class EventSubscriber {
    const msg: string
    var sent: seq<string>
    var responses: seq<Response>

    /** `EventSubscriber.new(msg)` */
    constructor(msg: string)
      ensures this.msg == msg && sent == [] && responses == []
    {
      this.msg := msg;
      sent := [];
      responses := [];
    }

    /** `post_init`: the message is sent once. */
    method PostInit()
      modifies this`sent
      ensures sent == old(sent) + [msg]
    {
      sent := sent + [msg];
    }

    /** `receive_data(data)`: exactly one hash is pushed unless `readline` raises on empty data. */
    method ReceiveData(data: string) returns (raised: bool)
      modifies this`responses
      ensures raised <==> data == []
      ensures responses == old(responses) + (if Reply(data).Some? then [Reply(data).value] else [])
    {
      var r := ReadLine(data);
      if r.None? {
        return true;
      }
      var (line, rest) := r.value;
      raised := false;
      var resp := FillHeaders(StatusFields(MatchResponseLine(line)), Lines(rest));
      responses := responses + [resp];
    }
  }

  /**
   * Where the control point's subscriber pushes a hash, this one pushes the same hash;
   * where it pushes nothing, this one pushes nil status fields with the header entries.
   */
  lemma AgreesWithGuardedSubscriber(data: string)
    ensures CpEventSubscriber.Reply(data).None? <==> Reply(data).None?
    ensures CpEventSubscriber.Reply(data).Some? && CpEventSubscriber.Reply(data).value.Some? ==>
      Reply(data).value == Lift(CpEventSubscriber.Reply(data).value.value)
    ensures CpEventSubscriber.Reply(data).Some? && CpEventSubscriber.Reply(data).value.None? ==>
      Reply(data).value == StatusFields(None) + Lift(HeaderMap(Lines(ReadLine(data).value.1), HeaderNames, Chomped))
  {
    match ReadLine(data)
    case None =>
    case Some((line, rest)) =>
      match MatchResponseLine(line)
      case None =>
      case Some((code, reason)) =>
        var h := HeaderMap(Lines(rest), HeaderNames, Chomped);
        assert StatusFields(Some((code, reason))) == Lift(CpEventSubscriber.StatusFields(code, reason));
        LiftMerge(CpEventSubscriber.StatusFields(code, reason), h);
  }

  lemma LiftMerge(a: map<string, string>, b: map<string, string>)
    ensures Lift(a + b) == Lift(a) + Lift(b)
  {
  }
}
