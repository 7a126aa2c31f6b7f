/**
 * `RUPNP::Event` (lib/rupnp/event.rb): a control point's subscription to the events of
 * one service. The event keeps the SID the device gave, a timeout, and one timer that
 * goes off `before_timeout` seconds before the subscription expires: it then either sends
 * a renewal (`auto_renew`) or pushes `:timeout` to the event's subscribers. A renewal
 * answered with 200 takes the new timeout from the TIMEOUT header, re-arms the timer and
 * pushes `:renewed`.
 *
 * The event machine's timers and HTTP connections are not executed: the armed timer is a
 * field, a timer going off is the `Fire` method, a renewal sent is a recorded
 * `RenewRequest`, and the device's answer is the `RenewResponse` method.
 */
module GenaEvent {
  import opened RubyText

  const DefaultBeforeTimeout: int := 60
  /** The timeout the `|| 1800` of a renewal falls back to. */
  const FallbackTimeout: int := 1800
  const TimeoutPrefix: string := "Second-"

  /** The caller's options: None is a key the caller did not give, so the default stays. */
  datatype EventOptions = EventOptions(autoRenew: Option<bool>, beforeTimeout: Option<int>)

  /** What the timer does when it goes off. */
  datatype TimerAction = Renew | EmitTimeout

  datatype Timer = Timer(delay: int, action: TimerAction)

  /** What an event pushes to its subscribers. */
  datatype Message =
    | Renewed
    | TimedOut
      /** A property change as the control point's event server delivers it. */
    | Notified(seqNumber: int, content: string)
      /** A property change as the URL-table event server (`RUPNP::EventServer`) forwards it: raw headers. */
    | Forwarded(sid: Option<string>, seqHeader: Option<string>, body: string)

  /** A SUBSCRIBE renewal: its HOST, USER-AGENT, SID and TIMEOUT headers. */
  datatype RenewRequest = RenewRequest(host: string, userAgent: string, sid: Option<string>, timeout: string)

  datatype Raised = NotImplementedError

  /** The TIMEOUT header value `Second-<t>`. */
  function TimeoutHeader(t: int): (h: string)
    ensures StartsWith(h, TimeoutPrefix) && |h| > |TimeoutPrefix|
  {
    TimeoutPrefix + IntToS(t)
  }

  /**
   * The new timeout as event.rb:78-79 computes it: `match(/(\d+)/)[1].to_i || 1800`.
   * None is the NoMethodError of a missing header or of one without digits; the `|| 1800`
   * never applies, since `to_i` always gives an Integer.
   */
  function RenewedTimeoutAsWritten(header: Option<string>): (t: Option<int>)
    ensures t.Some? <==> header.Some? && FirstDigits(header.value).Some?
    ensures t.Some? ==> t.value >= 0
  {
    if header.None? then None
    else
      match FirstDigits(header.value)
      case None => None
      case Some(d) => ToIOfDigits(d); Some(ToI(d))
  }

  /** The new timeout with the fallback the source means: the header's number, 1800 when it gives none. */
  function RenewedTimeout(header: Option<string>): (t: int)
    ensures t >= 0
    ensures RenewedTimeoutAsWritten(header).Some? ==> t == RenewedTimeoutAsWritten(header).value
    ensures RenewedTimeoutAsWritten(header).None? ==> t == FallbackTimeout
  {
    match RenewedTimeoutAsWritten(header)
    case Some(t) => t
    case None => FallbackTimeout
  }

  lemma TimeoutPrefixHasNoDigit()
    ensures forall k :: 0 <= k < |TimeoutPrefix| ==> !IsDigit(TimeoutPrefix[k])
  {
  }

  /** A device that answers with the TIMEOUT header a request carries renews for that many seconds. */
  lemma RenewedTimeoutOfHeader(t: nat)
    ensures RenewedTimeoutAsWritten(Some(TimeoutHeader(t))) == Some(t)
    ensures RenewedTimeout(Some(TimeoutHeader(t))) == t
  {
    var d := NatToDigits(t);
    TimeoutPrefixHasNoDigit();
    FirstDigitsOf(TimeoutPrefix, d, []);
    assert TimeoutPrefix + d + [] == TimeoutHeader(t);
    ToIOfDigits(d);
  }

  /** `Second-infinite`, which UPnP 1.0 devices may answer, has no digits: the renewal raises as written. */
  lemma InfiniteTimeoutRaisesAsWritten()
    ensures RenewedTimeoutAsWritten(Some("Second-infinite")) == None
    ensures RenewedTimeout(Some("Second-infinite")) == FallbackTimeout
  {
    var h := "Second-infinite";
    assert forall k :: 0 <= k < |h| ==> !IsDigit(h[k]);
  }

  class Event {
    const eventSubUrl: string
    const callbackUrl: string
    const sid: Option<string>
    var timeout: int
    const autoRenew: bool
    const beforeTimeout: int
    /** The pending timer; None once it has gone off. */
    var timer: Option<Timer>
    /** The pending timers that a later `set_timer` cancelled, in order. */
    var cancelled: seq<Timer>
    var messages: seq<Message>
    var requests: seq<RenewRequest>

    /** The timer `set_timer` arms for the current timeout. */
    function ArmedTimer(): (t: Timer)
      reads this
      ensures t.delay + beforeTimeout == timeout
      ensures t.action == Renew <==> autoRenew
    {
      Timer(timeout - beforeTimeout, if autoRenew then Renew else EmitTimeout)
    }

    /** A pending timer always belongs to the current timeout. */
    ghost predicate Valid()
      reads this
    {
      timer.Some? ==> timer.value == ArmedTimer()
    }

    /** `Event.new(event_suburl, callback_url, sid, timeout, options)`: the options over the defaults, then `set_timer`. */
    constructor(eventSubUrl: string, callbackUrl: string, sid: Option<string>, timeout: int, options: EventOptions)
      ensures this.eventSubUrl == eventSubUrl && this.callbackUrl == callbackUrl
      ensures this.sid == sid && this.timeout == timeout
      ensures autoRenew == OrElse(options.autoRenew, true)
      ensures beforeTimeout == OrElse(options.beforeTimeout, DefaultBeforeTimeout)
      ensures timer == Some(ArmedTimer()) && cancelled == []
      ensures messages == [] && requests == []
      ensures Valid()
    {
      this.eventSubUrl := eventSubUrl;
      this.callbackUrl := callbackUrl;
      this.sid := sid;
      this.timeout := timeout;
      autoRenew := OrElse(options.autoRenew, true);
      beforeTimeout := OrElse(options.beforeTimeout, DefaultBeforeTimeout);
      timer := Some(Timer(timeout - OrElse(options.beforeTimeout, DefaultBeforeTimeout),
        if OrElse(options.autoRenew, true) then Renew else EmitTimeout));
      cancelled := [];
      messages := [];
      requests := [];
    }

    /** `set_timer`: cancel the pending timer, if any, and arm a new one; there is never more than one. */
    method SetTimer()
      modifies this`timer, this`cancelled
      ensures timer == Some(ArmedTimer())
      ensures cancelled == old(cancelled) + (if old(timer).Some? then [old(timer).value] else [])
      ensures Valid()
    {
      if timer.Some? {
        cancelled := cancelled + [timer.value];
      }
      timer := Some(ArmedTimer());
    }

    /**
     * The pending timer goes off: it sends a renewal to `host` (the subscription URL's
     * host and port) with the current timeout, or pushes `:timeout`.
     */
    method Fire(host: string, userAgent: string)
      requires timer.Some? && Valid()
      modifies this`timer, this`messages, this`requests
      ensures timer.None? && Valid()
      ensures autoRenew ==> requests == old(requests) + [RenewRequest(host, userAgent, sid, TimeoutHeader(timeout))]
      ensures autoRenew ==> messages == old(messages)
      ensures !autoRenew ==> messages == old(messages) + [TimedOut] && requests == old(requests)
    {
      match timer.value.action {
        case Renew =>
          requests := requests + [RenewRequest(host, userAgent, sid, TimeoutHeader(timeout))];
        case EmitTimeout =>
          messages := messages + [TimedOut];
      }
      timer := None;
    }

    /**
     * The device answers a renewal. Any status but 200 is only logged. A 200 takes the new
     * timeout from the TIMEOUT header, with the 1800 fallback for a header without a number,
     * re-arms the timer and pushes `:renewed`.
     */
    method RenewResponse(status: int, timeoutHeader: Option<string>)
      requires Valid()
      modifies this`timeout, this`timer, this`cancelled, this`messages
      ensures Valid()
      ensures status != 200 ==> timeout == old(timeout) && timer == old(timer)
      ensures status != 200 ==> cancelled == old(cancelled) && messages == old(messages)
      ensures status == 200 ==> timeout == RenewedTimeout(timeoutHeader) && timer == Some(ArmedTimer())
      ensures status == 200 ==> cancelled == old(cancelled) + (if old(timer).Some? then [old(timer).value] else [])
      ensures status == 200 ==> messages == old(messages) + [Renewed]
    {
      if status == 200 {
        timeout := RenewedTimeout(timeoutHeader);
        SetTimer();
        messages := messages + [Renewed];
      }
    }

    /** `self << msg`: a message for the event's subscribers. */
    method Push(m: Message)
      modifies this`messages
      ensures messages == old(messages) + [m]
    {
      messages := messages + [m];
    }

    /** `cancel_subscription` is not implemented: it always raises. */
    method CancelSubscription() returns (e: Raised)
      ensures e == NotImplementedError
    {
      e := NotImplementedError;
    }
  }
}
