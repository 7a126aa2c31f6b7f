/**
 * `RUPNP::CP::RemoteService` (lib/rupnp/cp/remote_service.rb): a service of a remote
 * device as the control point sees it. Fetching its SCPD checks the description, keeps
 * the state table and the action list; each action becomes a callable whose SOAP
 * response is turned into a hash of its out arguments, typed by their related state
 * variables. Subscribing to the service's events sends a SUBSCRIBE with a callback URL
 * and, on a 200, creates the event and registers it with the control point's event URLs.
 *
 * The parsed XML (Nori's hashes) is a family of datatypes whose absent elements are None;
 * an element that occurs once is a single value and one that repeats is a list
 * (`OneOrMany`). The SOAP exchange and the HTTP connection are not executed: their
 * results are parameters.
 */
module CpRemoteService {
  import opened RubyText
  import Tools
  import GenaEvent
  import UpnpEventServer
  import CpEventServer
  import ControlPoint
  import CpRemoteDevice

  const ServiceXmlns: string := "urn:schemas-upnp-org:service-1-0"
  const EventNt: string := "upnp:event"
  const OutDirection: string := "out"

  /** SOAP integer types */
  const IntegerTypes: seq<string> := ["ui1", "ui2", "ui4", "i1", "i2", "i4", "int"]
  /** SOAP float types */
  const FloatTypes: seq<string> := ["r4", "r8", "number", "float"]
  /** SOAP string types */
  const StringTypes: seq<string> := ["char", "string", "uuid"]
  /** SOAP true values */
  const TrueTypes: seq<string> := ["1", "true", "yes"]
  /** SOAP false values */
  const FalseTypes: seq<string> := ["0", "false", "no"]

  // ---------------------------------------------------------------------------
  // event_sub_count

  /** The class-wide `@@event_sub_count`: each subscription gets the next number. */
  class SubscriptionCounter {
    var count: nat

    constructor()
      ensures count == 0
    {
      count := 0;
    }

    /** `event_sub_count`: increments, then answers the new count, so numbers are 1, 2, 3, ... */
    method Next() returns (n: nat)
      modifies this
      ensures count == old(count) + 1 && n == count
    {
      count := count + 1;
      n := count;
    }
  }

  // ---------------------------------------------------------------------------
  // The SCPD as parsed

  /** An element that occurs once (a hash) or several times (an array). */
  datatype OneOrMany<T> = One(item: T) | Many(items: seq<T>)

  /** `x = [x] unless x.is_a? Array` */
  function ListOf<T>(x: OneOrMany<T>): seq<T> {
    match x
    case One(item) => [item]
    case Many(items) => items
  }

  datatype StateVariable = StateVariable(name: Option<string>, dataType: Option<string>)

  /** `serviceStateTable`; it is `empty?` when it has no `stateVariable` element. */
  datatype StateTable = StateTable(stateVariable: Option<OneOrMany<StateVariable>>)

  datatype Argument = Argument(name: Option<string>, direction: Option<string>, relatedStateVariable: Option<string>)

  datatype ArgumentList = ArgumentList(argument: Option<OneOrMany<Argument>>)

  /** An action; `arguments` is the key `extract_actions` adds in place of `argument_list`. */
  datatype Action = Action(name: Option<string>, argumentList: Option<ArgumentList>, arguments: Option<OneOrMany<Argument>>)

  datatype ActionList = ActionList(action: Option<OneOrMany<Action>>)

  datatype ScpdRoot = ScpdRoot(xmlns: Option<string>, specVersion: Option<CpRemoteDevice.SpecVersion>,
                               stateTable: Option<StateTable>, actionList: Option<ActionList>)

  datatype Scpd = Scpd(root: Option<ScpdRoot>)

  // ---------------------------------------------------------------------------
  // bad_description?

  /** What the check accepts: root, service namespace, major version 1, a minor version and a non-empty state table. */
  predicate AcceptableScpd(s: Scpd) {
    && s.root.Some?
    && s.root.value.xmlns == Some(ServiceXmlns)
    && s.root.value.specVersion.Some?
    && CpRemoteDevice.MajorIsOne(s.root.value.specVersion.value)
    && s.root.value.specVersion.value.minor.Some?
    && s.root.value.stateTable.Some?
    && s.root.value.stateTable.value.stateVariable.Some?
  }

  /** The check raises (None) when the version element, its major or its minor is missing. */
  predicate VersionRaises(s: Scpd) {
    s.root.Some? &&
    (s.root.value.specVersion.None?
     || s.root.value.specVersion.value.major.None?
     || s.root.value.specVersion.value.minor.None?)
  }

  /**
   * `bad_description?(scpd)` as written: the `|=` chain evaluates every term, so a
   * missing state table reaches `nil.empty?` and raises (None) instead of answering true.
   */
  function ScpdVerdictAsWritten(s: Scpd): (bad: Option<bool>)
    ensures bad.None? <==> VersionRaises(s) || (s.root.Some? && s.root.value.stateTable.None?)
    ensures bad == Some(false) <==> AcceptableScpd(s)
  {
    if s.root.None? then Some(true)
    else
      var r := s.root.value;
      if VersionRaises(s) then None
      else if r.stateTable.None? then None
      else Some(!(r.xmlns == Some(ServiceXmlns) && CpRemoteDevice.MajorIsOne(r.specVersion.value)
                  && r.stateTable.value.stateVariable.Some?))
  }

  /** `bad_description?(scpd)` as its `bd |= !table` means: a missing state table is a bad description. */
  function ScpdVerdict(s: Scpd): (bad: Option<bool>)
    ensures bad.None? <==> VersionRaises(s)
    ensures bad == Some(false) <==> AcceptableScpd(s)
  {
    if s.root.None? then Some(true)
    else
      var r := s.root.value;
      if VersionRaises(s) then None
      else Some(!(r.xmlns == Some(ServiceXmlns) && CpRemoteDevice.MajorIsOne(r.specVersion.value)
                  && r.stateTable.Some? && r.stateTable.value.stateVariable.Some?))
  }

  /** An SCPD with a version but no state table raises as written; the intended answer is "bad". */
  lemma MissingStateTableRaisesAsWritten(s: Scpd)
    requires s.root.Some? && !VersionRaises(s) && s.root.value.stateTable.None?
    ensures ScpdVerdictAsWritten(s).None?
    ensures ScpdVerdict(s) == Some(true)
  {
  }

  /** Whenever the state table is there (or the root is not), both readings agree. */
  lemma ScpdVerdictsAgree(s: Scpd)
    requires s.root.None? || s.root.value.stateTable.Some?
    ensures ScpdVerdictAsWritten(s) == ScpdVerdict(s)
  {
  }

  // ---------------------------------------------------------------------------
  // extract_actions

  /** The actions of the action list, as a list; None when there is no list or no action. */
  function ActionsOf(s: Scpd): (acts: Option<seq<Action>>)
    requires s.root.Some?
    ensures acts.Some? <==> (s.root.value.actionList.Some? && s.root.value.actionList.value.action.Some?)
  {
    var r := s.root.value;
    if r.actionList.Some? && r.actionList.value.action.Some? then Some(ListOf(r.actionList.value.action.value))
    else None
  }

  /** What the loop makes of one action: its arguments moved up, its argument list gone, its name a text. */
  function Extracted(a: Action): (e: Action)
    requires a.argumentList.Some?
    ensures e.argumentList.None? && e.name.Some?
    ensures e.arguments == a.argumentList.value.argument
    ensures a.name.Some? ==> e.name == a.name
  {
    Action(Some(OrEmpty(a.name)), None, a.argumentList.value.argument)
  }

  /** The first action without an argument list: `action[:argument_list][:argument]` raises there. */
  function MissingArgumentList(acts: seq<Action>): (k: Option<nat>)
    ensures k.Some? ==> k.value < |acts| && acts[k.value].argumentList.None?
    ensures k.Some? ==> forall j :: 0 <= j < k.value ==> acts[j].argumentList.Some?
    ensures k.None? <==> forall j :: 0 <= j < |acts| ==> acts[j].argumentList.Some?
  {
    if acts == [] then None
    else if acts[0].argumentList.None? then Some(0)
    else
      match MissingArgumentList(acts[1..])
      case None => None
      case Some(k) => Some(k + 1)
  }

  /** The list after the loop has handled its first `k` actions. */
  function ExtractedPrefix(acts: seq<Action>, k: nat): (r: seq<Action>)
    requires k <= |acts| && forall j :: 0 <= j < k ==> acts[j].argumentList.Some?
    ensures |r| == |acts|
    ensures forall j :: 0 <= j < k ==> r[j] == Extracted(acts[j])
    ensures forall j :: k <= j < |acts| ==> r[j] == acts[j]
  {
    seq(|acts|, j requires 0 <= j < |acts| => if j < k then Extracted(acts[j]) else acts[j])
  }

  // ---------------------------------------------------------------------------
  // The callable of an action and process_soap_response

  /** What the callable is given: nothing (nil or false), a hash, or anything else. */
  datatype Params = NoParams | HashParams(values: map<string, string>) | OtherParams

  /** A SOAP response: `success?`, `to_xml`, and the `body` hash of its envelope (None when absent). */
  datatype SoapResponse = SoapResponse(success: bool, xml: string, body: Option<map<string, map<string, string>>>)

  /** An out value; `FloatValue` keeps the text `to_f` reads (floating point is not modelled). */
  datatype OutValue = IntValue(i: int) | FloatValue(text: Option<string>) | TextValue(s: string) | BoolValue(b: bool)

  type OutHash = map<string, OutValue>

  /** The callable's result: an ArgumentError, a raised error, nil, or the hash of out values. */
  datatype CallResult = ArgumentError | Raised | NilResult | Outputs(values: OutHash)

  /** The method name of an action: `snake_case(action[:name].to_s)`. */
  function ActionMethodName(a: Action): (n: string)
    ensures NoUpper(n)
  {
    Tools.SnakeCase(OrEmpty(a.name))
  }

  /** `@state_table.find { |h| h[:name] == related }` */
  function StateVariableFor(table: seq<StateVariable>, related: Option<string>): (sv: Option<StateVariable>)
    ensures sv.Some? ==> sv.value in table && sv.value.name == related
    ensures sv.None? <==> forall j :: 0 <= j < |table| ==> table[j].name != related
    ensures sv.Some? ==> exists i :: 0 <= i < |table| && table[i] == sv.value
                                    && forall j :: 0 <= j < i ==> table[j].name != related
  {
    if table == [] then None
    else if table[0].name == related then Some(table[0])
    else
      var r := StateVariableFor(table[1..], related);
      if r.Some? then
        ghost var i :| 0 <= i < |table[1..]| && table[1..][i] == r.value
                       && forall j :: 0 <= j < i ==> table[1..][j].name != related;
        assert table[i + 1] == r.value;
        r
      else r
  }

  /** How the value of a state variable's data type is converted; None is a type in none of the lists. */
  function Convert(dataType: Option<string>, value: Option<string>): (v: Option<OutValue>)
  {
    if dataType.None? then None
    else if dataType.value in IntegerTypes then Some(IntValue(NilToI(value)))
    else if dataType.value in FloatTypes then Some(FloatValue(value))
    else if dataType.value in StringTypes then Some(TextValue(OrEmpty(value)))
    else if dataType.value in TrueTypes then Some(BoolValue(true))
    else if dataType.value in FalseTypes then Some(BoolValue(false))
    else None
  }

  /** No type is in two lists, so the order of the tests does not matter. */
  lemma TypeListsDisjoint()
    ensures forall t :: t in IntegerTypes ==> t !in FloatTypes && t !in StringTypes && t !in TrueTypes && t !in FalseTypes
    ensures forall t :: t in FloatTypes ==> t !in StringTypes && t !in TrueTypes && t !in FalseTypes
    ensures forall t :: t in StringTypes ==> t !in TrueTypes && t !in FalseTypes
    ensures forall t :: t in TrueTypes ==> t !in FalseTypes
  {
  }

  /** Each data type list converts by its own rule; any other type (UPnP's `boolean` among them) gives nothing. */
  lemma ConvertByList(t: string, value: Option<string>)
    ensures t in IntegerTypes ==> Convert(Some(t), value) == Some(IntValue(NilToI(value)))
    ensures t in FloatTypes ==> Convert(Some(t), value) == Some(FloatValue(value))
    ensures t in StringTypes ==> Convert(Some(t), value) == Some(TextValue(OrEmpty(value)))
    ensures t in TrueTypes ==> Convert(Some(t), value) == Some(BoolValue(true))
    ensures t in FalseTypes ==> Convert(Some(t), value) == Some(BoolValue(false))
    ensures Convert(Some(t), value).None? <==>
      (t !in IntegerTypes && t !in FloatTypes && t !in StringTypes && t !in TrueTypes && t !in FalseTypes)
    ensures Convert(Some("boolean"), value).None?
  {
    TypeListsDisjoint();
  }

  /**
   * `process_soap_response(action, resp, out_arg)`: {} for a successful empty response;
   * otherwise the out argument's value in `<action>_response`, converted by the data type of
   * its related state variable, under the argument's snake-cased name. None is a raised
   * error: no state table, no such state variable, no argument name, no body or no
   * response element in it.
   */
  function ProcessSoapResponse(table: Option<seq<StateVariable>>, action: string, resp: SoapResponse, arg: Argument)
    : (r: Option<OutHash>)
    ensures resp.success && resp.xml == [] ==> r == Some(map[])
    ensures r.Some? && r.value != map[] ==> arg.name.Some? && r.value.Keys == {Tools.SnakeCase(arg.name.value)}
    ensures !(resp.success && resp.xml == []) && table.None? ==> r.None?
  {
    if resp.success && resp.xml == [] then Some(map[])
    else if table.None? then None
    else
      var sv := StateVariableFor(table.value, arg.relatedStateVariable);
      var responseKey := action + "_response";
      if arg.name.None? || resp.body.None? || responseKey !in resp.body.value || sv.None? then None
      else
        var key := Tools.SnakeCase(arg.name.value);
        match Convert(sv.value.dataType, HashGet(resp.body.value[responseKey], key))
        case None => Some(map[])
        case Some(v) => Some(map[key := v])
  }

  /** `action[:arguments].select { |arg| arg[:direction] == 'out' }` */
  function OutArguments(args: seq<Argument>): (outs: seq<Argument>)
    ensures forall a :: a in outs ==> a in args && a.direction == Some(OutDirection)
    ensures forall a :: a in args && a.direction == Some(OutDirection) ==> a in outs
  {
    if args == [] then []
    else
      (if args[0].direction == Some(OutDirection) then [args[0]] else []) + OutArguments(args[1..])
  }

  /** `hsh.merge! process_soap_response(...)` over `outs` in order; None once one raises. */
  function MergeOuts(table: Option<seq<StateVariable>>, action: string, resp: SoapResponse, outs: seq<Argument>)
    : Option<OutHash>
    decreases |outs|
  {
    if outs == [] then Some(map[])
    else
      match MergeOuts(table, action, resp, outs[..|outs| - 1])
      case None => None
      case Some(h) =>
        match ProcessSoapResponse(table, action, resp, outs[|outs| - 1])
        case None => None
        case Some(p) => Some(h + p)
  }

  function ResultOf(r: Option<OutHash>): CallResult {
    if r.Some? then Outputs(r.value) else Raised
  }

  /**
   * What the callable of action `a` answers: an ArgumentError for parameters that are not a
   * hash; a single argument gives its hash when it is an out argument and nil otherwise;
   * an argument list merges the hashes of its out arguments; no arguments raise.
   */
  function CallOutcome(table: Option<seq<StateVariable>>, a: Action, params: Params, resp: SoapResponse)
    : (r: CallResult)
    ensures r.ArgumentError? <==> params.OtherParams?
    ensures r.NilResult? <==>
      (!params.OtherParams? && a.arguments.Some? && a.arguments.value.One?
       && a.arguments.value.item.direction != Some(OutDirection))
  {
    if params.OtherParams? then ArgumentError
    else
      var name := ActionMethodName(a);
      match a.arguments
      case None => Raised
      case Some(One(arg)) =>
        if arg.direction == Some(OutDirection) then ResultOf(ProcessSoapResponse(table, name, resp, arg))
        else NilResult
      case Some(Many(args)) => ResultOf(MergeOuts(table, name, resp, OutArguments(args)))
  }

  /** Once one argument raises, the whole merge raises. */
  lemma {:induction false} MergeOutsRaisedStays(table: Option<seq<StateVariable>>, action: string, resp: SoapResponse,
                                                outs: seq<Argument>, i: nat)
    requires i <= |outs| && MergeOuts(table, action, resp, outs[..i]).None?
    ensures MergeOuts(table, action, resp, outs).None?
    decreases |outs|
  {
    if i == |outs| {
      assert outs[..i] == outs;
    } else {
      var init := outs[..|outs| - 1];
      assert init[..i] == outs[..i];
      MergeOutsRaisedStays(table, action, resp, init, i);
    }
  }

  /** Every key of a merged hash is the snake-cased name of one of the arguments merged. */
  lemma {:induction false} MergeOutsKeys(table: Option<seq<StateVariable>>, action: string, resp: SoapResponse,
                                         outs: seq<Argument>)
    ensures MergeOuts(table, action, resp, outs).Some? ==>
      forall k :: k in MergeOuts(table, action, resp, outs).value ==>
        exists a :: a in outs && a.name.Some? && k == Tools.SnakeCase(a.name.value)
    decreases |outs|
  {
    if outs != [] {
      var init := outs[..|outs| - 1];
      var last := outs[|outs| - 1];
      MergeOutsKeys(table, action, resp, init);
      var m := MergeOuts(table, action, resp, outs);
      if m.Some? {
        var h := MergeOuts(table, action, resp, init).value;
        var p := ProcessSoapResponse(table, action, resp, last).value;
        assert m.value == h + p;
        forall k | k in m.value
          ensures exists a :: a in outs && a.name.Some? && k == Tools.SnakeCase(a.name.value)
        {
          if k in p {
            assert last in outs;
          } else {
            var a :| a in init && a.name.Some? && k == Tools.SnakeCase(a.name.value);
            assert a in outs;
          }
        }
      }
    }
  }

  /** A successful empty response makes every merge the empty hash. */
  lemma {:induction false} MergeOutsOfEmptyResponse(table: Option<seq<StateVariable>>, action: string, resp: SoapResponse,
                                                    outs: seq<Argument>)
    requires resp.success && resp.xml == []
    ensures MergeOuts(table, action, resp, outs) == Some(map[])
    decreases |outs|
  {
    if outs != [] {
      MergeOutsOfEmptyResponse(table, action, resp, outs[..|outs| - 1]);
    }
  }

  /** The hash an action answers has one key per out argument that gave a value, and no other. */
  lemma CallOutputsAreOutArguments(table: Option<seq<StateVariable>>, a: Action, params: Params, resp: SoapResponse)
    requires CallOutcome(table, a, params, resp).Outputs?
    ensures forall k :: k in CallOutcome(table, a, params, resp).values ==>
      exists arg :: arg in ListOf(a.arguments.value) && arg.direction == Some(OutDirection)
                    && arg.name.Some? && k == Tools.SnakeCase(arg.name.value)
  {
    var name := ActionMethodName(a);
    match a.arguments.value
    case One(arg) =>
      assert arg in ListOf(a.arguments.value);
    case Many(args) =>
      MergeOutsKeys(table, name, resp, OutArguments(args));
  }

  /** A successful SOAP exchange with an empty response answers {} for any action with out arguments or a list. */
  lemma EmptyResponseGivesEmptyHash(table: Option<seq<StateVariable>>, a: Action, params: Params, resp: SoapResponse)
    requires !params.OtherParams? && resp.success && resp.xml == []
    requires a.arguments.Some? && (a.arguments.value.One? ==> a.arguments.value.item.direction == Some(OutDirection))
    ensures CallOutcome(table, a, params, resp) == Outputs(map[])
  {
    if a.arguments.value.Many? {
      MergeOutsOfEmptyResponse(table, ActionMethodName(a), resp, OutArguments(a.arguments.value.items));
    }
  }

  /**
   * An action with a single integer out argument answers its value under the argument's
   * snake-cased name, read as an integer.
   */
  lemma IntegerOutArgument(sv: StateVariable, name: string, action: Action, params: Params,
                           resp: SoapResponse, fields: map<string, string>)
    requires sv.dataType.Some? && sv.dataType.value in IntegerTypes && sv.name.Some?
    requires action.arguments == Some(One(Argument(Some(name), Some(OutDirection), sv.name)))
    requires !params.OtherParams? && !(resp.success && resp.xml == [])
    requires resp.body == Some(map[ActionMethodName(action) + "_response" := fields])
    ensures CallOutcome(Some([sv]), action, params, resp) ==
      Outputs(map[Tools.SnakeCase(name) := IntValue(NilToI(HashGet(fields, Tools.SnakeCase(name))))])
  {
    assert StateVariableFor([sv], sv.name) == Some(sv);
    ConvertByList(sv.dataType.value, HashGet(fields, Tools.SnakeCase(name)));
  }

  /** The `outer.each { |arg| hsh.merge! ... }` loop; None is the first raised error. */
  method MergeOutArguments(table: Option<seq<StateVariable>>, action: string, resp: SoapResponse, outs: seq<Argument>)
    returns (r: Option<OutHash>)
    ensures r == MergeOuts(table, action, resp, outs)
  {
    var hsh: OutHash := map[];
    var i := 0;
    while i < |outs|
      invariant 0 <= i <= |outs|
      invariant MergeOuts(table, action, resp, outs[..i]) == Some(hsh)
    {
      assert outs[..i + 1][..i] == outs[..i];
      var p := ProcessSoapResponse(table, action, resp, outs[i]);
      if p.None? {
        MergeOutsRaisedStays(table, action, resp, outs, i + 1);
        return None;
      }
      hsh := hsh + p.value;
      i := i + 1;
    }
    assert outs[..i] == outs;
    r := Some(hsh);
  }

  // ---------------------------------------------------------------------------
  // The callback URL

  /** The path the subscription is registered under: `/event<num>`. */
  function EventPath(num: int): (p: string)
    ensures |p| > 6 && p[0] == '/'
  {
    "/event" + IntToS(num)
  }

  /** `http://<host>:<port>` */
  function Authority(hostIp: string, port: int): string {
    "http://" + hostIp + ":" + IntToS(port)
  }

  /** The callback URL as subscribe_to_event builds it: a stray `}` follows the event number. */
  function CallbackUrlAsWritten(hostIp: string, port: int, num: int): (url: string)
    ensures url == Authority(hostIp, port) + EventPath(num) + "}"
  {
    Authority(hostIp, port) + EventPath(num) + "}"
  }

  /** The callback URL as meant: the authority of the event server and the registered path. */
  function CallbackUrl(hostIp: string, port: int, num: int): (url: string)
    ensures url == Authority(hostIp, port) + EventPath(num)
  {
    Authority(hostIp, port) + EventPath(num)
  }

  /** Index of the first '/' at or after `i` (|s| when none). */
  function SlashFrom(s: string, i: nat): (j: nat)
    requires i <= |s|
    ensures i <= j <= |s| && (j < |s| ==> s[j] == '/')
    ensures forall k :: i <= k < j ==> s[k] != '/'
    decreases |s| - i
  {
    if i == |s| || s[i] == '/' then i else SlashFrom(s, i + 1)
  }

  /** The request-URI an `http://` URL is requested with: everything from the first '/' after the scheme. */
  function RequestPath(url: string): (p: string)
  {
    if |url| >= 7 && url[..7] == "http://" then url[SlashFrom(url, 7)..] else url
  }

  lemma IntToSHasNoSlash(n: int)
    ensures forall k :: 0 <= k < |IntToS(n)| ==> IntToS(n)[k] != '/'
  {
    if n < 0 {
      var d := NatToDigits(-n);
      assert forall k :: 0 <= k < |d| ==> IsDigit(d[k]);
      assert forall k :: 1 <= k < |IntToS(n)| ==> IntToS(n)[k] == d[k - 1];
    }
  }

  /** A device requests the callback URL at its path, for any host without a '/'. */
  lemma RequestPathOf(hostIp: string, port: int, path: string)
    requires forall k :: 0 <= k < |hostIp| ==> hostIp[k] != '/'
    requires |path| > 0 && path[0] == '/'
    ensures RequestPath(Authority(hostIp, port) + path) == path
  {
    var a := Authority(hostIp, port);
    var url := a + path;
    IntToSHasNoSlash(port);
    assert url[..7] == "http://";
    assert forall k :: 7 <= k < |a| ==> a[k] != '/';
    assert url[|a|] == '/';
    assert forall k :: 7 <= k < |a| ==> url[k] == a[k];
    assert SlashFrom(url, 7) == |a|;
    assert url[|a|..] == path;
  }

  /**
   * As written, a NOTIFY sent to the callback URL arrives at `/event<num>}`, which no pair
   * registers when the only pair for this subscription is `/event<num>`: it is ignored.
   */
  lemma CallbackMissesRegistrationAsWritten(hostIp: string, port: int, num: int,
                                            urls: seq<UpnpEventServer.UrlEntry>, e: GenaEvent.Event)
    requires forall k :: 0 <= k < |hostIp| ==> hostIp[k] != '/'
    requires forall j :: 0 <= j < |urls| ==> urls[j].0 != EventPath(num) + "}"
    ensures RequestPath(CallbackUrlAsWritten(hostIp, port, num)) == EventPath(num) + "}"
    ensures UpnpEventServer.EventFor(urls + [(EventPath(num), Some(e))], EventPath(num) + "}").None?
  {
    RequestPathOf(hostIp, port, EventPath(num) + "}");
    assert Authority(hostIp, port) + EventPath(num) + "}" == Authority(hostIp, port) + (EventPath(num) + "}");
    var s := urls + [(EventPath(num), Some(e))];
    assert |EventPath(num)| != |EventPath(num) + "}"|;
    assert forall j :: 0 <= j < |s| ==> s[j].0 != EventPath(num) + "}" by {
      assert forall j :: 0 <= j < |urls| ==> s[j] == urls[j];
    }
  }

  /**
   * With the intended URL, the NOTIFY arrives at the registered path and reaches the event
   * in a pair table such as the one `RUPNP::EventServer` keeps. The control point does not
   * start that server (see `CallbackPathMissesCpEventServer`), so this holds for the
   * pair-table server only.
   */
  lemma CallbackFindsRegistration(hostIp: string, port: int, num: int,
                                  urls: seq<UpnpEventServer.UrlEntry>, e: GenaEvent.Event)
    requires forall k :: 0 <= k < |hostIp| ==> hostIp[k] != '/'
    requires forall j :: 0 <= j < |urls| ==> urls[j].0 != EventPath(num)
    ensures RequestPath(CallbackUrl(hostIp, port, num)) == EventPath(num)
    ensures UpnpEventServer.EventFor(urls + [(EventPath(num), Some(e))], EventPath(num)) == Some(e)
  {
    RequestPathOf(hostIp, port, EventPath(num));
    UpnpEventServer.RegisteredEventFound(urls, EventPath(num), e);
  }

  /** How the control point settles the reply to a SUBSCRIBE. */
  datatype SubscribeOutcome =
    | NotSubscribed            // a status other than 200: only a warning is logged
    | Subscribed(timeout: int) // the event is created and registered for this many seconds
    | SubscribeRaises          // NoMethodError: `[1]` on the nil match of a TIMEOUT without digits

  /**
   * The 200 branch as written: `http.response_header['TIMEOUT'].match(/(\d+)/)[1] || 1800`
   * indexes the match before the fallback, so a TIMEOUT without digits, or no TIMEOUT at
   * all, raises and no event is registered; the `|| 1800` is never reached.
   */
  function SubscribeVerdictAsWritten(status: int, timeoutHeader: Option<string>): (o: SubscribeOutcome)
    ensures o.NotSubscribed? <==> status != 200
    ensures o.SubscribeRaises? <==> status == 200 && GenaEvent.RenewedTimeoutAsWritten(timeoutHeader).None?
    ensures o.Subscribed? ==> o.timeout == GenaEvent.RenewedTimeoutAsWritten(timeoutHeader).value && o.timeout >= 0
  {
    if status != 200 then NotSubscribed
    else
      match GenaEvent.RenewedTimeoutAsWritten(timeoutHeader)
      case None => SubscribeRaises
      case Some(t) => Subscribed(t)
  }

  /** The 200 branch as meant: the TIMEOUT's number, 1800 seconds when it gives none; it never raises. */
  function SubscribeVerdict(status: int, timeoutHeader: Option<string>): (o: SubscribeOutcome)
    ensures !o.SubscribeRaises?
    ensures o.NotSubscribed? <==> status != 200
    ensures o.Subscribed? ==> o.timeout >= 0
    ensures o.Subscribed? && GenaEvent.RenewedTimeoutAsWritten(timeoutHeader).None? ==>
      o.timeout == GenaEvent.FallbackTimeout
  {
    if status != 200 then NotSubscribed else Subscribed(GenaEvent.RenewedTimeout(timeoutHeader))
  }

  /** Wherever the code as written does not raise, the corrected verdict is the same. */
  lemma SubscribeVerdictsAgree(status: int, timeoutHeader: Option<string>)
    requires !SubscribeVerdictAsWritten(status, timeoutHeader).SubscribeRaises?
    ensures SubscribeVerdict(status, timeoutHeader) == SubscribeVerdictAsWritten(status, timeoutHeader)
  {
  }

  /**
   * A device that accepts with `TIMEOUT: Second-infinite` (or with no TIMEOUT) makes the
   * subscription raise as written; corrected, it subscribes for 1800 seconds.
   */
  lemma InfiniteSubscribeRaisesAsWritten()
    ensures SubscribeVerdictAsWritten(200, Some("Second-infinite")) == SubscribeRaises
    ensures SubscribeVerdictAsWritten(200, None) == SubscribeRaises
    ensures SubscribeVerdict(200, Some("Second-infinite")) == Subscribed(GenaEvent.FallbackTimeout)
  {
    GenaEvent.InfiniteTimeoutRaisesAsWritten();
  }

  /**
   * `CP::EventServer`, the server `start_event_server` starts, compares each event's full
   * callback URL with the request URI. A NOTIFY to the corrected callback URL carries the
   * path `/event<num>`, which no `http://` URL equals: removing the `}` alone delivers no
   * notification through that server.
   */
  lemma CallbackPathMissesCpEventServer(hostIp: string, port: int, num: int, events: seq<CpEventServer.Event>)
    requires forall k :: 0 <= k < |hostIp| ==> hostIp[k] != '/'
    requires forall j :: 0 <= j < |events| ==> StartsWith(events[j].callbackUrl, "http://")
    ensures CpEventServer.CallbackIndex(events, RequestPath(CallbackUrl(hostIp, port, num))).None?
  {
    RequestPathOf(hostIp, port, EventPath(num));
    var p := EventPath(num);
    forall j | 0 <= j < |events| ensures events[j].callbackUrl != p {
      assert events[j].callbackUrl[0] == 'h';
    }
  }

  /** Distinct subscription numbers give distinct paths. */
  lemma EventPathsDistinct(m: int, n: int)
    requires m != n
    ensures EventPath(m) != EventPath(n)
  {
    IntToSRoundTrip(m);
    IntToSRoundTrip(n);
    assert EventPath(m)[6..] == IntToS(m);
    assert EventPath(n)[6..] == IntToS(n);
  }

  // ---------------------------------------------------------------------------
  // The service

  /** A SUBSCRIBE request: its HOST, USER-AGENT, CALLBACK, NT and TIMEOUT headers. */
  datatype SubscribeRequest = SubscribeRequest(host: string, userAgent: string, callback: string, nt: string, timeout: string)

  datatype Failure = ScpdUnavailable | NotUpnpScpd

  /** The deferrable's state. */
  datatype Status = Pending | Failed(reason: Failure) | Succeeded

  class RemoteService {
    const serviceType: string
    const id: string
    const scpdUrl: string
    const controlUrl: string
    const eventSubUrl: string
    var xmlns: Option<string>
    var specVersion: Option<string>
    var actions: seq<Action>
    var stateTable: Option<seq<StateVariable>>
    var callbackUrl: Option<string>
    var status: Status

    /** `RemoteService.new(device, url_base, service)`: texts of the description, URLs joined to the base. */
    constructor(urlBase: string, service: map<string, string>)
      ensures serviceType == FieldText(service, "service_type") && id == FieldText(service, "service_id")
      ensures scpdUrl == Tools.BuildUrl(urlBase, FieldText(service, "scpdurl"))
      ensures controlUrl == Tools.BuildUrl(urlBase, FieldText(service, "control_url"))
      ensures eventSubUrl == Tools.BuildUrl(urlBase, FieldText(service, "event_sub_url"))
      ensures actions == [] && stateTable.None? && callbackUrl.None? && status == Pending
      ensures xmlns.None? && specVersion.None?
    {
      serviceType := FieldText(service, "service_type");
      id := FieldText(service, "service_id");
      scpdUrl := Tools.BuildUrl(urlBase, FieldText(service, "scpdurl"));
      controlUrl := Tools.BuildUrl(urlBase, FieldText(service, "control_url"));
      eventSubUrl := Tools.BuildUrl(urlBase, FieldText(service, "event_sub_url"));
      actions := [];
      stateTable := None;
      callbackUrl := None;
      status := Pending;
      xmlns := None;
      specVersion := None;
    }

    /**
     * `bad_description?(scpd)`: keeps the namespace and the `major.minor` version on the
     * way; None is a raised error. The verdict is the intended one (a missing state table
     * is a bad description).
     */
    method IsBadDescription(s: Scpd) returns (bad: Option<bool>)
      modifies this`xmlns, this`specVersion
      ensures bad == ScpdVerdict(s)
      ensures xmlns == (if s.root.Some? then s.root.value.xmlns else old(xmlns))
      ensures specVersion ==
        (if s.root.None? || s.root.value.specVersion.None? || s.root.value.specVersion.value.major.None? then old(specVersion)
         else if s.root.value.specVersion.value.minor.None? then Some(s.root.value.specVersion.value.major.value + ".")
         else Some(CpRemoteDevice.VersionText(s.root.value.specVersion.value)))
    {
      if s.root.None? {
        return Some(true);
      }
      var r := s.root.value;
      xmlns := r.xmlns;
      var b := r.xmlns != Some(ServiceXmlns);
      if r.specVersion.None? {
        return None;
      }
      var v := r.specVersion.value;
      b := b || !CpRemoteDevice.MajorIsOne(v);
      if v.major.None? {
        return None;
      }
      specVersion := Some(v.major.value + ".");
      if v.minor.None? {
        return None;
      }
      specVersion := Some(specVersion.value + v.minor.value);
      b := b || r.stateTable.None?;
      bad := Some(b || r.stateTable.None? || r.stateTable.value.stateVariable.None?);
    }

    /** `extract_service_state_table`: a state variable element becomes the list of state variables. */
    method ExtractServiceStateTable(s: Scpd)
      requires s.root.Some? && s.root.value.stateTable.Some?
      modifies this`stateTable
      ensures stateTable ==
        (if s.root.value.stateTable.value.stateVariable.Some?
         then Some(ListOf(s.root.value.stateTable.value.stateVariable.value)) else old(stateTable))
    {
      var t := s.root.value.stateTable.value;
      if t.stateVariable.Some? {
        stateTable := Some(ListOf(t.stateVariable.value));
      }
    }

    /**
     * `extract_actions`: the action list becomes the list of actions, each with its
     * arguments moved up; an action without an argument list raises, leaving the actions
     * before it handled and the rest as parsed.
     */
    method ExtractActions(s: Scpd) returns (raised: bool)
      requires s.root.Some?
      modifies this`actions
      ensures ActionsOf(s).None? ==> !raised && actions == old(actions)
      ensures ActionsOf(s).Some? ==> (raised <==> MissingArgumentList(ActionsOf(s).value).Some?)
      ensures ActionsOf(s).Some? && !raised ==> actions == ExtractedPrefix(ActionsOf(s).value, |ActionsOf(s).value|)
      ensures ActionsOf(s).Some? && raised ==>
        actions == ExtractedPrefix(ActionsOf(s).value, MissingArgumentList(ActionsOf(s).value).value)
    {
      raised := false;
      var found := ActionsOf(s);
      if found.None? {
        return;
      }
      var acts := found.value;
      actions := acts;
      var i := 0;
      while i < |actions|
        invariant 0 <= i <= |acts| && |actions| == |acts|
        invariant forall j :: 0 <= j < i ==> acts[j].argumentList.Some?
        invariant actions == ExtractedPrefix(acts, i)
      {
        if actions[i].argumentList.None? {
          assert MissingArgumentList(acts) == Some(i);
          return true;
        }
        actions := actions[i := Extracted(actions[i])];
        i := i + 1;
      }
    }

    /** The SCPD getter fails: `cannot get SCPD`. */
    method ScpdGetterFailed()
      modifies this`status
      ensures status == Failed(ScpdUnavailable)
    {
      status := Failed(ScpdUnavailable);
    }

    /**
     * The SCPD getter succeeds with `s`: a bad description fails the service; a good one
     * gives the state table and the actions, and the service succeeds unless extracting
     * the actions raised. A raised error leaves the deferrable pending.
     */
    method ScpdReceived(s: Scpd) returns (raised: bool)
      modifies this`xmlns, this`specVersion, this`stateTable, this`actions, this`status
      ensures ScpdVerdict(s).None? ==> raised && status == old(status)
      ensures ScpdVerdict(s) == Some(true) ==> !raised && status == Failed(NotUpnpScpd)
      ensures ScpdVerdict(s) != Some(false) ==> stateTable == old(stateTable) && actions == old(actions)
      ensures ScpdVerdict(s) == Some(false) ==>
        && stateTable == Some(ListOf(s.root.value.stateTable.value.stateVariable.value))
        && (raised <==> ActionsOf(s).Some? && MissingArgumentList(ActionsOf(s).value).Some?)
        && (!raised ==> status == Succeeded && (ActionsOf(s).Some? ==> actions == ExtractedPrefix(ActionsOf(s).value, |ActionsOf(s).value|)))
        && (raised ==> status == old(status))
    {
      var bad := IsBadDescription(s);
      if bad.None? {
        return true;
      }
      if bad.value {
        status := Failed(NotUpnpScpd);
        return false;
      }
      ExtractServiceStateTable(s);
      raised := ExtractActions(s);
      if !raised {
        status := Succeeded;
      }
    }

    /** The callable defined for action `a`, given the SOAP response the call received. */
    method CallAction(a: Action, params: Params, resp: SoapResponse) returns (r: CallResult)
      ensures r == CallOutcome(stateTable, a, params, resp)
    {
      if params.OtherParams? {
        return ArgumentError;
      }
      var name := ActionMethodName(a);
      if a.arguments.None? {
        return Raised;
      }
      match a.arguments.value {
        case One(arg) =>
          if arg.direction == Some(OutDirection) {
            r := ResultOf(ProcessSoapResponse(stateTable, name, resp, arg));
          } else {
            r := NilResult;
          }
        case Many(args) =>
          var merged := MergeOutArguments(stateTable, name, resp, OutArguments(args));
          r := ResultOf(merged);
      }
    }

    /**
     * `subscribe_to_event(options)`: starts the control point's event server, takes the
     * next subscription number, keeps the callback URL and sends the SUBSCRIBE request,
     * with the default timeout when the caller gave none. `uriHost` is the subscription
     * URL's `host:port`.
     */
    method SubscribeToEvent(cp: ControlPoint.ControlPoint, counter: SubscriptionCounter, hostIp: string,
                            defaultPort: int, timeout: Option<int>, defaultTimeout: int,
                            uriHost: string, userAgent: string)
      returns (num: nat, req: SubscribeRequest)
      modifies cp`eventPort, cp`eventServer, cp`hasEventUrlChannel, counter, this`callbackUrl
      ensures cp.hasEventUrlChannel
      ensures cp.eventPort == (if old(cp.eventPort).Some? then old(cp.eventPort) else Some(defaultPort))
      ensures num == counter.count == old(counter.count) + 1
      ensures callbackUrl == Some(CallbackUrl(hostIp, cp.eventPort.value, num))
      ensures req == SubscribeRequest(uriHost, userAgent, callbackUrl.value, EventNt,
                                      GenaEvent.TimeoutHeader(OrElse(timeout, defaultTimeout)))
    {
      cp.StartEventServer(defaultPort);
      var port := cp.eventPort.value;
      num := counter.Next();
      callbackUrl := Some(CallbackUrl(hostIp, port, num));
      req := SubscribeRequest(uriHost, userAgent, callbackUrl.value, EventNt,
                              GenaEvent.TimeoutHeader(OrElse(timeout, defaultTimeout)));
    }

    /**
     * The device answers the SUBSCRIBE for subscription `num`. Any status but 200 is only
     * logged. A 200 creates the event with the SID, the TIMEOUT the device gave and the
     * current callback URL, and registers it under `/event<num>` with the control point.
     * This is the corrected reading of `SubscribeVerdict`: a TIMEOUT without digits (or
     * none) subscribes for 1800 seconds, where the code as written raises
     * (`SubscribeVerdictAsWritten`).
     */
    method SubscribeResponse(cp: ControlPoint.ControlPoint, num: nat, status: int,
                             timeoutHeader: Option<string>, sid: Option<string>)
      returns (e: Option<GenaEvent.Event>)
      requires cp.hasEventUrlChannel && callbackUrl.Some?
      modifies cp`eventUrls
      ensures status != 200 ==> e.None? && cp.eventUrls == old(cp.eventUrls)
      ensures status == 200 ==> e.Some? && fresh(e.value)
      ensures status == 200 ==> SubscribeVerdict(status, timeoutHeader) == Subscribed(e.value.timeout)
      ensures status == 200 ==> cp.eventUrls == old(cp.eventUrls) + [(EventPath(num), e.value)]
      ensures status == 200 ==>
        && e.value.eventSubUrl == eventSubUrl && e.value.callbackUrl == callbackUrl.value
        && e.value.sid == sid && e.value.timeout == GenaEvent.RenewedTimeout(timeoutHeader)
        && e.value.autoRenew && e.value.beforeTimeout == GenaEvent.DefaultBeforeTimeout
        && e.value.timer == Some(e.value.ArmedTimer()) && e.value.messages == [] && e.value.requests == []
    {
      if status != 200 {
        return None;
      }
      var ev := new GenaEvent.Event(eventSubUrl, callbackUrl.value, sid, GenaEvent.RenewedTimeout(timeoutHeader),
                                    GenaEvent.EventOptions(None, None));
      cp.AddEventUrl(EventPath(num), ev);
      e := Some(ev);
    }
  }
}
