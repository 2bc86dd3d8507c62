/** The forwarding-controller gateway: protocol translation, the rule
    document, extraction of results from responses, the scan that finds a
    rule by id, the read-merge-replace update, and the lazily opened
    connection.

    The controller is not modelled. Each request the service sends is
    appended to `log`, and the outcome of each request (a reply, or an
    exception) is supplied by the caller. */
module Unifi {
  import opened Wrappers
  import opened Text
  import opened Values
  import Config

  // ---------------------------------------------------------------------
  // Protocol vocabulary

  const ProtocolTable: map<string, string> := map["tcp" := "tcp", "udp" := "udp", "both" := "tcp_udp", "tcp_udp" := "tcp_udp"]

  /** The controller's name for a protocol: the lower-cased input looked up in
      the table, and `tcp` for anything the table does not know. */
  function Translate(protocol: string): (r: string)
    ensures r == "tcp" || r == "udp" || r == "tcp_udp"
    ensures r == "udp" <==> Lower(protocol) == "udp"
    ensures r == "tcp_udp" <==> Lower(protocol) == "both" || Lower(protocol) == "tcp_udp"
    ensures Lower(protocol) !in ProtocolTable ==> r == "tcp"
  {
    var key := Lower(protocol);
    if key in ProtocolTable then ProtocolTable[key] else "tcp"
  }

  /** Case does not matter. */
  lemma TranslateIgnoresCase(protocol: string)
    ensures Translate(Lower(protocol)) == Translate(protocol)
  {
    LowerIdempotent(protocol);
  }

  /** A controller name translates to itself, so translating twice changes
      nothing. */
  lemma TranslateIdempotent(protocol: string)
    ensures Translate(Translate(protocol)) == Translate(protocol)
  {
    assert Lower("tcp") == "tcp";
    assert Lower("udp") == "udp";
    assert Lower("tcp_udp") == "tcp_udp";
  }

  // ---------------------------------------------------------------------
  // The rule document

  const RuleKeys: set<string> := {"name", "enabled", "pfwd_interfance", "src", "dst_port", "fwd", "fwd_port", "proto", "log"}

  /** The keyword defaults of `create_port_forward`. */
  const DefaultInternalPort := 22
  const DefaultProtocol := "tcp"
  const DefaultEnabled := true

  /** The document `create_port_forward` posts. The interface key is spelt
      `pfwd_interfance`, as the service sends it. */
  function BuildRule(name: string, externalPort: int, internalIp: string, internalPort: int,
                     protocol: string, enabled: bool): (d: Doc)
    ensures d.Keys == RuleKeys
    ensures d["name"] == Str(name) && d["enabled"] == Bool(enabled)
    ensures d["src"] == Str("any") && d["log"] == Bool(false) && d["pfwd_interfance"] == Str("wan")
    ensures d["fwd"] == Str(internalIp) && d["proto"] == Str(Translate(protocol))
  {
    map[
      "name" := Str(name),
      "enabled" := Bool(enabled),
      "pfwd_interfance" := Str("wan"),
      "src" := Str("any"),
      "dst_port" := Str(IntToString(externalPort)),
      "fwd" := Str(internalIp),
      "fwd_port" := Str(IntToString(internalPort)),
      "proto" := Str(Translate(protocol)),
      "log" := Bool(false)
    ]
  }

  /** Both ports are sent as decimal text from which they read back. */
  lemma BuildRulePorts(name: string, externalPort: int, internalIp: string, internalPort: int,
                       protocol: string, enabled: bool)
    ensures var d := BuildRule(name, externalPort, internalIp, internalPort, protocol, enabled);
            && d["dst_port"].Str? && IsDecimal(d["dst_port"].s) && ParseInt(d["dst_port"].s) == externalPort
            && d["fwd_port"].Str? && IsDecimal(d["fwd_port"].s) && ParseInt(d["fwd_port"].s) == internalPort
  {
    var d := BuildRule(name, externalPort, internalIp, internalPort, protocol, enabled);
    assert d["dst_port"] == Str(IntToString(externalPort));
    assert d["fwd_port"] == Str(IntToString(internalPort));
    IntToStringRoundTrip(externalPort);
    IntToStringRoundTrip(internalPort);
  }

  // ---------------------------------------------------------------------
  // Responses

  /** A response body: `data`, when present, is a list of documents. */
  datatype Response = Response(data: Option<seq<Doc>>)

  /** The outcome of one request: it raises, or it returns a body that may
      be `None` (or empty, which is the same to every caller). */
  datatype Reply = Raised | Returned(response: Option<Response>)

  /** `response["data"][0]` when there is such an element, else `{}`. */
  function FirstOrEmpty(response: Option<Response>): (d: Doc)
    ensures response.Some? && response.value.data.Some? && |response.value.data.value| > 0 ==>
              d == response.value.data.value[0]
    ensures !(response.Some? && response.value.data.Some? && |response.value.data.value| > 0) ==> d == map[]
  {
    match response
    case Some(Response(Some(data))) => if |data| > 0 then data[0] else map[]
    case _ => map[]
  }

  /** `response["data"]` when present, else `[]`. */
  function DataOrEmpty(response: Option<Response>): (rules: seq<Doc>)
    ensures response.Some? && response.value.data.Some? ==> rules == response.value.data.value
    ensures !(response.Some? && response.value.data.Some?) ==> rules == []
  {
    match response
    case Some(Response(Some(data))) => data
    case _ => []
  }

  /** What `list_port_forwards` makes of a reply: an exception reads as no rules. */
  function ListedRules(reply: Reply): (rules: seq<Doc>)
    ensures reply.Raised? ==> rules == []
    ensures reply.Returned? ==> rules == DataOrEmpty(reply.response)
  {
    if reply.Raised? then [] else DataOrEmpty(reply.response)
  }

  // ---------------------------------------------------------------------
  // Lookup by id

  /** `rule.get("_id") == rule_id`: a rule without an id matches nothing. */
  predicate Matches(rule: Doc, ruleId: string) {
    "_id" in rule && rule["_id"] == Str(ruleId)
  }

  /** The first rule, in list order, whose id is `ruleId`. */
  function FirstMatch(rules: seq<Doc>, ruleId: string): Option<Doc> {
    if rules == [] then None
    else if Matches(rules[0], ruleId) then Some(rules[0])
    else FirstMatch(rules[1..], ruleId)
  }

  lemma {:induction false} FirstMatchSpec(rules: seq<Doc>, ruleId: string)
    ensures FirstMatch(rules, ruleId).None? <==> forall i :: 0 <= i < |rules| ==> !Matches(rules[i], ruleId)
    ensures FirstMatch(rules, ruleId).Some? ==>
              exists i :: 0 <= i < |rules| && rules[i] == FirstMatch(rules, ruleId).value
                          && Matches(rules[i], ruleId) && forall j :: 0 <= j < i ==> !Matches(rules[j], ruleId)
  {
    if rules != [] && !Matches(rules[0], ruleId) {
      FirstMatchSpec(rules[1..], ruleId);
      if FirstMatch(rules[1..], ruleId).Some? {
        var i :| 0 <= i < |rules[1..]| && rules[1..][i] == FirstMatch(rules[1..], ruleId).value
                 && Matches(rules[1..][i], ruleId) && forall j :: 0 <= j < i ==> !Matches(rules[1..][j], ruleId);
        assert rules[i + 1] == rules[1..][i];
        forall j | 0 <= j < i + 1 ensures !Matches(rules[j], ruleId) {
          if j > 0 {
            assert rules[j] == rules[1..][j - 1];
          }
        }
      } else {
        forall i | 0 <= i < |rules| ensures !Matches(rules[i], ruleId) {
          if i > 0 {
            assert rules[i] == rules[1..][i - 1];
          }
        }
      }
    }
  }

  /** No two rules share an id. */
  predicate IdsUnique(rules: seq<Doc>) {
    forall i, j :: 0 <= i < j < |rules| && "_id" in rules[i] && "_id" in rules[j] ==> rules[i]["_id"] != rules[j]["_id"]
  }

  /** When ids are unique, the scan finds the one rule with the id. */
  lemma FirstMatchUnique(rules: seq<Doc>, ruleId: string, k: nat)
    requires IdsUnique(rules)
    requires k < |rules| && Matches(rules[k], ruleId)
    ensures FirstMatch(rules, ruleId) == Some(rules[k])
  {
    FirstMatchSpec(rules, ruleId);
    var i :| 0 <= i < |rules| && rules[i] == FirstMatch(rules, ruleId).value
             && Matches(rules[i], ruleId) && forall j :: 0 <= j < i ==> !Matches(rules[j], ruleId);
  }

  /** The loop in `get_port_forward`. */
  method FindRule(rules: seq<Doc>, ruleId: string) returns (r: Option<Doc>)
    ensures r == FirstMatch(rules, ruleId)
  {
    var i := 0;
    while i < |rules|
      invariant 0 <= i <= |rules|
      invariant FirstMatch(rules, ruleId) == FirstMatch(rules[i..], ruleId)
    {
      assert rules[i..][1..] == rules[i + 1..];
      if Matches(rules[i], ruleId) {
        return Some(rules[i]);
      }
      i := i + 1;
    }
    return None;
  }

  // ---------------------------------------------------------------------
  // Merging an update

  /** The replacement document: the stored rule, then `enabled` when given,
      then the keyword fields, each overriding what came before. */
  function Merge(rule: Doc, enabled: Option<bool>, kwargs: Doc): (upd: Doc)
    ensures upd.Keys == rule.Keys + kwargs.Keys + (if enabled.Some? then {"enabled"} else {})
    ensures forall k :: k in kwargs ==> upd[k] == kwargs[k]
    ensures enabled.Some? && "enabled" !in kwargs ==> upd["enabled"] == Bool(enabled.value)
    ensures forall k :: k in rule && k !in kwargs && !(k == "enabled" && enabled.Some?) ==> upd[k] == rule[k]
  {
    var withEnabled := if enabled.Some? then rule["enabled" := Bool(enabled.value)] else rule;
    withEnabled + kwargs
  }

  /** Changing one field keeps every other field of the stored rule. */
  lemma MergeOneField(rule: Doc, key: string, v: Value)
    ensures Merge(rule, None, map[key := v]) == rule[key := v]
  {
  }

  /** Replaying the same update on its own result changes nothing. */
  lemma MergeIdempotent(rule: Doc, enabled: Option<bool>, kwargs: Doc)
    ensures Merge(Merge(rule, enabled, kwargs), enabled, kwargs) == Merge(rule, enabled, kwargs)
  {
    var once := Merge(rule, enabled, kwargs);
    var twice := Merge(once, enabled, kwargs);
    assert twice.Keys == once.Keys;
    forall k | k in once ensures twice[k] == once[k] {
    }
  }

  // ---------------------------------------------------------------------
  // The service

  const RulesPath := "/api/s/{site}/rest/portforward"

  function RulePath(ruleId: string): string {
    RulesPath + "/" + ruleId
  }

  /** The requests the service sends to the controller. */
  datatype Request =
    | Login(host: string, username: string, port: int, site: string)
    | Post(path: string, body: Doc)
    | Put(path: string, body: Doc)
    | Delete(path: string)
    | Get(path: string)

  /** The HTTP session: not yet created, open, or closed by `disconnect`. */
  datatype SessionState = NoSession | OpenSession | ClosedSession

  datatype UnifiError =
    | ConnectFailed                 // login raised
    | MissingSetting(name: string)  // a setting read that `Settings` does not declare
    | RequestFailed                 // a request raised and nothing caught it
    | NotFound(ruleId: string)      // `update_port_forward` found no rule with the id
    | NotIterable                   // a coroutine was used as a list or a dict

  class UnifiService {
    const settings: Config.Settings
    /** The controller site; `Settings` has no such field (see `ConnectAsWritten`). */
    const site: string
    var connected: bool
    var hasController: bool
    var session: SessionState
    var log: seq<Request>

    /** A controller is only made once a session exists, and the flag is set
        only after a login over an open session. */
    predicate Valid()
      reads this
    {
      && (hasController ==> session != NoSession)
      && (connected ==> hasController && session == OpenSession)
    }

    /** `_ensure` finds nothing to do. */
    predicate Ready()
      reads this
    {
      connected && hasController
    }

    function LoginRequest(): Request
      reads this
    {
      Login(settings.unifiHost, settings.unifiUsername, settings.unifiPort, site)
    }

    /** The requests `_ensure` sends. */
    function EnsureLog(): seq<Request>
      reads this
    {
      if Ready() then [] else [LoginRequest()]
    }

    constructor(settings: Config.Settings, site: string)
      ensures Valid()
      ensures this.settings == settings && this.site == site
      ensures !connected && !hasController && session == NoSession && log == []
    {
      this.settings := settings;
      this.site := site;
      connected := false;
      hasController := false;
      session := NoSession;
      log := [];
    }

    /** `connect` with a site setting and a session that is reopened once
        closed: the login succeeds exactly when the controller accepts it,
        and the flag is set only then. */
    method Connect(loginOk: bool) returns (err: Option<UnifiError>)
      requires Valid()
      modifies this
      ensures Valid()
      ensures err.None? <==> loginOk
      ensures err.Some? ==> err.value == ConnectFailed
      ensures session == OpenSession && hasController
      ensures connected == (loginOk || old(connected))
      ensures log == old(log) + [LoginRequest()]
    {
      if session != OpenSession {
        session := OpenSession;
      }
      hasController := true;
      log := log + [LoginRequest()];
      if !loginOk {
        return Some(ConnectFailed);
      }
      connected := true;
      return None;
    }

    /** `connect` as written: it opens a session when there is none, then
        reads `settings.unifi_site`, which `Settings` does not declare, so it
        raises before any controller is made or any login is sent. */
    method ConnectAsWritten(loginOk: bool) returns (err: Option<UnifiError>)
      requires Valid()
      modifies this
      ensures Valid()
      ensures err == Some(MissingSetting("unifi_site"))
      ensures session == (if old(session) == NoSession then OpenSession else old(session))
      ensures connected == old(connected) && hasController == old(hasController) && log == old(log)
    {
      if session == NoSession {
        session := OpenSession;
      }
      return Some(MissingSetting("unifi_site"));
    }

    /** `connect` as written apart from the site setting: the session is kept
        whatever its state, so after `disconnect` the login runs on a closed
        session and raises before anything is sent. */
    method ConnectKeepingSession(loginOk: bool) returns (err: Option<UnifiError>)
      requires Valid()
      modifies this
      ensures Valid()
      ensures err.None? <==> loginOk && old(session) != ClosedSession
      ensures session == (if old(session) == NoSession then OpenSession else old(session)) && hasController
      ensures old(session) == ClosedSession ==> log == old(log) && connected == old(connected)
      ensures old(session) != ClosedSession ==> log == old(log) + [LoginRequest()] && connected == (loginOk || old(connected))
    {
      if session == NoSession {
        session := OpenSession;
      }
      hasController := true;
      if session == ClosedSession {
        return Some(ConnectFailed);
      }
      log := log + [LoginRequest()];
      if !loginOk {
        return Some(ConnectFailed);
      }
      connected := true;
      return None;
    }

    /** `disconnect`: the session, if any, is closed and the flag cleared;
        the controller object is kept. */
    method Disconnect()
      requires Valid()
      modifies this
      ensures Valid()
      ensures !connected && hasController == old(hasController) && log == old(log)
      ensures session == (if old(session) == NoSession then NoSession else ClosedSession)
    {
      if session != NoSession {
        session := ClosedSession;
      }
      connected := false;
    }

    /** `_ensure`: connects only when the flag is clear or there is no
        controller. */
    method Ensure(loginOk: bool) returns (err: Option<UnifiError>)
      requires Valid()
      modifies this
      ensures Valid()
      ensures log == old(log) + old(EnsureLog())
      ensures old(Ready()) ==> err.None? && connected == old(connected) && session == old(session)
      ensures err.None? <==> old(Ready()) || loginOk
      ensures err.Some? ==> err.value == ConnectFailed
      ensures err.None? ==> Ready() && session == OpenSession
      ensures session == OpenSession && hasController
      ensures connected <==> old(Ready()) || loginOk
    {
      if !connected || !hasController {
        err := Connect(loginOk);
      } else {
        err := None;
      }
    }

    /** `create_port_forward`: posts the rule document and returns the first
        document of the reply, or `{}`. An argument left out takes the
        keyword default. A failing request propagates. */
    method CreatePortForward(name: string, externalPort: int, internalIp: string, internalPort: Option<int>,
                             protocol: Option<string>, enabled: Option<bool>, loginOk: bool, reply: Reply)
      returns (r: Result<Doc, UnifiError>)
      requires Valid()
      modifies this
      ensures Valid()
      ensures session == OpenSession && hasController
      ensures connected <==> old(Ready()) || loginOk
      ensures !old(Ready()) && !loginOk ==> r == Failure(ConnectFailed) && log == old(log) + [old(LoginRequest())]
      ensures old(Ready()) || loginOk ==>
                && log == old(log) + old(EnsureLog())
                          + [Post(RulesPath, BuildRule(name, externalPort, internalIp, internalPort.GetOr(DefaultInternalPort),
                                                       protocol.GetOr(DefaultProtocol), enabled.GetOr(DefaultEnabled)))]
                && r == (if reply.Raised? then Failure(RequestFailed) else Success(FirstOrEmpty(reply.response)))
    {
      var err := Ensure(loginOk);
      if err.Some? {
        return Failure(err.value);
      }
      var doc := BuildRule(name, externalPort, internalIp, internalPort.GetOr(DefaultInternalPort),
                           protocol.GetOr(DefaultProtocol), enabled.GetOr(DefaultEnabled));
      log := log + [Post(RulesPath, doc)];
      if reply.Raised? {
        return Failure(RequestFailed);
      }
      return Success(FirstOrEmpty(reply.response));
    }

    /** `delete_port_forward`: `true` when the request returns, `false` when
        it raises; only a failed connection propagates. */
    method DeletePortForward(ruleId: string, loginOk: bool, raises: bool) returns (r: Result<bool, UnifiError>)
      requires Valid()
      modifies this
      ensures Valid()
      ensures session == OpenSession && hasController
      ensures connected <==> old(Ready()) || loginOk
      ensures !old(Ready()) && !loginOk ==> r == Failure(ConnectFailed) && log == old(log) + [old(LoginRequest())]
      ensures old(Ready()) || loginOk ==>
                && log == old(log) + old(EnsureLog()) + [Delete(RulePath(ruleId))]
                && r == Success(!raises)
    {
      var err := Ensure(loginOk);
      if err.Some? {
        return Failure(err.value);
      }
      log := log + [Delete(RulePath(ruleId))];
      return Success(!raises);
    }

    /** `list_port_forwards`: the reply's `data`, or `[]` when it has none or
        the request raises. The connection is made outside the `try`, so a
        failed login propagates. */
    method ListPortForwards(loginOk: bool, reply: Reply) returns (r: Result<seq<Doc>, UnifiError>)
      requires Valid()
      modifies this
      ensures Valid()
      ensures session == OpenSession && hasController
      ensures connected <==> old(Ready()) || loginOk
      ensures !old(Ready()) && !loginOk ==> r == Failure(ConnectFailed) && log == old(log) + [old(LoginRequest())]
      ensures old(Ready()) || loginOk ==>
                && log == old(log) + old(EnsureLog()) + [Get(RulesPath)]
                && r == Success(ListedRules(reply))
      ensures r.Success? ==> Ready()
    {
      var err := Ensure(loginOk);
      if err.Some? {
        return Failure(err.value);
      }
      log := log + [Get(RulesPath)];
      if reply.Raised? {
        return Success([]);
      }
      return Success(DataOrEmpty(reply.response));
    }

    /** `get_port_forward` with the listing awaited: the first listed rule
        whose id is `ruleId`, or `None`. */
    method GetPortForward(ruleId: string, loginOk: bool, reply: Reply) returns (r: Result<Option<Doc>, UnifiError>)
      requires Valid()
      modifies this
      ensures Valid()
      ensures session == OpenSession && hasController
      ensures connected <==> old(Ready()) || loginOk
      ensures !old(Ready()) && !loginOk ==> r == Failure(ConnectFailed) && log == old(log) + [old(LoginRequest())]
      ensures old(Ready()) || loginOk ==>
                && log == old(log) + old(EnsureLog()) + [Get(RulesPath)]
                && r == Success(FirstMatch(ListedRules(reply), ruleId))
      ensures r.Success? ==> Ready()
    {
      var err := Ensure(loginOk);
      if err.Some? {
        return Failure(err.value);
      }
      var rules := ListPortForwards(loginOk, reply);
      var found := FindRule(rules.value, ruleId);
      return Success(found);
    }

    /** `get_port_forward` as written: the listing coroutine is iterated
        without being awaited, which raises once the connection is made, and
        no listing request is sent. */
    method GetPortForwardAsWritten(ruleId: string, loginOk: bool) returns (r: Result<Option<Doc>, UnifiError>)
      requires Valid()
      modifies this
      ensures Valid()
      ensures session == OpenSession && hasController
      ensures connected <==> old(Ready()) || loginOk
      ensures r.Failure?
      ensures log == old(log) + old(EnsureLog())
      ensures old(Ready()) || loginOk ==> r == Failure(NotIterable)
    {
      var err := Ensure(loginOk);
      if err.Some? {
        return Failure(err.value);
      }
      return Failure(NotIterable);
    }

    /** `update_port_forward` with the lookup awaited: the stored rule is
        read, merged with the changes and sent back whole. A missing rule is
        an error and nothing is sent. */
    method UpdatePortForward(ruleId: string, enabled: Option<bool>, kwargs: Doc, loginOk: bool,
                             listReply: Reply, putReply: Reply)
      returns (r: Result<Doc, UnifiError>)
      requires Valid()
      modifies this
      ensures Valid()
      ensures session == OpenSession && hasController
      ensures connected <==> old(Ready()) || loginOk
      ensures !old(Ready()) && !loginOk ==> r == Failure(ConnectFailed) && log == old(log) + [old(LoginRequest())]
      ensures (old(Ready()) || loginOk) && FirstMatch(ListedRules(listReply), ruleId).None? ==>
                && r == Failure(NotFound(ruleId))
                && log == old(log) + old(EnsureLog()) + [Get(RulesPath)]
      ensures (old(Ready()) || loginOk) && FirstMatch(ListedRules(listReply), ruleId).Some? ==>
                var upd := Merge(FirstMatch(ListedRules(listReply), ruleId).value, enabled, kwargs);
                && log == old(log) + old(EnsureLog()) + [Get(RulesPath), Put(RulePath(ruleId), upd)]
                && r == (if putReply.Raised? then Failure(RequestFailed) else Success(FirstOrEmpty(putReply.response)))
    {
      var err := Ensure(loginOk);
      if err.Some? {
        return Failure(err.value);
      }
      var rule := GetPortForward(ruleId, loginOk, listReply);
      if rule.value.None? {
        return Failure(NotFound(ruleId));
      }
      var upd := Merge(rule.value.value, enabled, kwargs);
      log := log + [Put(RulePath(ruleId), upd)];
      if putReply.Raised? {
        return Failure(RequestFailed);
      }
      return Success(FirstOrEmpty(putReply.response));
    }

    /** `update_port_forward` as written: the lookup coroutine is not
        awaited, and copying it into a dictionary raises, so no update is
        ever sent. */
    method UpdatePortForwardAsWritten(ruleId: string, enabled: Option<bool>, kwargs: Doc, loginOk: bool)
      returns (r: Result<Doc, UnifiError>)
      requires Valid()
      modifies this
      ensures Valid()
      ensures session == OpenSession && hasController
      ensures connected <==> old(Ready()) || loginOk
      ensures r.Failure?
      ensures log == old(log) + old(EnsureLog())
      ensures old(Ready()) || loginOk ==> r == Failure(NotIterable)
    {
      var err := Ensure(loginOk);
      if err.Some? {
        return Failure(err.value);
      }
      return Failure(NotIterable);
    }
  }

  /** Connecting, disconnecting and connecting again, with a controller that
      accepts every login, as written: the second login never happens. */
  method ReconnectAsWritten(settings: Config.Settings, site: string) returns (first: bool, second: bool)
    ensures first && !second
  {
    var service := new UnifiService(settings, site);
    var e1 := service.ConnectKeepingSession(true);
    service.Disconnect();
    var e2 := service.ConnectKeepingSession(true);
    first, second := e1.None?, e2.None?;
  }

  /** The same sequence with the session reopened: both logins succeed and
      the service ends connected. */
  method ReconnectCorrected(settings: Config.Settings, site: string) returns (first: bool, second: bool)
    ensures first && second
  {
    var service := new UnifiService(settings, site);
    var e1 := service.Connect(true);
    service.Disconnect();
    var e2 := service.Connect(true);
    first, second := e1.None?, e2.None?;
  }

  /** A login is reused: after a first request has connected, a later one
      sends no login and succeeds even when the controller would now refuse
      a login. */
  method LoginReused(settings: Config.Settings, site: string, ruleId: string, reply: Reply)
    returns (listed: bool, requests: seq<Request>)
    ensures listed
    ensures requests == [Login(settings.unifiHost, settings.unifiUsername, settings.unifiPort, site),
                         Delete(RulePath(ruleId)), Get(RulesPath)]
  {
    var service := new UnifiService(settings, site);
    var deleted := service.DeletePortForward(ruleId, true, false);
    var rules := service.ListPortForwards(false, reply);
    listed, requests := rules.Success?, service.log;
  }
}
