/**
 Evidence in an ACP transcript (src/peerbridge_mcp/acp_client_receipt.py:48-110, 269-365, 399-597): which transcripts
 are accepted, and in what order their lines then stand. A row's position in the transcript stands for its line number.
 */
module AcpTranscript {
  import opened Results

  /** The parts of a response object that are looked at. */
  datatype Outcome = Outcome(stopReason: Option<string>, hasUsage: bool, sessionId: string,
                             currentModel: Option<string>, hasProtocol: bool, hasIdentity: bool, outcome: string,
                             optionId: string)

  datatype Update = NoUpdate
                  | Update(kind: string, title: string, callId: string, toolName: Option<string>, hasInput: bool,
                           arguments: Option<string>, status: string, output: Option<string>, text: Option<string>)

  /** One JSON row: a request or notification if it has a method, a response if it has none. */
  datatype Row = Row(verb: Option<string>, id: Option<string>, sessionId: string, permissionCall: string,
                     authMethod: string, requestedModel: Option<string>, serverOk: bool, update: Update,
                     result: Option<Outcome>)

  datatype Query = Query(title: string, toolNames: set<string>, model: string, isBlank: string -> bool)

  const ALLOWED_OPTIONS := {"allow", "allow-once", "allow_always"}

  datatype Pair = Pair(request: nat, response: nat)

  /** Where the evidence stands. */
  datatype Evidence = Evidence(initialize: Pair, session: Pair, authentication: Option<Pair>, model: Option<Pair>,
                               prompt: Pair, call: nat, arguments: nat, permission: Pair, result: nat)

  // ----- single rows -----

  predicate HasMethod(rows: seq<Row>, i: nat, name: string) {
    i < |rows| && rows[i].verb == Some(name)
  }

  predicate IsResponse(rows: seq<Row>, request: nat, before: nat, needsStop: bool, i: nat) {
    && request < |rows| && request < i < before && i < |rows|
    && rows[i].verb.None? && rows[i].id == rows[request].id && rows[i].result.Some?
    && (needsStop ==> rows[i].result.value.stopReason.Some?)
  }

  predicate IsAuthentication(rows: seq<Row>, before: nat, i: nat) {
    i < before && HasMethod(rows, i, "authenticate")
  }

  predicate IsModelRequest(rows: seq<Row>, after: nat, before: nat, i: nat) {
    after < i < before && (HasMethod(rows, i, "session/set_config_option") || HasMethod(rows, i, "session/set_model"))
  }

  predicate HasUpdate(rows: seq<Row>, i: nat) {
    HasMethod(rows, i, "session/update") && rows[i].update.Update?
  }

  predicate IsStart(q: Query, rows: seq<Row>, i: nat) {
    && HasUpdate(rows, i) && rows[i].update.kind == "tool_call"
    && (rows[i].update.title == q.title
        || (rows[i].update.toolName.Some? && rows[i].update.toolName.value in q.toolNames))
  }

  predicate IsCallUpdate(rows: seq<Row>, callId: string, i: nat) {
    HasUpdate(rows, i) && callId != "" && rows[i].update.callId == callId
  }

  predicate IsCompletion(rows: seq<Row>, callId: string, i: nat) {
    IsCallUpdate(rows, callId, i) && rows[i].update.kind == "tool_call_update" && rows[i].update.status == "completed"
  }

  predicate IsInput(rows: seq<Row>, callId: string, before: nat, i: nat) {
    i < before && IsCallUpdate(rows, callId, i) && rows[i].update.hasInput
  }

  predicate IsPermission(rows: seq<Row>, callId: string, i: nat) {
    HasMethod(rows, i, "session/request_permission") && rows[i].permissionCall == callId
  }

  predicate IsChunk(q: Query, rows: seq<Row>, after: nat, before: nat, i: nat) {
    && after < i < before && HasUpdate(rows, i) && rows[i].update.kind == "agent_message_chunk"
    && rows[i].update.text.Some? && !q.isBlank(rows[i].update.text.value)
  }

  /** The only position below n with a property. */
  predicate OnlyOne(n: nat, p: nat -> bool, i: nat) {
    i < n && p(i) && forall k: nat | k < n && p(k) :: k == i
  }

  predicate NoneBelow(n: nat, p: nat -> bool) {
    forall k: nat | k < n :: !p(k)
  }

  // ----- the properties as functions of a position -----

  function Requests(rows: seq<Row>, name: string): nat -> bool {
    (i: nat) => HasMethod(rows, i, name)
  }

  function Responses(rows: seq<Row>, request: nat, before: nat, needsStop: bool): nat -> bool {
    (i: nat) => IsResponse(rows, request, before, needsStop, i)
  }

  function Authentications(rows: seq<Row>, before: nat): nat -> bool {
    (i: nat) => IsAuthentication(rows, before, i)
  }

  function ModelRequests(rows: seq<Row>, after: nat, before: nat): nat -> bool {
    (i: nat) => IsModelRequest(rows, after, before, i)
  }

  function Starts(q: Query, rows: seq<Row>): nat -> bool {
    (i: nat) => IsStart(q, rows, i)
  }

  function Completions(rows: seq<Row>, callId: string): nat -> bool {
    (i: nat) => IsCompletion(rows, callId, i)
  }

  function Permissions(rows: seq<Row>, callId: string): nat -> bool {
    (i: nat) => IsPermission(rows, callId, i)
  }

  // ----- acceptance -----

  predicate OnlyPair(rows: seq<Row>, name: string, before: nat, needsStop: bool, p: Pair) {
    && OnlyOne(|rows|, Requests(rows, name), p.request)
    && OnlyOne(|rows|, Responses(rows, p.request, before, needsStop), p.response)
  }

  predicate LifecycleOk(rows: seq<Row>, initialize: Pair, session: Pair, prompt: Pair) {
    && initialize.request < session.request < prompt.request
    && OnlyPair(rows, "initialize", session.request, false, initialize)
    && rows[initialize.response].result.value.hasIdentity && rows[initialize.response].result.value.hasProtocol
    && OnlyPair(rows, "session/new", prompt.request, false, session)
    && rows[session.request].serverOk && rows[session.response].result.value.sessionId != ""
    && OnlyPair(rows, "session/prompt", |rows|, true, prompt)
    && rows[prompt.request].sessionId == rows[session.response].result.value.sessionId
    && rows[prompt.response].result.value.stopReason.value != "" && rows[prompt.response].result.value.hasUsage
  }

  predicate AuthenticationOk(rows: seq<Row>, session: Pair, authentication: Option<Pair>) {
    match authentication
    case None => NoneBelow(|rows|, Authentications(rows, session.request))
    case Some(a) =>
      && OnlyOne(|rows|, Authentications(rows, session.request), a.request) && rows[a.request].authMethod != ""
      && OnlyOne(|rows|, Responses(rows, a.request, session.request, false), a.response)
  }

  predicate ModelOk(q: Query, rows: seq<Row>, session: Pair, prompt: Pair, model: Option<Pair>) {
    && session.response < |rows| && rows[session.response].result.Some?
    && match model
       case None =>
         && NoneBelow(|rows|, ModelRequests(rows, session.response, prompt.request))
         && rows[session.response].result.value.currentModel == Some(q.model)
       case Some(m) =>
         && OnlyOne(|rows|, ModelRequests(rows, session.response, prompt.request), m.request)
         && rows[m.request].sessionId == rows[session.response].result.value.sessionId
         && rows[m.request].requestedModel == Some(q.model)
         && OnlyOne(|rows|, Responses(rows, m.request, prompt.request, false), m.response)
         && rows[m.response].result.value.currentModel in {None, Some(""), Some(q.model)}
  }

  predicate CallOk(q: Query, rows: seq<Row>, prompt: Pair, call: nat, arguments: nat, permission: Pair, result: nat) {
    && OnlyOne(|rows|, Starts(q, rows), call)
    && var id := rows[call].update.callId;
       && OnlyOne(|rows|, Completions(rows, id), result)
       && IsInput(rows, id, result, arguments)
          && (forall k: nat | arguments < k < |rows| :: !IsInput(rows, id, result, k))
       && rows[arguments].update.arguments.Some? && rows[result].update.output.Some?
       && OnlyOne(|rows|, Permissions(rows, id), permission.request)
       && arguments < permission.request < result
       && OnlyOne(|rows|, Responses(rows, permission.request, result, false), permission.response)
       && rows[permission.response].result.value.outcome == "selected"
       && rows[permission.response].result.value.optionId in ALLOWED_OPTIONS
       && exists k: nat :: k < |rows| && IsChunk(q, rows, result, prompt.response, k)
  }

  /** A transcript is accepted with this evidence. */
  predicate Accepted(q: Query, rows: seq<Row>, e: Evidence) {
    && LifecycleOk(rows, e.initialize, e.session, e.prompt)
    && AuthenticationOk(rows, e.session, e.authentication)
    && ModelOk(q, rows, e.session, e.prompt, e.model)
    && CallOk(q, rows, e.prompt, e.call, e.arguments, e.permission, e.result)
  }

  /**
   Every accepted transcript has initialize, session/new and prompt in this order with their responses nested between
   them, and arguments, permission request, permission reply, tool result and prompt response in this order.
   */
  lemma AcceptedIsOrdered(q: Query, rows: seq<Row>, e: Evidence)
    requires Accepted(q, rows, e)
    ensures e.initialize.request < e.initialize.response < e.session.request
    ensures e.session.request < e.session.response < e.prompt.request < e.prompt.response
    ensures e.authentication.Some?
            ==> e.authentication.value.request < e.authentication.value.response < e.session.request
    ensures e.model.Some? ==> e.session.response < e.model.value.request < e.model.value.response < e.prompt.request
    ensures e.arguments < e.permission.request < e.permission.response < e.result < e.prompt.response < |rows|
  {
  }

  /** The evidence of a transcript is unique. */
  lemma EvidenceUnique(q: Query, rows: seq<Row>, e: Evidence, f: Evidence)
    requires Accepted(q, rows, e) && Accepted(q, rows, f)
    ensures e == f
  {
    LifecycleUnique(rows, e, f);
    hide LifecycleOk;
    OptionalUnique(q, rows, e, f);
    CallUnique(q, rows, e, f);
  }

  lemma LifecycleUnique(rows: seq<Row>, e: Evidence, f: Evidence)
    requires LifecycleOk(rows, e.initialize, e.session, e.prompt)
             && LifecycleOk(rows, f.initialize, f.session, f.prompt)
    ensures e.initialize == f.initialize && e.session == f.session && e.prompt == f.prompt
  {
    assert e.session.request == f.session.request && e.prompt.request == f.prompt.request
           && e.initialize.request == f.initialize.request;
  }

  lemma OptionalUnique(q: Query, rows: seq<Row>, e: Evidence, f: Evidence)
    requires e.session == f.session && e.prompt == f.prompt
    requires AuthenticationOk(rows, e.session, e.authentication) && AuthenticationOk(rows, f.session, f.authentication)
    requires ModelOk(q, rows, e.session, e.prompt, e.model) && ModelOk(q, rows, f.session, f.prompt, f.model)
    ensures e.authentication == f.authentication && e.model == f.model
  {
  }

  lemma CallUnique(q: Query, rows: seq<Row>, e: Evidence, f: Evidence)
    requires e.prompt == f.prompt
    requires CallOk(q, rows, e.prompt, e.call, e.arguments, e.permission, e.result)
    requires CallOk(q, rows, f.prompt, f.call, f.arguments, f.permission, f.result)
    ensures e.call == f.call && e.arguments == f.arguments && e.permission == f.permission && e.result == f.result
  {
    assert e.call == f.call && e.result == f.result;
    assert !(e.arguments < f.arguments) && !(f.arguments < e.arguments);
  }

  // ----- finding the evidence -----

  /** Collects the positions with a property and insists that there is one. */
  method Only(n: nat, p: nat -> bool) returns (r: Option<nat>)
    ensures match r
            case Some(i) => OnlyOne(n, p, i)
            case None => forall i :: !OnlyOne(n, p, i)
  {
    var found: seq<nat> := [];
    for k := 0 to n
      invariant forall x | 0 <= x < |found| :: found[x] < k && p(found[x])
      invariant forall i: nat | i < k && p(i) :: i in found
      invariant forall x, y | 0 <= x < y < |found| :: found[x] < found[y]
    {
      if p(k) {
        found := found + [k];
      }
    }
    if |found| == 1 {
      return Some(found[0]);
    }
    if |found| > 1 {
      assert found[0] in found && found[1] in found;
    }
    r := None;
  }

  /** One request and its one response. */
  method FindPair(rows: seq<Row>, name: string, before: nat, needsStop: bool) returns (r: Option<Pair>)
    ensures match r
            case Some(p) => OnlyPair(rows, name, before, needsStop, p)
            case None => forall p :: !OnlyPair(rows, name, before, needsStop, p)
  {
    var request := Only(|rows|, Requests(rows, name));
    if request.None? {
      return None;
    }
    var response := Only(|rows|, Responses(rows, request.value, before, needsStop));
    if response.None? {
      return None;
    }
    r := Some(Pair(request.value, response.value));
  }

  /** The three requests of the lifecycle, each with its response. */
  method FindLifecycle(rows: seq<Row>) returns (r: Option<(Pair, Pair, Pair)>)
    ensures match r
            case Some((initialize, session, prompt)) => LifecycleOk(rows, initialize, session, prompt)
            case None => forall a, b, c :: !LifecycleOk(rows, a, b, c)
  {
    hide OnlyOne;
    var prompt := FindPair(rows, "session/prompt", |rows|, true);
    if prompt.None? {
      return None;
    }
    var session := FindPair(rows, "session/new", prompt.value.request, false);
    if session.None? {
      NoSession(rows, prompt.value);
      return None;
    }
    var initialize := FindPair(rows, "initialize", session.value.request, false);
    if initialize.None? || !LifecycleOk(rows, initialize.value, session.value, prompt.value) {
      NoLifecycle(rows, initialize, session.value, prompt.value);
      return None;
    }
    r := Some((initialize.value, session.value, prompt.value));
  }

  lemma PairUnique(rows: seq<Row>, name: string, before: nat, needsStop: bool, p: Pair, q: Pair)
    requires OnlyPair(rows, name, before, needsStop, p) && OnlyPair(rows, name, before, needsStop, q)
    ensures p == q
  {
  }

  lemma NoSession(rows: seq<Row>, prompt: Pair)
    requires OnlyPair(rows, "session/prompt", |rows|, true, prompt)
    requires forall p :: !OnlyPair(rows, "session/new", prompt.request, false, p)
    ensures forall a, b, c :: !LifecycleOk(rows, a, b, c)
  {
    forall a, b, c ensures !LifecycleOk(rows, a, b, c) {
      if OnlyPair(rows, "session/prompt", |rows|, true, c) {
        PairUnique(rows, "session/prompt", |rows|, true, c, prompt);
      }
    }
  }

  lemma NoLifecycle(rows: seq<Row>, initialize: Option<Pair>, session: Pair, prompt: Pair)
    requires OnlyPair(rows, "session/prompt", |rows|, true, prompt)
             && OnlyPair(rows, "session/new", prompt.request, false, session)
    requires initialize.None? ==> forall p :: !OnlyPair(rows, "initialize", session.request, false, p)
    requires initialize.Some? ==> OnlyPair(rows, "initialize", session.request, false, initialize.value)
                                  && !LifecycleOk(rows, initialize.value, session, prompt)
    ensures forall a, b, c :: !LifecycleOk(rows, a, b, c)
  {
    forall a, b, c ensures !LifecycleOk(rows, a, b, c) {
      if LifecycleOk(rows, a, b, c) {
        PairUnique(rows, "session/prompt", |rows|, true, c, prompt);
        PairUnique(rows, "session/new", prompt.request, false, b, session);
        SameInitialize(rows, a, session, initialize);
      }
    }
  }

  lemma SameInitialize(rows: seq<Row>, a: Pair, session: Pair, initialize: Option<Pair>)
    requires OnlyPair(rows, "initialize", session.request, false, a)
    requires initialize.None? ==> forall p :: !OnlyPair(rows, "initialize", session.request, false, p)
    requires initialize.Some? ==> OnlyPair(rows, "initialize", session.request, false, initialize.value)
    ensures initialize == Some(a)
  {
    if initialize.Some? {
      PairUnique(rows, "initialize", session.request, false, a, initialize.value);
    }
  }

  /** The latest position with a property. */
  method Last(n: nat, p: nat -> bool) returns (r: Option<nat>)
    ensures match r
            case Some(i) => i < n && p(i) && forall k: nat | i < k < n :: !p(k)
            case None => NoneBelow(n, p)
  {
    var i := n;
    while i > 0
      invariant 0 <= i <= n && forall k: nat | i <= k < n :: !p(k)
    {
      i := i - 1;
      if p(i) {
        return Some(i);
      }
    }
    r := None;
  }

  method FindAuthentication(rows: seq<Row>, session: Pair) returns (found: bool, a: Option<Pair>)
    ensures if found then AuthenticationOk(rows, session, a) else forall x :: !AuthenticationOk(rows, session, x)
  {
    hide IsAuthentication;
    var some := Last(|rows|, Authentications(rows, session.request));
    if some.None? {
      return true, None;
    }
    var request := Only(|rows|, Authentications(rows, session.request));
    if request.None? {
      return false, None;
    }
    var response := Only(|rows|, Responses(rows, request.value, session.request, false));
    if response.None? {
      return false, None;
    }
    found := rows[request.value].authMethod != "";
    a := Some(Pair(request.value, response.value));
  }

  method FindModel(q: Query, rows: seq<Row>, session: Pair, prompt: Pair) returns (found: bool, m: Option<Pair>)
    requires session.response < |rows| && rows[session.response].result.Some?
    ensures if found then ModelOk(q, rows, session, prompt, m) else forall x :: !ModelOk(q, rows, session, prompt, x)
  {
    hide IsModelRequest;
    var some := Last(|rows|, ModelRequests(rows, session.response, prompt.request));
    if some.None? {
      return rows[session.response].result.value.currentModel == Some(q.model), None;
    }
    var request := Only(|rows|, ModelRequests(rows, session.response, prompt.request));
    if request.None? {
      return false, None;
    }
    var response := Only(|rows|, Responses(rows, request.value, prompt.request, false));
    if response.None? {
      return false, None;
    }
    m := Some(Pair(request.value, response.value));
    found := && rows[request.value].sessionId == rows[session.response].result.value.sessionId
             && rows[request.value].requestedModel == Some(q.model)
             && rows[response.value].result.value.currentModel in {None, Some(""), Some(q.model)};
  }

  function Inputs(rows: seq<Row>, callId: string, before: nat): nat -> bool {
    (i: nat) => IsInput(rows, callId, before, i)
  }

  datatype Call = Call(call: nat, arguments: nat, permission: Pair, result: nat)

  predicate CallAt(q: Query, rows: seq<Row>, prompt: Pair, c: Call) {
    CallOk(q, rows, prompt, c.call, c.arguments, c.permission, c.result)
  }

  method FindCall(q: Query, rows: seq<Row>, prompt: Pair) returns (r: Option<Call>)
    ensures match r
            case Some(c) => CallAt(q, rows, prompt, c)
            case None => forall c :: !CallAt(q, rows, prompt, c)
  {
    hide IsStart, IsCompletion, IsInput, IsPermission, IsResponse, IsChunk;
    var call := Only(|rows|, Starts(q, rows));
    if call.None? {
      return None;
    }
    var id := CallIdAt(q, rows, call.value);
    var result := Only(|rows|, Completions(rows, id));
    if result.None? {
      return None;
    }
    var arguments := Last(|rows|, Inputs(rows, id, result.value));
    if arguments.None? {
      NoInput(q, rows, prompt, call.value, result.value);
      return None;
    }
    var permission := Only(|rows|, Permissions(rows, id));
    if permission.None? {
      return None;
    }
    var reply := Only(|rows|, Responses(rows, permission.value, result.value, false));
    if reply.None? {
      return None;
    }
    var c := Call(call.value, arguments.value, Pair(permission.value, reply.value), result.value);
    if CallAt(q, rows, prompt, c) {
      return Some(c);
    }
    forall d ensures !CallAt(q, rows, prompt, d) {
      if CallAt(q, rows, prompt, d) {
        SameCall(q, rows, prompt, c, d);
      }
    }
    r := None;
  }

  lemma NoInput(q: Query, rows: seq<Row>, prompt: Pair, call: nat, result: nat)
    requires OnlyOne(|rows|, Starts(q, rows), call) && rows[call].update.Update?
    requires OnlyOne(|rows|, Completions(rows, rows[call].update.callId), result)
    requires NoneBelow(|rows|, Inputs(rows, rows[call].update.callId, result))
    ensures forall c :: !CallAt(q, rows, prompt, c)
  {
    forall c ensures !CallAt(q, rows, prompt, c) {
      var p := Inputs(rows, rows[call].update.callId, result);
      assert c.arguments < |rows| ==> !p(c.arguments);
    }
  }

  method CallIdAt(q: Query, rows: seq<Row>, call: nat) returns (id: string)
    requires OnlyOne(|rows|, Starts(q, rows), call)
    ensures rows[call].update.Update? && id == rows[call].update.callId
  {
    assert IsStart(q, rows, call);
    id := rows[call].update.callId;
  }

  /** The positions found one after the other are those of any acceptable call. */
  lemma SameCall(q: Query, rows: seq<Row>, prompt: Pair, c: Call, d: Call)
    requires CallAt(q, rows, prompt, d) && OnlyOne(|rows|, Starts(q, rows), c.call) && rows[c.call].update.Update?
    requires var id := rows[c.call].update.callId;
             && OnlyOne(|rows|, Completions(rows, id), c.result)
             && c.arguments < |rows| && Inputs(rows, id, c.result)(c.arguments)
             && (forall k: nat | c.arguments < k < |rows| :: !Inputs(rows, id, c.result)(k))
             && OnlyOne(|rows|, Permissions(rows, id), c.permission.request)
             && OnlyOne(|rows|, Responses(rows, c.permission.request, c.result, false), c.permission.response)
    ensures c == d
  {
    assert c.call == d.call && c.result == d.result && c.permission == d.permission;
    var id := rows[c.call].update.callId;
    assert Inputs(rows, id, c.result)(d.arguments);
  }

  /** `_transcript_evidence`: the evidence of an accepted transcript, and nothing for any other. */
  method TranscriptEvidence(q: Query, rows: seq<Row>) returns (r: Option<Evidence>)
    ensures match r
            case Some(e) => Accepted(q, rows, e)
            case None => forall e :: !Accepted(q, rows, e)
  {
    hide AuthenticationOk, ModelOk, CallOk;
    var lifecycle := FindLifecycle(rows);
    if lifecycle.None? {
      return None;
    }
    var (initialize, session, prompt) := lifecycle.value;
    var authenticated, authentication := FindAuthentication(rows, session);
    var selected, model := FindModel(q, rows, session, prompt);
    var call := FindCall(q, rows, prompt);
    if !authenticated || !selected || call.None? {
      forall e ensures !Accepted(q, rows, e) {
        SameLifecycle(q, rows, e, initialize, session, prompt);
        assert call.None? ==> !CallAt(q, rows, prompt, Call(e.call, e.arguments, e.permission, e.result));
      }
      return None;
    }
    var c := call.value;
    r := Some(Evidence(initialize, session, authentication, model, prompt, c.call, c.arguments, c.permission,
                       c.result));
  }

  lemma SameLifecycle(q: Query, rows: seq<Row>, e: Evidence, initialize: Pair, session: Pair, prompt: Pair)
    requires LifecycleOk(rows, initialize, session, prompt)
    ensures Accepted(q, rows, e) ==> e.session == session && e.prompt == prompt
  {
    if Accepted(q, rows, e) {
      LifecycleUnique(rows, e, e.(initialize := initialize, session := session, prompt := prompt));
    }
  }

  // ----- what the order does not say -----

  function Request(verb: string, id: string, sessionId: string, permissionCall: string): Row {
    Row(Some(verb), Some(id), sessionId, permissionCall, "", None, true, NoUpdate, None)
  }

  function Notice(update: Update): Row {
    Row(Some("session/update"), None, "", "", "", None, false, update, None)
  }

  function Response(id: string, outcome: Outcome): Row {
    Row(None, Some(id), "", "", "", None, false, NoUpdate, Some(outcome))
  }

  /** A transcript in which the tool is called, allowed and completed before the prompt is sent. */
  function EarlyCall(q: Query): seq<Row> {
    [Request("initialize", "1", "", ""),
     Response("1", Outcome(None, false, "", None, true, true, "", "")),
     Request("session/new", "2", "", ""),
     Response("2", Outcome(None, false, "s", Some(q.model), false, false, "", "")),
     Notice(Update("tool_call", q.title, "c", None, true, Some("{}"), "", None, None)),
     Request("session/request_permission", "p", "", "c"),
     Response("p", Outcome(None, false, "", None, false, false, "selected", "allow")),
     Notice(Update("tool_call_update", "", "c", None, false, None, "completed", Some("{}"), None)),
     Request("session/prompt", "3", "s", ""),
     Notice(Update("agent_message_chunk", "", "", None, false, None, "", None, Some("done"))),
     Response("3", Outcome(Some("end_turn"), true, "", None, false, false, "", ""))]
  }

  /** The order of the prompt and the tool call is not part of what is checked: this transcript is accepted. */
  lemma CallMayPrecedePrompt(q: Query)
    requires !q.isBlank("done")
    ensures exists e :: Accepted(q, EarlyCall(q), e) && e.result < e.prompt.request
  {
    var rows := EarlyCall(q);
    var e := Evidence(Pair(0, 1), Pair(2, 3), None, None, Pair(8, 10), 4, 4, Pair(5, 6), 7);
    EarlyLifecycle(q);
    EarlyTool(q);
    assert NoneBelow(|rows|, Authentications(rows, 2)) && NoneBelow(|rows|, ModelRequests(rows, 3, 8));
    assert Accepted(q, rows, e);
  }

  /**
   When each part of the call comes after the prompt: the call itself exactly if no start of the tool precedes the
   prompt, the arguments exactly if an input of the call follows it, the permission request and the result exactly if no
   such row precedes it.
   */
  lemma CallFollowsPromptIff(q: Query, rows: seq<Row>, e: Evidence)
    requires Accepted(q, rows, e)
    ensures rows[e.call].update.Update?
    ensures var id := rows[e.call].update.callId;
            && (e.prompt.request < e.call <==> forall k: nat | k < e.prompt.request :: !IsStart(q, rows, k))
            && (e.prompt.request < e.arguments
                <==> exists k: nat :: e.prompt.request < k < |rows| && IsInput(rows, id, e.result, k))
            && (e.prompt.request < e.permission.request
                <==> forall k: nat | k < e.prompt.request :: !IsPermission(rows, id, k))
            && (e.prompt.request < e.result <==> forall k: nat | k < e.prompt.request :: !IsCompletion(rows, id, k))
  {
    hide AuthenticationOk, ModelOk, LifecycleOk;
    PromptIsNoUpdate(q, rows, e);
    var id, n := rows[e.call].update.callId, e.prompt.request;
    OnlyOneFrom(|rows|, Starts(q, rows), e.call, n);
    OnlyOneFrom(|rows|, Permissions(rows, id), e.permission.request, n);
    OnlyOneFrom(|rows|, Completions(rows, id), e.result, n);
    hide OnlyOne, IsStart, IsCompletion, IsInput, IsPermission;
    assert forall k: nat | k < n :: Starts(q, rows)(k) == IsStart(q, rows, k);
    assert forall k: nat | k < n :: Permissions(rows, id)(k) == IsPermission(rows, id, k);
    assert forall k: nat | k < n :: Completions(rows, id)(k) == IsCompletion(rows, id, k);
    if n < e.arguments {
      assert IsInput(rows, id, e.result, e.arguments);
    }
  }

  lemma PromptIsNoUpdate(q: Query, rows: seq<Row>, e: Evidence)
    requires Accepted(q, rows, e)
    ensures e.prompt.request < |rows| && rows[e.prompt.request].verb == Some("session/prompt")
    ensures rows[e.call].update.Update?
    ensures e.prompt.request !in {e.call, e.arguments, e.permission.request, e.result}
  {
    hide AuthenticationOk, ModelOk;
    assert HasMethod(rows, e.prompt.request, "session/prompt") && IsStart(q, rows, e.call);
    var id := rows[e.call].update.callId;
    assert IsPermission(rows, id, e.permission.request) && IsCompletion(rows, id, e.result);
    hide OnlyOne, OnlyPair;
    assert "session/prompt"[8] != "session/update"[8] && "session/prompt"[8] != "session/request_permission"[8];
  }

  /** The only position with a property is at or after a position exactly if none before it has the property. */
  lemma OnlyOneFrom(n: nat, p: nat -> bool, i: nat, from: nat)
    requires OnlyOne(n, p, i) && from <= n
    ensures from <= i <==> forall k: nat | k < from :: !p(k)
  {
  }

  /** So the whole call comes after the prompt whenever no update of that call precedes it. */
  lemma UntouchedCallFollowsPrompt(q: Query, rows: seq<Row>, e: Evidence)
    requires Accepted(q, rows, e) && rows[e.call].update.Update?
    requires forall k: nat | k < e.prompt.request :: !IsCallUpdate(rows, rows[e.call].update.callId, k)
    ensures e.prompt.request < e.call
    ensures e.prompt.request < e.arguments < e.permission.request < e.permission.response < e.result
  {
    PromptIsNoUpdate(q, rows, e);
    AcceptedIsOrdered(q, rows, e);
    hide AuthenticationOk, ModelOk, LifecycleOk;
    var id := rows[e.call].update.callId;
    assert IsStart(q, rows, e.call) && IsCompletion(rows, id, e.result);
    assert IsCallUpdate(rows, id, e.call) && IsCallUpdate(rows, id, e.arguments);
  }

  lemma EarlyLifecycle(q: Query)
    ensures LifecycleOk(EarlyCall(q), Pair(0, 1), Pair(2, 3), Pair(8, 10))
  {
    EarlyInitialize(q);
    EarlySession(q);
    EarlyPrompt(q);
    hide OnlyPair;
  }

  lemma EarlyInitialize(q: Query)
    ensures OnlyPair(EarlyCall(q), "initialize", 2, false, Pair(0, 1))
  {
  }

  lemma EarlySession(q: Query)
    ensures OnlyPair(EarlyCall(q), "session/new", 8, false, Pair(2, 3))
  {
  }

  lemma EarlyPrompt(q: Query)
    ensures OnlyPair(EarlyCall(q), "session/prompt", |EarlyCall(q)|, true, Pair(8, 10))
  {
  }

  lemma EarlyTool(q: Query)
    requires !q.isBlank("done")
    ensures CallOk(q, EarlyCall(q), Pair(8, 10), 4, 4, Pair(5, 6), 7)
  {
    var rows := EarlyCall(q);
    assert OnlyOne(|rows|, Starts(q, rows), 4);
    assert OnlyOne(|rows|, Completions(rows, "c"), 7);
    assert OnlyOne(|rows|, Permissions(rows, "c"), 5);
    assert OnlyOne(|rows|, Responses(rows, 5, 7, false), 6);
    assert IsChunk(q, rows, 7, 10, 9);
  }
}
