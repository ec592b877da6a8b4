/**
 What an accepted transcript says, row by row (src/peerbridge_mcp/acp_client_receipt.py:269-365, 399-597).
 */
module TranscriptConditions {
  import opened Results
  import opened AcpTranscript

  // ----- requests and their answers -----

  /** The only request of this method. */
  predicate TheRequest(rows: seq<Row>, verb: string, i: nat) {
    i < |rows| && rows[i].verb == Some(verb) && forall k: nat | k < |rows| && rows[k].verb == Some(verb) :: k == i
  }

  /** A response to the request, behind it. */
  predicate Answers(rows: seq<Row>, request: nat, k: nat)
    requires request < |rows|
  {
    request < k < |rows| && rows[k].verb == None && rows[k].id == rows[request].id && rows[k].result.Some?
  }

  /** The only response to the request before a row. */
  predicate TheAnswer(rows: seq<Row>, request: nat, before: nat, i: nat)
    requires request < |rows|
  {
    Answers(rows, request, i) && i < before
    && forall k: nat | k < |rows| && Answers(rows, request, k) && k < before :: k == i
  }

  /** The only response to the prompt that has a stop reason. */
  predicate TheEnd(rows: seq<Row>, request: nat, i: nat)
    requires request < |rows|
  {
    Answers(rows, request, i) && rows[i].result.value.stopReason.Some?
    && forall k: nat | k < |rows| && Answers(rows, request, k) && rows[k].result.value.stopReason.Some? :: k == i
  }

  predicate LifecycleSays(rows: seq<Row>, e: Evidence) {
    && TheRequest(rows, "initialize", e.initialize.request) && TheRequest(rows, "session/new", e.session.request)
    && TheRequest(rows, "session/prompt", e.prompt.request)
    && e.initialize.request < e.session.request && e.session.request < e.prompt.request
    && TheAnswer(rows, e.initialize.request, e.session.request, e.initialize.response)
    && TheAnswer(rows, e.session.request, e.prompt.request, e.session.response)
    && TheEnd(rows, e.prompt.request, e.prompt.response)
    && var initialized, created, ended := rows[e.initialize.response].result.value,
                                         rows[e.session.response].result.value, rows[e.prompt.response].result.value;
       initialized.hasIdentity && initialized.hasProtocol && rows[e.session.request].serverOk
       && |created.sessionId| > 0 && rows[e.prompt.request].sessionId == created.sessionId
       && |ended.stopReason.value| > 0 && ended.hasUsage
  }

  /** At most one authentication precedes the session; one that does names its method and is answered before it. */
  predicate AuthenticationSays(rows: seq<Row>, e: Evidence) {
    match e.authentication
    case None => forall k: nat | k < |rows| && rows[k].verb == Some("authenticate") :: k >= e.session.request
    case Some(a) =>
      && a.request < |rows| && a.request < e.session.request && rows[a.request].verb == Some("authenticate")
      && (forall k: nat | k < |rows| && rows[k].verb == Some("authenticate") ::
            k == a.request || k >= e.session.request)
      && |rows[a.request].authMethod| > 0 && TheAnswer(rows, a.request, e.session.request, a.response)
  }

  /** A request that selects a model, between the session and the prompt. */
  predicate SelectsModel(rows: seq<Row>, e: Evidence, k: nat)
    requires k < |rows|
  {
    && e.session.response < k && k < e.prompt.request
    && (rows[k].verb == Some("session/set_model") || rows[k].verb == Some("session/set_config_option"))
  }

  /** The session opens with the expected model, or the only selection asks for it, in the session, and is confirmed. */
  predicate ModelSays(q: Query, rows: seq<Row>, e: Evidence)
    requires e.session.response < |rows| && rows[e.session.response].result.Some?
  {
    match e.model
    case None =>
      && (forall k: nat | k < |rows| :: !SelectsModel(rows, e, k))
      && rows[e.session.response].result.value.currentModel == Some(q.model)
    case Some(m) =>
      && m.request < |rows| && SelectsModel(rows, e, m.request)
      && (forall k: nat | k < |rows| && SelectsModel(rows, e, k) :: k == m.request)
      && rows[m.request].sessionId == rows[e.session.response].result.value.sessionId
      && rows[m.request].requestedModel == Some(q.model) && TheAnswer(rows, m.request, e.prompt.request, m.response)
      && var confirmed := rows[m.response].result.value.currentModel;
         confirmed == None || confirmed == Some("") || confirmed == Some(q.model)
  }

  // ----- the tool call -----

  predicate Updates(rows: seq<Row>, k: nat)
    requires k < |rows|
  {
    rows[k].verb == Some("session/update") && rows[k].update.Update?
  }

  /** The row starts the tool: by its title, or by one of its names. */
  predicate StartsTool(q: Query, rows: seq<Row>, k: nat)
    requires k < |rows|
  {
    && Updates(rows, k) && rows[k].update.kind == "tool_call"
    && (rows[k].update.title == q.title || exists name | name in q.toolNames :: rows[k].update.toolName == Some(name))
  }

  predicate UpdatesCall(rows: seq<Row>, id: string, k: nat)
    requires k < |rows|
  {
    Updates(rows, k) && |id| > 0 && rows[k].update.callId == id
  }

  predicate CompletesCall(rows: seq<Row>, id: string, k: nat)
    requires k < |rows|
  {
    UpdatesCall(rows, id, k) && rows[k].update.kind == "tool_call_update" && rows[k].update.status == "completed"
  }

  predicate AsksPermission(rows: seq<Row>, id: string, k: nat)
    requires k < |rows|
  {
    rows[k].verb == Some("session/request_permission") && rows[k].permissionCall == id
  }

  /** A part of the model's message that is not blank. */
  predicate SaysSomething(q: Query, rows: seq<Row>, k: nat)
    requires k < |rows|
  {
    && Updates(rows, k) && rows[k].update.kind == "agent_message_chunk" && rows[k].update.text.Some?
    && !q.isBlank(rows[k].update.text.value)
  }

  /**
   The tool is started once; its call has one completed result with output, whose latest input before it are the
   arguments; permission for it is asked once, between the two, and allowed before the result; and the model says
   something between the result and the end of the prompt.
   */
  predicate CallSays(q: Query, rows: seq<Row>, e: Evidence) {
    && e.call < |rows| && StartsTool(q, rows, e.call)
    && (forall k: nat | k < |rows| && StartsTool(q, rows, k) :: k == e.call)
    && var id := rows[e.call].update.callId;
       && e.result < |rows| && CompletesCall(rows, id, e.result)
       && (forall k: nat | k < |rows| && CompletesCall(rows, id, k) :: k == e.result)
       && rows[e.result].update.output.Some?
       && e.arguments < e.result && UpdatesCall(rows, id, e.arguments) && rows[e.arguments].update.hasInput
       && (forall k: nat | e.arguments < k < e.result && UpdatesCall(rows, id, k) :: !rows[k].update.hasInput)
       && rows[e.arguments].update.arguments.Some?
       && e.arguments < e.permission.request && e.permission.request < e.result
       && AsksPermission(rows, id, e.permission.request)
       && (forall k: nat | k < |rows| && AsksPermission(rows, id, k) :: k == e.permission.request)
       && TheAnswer(rows, e.permission.request, e.result, e.permission.response)
       && rows[e.permission.response].result.value.outcome == "selected"
       && (var option := rows[e.permission.response].result.value.optionId;
           option == "allow" || option == "allow-once" || option == "allow_always")
       && exists k: nat | k < |rows| :: e.result < k && k < e.prompt.response && SaysSomething(q, rows, k)
  }

  predicate Says(q: Query, rows: seq<Row>, e: Evidence) {
    LifecycleSays(rows, e) && AuthenticationSays(rows, e) && ModelSays(q, rows, e) && CallSays(q, rows, e)
  }

  // ----- accepted is what says so -----

  lemma RequestIff(rows: seq<Row>, verb: string, i: nat)
    ensures OnlyOne(|rows|, Requests(rows, verb), i) <==> TheRequest(rows, verb, i)
  {
    var p := Requests(rows, verb);
    assert forall k: nat | k < |rows| :: p(k) <==> rows[k].verb == Some(verb);
  }

  lemma AnswerIff(rows: seq<Row>, request: nat, before: nat, i: nat)
    requires request < |rows|
    ensures OnlyOne(|rows|, Responses(rows, request, before, false), i) <==> TheAnswer(rows, request, before, i)
    ensures OnlyOne(|rows|, Responses(rows, request, |rows|, true), i) <==> TheEnd(rows, request, i)
  {
    var p, t := Responses(rows, request, before, false), Responses(rows, request, |rows|, true);
    assert forall k: nat | k < |rows| :: p(k) <==> Answers(rows, request, k) && k < before;
    assert forall k: nat | k < |rows| :: t(k) <==> Answers(rows, request, k) && rows[k].result.value.stopReason.Some?;
    hide Answers, Responses;
  }

  lemma LifecycleIff(rows: seq<Row>, e: Evidence)
    ensures LifecycleOk(rows, e.initialize, e.session, e.prompt) <==> LifecycleSays(rows, e)
  {
    RequestIff(rows, "initialize", e.initialize.request);
    RequestIff(rows, "session/new", e.session.request);
    RequestIff(rows, "session/prompt", e.prompt.request);
    if e.initialize.request < |rows| && e.session.request < |rows| && e.prompt.request < |rows| {
      AnswerIff(rows, e.initialize.request, e.session.request, e.initialize.response);
      AnswerIff(rows, e.session.request, e.prompt.request, e.session.response);
      AnswerIff(rows, e.prompt.request, |rows|, e.prompt.response);
      hide OnlyOne, Responses, Requests;
    } else {
      hide TheAnswer, TheEnd, Requests, Responses;
    }
  }

  lemma AuthenticationIff(rows: seq<Row>, e: Evidence)
    ensures AuthenticationOk(rows, e.session, e.authentication) <==> AuthenticationSays(rows, e)
  {
    var p := Authentications(rows, e.session.request);
    assert forall k: nat | k < |rows| :: p(k) <==> k < e.session.request && rows[k].verb == Some("authenticate");
    if e.authentication.Some? && e.authentication.value.request < |rows| {
      AnswerIff(rows, e.authentication.value.request, e.session.request, e.authentication.value.response);
    }
    hide Authentications, Responses, TheAnswer;
  }

  lemma ModelIff(q: Query, rows: seq<Row>, e: Evidence)
    requires e.session.response < |rows| && rows[e.session.response].result.Some?
    ensures ModelOk(q, rows, e.session, e.prompt, e.model) <==> ModelSays(q, rows, e)
  {
    var p := ModelRequests(rows, e.session.response, e.prompt.request);
    assert forall k: nat | k < |rows| :: p(k) <==> SelectsModel(rows, e, k);
    if e.model.Some? && e.model.value.request < |rows| {
      AnswerIff(rows, e.model.value.request, e.prompt.request, e.model.value.response);
    }
    hide ModelRequests, Responses, SelectsModel;
  }

  lemma RowsIff(q: Query, rows: seq<Row>, id: string, k: nat)
    requires k < |rows|
    ensures Starts(q, rows)(k) <==> StartsTool(q, rows, k)
    ensures Completions(rows, id)(k) <==> CompletesCall(rows, id, k)
    ensures Permissions(rows, id)(k) <==> AsksPermission(rows, id, k)
    ensures IsCallUpdate(rows, id, k) <==> UpdatesCall(rows, id, k)
  {
  }

  lemma OnlyIff(n: nat, p: nat -> bool, r: nat -> bool, i: nat)
    requires forall k: nat | k < n :: p(k) <==> r(k)
    ensures OnlyOne(n, p, i) <==> OnlyOne(n, r, i)
  {
  }

  lemma InputsIff(q: Query, rows: seq<Row>, id: string, result: nat, i: nat)
    requires result <= |rows|
    ensures IsInput(rows, id, result, i) && (forall k: nat | i < k < |rows| :: !IsInput(rows, id, result, k))
            <==> i < result && UpdatesCall(rows, id, i) && rows[i].update.hasInput
                 && forall k: nat | i < k < result && UpdatesCall(rows, id, k) :: !rows[k].update.hasInput
  {
    forall k: nat | k < |rows| ensures IsCallUpdate(rows, id, k) <==> UpdatesCall(rows, id, k) {
      RowsIff(q, rows, id, k);
    }
    assert forall k: nat | k < |rows| && UpdatesCall(rows, id, k) :: rows[k].update.Update?;
    assert forall k: nat | k < |rows| :: IsInput(rows, id, result, k)
                                         <==> k < result && UpdatesCall(rows, id, k) && rows[k].update.hasInput;
    hide IsInput, UpdatesCall;
  }

  lemma ChunkIff(q: Query, rows: seq<Row>, after: nat, before: nat)
    ensures (exists k: nat :: k < |rows| && IsChunk(q, rows, after, before, k))
            <==> exists k: nat | k < |rows| :: after < k && k < before && SaysSomething(q, rows, k)
  {
    if k: nat :| k < |rows| && IsChunk(q, rows, after, before, k) {
      assert SaysSomething(q, rows, k);
    }
    if k: nat :| k < |rows| && after < k && k < before && SaysSomething(q, rows, k) {
      assert IsChunk(q, rows, after, before, k);
    }
  }

  lemma CallIff(q: Query, rows: seq<Row>, e: Evidence)
    ensures CallOk(q, rows, e.prompt, e.call, e.arguments, e.permission, e.result) <==> CallSays(q, rows, e)
  {
    if e.call < |rows| && e.result < |rows| && e.permission.request < |rows| && rows[e.call].update.Update? {
      var id := rows[e.call].update.callId;
      forall k: nat | k < |rows|
        ensures Starts(q, rows)(k) <==> StartsTool(q, rows, k)
        ensures Completions(rows, id)(k) <==> CompletesCall(rows, id, k)
        ensures Permissions(rows, id)(k) <==> AsksPermission(rows, id, k)
      {
        RowsIff(q, rows, id, k);
      }
      InputsIff(q, rows, id, e.result, e.arguments);
      AnswerIff(rows, e.permission.request, e.result, e.permission.response);
      ChunkIff(q, rows, e.result, e.prompt.response);
      hide Starts, Completions, Permissions, Responses, IsInput, IsChunk, StartsTool, CompletesCall, AsksPermission,
           SaysSomething, TheAnswer;
    } else {
      hide IsInput, IsChunk, Responses, TheAnswer, SaysSomething, UpdatesCall, AsksPermission;
    }
  }

  /** A transcript is accepted with exactly the evidence whose rows say so. */
  lemma AcceptedIff(q: Query, rows: seq<Row>, e: Evidence)
    ensures Accepted(q, rows, e) <==> Says(q, rows, e)
  {
    LifecycleIff(rows, e);
    AuthenticationIff(rows, e);
    CallIff(q, rows, e);
    if LifecycleSays(rows, e) {
      ModelIff(q, rows, e);
    }
    hide LifecycleOk, AuthenticationOk, ModelOk, CallOk, AuthenticationSays, ModelSays, CallSays;
  }
}
