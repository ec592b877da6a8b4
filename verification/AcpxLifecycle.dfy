/**
 One Codex turn against an arbitrary child process (src/peerbridge_mcp/acpx_runner.py:874-895, 1113-1461): create a
 session, configure it, prompt once, poll the record, close. The child is a script that answers the n-th command; since
 the script is arbitrary, it covers every behaviour a process can show in one run.
 */
module AcpxLifecycle {
  import opened Results
  import opened ToolAudit

  datatype RunError = Cancelled | Resource | Credential | RouteMismatch | OtherError
                    | Http(status: int, retryable: bool)

  datatype Command = NewSession | SetModel | SetReasoning | Prompt | Show | Close

  /** The text the stream or the record assembles: malformed, over the bridge limit, or usable (possibly empty). */
  datatype Text = Malformed | TooLong | Plain(text: string)

  datatype AgentInfo = AgentInfo(name: string, version: string)

  /** What the extractors find in output that parses as a stream of events. */
  datatype Stream = Stream(authenticateFailed: bool, authRequired: bool, rateLimited: bool,
                           initialize: Option<AgentInfo>, stopReason: Option<string>, text: Text,
                           tools: seq<StreamEvent>)

  datatype Usage = Usage(fields: map<string, int>)

  /** What the extractors find in output that parses as one object; `usage` maps user ids to usage objects. */
  datatype Cli = Cli(action: string, created: bool, name: string, replaced: bool, recordId: string, sessionId: string,
                     modelId: string, configId: string, value: string, acpSessionId: string, closed: bool,
                     logFailed: bool, lastRequest: string, messages: Option<seq<AgentMessage>>, text: Text,
                     resultsMalformed: bool, userIds: seq<string>, usage: map<string, Option<Usage>>, hasConfig: bool,
                     model: string, reasoning: string, codexCommand: bool)

  /** Output is kept as both readings of it; a reading is absent where the bytes do not parse that way. */
  datatype Output = Output(single: Option<Cli>, stream: Option<Stream>)
  datatype RunFault = RunCancelled | RunResource | RunOther
  datatype Outcome = Fault(fault: RunFault) | Exited(code: int, out: Output)

  /**
   How the child answers command n, whether the run is cancelled at poll k, and the poll at which the deadline has
   passed.
   */
  datatype Script = Script(answer: nat -> Outcome, cancelledAt: nat -> bool, deadlinePoll: nat)

  datatype Config = Config(sessionName: string, model: string, reasoning: string, agentNames: set<string>,
                           tools: seq<string>)

  // ----- commands and their failures -----

  function FaultError(f: RunFault): RunError {
    match f
    case RunCancelled => Cancelled
    case RunResource => Resource
    case RunOther => OtherError
  }

  /** `_raise_process_failure`. */
  function ProcessFailure(out: Output): RunError {
    match out.stream
    case None => Http(502, true)
    case Some(s) =>
      if s.authenticateFailed || s.authRequired then Credential
      else if s.rateLimited then Http(429, false)
      else Http(502, true)
  }

  function Invoked(o: Outcome): Result<Cli, RunError> {
    match o
    case Fault(f) => Err(FaultError(f))
    case Exited(code, out) =>
      if code != 0 then Err(ProcessFailure(out))
      else if out.single.None? then Err(Http(502, false))
      else Ok(out.single.value)
  }

  /** The prompt's output is parsed before its exit code is looked at. */
  function InvokedEvents(o: Outcome): Result<Stream, RunError> {
    match o
    case Fault(f) => Err(FaultError(f))
    case Exited(code, out) =>
      if out.stream.None? then Err(Http(502, false))
      else if code != 0 then Err(ProcessFailure(out))
      else Ok(out.stream.value)
  }

  function CreationFault(cfg: Config, c: Cli): Option<RunError> {
    if c.action != "session_ensured" || !c.created || c.name != cfg.sessionName || c.replaced then Some(RouteMismatch)
    else if c.recordId == "" || c.sessionId == "" then Some(Http(502, false))
    else if c.sessionId != c.recordId then Some(RouteMismatch)
    else None
  }

  /** The child confirmed that it created the session. */
  predicate Confirmed(cfg: Config, o: Outcome) {
    Invoked(o).Ok? && CreationFault(cfg, Invoked(o).value).None?
  }

  predicate ModelSet(cfg: Config, c: Cli, recordId: string) {
    c.action == "model_set" && c.modelId == cfg.model && c.recordId == recordId
  }

  predicate ReasoningSet(cfg: Config, c: Cli, recordId: string) {
    c.action == "config_set" && c.configId == "reasoning_effort" && c.value == cfg.reasoning && c.recordId == recordId
  }

  /** Why the streamed turn is refused, if it is. */
  function StreamFault(cfg: Config, s: Stream): Option<RunError> {
    if s.initialize.None? || s.stopReason.None? then Some(Http(502, false))
    else if s.initialize.value.name !in cfg.agentNames then Some(RouteMismatch)
    else if s.stopReason.value != "end_turn" then Some(Http(502, false))
    else if s.text.Malformed? || s.text == Plain("") then Some(Http(502, false))
    else if s.text.TooLong? then Some(Resource)
    else None
  }

  /**
   Why a polled record is refused, if it is; `effective` is the session id of earlier polls, empty before the first.
   */
  function PollFault(cfg: Config, c: Cli, recordId: string, effective: string): Option<RunError> {
    if c.name != cfg.sessionName || c.recordId != recordId || c.acpSessionId == "" then Some(RouteMismatch)
    else if effective != "" && c.acpSessionId != effective then Some(RouteMismatch)
    else if c.closed || c.logFailed || c.messages.None? || c.text.Malformed? then Some(Http(502, false))
    else if c.text.TooLong? then Some(Resource)
    else if c.resultsMalformed then Some(Http(502, false))
    else None
  }

  function MatchedUsers(c: Cli): seq<string> {
    LastMatches(c.userIds, c.usage.Keys)
  }

  function LastMatches(ids: seq<string>, keys: set<string>): (r: seq<string>)
    ensures forall id | id in r :: id in keys
  {
    if ids == [] then []
    else LastMatches(ids[..|ids| - 1], keys) + if ids[|ids| - 1] in keys then [ids[|ids| - 1]] else []
  }

  /** The audits of the stream and of the record agree on what was called. */
  predicate AuditsAgree(a: Audit, b: Audit) {
    a.mcp == b.mcp && a.allowed == b.allowed && a.unrecognized == b.unrecognized && a.tools == b.tools
  }

  predicate TurnComplete(c: Cli, answer: string, streamAudit: Audit, audit: Audit, complete: bool) {
    && c.lastRequest != "" && c.text == Plain(answer) && answer != "" && complete
    && MatchedUsers(c) != [] && AuditsAgree(audit, streamAudit)
  }

  function FinalFault(cfg: Config, c: Cli): Option<RunError> {
    if !c.hasConfig then Some(Http(502, false))
    else if c.model != cfg.model || (cfg.reasoning != "" && c.reasoning != cfg.reasoning) || !c.codexCommand then
      Some(RouteMismatch)
    else None
  }

  /** The soft close is confirmed for this record and the session id the run saw. */
  predicate CloseConfirmed(o: Outcome, recordId: string, expected: string) {
    && Invoked(o).Ok?
    && var c := Invoked(o).value;
       c.action == "session_closed" && c.recordId == recordId && c.sessionId != "" && c.sessionId == expected
  }

  // ----- the run -----

  /** No error of this runner is a retryable rate limit. */
  predicate NoRetryableLimit(e: Option<RunError>) {
    e.Some? && e.value.Http? && e.value.status == 429 ==> !e.value.retryable
  }

  datatype Completion = Completion(answer: string, usage: Option<Usage>, audit: Audit)

  /** The mutable locals of the run. */
  datatype Locals = Locals(commands: seq<Command>, recordId: string, provisional: string, effective: string, polls: nat,
                           promptAnswer: string, promptAudit: Option<Audit>, done: Option<Completion>)

  /** Every command a run issues before it closes, if it polls n times. */
  function Plan(cfg: Config, n: nat): seq<Command> {
    Setup(cfg) + [Prompt] + seq(n, _ => Show)
  }

  function Setup(cfg: Config): seq<Command> {
    [NewSession, SetModel] + if cfg.reasoning != "" then [SetReasoning] else []
  }

  function PromptIndex(cfg: Config): nat {
    |Setup(cfg)|
  }

  // ----- what the child has to reply -----

  /** The command exited with code 0 and printed one object. */
  predicate Answered(o: Outcome) {
    o.Exited? && o.code == 0 && o.out.single.Some?
  }

  /** The reply that confirms a new session whose record is `id`. */
  predicate Created(cfg: Config, o: Outcome, id: string) {
    && Answered(o) && id != ""
    && var c := o.out.single.value;
       c.action == "session_ensured" && c.created && !c.replaced && c.name == cfg.sessionName
       && c.recordId == id && c.sessionId == id
  }

  /** The creation is confirmed exactly by a reply that names some record. */
  lemma ConfirmedIff(cfg: Config, o: Outcome)
    ensures Confirmed(cfg, o) <==> Answered(o) && Created(cfg, o, o.out.single.value.recordId)
    ensures forall id | Created(cfg, o, id) :: Confirmed(cfg, o) && id == o.out.single.value.recordId
  {
  }

  predicate ModelConfirmed(cfg: Config, o: Outcome, id: string) {
    && Answered(o)
    && var c := o.out.single.value; c.action == "model_set" && c.modelId == cfg.model && c.recordId == id
  }

  predicate ReasoningConfirmed(cfg: Config, o: Outcome, id: string) {
    && Answered(o)
    && var c := o.out.single.value;
       c.action == "config_set" && c.configId == "reasoning_effort" && c.value == cfg.reasoning && c.recordId == id
  }

  /** The replies to the setup: the reasoning is set exactly if one is configured. */
  predicate SetUp(cfg: Config, script: Script, id: string) {
    && Created(cfg, script.answer(0), id) && ModelConfirmed(cfg, script.answer(1), id)
    && (cfg.reasoning != "" ==> ReasoningConfirmed(cfg, script.answer(2), id))
  }

  /** The prompt was answered by one of the expected agents, which ended its turn with this answer. */
  predicate EndedTurn(cfg: Config, o: Outcome, answer: string) {
    && o.Exited? && o.code == 0 && o.out.stream.Some? && answer != ""
    && var s := o.out.stream.value;
       s.initialize.Some? && s.initialize.value.name in cfg.agentNames && s.stopReason == Some("end_turn")
       && s.text == Plain(answer)
  }

  function StreamedAudit(cfg: Config, o: Outcome): Audit
    requires o.Exited? && o.out.stream.Some?
  {
    StreamAuditOf(o.out.stream.value.tools, cfg.tools)
  }

  /** The reply to a poll shows the open record `id` with this session id, and its messages can be read. */
  predicate Readable(cfg: Config, o: Outcome, id: string, session: string) {
    && Answered(o) && session != ""
    && var c := o.out.single.value;
       c.name == cfg.sessionName && c.recordId == id && c.acpSessionId == session && !c.closed && !c.logFailed
       && c.messages.Some? && c.text.Plain? && !c.resultsMalformed
  }

  /**
   The record holds the streamed answer as completed work: a request, the same text, a result for every tool use, a
   user message with usage, and the same tools called as often.
   */
  predicate WorkRecorded(cfg: Config, o: Outcome, answer: string, streamed: Audit)
    requires Answered(o) && o.out.single.value.messages.Some?
  {
    var c := o.out.single.value;
    var recorded := RecordAuditOf(c.messages.value, cfg.tools);
    && c.lastRequest != "" && c.text == Plain(answer) && ResultsThere(Uses(c.messages.value))
    && (exists id | id in c.userIds :: id in c.usage)
    && recorded.mcp == streamed.mcp && recorded.allowed == streamed.allowed
    && recorded.unrecognized == streamed.unrecognized && recorded.tools == streamed.tools
  }

  /** The record was run by the Codex command with the configured model and, if one is configured, reasoning. */
  predicate RanAsConfigured(cfg: Config, o: Outcome)
    requires Answered(o)
  {
    var c := o.out.single.value;
    c.hasConfig && c.model == cfg.model && (cfg.reasoning == "" || c.reasoning == cfg.reasoning) && c.codexCommand
  }

  /** The usage of the last user message that has one. */
  predicate LastUsage(o: Outcome, usage: Option<Usage>)
    requires Answered(o)
  {
    var c := o.out.single.value;
    exists i | 0 <= i < |c.userIds| :: IsLastMatch(c.userIds, c.usage.Keys, i) && c.usage[c.userIds[i]] == usage
  }

  predicate CloseAcknowledged(o: Outcome, id: string, session: string) {
    && Answered(o)
    && var c := o.out.single.value; c.action == "session_closed" && c.recordId == id && c.sessionId == session
  }

  /** Poll k, counted from 0, was made and its reply could be read. */
  predicate ReadAt(cfg: Config, script: Script, k: nat, id: string, session: string) {
    !script.cancelledAt(k) && Readable(cfg, PollReply(cfg, script, k), id, session)
  }

  function PollReply(cfg: Config, script: Script, k: nat): Outcome {
    script.answer(PromptIndex(cfg) + 1 + k)
  }

  function PromptReply(cfg: Config, script: Script): Outcome {
    script.answer(PromptIndex(cfg))
  }

  predicate RecordedAt(cfg: Config, script: Script, k: nat, answer: string)
    requires PromptReply(cfg, script).Exited? && PromptReply(cfg, script).out.stream.Some?
    requires Answered(PollReply(cfg, script, k)) && PollReply(cfg, script, k).out.single.value.messages.Some?
  {
    WorkRecorded(cfg, PollReply(cfg, script, k), answer, StreamedAudit(cfg, PromptReply(cfg, script)))
  }

  /** Poll k was readable, the work was not yet recorded, and the deadline had not passed after it. */
  predicate WaitedAt(cfg: Config, script: Script, k: nat, id: string, session: string, answer: string) {
    && EndedTurn(cfg, PromptReply(cfg, script), answer) && ReadAt(cfg, script, k, id, session)
    && !RecordedAt(cfg, script, k, answer) && k + 1 < script.deadlinePoll
  }

  /** Poll k was readable and showed the recorded work, run as configured. */
  predicate FinishedAt(cfg: Config, script: Script, k: nat, id: string, session: string, answer: string) {
    && EndedTurn(cfg, PromptReply(cfg, script), answer) && ReadAt(cfg, script, k, id, session)
    && RecordedAt(cfg, script, k, answer) && RanAsConfigured(cfg, PollReply(cfg, script, k))
  }

  /** The n-th poll showed the finished turn, and every poll before it showed the same session, still at work. */
  ghost predicate Finished(cfg: Config, script: Script, n: nat, id: string, session: string, answer: string) {
    && n > 0 && FinishedAt(cfg, script, n - 1, id, session, answer)
    && forall k: nat | k < n - 1 :: WaitedAt(cfg, script, k, id, session, answer)
  }

  /** A turn that completed: one session throughout, and what was streamed is what was recorded. */
  ghost predicate Completed(cfg: Config, script: Script, l: Locals) {
    && l.done.Some? && l.commands == Plan(cfg, l.polls) && l.done.value.answer == l.promptAnswer
    && Finished(cfg, script, l.polls, l.recordId, l.effective, l.promptAnswer)
    && var o := PollReply(cfg, script, l.polls - 1);
       LastUsage(o, l.done.value.usage)
       && l.done.value.audit == RecordAuditOf(o.out.single.value.messages.value, cfg.tools)
  }

  /** No number of polls shows the finished turn. */
  ghost predicate NeverFinished(cfg: Config, script: Script, id: string) {
    forall n: nat, session, answer :: !Finished(cfg, script, n, id, session, answer)
  }

  /** The setup commands, up to but not including the prompt. */
  method Configure(cfg: Config, script: Script)
    returns (commands: seq<Command>, recordId: string, error: Option<RunError>, created: bool)
    ensures 0 < |commands| && commands <= Setup(cfg)
    ensures created <==> Confirmed(cfg, script.answer(0))
    ensures created ==> recordId != "" && recordId == Invoked(script.answer(0)).value.recordId
    ensures created ==> recordId == Invoked(script.answer(0)).value.sessionId
    ensures error.None? ==> created && commands == Setup(cfg)
    ensures error.None? ==> SetUp(cfg, script, recordId)
    ensures error.Some? ==> forall id :: !SetUp(cfg, script, id)
    ensures Invoked(script.answer(0)).Err? ==>
              error == Some(Invoked(script.answer(0)).error) && commands == [NewSession]
    ensures NoRetryableLimit(error)
  {
    commands, recordId, created := [NewSession], "", false;
    var reply := Invoked(script.answer(0));
    if reply.Err? {
      return commands, recordId, Some(reply.error), created;
    }
    var fault := CreationFault(cfg, reply.value);
    if fault.Some? {
      return commands, recordId, fault, created;
    }
    recordId := reply.value.recordId;
    created := true;

    reply := Invoked(script.answer(|commands|));
    commands := commands + [SetModel];
    if reply.Err? {
      return commands, recordId, Some(reply.error), created;
    }
    if !ModelSet(cfg, reply.value, recordId) {
      return commands, recordId, Some(RouteMismatch), created;
    }

    if cfg.reasoning != "" {
      reply := Invoked(script.answer(|commands|));
      commands := commands + [SetReasoning];
      if reply.Err? {
        return commands, recordId, Some(reply.error), created;
      }
      if !ReasoningSet(cfg, reply.value, recordId) {
        return commands, recordId, Some(RouteMismatch), created;
      }
    }
    error := None;
  }

  /**
   Why a command without a usable reply fails: a cancelled or starved process is just that; a failing exit code is a
   credential error, a final rate limit or a retryable failure, as its output says; only the rest is final.
   */
  lemma WhyNoReply(o: Outcome)
    ensures Invoked(o).Ok? <==> Answered(o)
    ensures Invoked(o) == Err(Cancelled) <==> o == Fault(RunCancelled)
    ensures Invoked(o) == Err(Resource) <==> o == Fault(RunResource)
    ensures Invoked(o) == Err(OtherError) <==> o == Fault(RunOther)
    ensures Invoked(o) == Err(Http(502, false)) <==> o.Exited? && o.code == 0 && o.out.single.None?
    ensures Invoked(o) == Err(Credential) <==>
      o.Exited? && o.code != 0 && o.out.stream.Some?
      && (o.out.stream.value.authenticateFailed || o.out.stream.value.authRequired)
    ensures Invoked(o) == Err(Http(429, false)) <==>
      o.Exited? && o.code != 0 && o.out.stream.Some?
      && !o.out.stream.value.authenticateFailed && !o.out.stream.value.authRequired && o.out.stream.value.rateLimited
    ensures Invoked(o) == Err(Http(502, true)) <==>
      o.Exited? && o.code != 0
      && (o.out.stream.None? || !(o.out.stream.value.authenticateFailed || o.out.stream.value.authRequired
                                  || o.out.stream.value.rateLimited))
    ensures InvokedEvents(o).Ok? <==> o.Exited? && o.code == 0 && o.out.stream.Some?
    ensures o.Fault? || (o.code != 0 && o.out.stream.Some?) ==>
              Invoked(o).Err? && InvokedEvents(o).Err? && InvokedEvents(o).error == Invoked(o).error
    ensures o.Exited? && o.out.stream.None? ==> InvokedEvents(o) == Err(Http(502, false))
  {
  }

  /** The streamed turn is accepted exactly if an expected agent ended it with an answer that is not empty. */
  lemma TurnEnded(cfg: Config, o: Outcome, answer: string)
    ensures EndedTurn(cfg, o, answer) <==>
      InvokedEvents(o).Ok? && StreamFault(cfg, InvokedEvents(o).value).None?
      && InvokedEvents(o).value.text == Plain(answer)
  {
  }

  lemma NotEnded(cfg: Config, script: Script, id: string)
    requires forall answer :: !EndedTurn(cfg, PromptReply(cfg, script), answer)
    ensures NeverFinished(cfg, script, id)
  {
    hide EndedTurn, WorkRecorded, RanAsConfigured, Readable;
  }

  /** The reply to the prompt ended the turn, or no number of polls finishes it. */
  lemma StreamDecides(cfg: Config, script: Script, id: string)
    ensures var stream := InvokedEvents(PromptReply(cfg, script));
            if stream.Ok? && StreamFault(cfg, stream.value).None?
            then stream.value.text.Plain? && EndedTurn(cfg, PromptReply(cfg, script), stream.value.text.text)
            else NeverFinished(cfg, script, id)
  {
    var o := PromptReply(cfg, script);
    forall answer ensures EndedTurn(cfg, o, answer) <==>
      InvokedEvents(o).Ok? && StreamFault(cfg, InvokedEvents(o).value).None?
      && InvokedEvents(o).value.text == Plain(answer)
    {
      TurnEnded(cfg, o, answer);
    }
    hide EndedTurn;
    if InvokedEvents(o).Err? || StreamFault(cfg, InvokedEvents(o).value).Some? {
      NotEnded(cfg, script, id);
    }
  }

  /** The prompt and the polling loop. */
  method Converse(cfg: Config, script: Script, recordId: string) returns (l: Locals, error: Option<RunError>)
    ensures l.commands == Plan(cfg, l.polls) && l.recordId == l.provisional == recordId
    ensures error.None? ==> Completed(cfg, script, l) && l.effective != ""
    ensures error.Some? ==> NeverFinished(cfg, script, recordId)
    ensures InvokedEvents(PromptReply(cfg, script)).Err? ==>
              error == Some(InvokedEvents(PromptReply(cfg, script)).error)
    ensures NoRetryableLimit(error)
  {
    var commands := Setup(cfg) + [Prompt];
    l := Locals(commands, recordId, recordId, "", 0, "", None, None);
    assert l.commands == Plan(cfg, 0);
    StreamDecides(cfg, script, recordId);
    var stream := InvokedEvents(script.answer(PromptIndex(cfg)));
    if stream.Err? {
      return l, Some(stream.error);
    }
    var fault := StreamFault(cfg, stream.value);
    if fault.Some? {
      return l, fault;
    }
    var streamAudit := StreamAudit(stream.value.tools, cfg.tools);
    l := l.(promptAnswer := stream.value.text.text, promptAudit := Some(streamAudit));
    hide WorkRecorded, RanAsConfigured, StreamAuditOf, Readable, LastUsage;
    l, error := Poll(cfg, script, l);
    CompletedHasSession(cfg, script, l);
  }

  lemma CompletedHasSession(cfg: Config, script: Script, l: Locals)
    ensures Completed(cfg, script, l) ==> l.effective != ""
  {
  }

  /** What the locals satisfy between polls: every record shown so far was of the one session, still at work. */
  ghost predicate Polling(cfg: Config, script: Script, l: Locals) {
    && l.commands == Plan(cfg, l.polls) && l.done.None?
    && EndedTurn(cfg, PromptReply(cfg, script), l.promptAnswer)
    && l.promptAudit == Some(StreamedAudit(cfg, PromptReply(cfg, script)))
    && (l.effective == "" <==> l.polls == 0)
    && (forall k: nat | k < l.polls :: WaitedAt(cfg, script, k, l.recordId, l.effective, l.promptAnswer))
  }

  lemma PlanOneMore(cfg: Config, n: nat)
    ensures Plan(cfg, n) + [Show] == Plan(cfg, n + 1)
    ensures |Plan(cfg, n)| == PromptIndex(cfg) + 1 + n
  {
  }

  datatype PollResult = Refused(error: RunError) | NotYet(effective: string)
                      | Complete(effective: string, completion: Completion)

  /** One turn of the polling loop on its reply: it goes on exactly if the record of the one session is readable. */
  method PollOnce(cfg: Config, o: Outcome, recordId: string, effective: string, answer: string, streamAudit: Audit)
    returns (r: PollResult)
    requires answer != ""
    ensures r.Refused? ==> NoRetryableLimit(Some(r.error))
    ensures r.Refused? ==> forall s | effective == "" || s == effective :: !Readable(cfg, o, recordId, s)
    ensures !r.Refused? ==> Readable(cfg, o, recordId, r.effective) && (effective == "" || r.effective == effective)
    ensures !r.Refused? ==> (r.Complete? <==> WorkRecorded(cfg, o, answer, streamAudit))
    ensures r.Complete? ==> r.completion.answer == answer && LastUsage(o, r.completion.usage)
                            && r.completion.audit == RecordAuditOf(o.out.single.value.messages.value, cfg.tools)
  {
    var reply := Invoked(o);
    if reply.Err? {
      return Refused(reply.error);
    }
    var c := reply.value;
    var fault := PollFault(cfg, c, recordId, effective);
    if fault.Some? {
      return Refused(fault.value);
    }
    var audit, complete := RecordAudit(c.messages.value, cfg.tools);
    LastMatchIsLast(c.userIds, c.usage.Keys);
    if !TurnComplete(c, answer, streamAudit, audit, complete) {
      return NotYet(c.acpSessionId);
    }
    var users := MatchedUsers(c);
    r := Complete(c.acpSessionId, Completion(c.text.text, c.usage[users[|users| - 1]], audit));
  }

  predicate IsLastMatch(ids: seq<string>, keys: set<string>, i: int) {
    0 <= i < |ids| && ids[i] in keys && forall j | i < j < |ids| :: ids[j] !in keys
  }

  lemma LastMatchAppend(ids: seq<string>, x: string, keys: set<string>)
    ensures x in keys ==> IsLastMatch(ids + [x], keys, |ids|)
    ensures x !in keys ==> forall i :: IsLastMatch(ids + [x], keys, i) <==> IsLastMatch(ids, keys, i)
  {
    assert forall i | 0 <= i < |ids| :: (ids + [x])[i] == ids[i];
  }

  ghost predicate EndsWithLast(ids: seq<string>, keys: set<string>, matches: seq<string>) {
    matches != [] && exists i :: IsLastMatch(ids, keys, i) && ids[i] == matches[|matches| - 1]
  }

  lemma {:induction false} LastMatchIsLast(ids: seq<string>, keys: set<string>)
    ensures LastMatches(ids, keys) == [] <==> forall id | id in ids :: id !in keys
    ensures LastMatches(ids, keys) != [] ==> EndsWithLast(ids, keys, LastMatches(ids, keys))
  {
    if ids != [] {
      var init, last := ids[..|ids| - 1], ids[|ids| - 1];
      LastMatchIsLast(init, keys);
      assert ids == init + [last];
      LastMatchAppend(init, last, keys);
      var before, matches := LastMatches(init, keys), LastMatches(ids, keys);
      assert matches == before + if last in keys then [last] else [];
      hide IsLastMatch, LastMatches;
      if last in keys {
        assert IsLastMatch(ids, keys, |init|) && ids[|init|] == matches[|matches| - 1];
      } else if before != [] {
        var i :| IsLastMatch(init, keys, i) && init[i] == before[|before| - 1];
        assert IsLastMatch(ids, keys, i) && ids[i] == init[i];
      }
    }
  }

  /** The locals after one more poll that showed the session. */
  function Polled(l: Locals, effective: string): Locals {
    l.(polls := l.polls + 1, commands := l.commands + [Show], effective := effective)
  }

  /** A poll does not both show the work and still wait for it. */
  lemma NotBoth(cfg: Config, script: Script, k: nat, id: string, s1: string, a1: string, s2: string, a2: string)
    ensures !(WaitedAt(cfg, script, k, id, s1, a1) && FinishedAt(cfg, script, k, id, s2, a2))
  {
    hide WorkRecorded, RanAsConfigured;
  }

  /** A turn that finishes does so at the first poll that does not show it still at work. */
  lemma FirstOther(cfg: Config, script: Script, l: Locals, n: nat, session: string, answer: string)
    requires Polling(cfg, script, l) && Finished(cfg, script, n, l.recordId, session, answer)
    ensures n > l.polls && answer == l.promptAnswer && (l.polls > 0 ==> session == l.effective)
    ensures n == l.polls + 1 || WaitedAt(cfg, script, l.polls, l.recordId, session, answer)
    ensures n == l.polls + 1 ==> FinishedAt(cfg, script, l.polls, l.recordId, session, answer)
  {
    hide WorkRecorded, RanAsConfigured;
    if n <= l.polls {
      NotBoth(cfg, script, n - 1, l.recordId, l.effective, l.promptAnswer, session, answer);
      assert false;
    }
    if l.polls > 0 {
      assert WaitedAt(cfg, script, 0, l.recordId, l.effective, l.promptAnswer);
      assert WaitedAt(cfg, script, 0, l.recordId, session, answer);
    }
  }

  /** If poll `l.polls` neither finishes the turn nor lets the loop go on, no later poll finishes it. */
  lemma StopsHere(cfg: Config, script: Script, l: Locals)
    requires Polling(cfg, script, l)
    requires forall s | l.effective == "" || s == l.effective ::
               !WaitedAt(cfg, script, l.polls, l.recordId, s, l.promptAnswer)
               && !FinishedAt(cfg, script, l.polls, l.recordId, s, l.promptAnswer)
    ensures NeverFinished(cfg, script, l.recordId)
  {
    hide WaitedAt, FinishedAt;
    forall n: nat, session, answer ensures !Finished(cfg, script, n, l.recordId, session, answer) {
      if Finished(cfg, script, n, l.recordId, session, answer) {
        FirstOther(cfg, script, l, n, session, answer);
        assert false;
      }
    }
  }

  lemma UnreadableStops(cfg: Config, script: Script, l: Locals)
    requires Polling(cfg, script, l)
    requires script.cancelledAt(l.polls) || forall s | l.effective == "" || s == l.effective ::
               !Readable(cfg, PollReply(cfg, script, l.polls), l.recordId, s)
    ensures NeverFinished(cfg, script, l.recordId)
  {
    hide WorkRecorded, RanAsConfigured;
    StopsHere(cfg, script, l);
  }

  /** Recorded work that was not run as configured, or none in time. */
  lemma ReadableStops(cfg: Config, script: Script, l: Locals, session: string)
    requires Polling(cfg, script, l) && ReadAt(cfg, script, l.polls, l.recordId, session)
    requires if RecordedAt(cfg, script, l.polls, l.promptAnswer)
             then !RanAsConfigured(cfg, PollReply(cfg, script, l.polls))
             else l.polls + 1 >= script.deadlinePoll
    ensures NeverFinished(cfg, script, l.recordId)
  {
    hide WorkRecorded, RanAsConfigured;
    StopsHere(cfg, script, l);
  }

  lemma WaitsOn(cfg: Config, script: Script, l: Locals, session: string)
    requires Polling(cfg, script, l) && ReadAt(cfg, script, l.polls, l.recordId, session)
    requires (l.effective == "" || session == l.effective) && l.polls + 1 < script.deadlinePoll
    requires !RecordedAt(cfg, script, l.polls, l.promptAnswer)
    ensures Polling(cfg, script, Polled(l, session))
  {
    PlanOneMore(cfg, l.polls);
    hide WorkRecorded, RanAsConfigured;
    assert WaitedAt(cfg, script, l.polls, l.recordId, session, l.promptAnswer);
  }

  lemma Finishes(cfg: Config, script: Script, l: Locals, session: string, done: Completion)
    requires Polling(cfg, script, l) && ReadAt(cfg, script, l.polls, l.recordId, session)
    requires l.effective == "" || session == l.effective
    requires RecordedAt(cfg, script, l.polls, l.promptAnswer)
    requires RanAsConfigured(cfg, PollReply(cfg, script, l.polls)) && done.answer == l.promptAnswer
    requires LastUsage(PollReply(cfg, script, l.polls), done.usage)
    requires done.audit
             == RecordAuditOf(PollReply(cfg, script, l.polls).out.single.value.messages.value, cfg.tools)
    ensures Completed(cfg, script, Polled(l, session).(done := Some(done)))
  {
    PlanOneMore(cfg, l.polls);
    hide WorkRecorded, RanAsConfigured, RecordAuditOf, LastUsage;
    assert FinishedAt(cfg, script, l.polls, l.recordId, session, l.promptAnswer);
  }

  /** One turn of the polling loop: an error, a finished turn, or another turn to come. */
  method PollTurn(cfg: Config, script: Script, l: Locals)
    returns (next: Locals, error: Option<RunError>, finished: bool)
    requires Polling(cfg, script, l)
    ensures next.commands == Plan(cfg, next.polls) && next.recordId == l.recordId && next.provisional == l.provisional
    ensures NoRetryableLimit(error)
    ensures error.None? ==> if finished then Completed(cfg, script, next) else Polling(cfg, script, next)
    ensures error.None? ==> next.polls == l.polls + 1 && (finished || next.polls < script.deadlinePoll)
    ensures error.Some? ==> NeverFinished(cfg, script, l.recordId)
  {
    hide Completed;
    PlanOneMore(cfg, l.polls);
    if script.cancelledAt(l.polls) {
      UnreadableStops(cfg, script, l);
      return l, Some(Resource), true;
    }
    var o := script.answer(|l.commands|);
    var r := PollOnce(cfg, o, l.recordId, l.effective, l.promptAnswer, l.promptAudit.value);
    hide WorkRecorded, Readable, LastUsage, WaitedAt;
    assert o == PollReply(cfg, script, l.polls);
    if r.Refused? {
      UnreadableStops(cfg, script, l);
      return Polled(l, l.effective), Some(r.error), true;
    }
    next := Polled(l, r.effective);
    finished := r.Complete?;
    error := None;
    if finished {
      next := next.(done := Some(r.completion));
      error := FinalFault(cfg, Invoked(o).value);
      if error.Some? {
        ReadableStops(cfg, script, l, r.effective);
      } else {
        Finishes(cfg, script, l, r.effective, r.completion);
      }
    } else if next.polls >= script.deadlinePoll {
      error := Some(Http(504, true));
      ReadableStops(cfg, script, l, r.effective);
    } else {
      WaitsOn(cfg, script, l, r.effective);
    }
  }

  method Poll(cfg: Config, script: Script, start: Locals) returns (l: Locals, error: Option<RunError>)
    requires Polling(cfg, script, start) && start.polls == 0
    ensures l.commands == Plan(cfg, l.polls) && l.recordId == start.recordId && l.provisional == start.provisional
    ensures error.None? ==> Completed(cfg, script, l)
    ensures error.Some? ==> NeverFinished(cfg, script, start.recordId)
    ensures NoRetryableLimit(error)
  {
    l := start;
    var finished := false;
    while !finished
      invariant l.recordId == start.recordId && l.provisional == start.provisional
      invariant if finished then Completed(cfg, script, l) else Polling(cfg, script, l)
      decreases !finished, script.deadlinePoll - l.polls
    {
      l, error, finished := PollTurn(cfg, script, l);
      if error.Some? {
        return;
      }
    }
    error := None;
  }

  // ----- the whole lifecycle -----

  predicate AtMostOnce(commands: seq<Command>, c: Command) {
    forall i, j | 0 <= i < j < |commands| :: !(commands[i] == c && commands[j] == c)
  }

  /** `Close` is the last command and no other, or it does not occur. */
  predicate ClosedOnce(commands: seq<Command>, closed: bool) {
    forall i | 0 <= i < |commands| :: commands[i] == Close <==> closed && i == |commands| - 1
  }

  /** An error after which nobody may run the turn again: not retryable, not a cancellation, not a resource failure. */
  predicate Final(e: RunError) {
    !(e.Http? && e.retryable) && !e.Cancelled? && !e.Resource?
  }

  /** The paid work may have happened although the error looks transient. */
  predicate Ambiguous(e: RunError) {
    e.Resource? || e.Cancelled? || (e.Http? && e.retryable && e.status != 429)
  }

  /** What the caller is told of an error that occurred once the prompt was issued. */
  function AfterPrompt(e: RunError): RunError {
    if Ambiguous(e) then Http(if e.Http? then e.status else 502, false) else e
  }

  /** Every error but a transient one is passed on as it is; a transient one keeps its status and becomes final. */
  lemma AfterPromptMeaning(e: RunError)
    requires NoRetryableLimit(Some(e))
    ensures Final(AfterPrompt(e)) && (Final(e) ==> AfterPrompt(e) == e)
    ensures !Final(e) && e.Http? ==> AfterPrompt(e) == e.(retryable := false)
    ensures e.Cancelled? || e.Resource? ==> AfterPrompt(e) == Http(502, false)
  {
  }

  datatype Success = Success(answer: string, usage: Usage, audit: Audit, recordId: string, provisional: string,
                             effective: string, commandCount: nat, polls: nat)

  /**
   The run that the child's replies make a success: it created and configured the session, ended the prompt with this
   answer, showed the finished turn at the last of these polls, and acknowledged the close.
   */
  ghost predicate Succeeds(cfg: Config, script: Script, s: Success) {
    && SetUp(cfg, script, s.recordId) && s.provisional == s.recordId
    && Finished(cfg, script, s.polls, s.recordId, s.effective, s.answer)
    && (var o := PollReply(cfg, script, s.polls - 1);
        LastUsage(o, Some(s.usage)) && s.audit == RecordAuditOf(o.out.single.value.messages.value, cfg.tools))
    && CloseAcknowledged(PollReply(cfg, script, s.polls), s.recordId, s.effective)
    && s.commandCount == PromptIndex(cfg) + s.polls + 2
  }

  /** The replies determine at which poll the turn finishes, and with what. */
  lemma FinishedOnce(cfg: Config, script: Script, id: string, n: nat, s1: string, a1: string, m: nat, s2: string,
                     a2: string)
    requires Finished(cfg, script, n, id, s1, a1) && Finished(cfg, script, m, id, s2, a2)
    ensures n == m && s1 == s2 && a1 == a2 && n > 0 && Answered(PollReply(cfg, script, n - 1))
  {
    hide WorkRecorded, RanAsConfigured;
    if n < m {
      NotBoth(cfg, script, n - 1, id, s2, a2, s1, a1);
      assert false;
    } else if m < n {
      NotBoth(cfg, script, m - 1, id, s1, a1, s2, a2);
      assert false;
    }
  }

  lemma SuccessOnce(cfg: Config, script: Script, s: Success)
    requires Succeeds(cfg, script, s)
    ensures forall t | Succeeds(cfg, script, t) :: s == t
  {
    forall t | Succeeds(cfg, script, t) ensures s == t {
      SameSuccess(cfg, script, s, t);
    }
  }

  lemma SameSuccess(cfg: Config, script: Script, s: Success, t: Success)
    requires Succeeds(cfg, script, s) && Succeeds(cfg, script, t)
    ensures s == t
  {
    hide RecordAuditOf, LastUsage, Finished, ModelConfirmed, ReasoningConfirmed;
    FinishedOnce(cfg, script, s.recordId, s.polls, s.effective, s.answer, t.polls, t.effective, t.answer);
    LastUsageOnce(PollReply(cfg, script, s.polls - 1), Some(s.usage), Some(t.usage));
  }

  lemma NoSuccess(cfg: Config, script: Script, id: string)
    requires SetUp(cfg, script, id) ==> NeverFinished(cfg, script, id)
    requires !SetUp(cfg, script, id) ==> forall other :: !SetUp(cfg, script, other)
    ensures forall s :: !Succeeds(cfg, script, s)
  {
    hide ModelConfirmed, ReasoningConfirmed;
  }

  lemma LastUsageOnce(o: Outcome, u: Option<Usage>, v: Option<Usage>)
    requires Answered(o) && LastUsage(o, u) && LastUsage(o, v)
    ensures u == v
  {
  }

  lemma CommandsOfPlan(cfg: Config, n: nat)
    ensures AtMostOnce(Plan(cfg, n), Prompt) && Prompt in Plan(cfg, n) && Close !in Plan(cfg, n)
    ensures Prompt !in Setup(cfg) && Close !in Setup(cfg)
  {
    var at := PromptIndex(cfg);
    assert Plan(cfg, n)[at] == Prompt;
    assert forall i | at < i < |Plan(cfg, n)| :: Plan(cfg, n)[i] == Show;
    assert forall i | 0 <= i < at :: Plan(cfg, n)[i] == Setup(cfg)[i];
  }

  /** The commands before the close: part of the setup, or all of it with the prompt and some polls. */
  ghost predicate OpenPart(cfg: Config, commands: seq<Command>, dispatched: bool) {
    && (dispatched ==> exists n: nat :: commands == Plan(cfg, n))
    && (!dispatched ==> commands <= Setup(cfg))
  }

  lemma ClosingCommands(cfg: Config, commands: seq<Command>, dispatched: bool, created: bool)
    requires OpenPart(cfg, commands, dispatched)
    ensures var all := commands + if created then [Close] else [];
            AtMostOnce(all, Prompt) && ClosedOnce(all, created) && (Prompt in all <==> dispatched)
  {
    CommandsOfPlan(cfg, 0);
    var all := commands + if created then [Close] else [];
    if dispatched {
      var n: nat :| commands == Plan(cfg, n);
      CommandsOfPlan(cfg, n);
      var i :| 0 <= i < |commands| && commands[i] == Prompt;
      assert all[i] == Prompt;
    }
    forall i | 0 <= i < |commands| ensures all[i] == commands[i] && all[i] in commands
      && (!dispatched ==> all[i] in Setup(cfg)) {
      assert !dispatched ==> commands[i] == Setup(cfg)[i];
    }
  }

  function SuccessOf(l: Locals, usage: Usage): Success
    requires l.done.Some?
  {
    Success(l.done.value.answer, usage, l.done.value.audit, l.recordId, l.provisional, l.effective, |l.commands| + 1,
            l.polls)
  }

  /** After a completed turn the run succeeds exactly if there is usage and the close is confirmed. */
  lemma CompletedSucceeds(cfg: Config, script: Script, l: Locals, closed: bool)
    requires Completed(cfg, script, l) && SetUp(cfg, script, l.recordId) && l.provisional == l.recordId
    requires closed == CloseConfirmed(script.answer(|l.commands|), l.recordId, l.effective)
    ensures l.done.Some? && l.effective != ""
    ensures forall usage | l.done.value.usage == Some(usage) && closed :: Succeeds(cfg, script, SuccessOf(l, usage))
    ensures forall s | Succeeds(cfg, script, s) :: l.done.value.usage.Some? && closed
  {
    PlanOneMore(cfg, l.polls);
    hide WorkRecorded, RecordAuditOf, RanAsConfigured;
    forall s | Succeeds(cfg, script, s) ensures l.done.value.usage.Some? && closed {
      FinishedOnce(cfg, script, s.recordId, s.polls, s.effective, s.answer, l.polls, l.effective, l.promptAnswer);
      LastUsageOnce(PollReply(cfg, script, s.polls - 1), Some(s.usage), l.done.value.usage);
    }
  }

  /**
   `_run_codex_persistent`, for any child: the prompt is issued at most once; the close is attempted, as the last
   command and exactly once, if and only if the child confirmed the creation; once the prompt was issued no error is
   one that a caller would retry; and the run returns a success if and only if the replies make it that success.
   */
  method Run(cfg: Config, script: Script) returns (r: Result<Success, RunError>, commands: seq<Command>)
    ensures AtMostOnce(commands, Prompt)
    ensures ClosedOnce(commands, Confirmed(cfg, script.answer(0)))
            && (Confirmed(cfg, script.answer(0)) ==> Close in commands)
    ensures r.Err? && Prompt in commands ==> Final(r.error)
    ensures r.Ok? ==> Prompt in commands && |commands| == r.value.commandCount
    ensures forall s :: r == Ok(s) <==> Succeeds(cfg, script, s)
    ensures Invoked(script.answer(0)).Err? ==> r == Err(Invoked(script.answer(0)).error) && commands == [NewSession]
    ensures Prompt in commands && InvokedEvents(PromptReply(cfg, script)).Err? ==>
              r == Err(AfterPrompt(InvokedEvents(PromptReply(cfg, script)).error))
  {
    hide Succeeds, Completed, SetUp, InvokedEvents, NeverFinished;
    var recordId, error, created;
    commands, recordId, error, created := Configure(cfg, script);
    var dispatched := error.None?;
    var l := Locals(commands, recordId, recordId, "", 0, "", None, None);
    if dispatched {
      l, error := Converse(cfg, script, recordId);
      commands := l.commands;
      PlanOneMore(cfg, l.polls);
    }
    ClosingCommands(cfg, commands, dispatched, created);
    var closeFailed := false;
    if created {
      var o := script.answer(|commands|);
      commands := commands + [Close];
      closeFailed := !CloseConfirmed(o, recordId, if l.effective != "" then l.effective else l.provisional);
    }
    if error.Some? {
      NoSuccess(cfg, script, recordId);
      return Err(if dispatched then AfterPrompt(error.value) else error.value), commands;
    }
    assert l.effective != "";
    CompletedSucceeds(cfg, script, l, !closeFailed);
    if closeFailed || l.done.value.usage.None? {
      return Err(Http(502, false)), commands;
    }
    r := Ok(SuccessOf(l, l.done.value.usage.value));
    SuccessOnce(cfg, script, r.value);
  }

  // ----- a normal turn -----

  function Say(action: string, modelId: string, configId: string, value: string, session: string): Cli {
    Cli(action, true, "", false, "record", session, modelId, configId, value, "", false, false, "", None, Plain(""),
        false, [], map[], false, "", "", false)
  }

  function RecordOf(cfg: Config, answer: string): Cli {
    Cli("", false, cfg.sessionName, false, "record", "", "", "", "", "session", false, false, "request", Some([]),
        Plain(answer), false, ["user"], map["user" := Some(Usage(map[]))], true, cfg.model, cfg.reasoning, true)
  }

  function TurnOf(agent: string, answer: string): Stream {
    Stream(false, false, false, Some(AgentInfo(agent, "1")), Some("end_turn"), Plain(answer), [])
  }

  /** The child confirms every command, answers without calling a tool, and shows the finished record at once. */
  function NormalReply(cfg: Config, agent: string, answer: string, n: nat): Outcome {
    var at := PromptIndex(cfg);
    if n == 0 then
      Exited(0, Output(Some(Say("session_ensured", "", "", "", "record").(name := cfg.sessionName)), None))
    else if n == at then Exited(0, Output(None, Some(TurnOf(agent, answer))))
    else if n == at + 1 then Exited(0, Output(Some(RecordOf(cfg, answer)), None))
    else if n == at + 2 then Exited(0, Output(Some(Say("session_closed", "", "", "", "session")), None))
    else if n == 1 then Exited(0, Output(Some(Say("model_set", cfg.model, "", "", "")), None))
    else Exited(0, Output(Some(Say("config_set", "", "reasoning_effort", cfg.reasoning, "")), None))
  }

  function NormalScript(cfg: Config, agent: string, answer: string): Script {
    Script((n: nat) => NormalReply(cfg, agent, answer, n), (_: nat) => false, 1)
  }

  /** Such a turn succeeds with its answer, for any expected agent and any answer that is not empty. */
  lemma NormalTurnSucceeds(cfg: Config, agent: string, answer: string)
    requires agent in cfg.agentNames && answer != ""
    ensures Succeeds(cfg, NormalScript(cfg, agent, answer),
                     Success(answer, Usage(map[]), RecordAuditOf([], cfg.tools), "record", "record", "session",
                             PromptIndex(cfg) + 3, 1))
  {
    var script := NormalScript(cfg, agent, answer);
    NormalPoll(cfg, agent, answer);
    hide WorkRecorded, StreamAuditOf, RecordAuditOf, Readable, RanAsConfigured, EndedTurn;
    assert PollReply(cfg, script, 0) == Exited(0, Output(Some(RecordOf(cfg, answer)), None));
    assert IsLastMatch(["user"], map["user" := Some(Usage(map[]))].Keys, 0);
    hide IsLastMatch;
  }

  lemma NormalPoll(cfg: Config, agent: string, answer: string)
    requires agent in cfg.agentNames && answer != ""
    ensures FinishedAt(cfg, NormalScript(cfg, agent, answer), 0, "record", "session", answer)
  {
    NoToolsAgree(cfg);
    hide StreamAuditOf, RecordAuditOf, ResultsThere;
    assert "user" in RecordOf(cfg, answer).userIds;
  }

  lemma NoToolsAgree(cfg: Config)
    ensures StreamAuditOf([], cfg.tools) == RecordAuditOf([], cfg.tools) && ResultsThere(Uses([]))
  {
    assert SeenIds([], 0) == {};
    assert StreamNames([], 0) == [] && TallyOf(Uses([])) == Tally({}, [], 0, 0);
  }

  // ----- retrying -----

  /** The supervisor's policy (src/peerbridge_mcp/mailbox_supervisor.py:396-426): which errors may be tried again. */
  predicate MayRetry(e: RunError) {
    e.Http? && e.status !in {401, 402, 403, 429} && e.retryable
  }

  ghost predicate NeverSucceeds(cfg: Config, script: Script) {
    forall s :: !Succeeds(cfg, script, s)
  }

  /** One run, as far as a retry depends on it. */
  method RunOnce(cfg: Config, script: Script) returns (r: Result<Success, RunError>, commands: seq<Command>)
    ensures r.Err? && Prompt in commands ==> !MayRetry(r.error)
    ensures r.Ok? ==> Prompt in commands
    ensures if r.Ok? then Succeeds(cfg, script, r.value) else NeverSucceeds(cfg, script)
  {
    r, commands := Run(cfg, script);
  }

  /**
   However often the supervisor retries under its policy, and whatever each child does, all runs together issue at most
   one prompt: the paid turn is never replayed. It stops early only with a success or an error that is not retryable.
   */
  method RunWithRetries(cfg: Config, scripts: nat -> Script, maxAttempts: nat)
    returns (r: Option<Result<Success, RunError>>, prompts: nat, attempts: nat)
    ensures prompts <= 1 && attempts <= maxAttempts && (attempts > 0 <==> r.Some?)
    ensures r.Some? && r.value.Ok? ==> prompts == 1 && Succeeds(cfg, scripts(attempts - 1), r.value.value)
    ensures maxAttempts > 0 ==> r.Some?
    ensures forall k: nat | k + 1 < attempts :: NeverSucceeds(cfg, scripts(k))
    ensures 0 < attempts < maxAttempts && r.value.Err? && r.value.error.Http? && r.value.error.retryable ==>
              r.value.error.status in {401, 402, 403, 429}
  {
    hide *;
    r, prompts := None, 0;
    attempts := 0;
    while attempts < maxAttempts && (r.None? || (r.value.Err? && MayRetry(r.value.error)))
      invariant attempts <= maxAttempts && prompts <= 1
      invariant r.Some? && r.value.Ok? ==> prompts == 1
      invariant attempts > 0 <==> r.Some?
      invariant prompts == 1 ==> r.Some? && (r.value.Err? ==> !MayRetry(r.value.error))
      invariant attempts > 0 && r.value.Ok? ==> Succeeds(cfg, scripts(attempts - 1), r.value.value)
      invariant forall k: nat | k + 1 < attempts :: NeverSucceeds(cfg, scripts(k))
      invariant attempts > 0 && r.value.Err? ==> NeverSucceeds(cfg, scripts(attempts - 1))
    {
      var result, commands := RunOnce(cfg, scripts(attempts));
      r := Some(result);
      if Prompt in commands {
        prompts := prompts + 1;
      }
      attempts := attempts + 1;
    }
    NotRetried(r);
  }

  lemma NotRetried(r: Option<Result<Success, RunError>>)
    ensures r.Some? && r.value.Err? && !MayRetry(r.value.error) && r.value.error.Http? && r.value.error.retryable ==>
              r.value.error.status in {401, 402, 403, 429}
  {
  }
}
