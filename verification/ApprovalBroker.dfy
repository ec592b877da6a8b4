/**
 The approval broker (src/peerbridge_mcp/approval_broker.py): the records, what one lock-held region does to the two
 tables, and the broker object. Each function or method here is one region; ApprovalRuns interleaves them.
 */
module ApprovalBroker {
  import opened Results

  const MAX_PENDING_APPROVALS := 16
  const HISTORY_SHOWN := 80

  datatype Mode = ApprovalRequired | AgentDelegated | FullAccess
  datatype Risk = Routine | Elevated | High
  datatype Decision = AllowOnce | AllowSession | Deny | Unknown(text: string)
  datatype ApprovalState = Pending | Allowed | Denied | Expired | Cancelled

  datatype Body = Body(approvalId: string, sessionId: string, adapterId: string, providerRequestId: string,
                       actionKind: string, title: string, detail: string, risk: Risk, available: seq<Decision>,
                       createdUtc: string, state: ApprovalState, decision: Option<Decision>,
                       resolvedUtc: Option<string>)
  datatype Record = Record(body: Body, sha: string)

  /** The broker's identity and mode, the record digest and the redacting truncation of shown text. */
  datatype Config = Config(sessionId: string, adapterId: string, mode: Mode,
                           sha: Body -> string, safeText: (string, nat) -> string)

  datatype Tables = Tables(pending: map<string, Record>, history: seq<Record>)

  datatype ApprovalError = InvalidProviderId | InvalidActionKind | InvalidDecisions | InvalidTimeout | InvalidApprovalId
                         | InvalidDecision | LimitReached | DuplicateRequest | NotPending | DecisionUnavailable

  const LETTERS_AND_DIGITS := "ABCDEFGHIJKLMNOPQRSTUVWXYZabcdefghijklmnopqrstuvwxyz0123456789"

  predicate SafeId(s: string) {
    && 1 <= |s| <= 200
    && s[0] in LETTERS_AND_DIGITS
    && forall c | c in s[1..] :: c in LETTERS_AND_DIGITS || c in "_.:-"
  }

  predicate IsAllow(d: Decision) {
    d.AllowOnce? || d.AllowSession?
  }

  // ----- one region each -----

  function Sealed(cfg: Config, body: Body): Record {
    Record(body, cfg.sha(body))
  }

  /** `dict.fromkeys`: first occurrences, in order. */
  function Distinct(q: seq<Decision>): (r: seq<Decision>)
    ensures forall d :: d in r <==> d in q
    ensures forall i, j | 0 <= i < j < |r| :: r[i] != r[j]
  {
    if q == [] then []
    else
      var init, last := q[..|q| - 1], q[|q| - 1];
      assert q == init + [last];
      if last in init then Distinct(init) else Distinct(init) + [last]
  }

  datatype Ask = Ask(providerRequestId: string, actionKind: string, title: string, detail: string, risk: Risk,
                     decisions: seq<Decision>, timeout: real)

  function AskFault(a: Ask): Option<ApprovalError> {
    if !SafeId(a.providerRequestId) then Some(InvalidProviderId)
    else if !SafeId(a.actionKind) then Some(InvalidActionKind)
    else if a.decisions == [] || exists d :: d in a.decisions && d.Unknown? then Some(InvalidDecisions)
    else if !(1.0 <= a.timeout <= 86400.0) then Some(InvalidTimeout)
    else None
  }

  function NewRecord(cfg: Config, a: Ask, id: string, utc: string): Record {
    Sealed(cfg, Body(id, cfg.sessionId, cfg.adapterId, a.providerRequestId, a.actionKind, cfg.safeText(a.title, 240),
                     cfg.safeText(a.detail, 2000), a.risk, Distinct(a.decisions), utc, Pending, None, None))
  }

  datatype Admission = Answered(decision: Decision) | Queued(tables: Tables) | Refused(error: ApprovalError)

  /** The first region of `request`: answer by policy, refuse, or queue a new record under a fresh id. */
  function Admitted(cfg: Config, t: Tables, a: Ask, id: string, utc: string): Admission {
    if AskFault(a).Some? then Refused(AskFault(a).value)
    else if cfg.mode.FullAccess? then
      Answered(if AllowOnce in a.decisions then AllowOnce else a.decisions[0])
    else if |t.pending| >= MAX_PENDING_APPROVALS then Refused(LimitReached)
    else if cfg.mode.AgentDelegated? && a.risk.Routine? && AllowOnce in a.decisions then Answered(AllowOnce)
    else if exists k :: k in t.pending && t.pending[k].body.providerRequestId == a.providerRequestId then
      Refused(DuplicateRequest)
    else Queued(Tables(t.pending[id := NewRecord(cfg, a, id, utc)], t.history))
  }

  function ResolvedState(decision: Decision, state: Option<ApprovalState>): ApprovalState {
    match state
    case Some(s) => s
    case None => if IsAllow(decision) then Allowed else Denied
  }

  function Resolution(cfg: Config, record: Record, decision: Decision, state: Option<ApprovalState>, utc: string)
    : Record
  {
    Sealed(cfg, record.body.(state := ResolvedState(decision, state), decision := Some(decision),
                             resolvedUtc := Some(utc)))
  }

  /** `_finalize`: the pending record leaves the table and its resolution joins the history, or nothing changes. */
  function Finalized(cfg: Config, t: Tables, id: string, decision: Decision, state: Option<ApprovalState>, utc: string)
    : Result<Tables, ApprovalError>
  {
    if id !in t.pending then Err(NotPending)
    else if decision !in t.pending[id].body.available && decision != Deny then Err(DecisionUnavailable)
    else Ok(Tables(t.pending - {id}, t.history + [Resolution(cfg, t.pending[id], decision, state, utc)]))
  }

  function ResolveFault(id: string, decision: Decision): Option<ApprovalError> {
    if !SafeId(id) then Some(InvalidApprovalId)
    else if decision.Unknown? then Some(InvalidDecision)
    else None
  }

  /** The search `request` ends with: the latest history record of an approval. */
  function LatestOf(history: seq<Record>, id: string): Option<Record> {
    if history == [] then None
    else if history[|history| - 1].body.approvalId == id then Some(history[|history| - 1])
    else LatestOf(history[..|history| - 1], id)
  }

  // ----- what the tables always satisfy -----

  predicate PendingOk(cfg: Config, id: string, r: Record) {
    && r.body.approvalId == id && r.body.state.Pending? && r.body.decision.None?
    && r.sha == cfg.sha(r.body)
    && forall d | d in r.body.available :: !d.Unknown?
  }

  predicate ResolvedOk(cfg: Config, r: Record) {
    && r.sha == cfg.sha(r.body)
    && r.body.decision.Some? && r.body.resolvedUtc.Some?
    && (r.body.decision.value == Deny || r.body.decision.value in r.body.available)
    && !r.body.state.Pending? && (r.body.state.Allowed? <==> IsAllow(r.body.decision.value))
  }

  /** Neither recorded twice nor both pending and resolved. */
  ghost predicate RecordedOnce(t: Tables) {
    && (forall i, j | 0 <= i < j < |t.history| :: t.history[i].body.approvalId != t.history[j].body.approvalId)
    && (forall i | 0 <= i < |t.history| :: t.history[i].body.approvalId !in t.pending)
  }

  ghost predicate ProvidersDistinct(pending: map<string, Record>) {
    forall a, b | a in pending && b in pending && a != b ::
      pending[a].body.providerRequestId != pending[b].body.providerRequestId
  }

  ghost predicate TablesOk(cfg: Config, t: Tables) {
    && |t.pending| <= MAX_PENDING_APPROVALS
    && (forall id | id in t.pending :: PendingOk(cfg, id, t.pending[id]))
    && (forall i | 0 <= i < |t.history| :: ResolvedOk(cfg, t.history[i]))
    && RecordedOnce(t)
    && ProvidersDistinct(t.pending)
  }

  predicate InHistory(t: Tables, id: string) {
    exists i :: 0 <= i < |t.history| && t.history[i].body.approvalId == id
  }

  predicate Known(t: Tables, id: string) {
    id in t.pending || InHistory(t, id)
  }

  /**
   Only the two policy modes answer by themselves, with a decision the provider offered; nothing else skips the queue.
   */
  lemma PolicyAnswers(cfg: Config, t: Tables, a: Ask, id: string, utc: string)
    ensures var r := Admitted(cfg, t, a, id, utc);
            && (r.Answered? ==> r.decision in a.decisions && !r.decision.Unknown?)
            && (r.Answered? <==> AskFault(a).None?
                                 && (cfg.mode.FullAccess?
                                     || (cfg.mode.AgentDelegated? && a.risk.Routine? && AllowOnce in a.decisions
                                         && |t.pending| < MAX_PENDING_APPROVALS)))
            && (r.Queued? ==> r.tables.history == t.history && r.tables.pending.Keys == t.pending.Keys + {id}
                              && forall d :: d in r.tables.pending[id].body.available <==> d in a.decisions)
  {
    if a.decisions != [] {
      assert a.decisions[0] in a.decisions;
    }
  }

  lemma AdmitKeepsTables(cfg: Config, t: Tables, a: Ask, id: string, utc: string)
    requires TablesOk(cfg, t) && !Known(t, id)
    ensures var r := Admitted(cfg, t, a, id, utc); r.Queued? ==> TablesOk(cfg, r.tables)
  {
    if Admitted(cfg, t, a, id, utc).Queued? {
      var record := NewRecord(cfg, a, id, utc);
      assert forall d | d in record.body.available :: d in a.decisions;
      assert PendingOk(cfg, id, record);
      hide TablesOk, NewRecord, PendingOk, Known;
      AddedKeepsTables(cfg, t, id, record);
    }
  }

  /** Adding one pending approval. */
  lemma AddedKeepsTables(cfg: Config, t: Tables, id: string, record: Record)
    requires TablesOk(cfg, t) && !Known(t, id) && |t.pending| < MAX_PENDING_APPROVALS
    requires PendingOk(cfg, id, record)
    requires forall k | k in t.pending :: t.pending[k].body.providerRequestId != record.body.providerRequestId
    ensures TablesOk(cfg, Tables(t.pending[id := record], t.history))
  {
    hide PendingOk, ResolvedOk;
    var u := Tables(t.pending[id := record], t.history);
    assert u.pending.Keys == t.pending.Keys + {id};
    assert |u.pending| == |u.pending.Keys| && |t.pending| == |t.pending.Keys|;
    assert RecordedOnce(u) by {
      hide TablesOk, PendingOk, ResolvedOk;
      assert RecordedOnce(t) && !InHistory(t, id);
    }
    AddedProvider(t.pending, id, record);
    hide RecordedOnce, ProvidersDistinct, Known;
    assert forall k | k in t.pending :: k != id ==> u.pending[k] == t.pending[k];
  }

  lemma AddedProvider(pending: map<string, Record>, id: string, record: Record)
    requires ProvidersDistinct(pending)
    requires forall k | k in pending :: pending[k].body.providerRequestId != record.body.providerRequestId
    ensures ProvidersDistinct(pending[id := record])
  {
  }

  /** A decision and a forced state that the callers of `_finalize` really combine. */
  predicate Sensible(decision: Decision, state: Option<ApprovalState>) {
    !decision.Unknown? && (state == None || (decision == Deny && (state == Some(Expired) || state == Some(Cancelled))))
  }

  /** The resolved record differs from the pending one in state, decision and time alone. */
  lemma ResolutionOk(cfg: Config, t: Tables, id: string, decision: Decision, state: Option<ApprovalState>, utc: string)
    requires id in t.pending && PendingOk(cfg, id, t.pending[id]) && Sensible(decision, state)
    requires decision in t.pending[id].body.available || decision == Deny
    ensures var r := Resolution(cfg, t.pending[id], decision, state, utc);
            && ResolvedOk(cfg, r) && r.body.approvalId == id && r.body.decision == Some(decision)
            && r.body.(state := Pending, decision := None, resolvedUtc := None)
               == t.pending[id].body.(resolvedUtc := None)
  {
  }

  /** Moving one approval from the pending ones to the end of the history. */
  lemma MovedKeepsTables(cfg: Config, t: Tables, id: string, record: Record)
    requires TablesOk(cfg, t) && id in t.pending && ResolvedOk(cfg, record) && record.body.approvalId == id
    ensures var u := Tables(t.pending - {id}, t.history + [record]);
            && TablesOk(cfg, u) && InHistory(u, id) && forall k :: Known(u, k) <==> Known(t, k)
  {
    hide PendingOk, ResolvedOk;
    var u := Tables(t.pending - {id}, t.history + [record]);
    var n := |t.history|;
    assert u.history[n] == record;
    assert u.pending.Keys == t.pending.Keys - {id};
    assert |u.pending| == |u.pending.Keys| && |t.pending| == |t.pending.Keys|;
    assert forall i | 0 <= i < n :: u.history[i] == t.history[i];
    hide TablesOk, RecordedOnce, ProvidersDistinct;
    forall k ensures Known(u, k) <==> Known(t, k) {
      HistoryGrows(t, u, k);
    }
  }

  /** A finalization moves exactly one record from pending to the end of the history and disturbs nothing else. */
  lemma FinalizeKeepsTables(cfg: Config, t: Tables, id: string, decision: Decision, state: Option<ApprovalState>,
                            utc: string)
    requires TablesOk(cfg, t) && Sensible(decision, state)
    ensures match Finalized(cfg, t, id, decision, state, utc)
            case Err(e) => (e == NotPending <==> id !in t.pending) && (e != NotPending ==> decision != Deny)
            case Ok(u) =>
              && TablesOk(cfg, u) && t.history <= u.history && |u.history| == |t.history| + 1
              && InHistory(u, id) && u.history[|t.history|].body.decision == Some(decision)
              && u.history[|t.history|].body.(state := Pending, decision := None, resolvedUtc := None)
                 == t.pending[id].body.(resolvedUtc := None)
              && (forall k :: Known(u, k) <==> Known(t, k))
              && (forall k :: k in u.pending <==> k in t.pending && k != id)
              && (forall k | k in u.pending :: u.pending[k] == t.pending[k])
  {
    if Finalized(cfg, t, id, decision, state, utc).Ok? {
      var record := Resolution(cfg, t.pending[id], decision, state, utc);
      assert PendingOk(cfg, id, t.pending[id]);
      ResolutionOk(cfg, t, id, decision, state, utc);
      hide TablesOk, PendingOk, ResolvedOk, Resolution, Sensible, Known, InHistory;
      MovedKeepsTables(cfg, t, id, record);
    }
  }

  lemma HistoryGrows(t: Tables, u: Tables, id: string)
    requires t.history <= u.history
    ensures InHistory(t, id) ==> InHistory(u, id)
    ensures |u.history| == |t.history| + 1
            ==> (InHistory(u, id) <==> InHistory(t, id) || u.history[|t.history|].body.approvalId == id)
  {
    if InHistory(t, id) {
      var i :| 0 <= i < |t.history| && t.history[i].body.approvalId == id;
      assert u.history[i] == t.history[i];
    }
    if InHistory(u, id) && |u.history| == |t.history| + 1 {
      var i :| 0 <= i < |u.history| && u.history[i].body.approvalId == id;
      assert i == |t.history| || t.history[i] == u.history[i];
    }
  }

  /** When ids are recorded once, the search finds the only record of the id there is. */
  lemma {:induction false} LatestIsUnique(history: seq<Record>, id: string)
    ensures match LatestOf(history, id)
            case None => forall i | 0 <= i < |history| :: history[i].body.approvalId != id
            case Some(r) => r in history && r.body.approvalId == id
    decreases |history|
  {
    if history != [] {
      var init := history[..|history| - 1];
      LatestIsUnique(init, id);
      assert forall i | 0 <= i < |init| :: init[i] == history[i];
    }
  }

  // ----- cancelling everything -----

  predicate CancelledFrom(cfg: Config, start: Tables, r: Record, utc: string) {
    && r.body.approvalId in start.pending
    && r == Resolution(cfg, start.pending[r.body.approvalId], Deny, Some(Cancelled), utc)
  }

  /**
   From `start`, every pending approval outside `rest` has been cancelled, each recorded once, and nothing else
   changed.
   */
  ghost predicate Swept(cfg: Config, start: Tables, t: Tables, rest: set<string>, utc: string) {
    && rest <= start.pending.Keys && t.pending.Keys == rest
    && (forall id | id in rest :: t.pending[id] == start.pending[id])
    && start.history <= t.history && |t.history| == |start.history| + |start.pending.Keys - rest|
    && (forall i | |start.history| <= i < |t.history| :: CancelledFrom(cfg, start, t.history[i], utc))
  }

  lemma SweepBegins(cfg: Config, t: Tables, utc: string)
    ensures Swept(cfg, t, t, t.pending.Keys, utc)
  {
    assert t.pending.Keys - t.pending.Keys == {};
  }

  lemma SweepTurn(cfg: Config, start: Tables, t: Tables, rest: set<string>, id: string, utc: string)
    requires TablesOk(cfg, t) && Swept(cfg, start, t, rest, utc) && id in rest
    ensures var r := Finalized(cfg, t, id, Deny, Some(Cancelled), utc);
            r.Ok? && Swept(cfg, start, r.value, rest - {id}, utc)
  {
    var u := Finalized(cfg, t, id, Deny, Some(Cancelled), utc).value;
    assert u.pending.Keys == rest - {id};
    assert start.pending.Keys - (rest - {id}) == (start.pending.Keys - rest) + {id};
    forall i | |start.history| <= i < |u.history| ensures CancelledFrom(cfg, start, u.history[i], utc) {
      assert i == |t.history| || (u.history[i] == t.history[i] && CancelledFrom(cfg, start, t.history[i], utc));
      assert PendingOk(cfg, id, t.pending[id]);
    }
  }

  lemma FinalizeKeepsOk(cfg: Config, t: Tables, id: string, decision: Decision, state: Option<ApprovalState>,
                        utc: string)
    requires TablesOk(cfg, t) && Sensible(decision, state)
    ensures var r := Finalized(cfg, t, id, decision, state, utc); r.Ok? ==> TablesOk(cfg, r.value)
  {
    hide TablesOk, Finalized, Sensible;
    FinalizeKeepsTables(cfg, t, id, decision, state, utc);
  }

  // ----- the broker object -----

  class Broker {
    const cfg: Config
    var pending: map<string, Record>
    var history: seq<Record>

    ghost function State(): Tables
      reads this
    {
      Tables(pending, history)
    }

    ghost predicate Valid()
      reads this
    {
      TablesOk(cfg, State())
    }

    constructor (cfg: Config)
      ensures Valid() && this.cfg == cfg && State() == Tables(map[], [])
    {
      this.cfg := cfg;
      pending := map[];
      history := [];
    }

    /** The lock-held part of `request`; a queued caller then waits for the record to leave `pending`. */
    method Admit(a: Ask, id: string, utc: string) returns (r: Admission)
      requires Valid() && !Known(State(), id)
      modifies this`pending
      ensures Valid()
      ensures r == Admitted(cfg, old(State()), a, id, utc)
      ensures State() == if r.Queued? then r.tables else old(State())
    {
      AdmitKeepsTables(cfg, State(), a, id, utc);
      var fault := AskFault(a);
      if fault.Some? {
        return Refused(fault.value);
      }
      if cfg.mode.FullAccess? {
        return Answered(if AllowOnce in a.decisions then AllowOnce else a.decisions[0]);
      }
      if |pending| >= MAX_PENDING_APPROVALS {
        return Refused(LimitReached);
      }
      if cfg.mode.AgentDelegated? && a.risk.Routine? && AllowOnce in a.decisions {
        return Answered(AllowOnce);
      }
      if exists k :: k in pending && pending[k].body.providerRequestId == a.providerRequestId {
        return Refused(DuplicateRequest);
      }
      pending := pending[id := NewRecord(cfg, a, id, utc)];
      r := Queued(Tables(pending, history));
    }

    method Finalize(id: string, decision: Decision, state: Option<ApprovalState>, utc: string)
      returns (r: Result<Record, ApprovalError>)
      requires Valid() && Sensible(decision, state)
      modifies this
      ensures Valid()
      ensures match Finalized(cfg, old(State()), id, decision, state, utc)
              case Err(e) => r == Err(e) && State() == old(State())
              case Ok(t) => State() == t && r == Ok(t.history[|t.history| - 1])
    {
      hide TablesOk, Resolution, Sensible;
      FinalizeKeepsOk(cfg, State(), id, decision, state, utc);
      if id !in pending {
        return Err(NotPending);
      }
      var record := pending[id];
      if decision !in record.body.available && decision != Deny {
        return Err(DecisionUnavailable);
      }
      pending := pending - {id};
      var resolved := Resolution(cfg, record, decision, state, utc);
      history := history + [resolved];
      r := Ok(resolved);
    }

    method Resolve(id: string, decision: Decision, utc: string) returns (r: Result<Record, ApprovalError>)
      requires Valid()
      modifies this
      ensures Valid()
      ensures ResolveFault(id, decision).Some? ==> r == Err(ResolveFault(id, decision).value) && State() == old(State())
      ensures ResolveFault(id, decision).None? ==>
                match Finalized(cfg, old(State()), id, decision, None, utc)
                case Err(e) => r == Err(e) && State() == old(State())
                case Ok(t) => State() == t && r == Ok(t.history[|t.history| - 1])
    {
      var fault := ResolveFault(id, decision);
      if fault.Some? {
        return Err(fault.value);
      }
      r := Finalize(id, decision, None, utc);
    }

    /**
     Called while no other region runs, `cancel_all` leaves nothing pending and records one denial for each approval.
     */
    method CancelAll(utc: string)
      requires Valid()
      modifies this
      ensures Valid()
      ensures Swept(cfg, old(State()), State(), {}, utc)
    {
      ghost var start := State();
      var rest := pending.Keys;
      SweepBegins(cfg, start, utc);
      hide TablesOk, Swept, Finalized;
      while rest != {}
        invariant Valid() && Swept(cfg, start, State(), rest, utc)
        decreases rest
      {
        var id :| id in rest;
        SweepTurn(cfg, start, State(), rest, id, utc);
        var _ := Finalize(id, Deny, Some(Cancelled), utc);
        rest := rest - {id};
      }
    }

    /** Finds the decision `request` returns: the record's, or `deny` where it has none. */
    method ReadDecision(id: string) returns (r: Option<Decision>)
      requires Valid()
      ensures r.None? <==> !InHistory(State(), id)
      ensures r.Some? ==>
                exists i ::
                  0 <= i < |history| && history[i].body.approvalId == id && history[i].body.decision == r
    {
      var i := |history|;
      while i > 0
        invariant 0 <= i <= |history|
        invariant forall j | i <= j < |history| :: history[j].body.approvalId != id
      {
        i := i - 1;
        if history[i].body.approvalId == id {
          assert ResolvedOk(cfg, history[i]);
          return Some(history[i].body.decision.GetOr(Deny));
        }
      }
      r := None;
    }

    /** The history a snapshot shows: the last 80 records. */
    method Snapshot() returns (mode: Mode, waiting: set<Record>, shown: seq<Record>, waitingCount: nat)
      ensures mode == cfg.mode
      ensures waiting == pending.Values && waitingCount == |pending|
      ensures |shown| == (if |history| < 80 then |history| else 80)
      ensures exists dropped :: history == dropped + shown
    {
      mode, waitingCount := cfg.mode, |pending|;
      waiting := pending.Values;
      var from := if |history| > HISTORY_SHOWN then |history| - HISTORY_SHOWN else 0;
      shown := history[from..];
      assert history == history[..from] + shown;
    }
  }
}
