/**
 What the approval broker decides and records (src/peerbridge_mcp/approval_broker.py:160-297): when a request is queued,
 answered or refused, and, over all interleavings, which records exist and what they say.
 */
module ApprovalRecords {
  import opened Results
  import opened ApprovalBroker
  import opened ApprovalRuns

  // ----- asking -----

  predicate IsAlphanumeric(c: char) {
    c in "ABCDEFGHIJKLMNOPQRSTUVWXYZabcdefghijklmnopqrstuvwxyz0123456789"
  }

  /** 1 to 200 letters, digits, underscores, dots, colons and hyphens, the first a letter or digit. */
  predicate IdForm(s: string) {
    0 < |s| <= 200 && IsAlphanumeric(s[0]) && forall i | 0 < i < |s| :: IsAlphanumeric(s[i]) || s[i] in "_.:-"
  }

  lemma IdFormIff(s: string)
    ensures SafeId(s) <==> IdForm(s)
  {
    assert forall c :: c in LETTERS_AND_DIGITS <==> IsAlphanumeric(c);
    hide IsAlphanumeric;
    if |s| > 0 {
      assert forall i | 0 < i < |s| :: s[i] == s[1..][i - 1];
    }
  }

  predicate WellFormed(a: Ask) {
    && IdForm(a.providerRequestId) && IdForm(a.actionKind) && 1.0 <= a.timeout <= 86400.0
    && |a.decisions| > 0 && forall d | d in a.decisions :: d == AllowOnce || d == AllowSession || d == Deny
  }

  /** The delegated mode answers routine requests that may be allowed once. */
  predicate Delegated(cfg: Config, a: Ask) {
    cfg.mode == AgentDelegated && a.risk == Routine && AllowOnce in a.decisions
  }

  predicate ProviderWaits(t: Tables, provider: string) {
    exists k | k in t.pending :: t.pending[k].body.providerRequestId == provider
  }

  /** Full access and the delegated rule answer; otherwise a well-formed request is queued unless it must be refused. */
  lemma AskIff(cfg: Config, t: Tables, a: Ask, id: string, utc: string)
    ensures var r, open, full := Admitted(cfg, t, a, id, utc), |t.pending| < 16, cfg.mode == FullAccess;
            && (r.Queued? <==> WellFormed(a) && !full && open && !Delegated(cfg, a)
                               && !ProviderWaits(t, a.providerRequestId))
            && (r.Answered? <==> WellFormed(a) && (full || (open && Delegated(cfg, a))))
            && (r == Refused(LimitReached) <==> WellFormed(a) && !full && !open)
            && (r == Refused(DuplicateRequest) <==> WellFormed(a) && !full && open && !Delegated(cfg, a)
                                                    && ProviderWaits(t, a.providerRequestId))
            && (r.Refused? && r.error !in {LimitReached, DuplicateRequest} <==> !WellFormed(a))
    ensures Admitted(cfg, t, a, id, utc).Answered? ==>
              Admitted(cfg, t, a, id, utc).decision == if AllowOnce in a.decisions then AllowOnce else a.decisions[0]
  {
    IdFormIff(a.providerRequestId);
    IdFormIff(a.actionKind);
    hide SafeId, IdForm, NewRecord;
  }

  /** Why a malformed request is refused: the first of its parts that is wrong. */
  lemma AskFaultIff(cfg: Config, t: Tables, a: Ask, id: string, utc: string)
    ensures var r := Admitted(cfg, t, a, id, utc);
            && (r == Refused(InvalidProviderId) <==> !IdForm(a.providerRequestId))
            && (r == Refused(InvalidActionKind) <==> IdForm(a.providerRequestId) && !IdForm(a.actionKind))
            && (r == Refused(InvalidDecisions) <==>
                  IdForm(a.providerRequestId) && IdForm(a.actionKind)
                  && !(|a.decisions| > 0
                       && forall d | d in a.decisions :: d == AllowOnce || d == AllowSession || d == Deny))
            && (r == Refused(InvalidTimeout) <==>
                  WellFormed(a.(timeout := 1.0)) && (a.timeout < 1.0 || a.timeout > 86400.0))
  {
    IdFormIff(a.providerRequestId);
    IdFormIff(a.actionKind);
    hide SafeId, IdForm, NewRecord;
  }

  /** What a record says of the request it was made for, whatever became of it since. */
  ghost predicate SaysAsked(cfg: Config, body: Body, a: Ask, id: string, utc: string) {
    && body.approvalId == id && body.createdUtc == utc
    && body.sessionId == cfg.sessionId && body.adapterId == cfg.adapterId
    && body.providerRequestId == a.providerRequestId && body.actionKind == a.actionKind && body.risk == a.risk
    && body.title == cfg.safeText(a.title, 240) && body.detail == cfg.safeText(a.detail, 2000)
    && (forall d :: d in body.available <==> d in a.decisions)
    && forall i, j | 0 <= i < j < |body.available| ::
         body.available[i] != body.available[j] && FirstBefore(a.decisions, body.available[i], body.available[j])
  }

  /** x occurs before y does for the first time. */
  predicate FirstBefore(q: seq<Decision>, x: Decision, y: Decision) {
    exists k | 0 <= k < |q| :: q[k] == x && y !in q[..k + 1]
  }

  /** A queued record is pending, says what was asked, and is the only change. */
  lemma QueuedRecord(cfg: Config, t: Tables, a: Ask, id: string, utc: string)
    requires Admitted(cfg, t, a, id, utc).Queued?
    ensures var u := Admitted(cfg, t, a, id, utc).tables;
            && id in u.pending && u == Tables(t.pending[id := u.pending[id]], t.history)
            && var r := u.pending[id];
               && SaysAsked(cfg, r.body, a, id, utc) && r.sha == cfg.sha(r.body)
               && r.body.state == Pending && r.body.decision == None && r.body.resolvedUtc == None
  {
    DistinctInOrder(a.decisions);
    hide Distinct, FirstBefore;
  }

  lemma {:induction false} DistinctInOrder(q: seq<Decision>)
    ensures forall i, j | 0 <= i < j < |Distinct(q)| :: FirstBefore(q, Distinct(q)[i], Distinct(q)[j])
  {
    if q != [] {
      var init, last := q[..|q| - 1], q[|q| - 1];
      DistinctInOrder(init);
      assert q == init + [last];
      var r := Distinct(q);
      forall i, j | 0 <= i < j < |r| ensures FirstBefore(q, r[i], r[j]) {
        if j < |Distinct(init)| {
          FirstStays(init, last, r[i], r[j]);
        } else {
          assert r[i] in Distinct(init) && r[i] in init && last !in init;
          LastIsNew(init, last, r[i]);
        }
      }
    }
  }

  lemma FirstStays(q: seq<Decision>, last: Decision, x: Decision, y: Decision)
    requires FirstBefore(q, x, y)
    ensures FirstBefore(q + [last], x, y)
  {
    var k :| 0 <= k < |q| && q[k] == x && y !in q[..k + 1];
    assert (q + [last])[..k + 1] == q[..k + 1] && (q + [last])[k] == x;
  }

  lemma LastIsNew(q: seq<Decision>, last: Decision, x: Decision)
    requires x in q && last !in q
    ensures FirstBefore(q + [last], x, last)
  {
    var k :| 0 <= k < |q| && q[k] == x;
    assert (q + [last])[..k + 1] == q[..k + 1] && (q + [last])[k] == x;
    assert forall d | d in q[..k + 1] :: d in q;
  }

  // ----- finalizing -----

  /** The state a decision is recorded with: the forced one, or whether it allows. */
  predicate RecordedState(decision: Decision, forced: Option<ApprovalState>, state: ApprovalState) {
    && (forced.Some? ==> state == forced.value)
    && (forced.None? && (decision == AllowOnce || decision == AllowSession) ==> state == Allowed)
    && (forced.None? && decision != AllowOnce && decision != AllowSession ==> state == Denied)
  }

  /** The record is the pending one with this outcome. */
  predicate Resolved(cfg: Config, before: Record, after: Record, decision: Decision, state: ApprovalState, utc: string)
  {
    && after.body == before.body.(state := state, decision := Some(decision), resolvedUtc := Some(utc))
    && after.sha == cfg.sha(after.body)
  }

  /**
   A finalization succeeds exactly if the approval is pending and the decision was offered or is a denial; it moves that
   approval to the end of the history with this outcome, and nothing else.
   */
  lemma FinalizedIff(cfg: Config, t: Tables, id: string, decision: Decision, forced: Option<ApprovalState>, utc: string)
    ensures var r := Finalized(cfg, t, id, decision, forced, utc);
            && (r.Ok? <==> id in t.pending && (decision == Deny || decision in t.pending[id].body.available))
            && (r == Err(NotPending) <==> id !in t.pending)
            && (r == Err(DecisionUnavailable) <==> r.Err? && id in t.pending)
            && (r.Ok? ==>
                  && r.value.pending == t.pending - {id} && |r.value.history| == |t.history| + 1
                  && r.value.history[..|t.history|] == t.history
                  && var record := r.value.history[|t.history|];
                     RecordedState(decision, forced, record.body.state)
                     && Resolved(cfg, t.pending[id], record, decision, record.body.state, utc))
  {
  }

  lemma ResolveFaultIff(id: string, decision: Decision)
    ensures ResolveFault(id, decision).None? <==>
      IdForm(id) && (decision == AllowOnce || decision == AllowSession || decision == Deny)
    ensures ResolveFault(id, decision) == Some(InvalidApprovalId) <==> !IdForm(id)
    ensures ResolveFault(id, decision).Some? && IdForm(id) ==> ResolveFault(id, decision) == Some(InvalidDecision)
  {
    IdFormIff(id);
    hide SafeId, IdForm;
  }

  // ----- which records a run makes -----

  /** In this state the move records this outcome of this approval. */
  ghost predicate Records(s: System, m: Move, id: string, decision: Decision, state: ApprovalState, utc: string) {
    && id in s.tables.pending
    && match m
       case DecideMove(i, d, time) =>
         i == id && d == decision && time == utc && IdForm(id) && d in {AllowOnce, AllowSession, Deny}
         && (d in s.tables.pending[id].body.available || d == Deny) && state == (if d == Deny then Denied else Allowed)
       case ExpireMove(i, time) =>
         i == id && time == utc && id in s.requests && s.requests[id] == Expiring
         && decision == Deny && state == Expired
       case CancelNextMove(call, time) =>
         time == utc && call in s.sweeps && s.sweeps[call].CancellingAll? && s.sweeps[call].done < |s.sweeps[call].ids|
         && s.sweeps[call].ids[s.sweeps[call].done] == id && decision == Deny && state == Cancelled
       case CancelFoundMove(call, time) =>
         time == utc && call in s.sweeps && s.sweeps[call] == CancellingOne(id)
         && decision == Deny && state == Cancelled
       case _ => false
  }

  ghost predicate RecordsAnything(s: System, m: Move) {
    exists id, decision, state, utc :: Records(s, m, id, decision, state, utc)
  }

  /** The move appended one record of this outcome. */
  ghost predicate Appends(cfg: Config, t: Tables, u: Tables, id: string, decision: Decision, state: ApprovalState,
                          utc: string)
  {
    && id in t.pending && u.pending == t.pending - {id} && |u.history| == |t.history| + 1
    && u.history[..|t.history|] == t.history
    && Resolved(cfg, t.pending[id], u.history[|t.history|], decision, state, utc)
  }

  lemma AttemptAppends(cfg: Config, t: Tables, id: string, state: ApprovalState, utc: string)
    ensures var u := Attempted(cfg, t, id, state, utc);
            if id in t.pending then Appends(cfg, t, u, id, Deny, state, utc) else u == t
  {
    FinalizedIff(cfg, t, id, Deny, Some(state), utc);
    hide Finalized, Resolved;
  }

  lemma DecideAppends(cfg: Config, t: Tables, id: string, decision: Decision, utc: string)
    requires id in t.pending && (decision in t.pending[id].body.available || decision == Deny)
    ensures Finalized(cfg, t, id, decision, None, utc).Ok?
    ensures Appends(cfg, t, Finalized(cfg, t, id, decision, None, utc).value, id, decision,
                    if decision == AllowOnce || decision == AllowSession then Allowed else Denied, utc)
  {
    FinalizedIff(cfg, t, id, decision, None, utc);
    hide Finalized, Resolved;
  }

  lemma DecideRecords(cfg: Config, s: System, m: Move, id: string, decision: Decision, state: ApprovalState,
                      utc: string)
    requires m.DecideMove? && Next(cfg, s, m).Some?
    ensures Records(s, m, id, decision, state, utc) ==>
              Appends(cfg, s.tables, Next(cfg, s, m).value.tables, id, decision, state, utc)
  {
    ResolveFaultIff(m.id, m.decision);
    hide ResolveFault, Appends, IdForm, Finalized;
    if Records(s, m, id, decision, state, utc) {
      DecideAppends(cfg, s.tables, id, decision, utc);
    }
  }

  lemma DecideRecordsNothing(cfg: Config, s: System, m: Move)
    requires m.DecideMove? && Next(cfg, s, m).Some? && Next(cfg, s, m).value.tables != s.tables
    ensures Records(s, m, m.id, m.decision, if m.decision == Deny then Denied else Allowed, m.utc)
  {
    ResolveFaultIff(m.id, m.decision);
    FinalizedIff(cfg, s.tables, m.id, m.decision, None, m.utc);
    hide ResolveFault, IdForm, Finalized;
  }

  /** A move that records an outcome appends exactly that record. */
  lemma StepAppends(cfg: Config, s: System, m: Move, id: string, decision: Decision, state: ApprovalState, utc: string)
    requires Next(cfg, s, m).Some? && Records(s, m, id, decision, state, utc)
    ensures Appends(cfg, s.tables, Next(cfg, s, m).value.tables, id, decision, state, utc)
  {
    if m.DecideMove? {
      DecideRecords(cfg, s, m, id, decision, state, utc);
    } else {
      UndecidedRecords(cfg, s, m);
      hide Next, Attempted, Appends;
      AttemptAppends(cfg, s.tables, id, state, utc);
    }
  }

  /** A move that records nothing leaves the history as it is. */
  lemma StepAppendsOnly(cfg: Config, s: System, m: Move)
    requires Next(cfg, s, m).Some? && Next(cfg, s, m).value.tables.history != s.tables.history
    ensures RecordsAnything(s, m)
  {
    if m.DecideMove? {
      DecideRecordsNothing(cfg, s, m);
    } else {
      UndecidedRecords(cfg, s, m);
      hide Next, Attempted;
      match m
      case ExpireMove(id, utc) =>
        AttemptAppends(cfg, s.tables, id, Expired, utc);
        assert Records(s, m, id, Deny, Expired, utc);
      case CancelNextMove(call, utc) =>
        var id := s.sweeps[call].ids[s.sweeps[call].done];
        AttemptAppends(cfg, s.tables, id, Cancelled, utc);
        assert Records(s, m, id, Deny, Cancelled, utc);
      case CancelFoundMove(call, utc) =>
        AttemptAppends(cfg, s.tables, s.sweeps[call].id, Cancelled, utc);
        assert Records(s, m, s.sweeps[call].id, Deny, Cancelled, utc);
    }
  }

  ghost predicate InRecord(history: seq<Record>, id: string, decision: Decision, state: ApprovalState, utc: string) {
    exists i :: 0 <= i < |history| && IsOutcome(history[i], id, decision, state, utc)
  }

  predicate IsOutcome(r: Record, id: string, decision: Decision, state: ApprovalState, utc: string) {
    && r.body.approvalId == id && r.body.decision == Some(decision) && r.body.state == state
    && r.body.resolvedUtc == Some(utc)
  }

  /** Move k of the run recorded this outcome. */
  ghost predicate RecordedBy(cfg: Config, moves: seq<Move>, k: nat, id: string, decision: Decision,
                             state: ApprovalState, utc: string)
  {
    && k < |moves| && Run(cfg, moves[..k]).Some?
    && Records(Run(cfg, moves[..k]).value, moves[k], id, decision, state, utc)
  }

  /** Some move of the run recorded it. */
  ghost predicate SomeRecorded(cfg: Config, moves: seq<Move>, id: string, decision: Decision, state: ApprovalState,
                               utc: string)
  {
    exists k: nat :: RecordedBy(cfg, moves, k, id, decision, state, utc)
  }

  /** One more move adds to the record what that move records. */
  lemma OneMoreRecord(cfg: Config, s: System, m: Move, id: string, decision: Decision, state: ApprovalState,
                      utc: string)
    requires Invariant(cfg, s) && Next(cfg, s, m).Some?
    ensures InRecord(Next(cfg, s, m).value.tables.history, id, decision, state, utc) <==>
      InRecord(s.tables.history, id, decision, state, utc) || Records(s, m, id, decision, state, utc)
  {
    hide Next, Records, Invariant, TablesOk, PendingOk;
    var t, u := s.tables, Next(cfg, s, m).value.tables;
    if Records(s, m, id, decision, state, utc) {
      StepAppends(cfg, s, m, id, decision, state, utc);
      PendingNames(cfg, s, id);
      OutcomeAppended(cfg, t, u, id, decision, state, utc, id, decision, state, utc);
    } else if u.history != t.history {
      StepAppendsOnly(cfg, s, m);
      var i, d, st, time :| Records(s, m, i, d, st, time);
      StepAppends(cfg, s, m, i, d, st, time);
      PendingNames(cfg, s, i);
      OutcomeAppended(cfg, t, u, i, d, st, time, id, decision, state, utc);
    }
  }

  lemma PendingNames(cfg: Config, s: System, id: string)
    requires Invariant(cfg, s) && id in s.tables.pending
    ensures s.tables.pending[id].body.approvalId == id
  {
    assert PendingOk(cfg, id, s.tables.pending[id]);
  }

  lemma OutcomeAppended(cfg: Config, t: Tables, u: Tables, id: string, decision: Decision, state: ApprovalState,
                        utc: string, i: string, d: Decision, st: ApprovalState, time: string)
    requires Appends(cfg, t, u, id, decision, state, utc) && t.pending[id].body.approvalId == id
    ensures InRecord(u.history, i, d, st, time) <==>
      InRecord(t.history, i, d, st, time) || (i == id && d == decision && st == state && time == utc)
  {
    var n := |t.history|;
    assert IsOutcome(u.history[n], i, d, st, time) <==> i == id && d == decision && st == state && time == utc;
    hide IsOutcome, Resolved, InRecord;
    OneMoreOutcome(t.history, u.history, i, d, st, time);
  }

  lemma OneMoreOutcome(was: seq<Record>, grown: seq<Record>, id: string, decision: Decision, state: ApprovalState,
                       utc: string)
    requires |grown| == |was| + 1 && grown[..|was|] == was
    ensures InRecord(grown, id, decision, state, utc) <==>
      InRecord(was, id, decision, state, utc) || IsOutcome(grown[|was|], id, decision, state, utc)
  {
    hide IsOutcome;
    assert forall k | 0 <= k < |was| :: grown[k] == was[k];
  }

  /**
   In every interleaving the history holds exactly the outcomes the moves recorded: a resolution its decision, as
   allowed or denied; a wait that ran out an expired denial; a cancellation a cancelled denial; each with its time.
   */
  lemma {:induction false} RecordedIff(cfg: Config, moves: seq<Move>, id: string, decision: Decision,
                                       state: ApprovalState, utc: string)
    requires Run(cfg, moves).Some?
    ensures InRecord(Run(cfg, moves).value.tables.history, id, decision, state, utc) <==>
      SomeRecorded(cfg, moves, id, decision, state, utc)
    decreases |moves|
  {
    if moves == [] {
      assert !InRecord([], id, decision, state, utc);
    } else {
      hide Next, Records, Invariant, InRecord, RecordedBy;
      var n := |moves| - 1;
      var init := moves[..n];
      RecordedIff(cfg, init, id, decision, state, utc);
      RunsKeepInvariant(cfg, init);
      OneMoreRecord(cfg, Run(cfg, init).value, moves[n], id, decision, state, utc);
      EarlierMoves(cfg, moves, id, decision, state, utc);
    }
  }

  lemma SameMove(cfg: Config, moves: seq<Move>, k: nat, id: string, decision: Decision, state: ApprovalState,
                 utc: string)
    requires k + 1 < |moves|
    ensures RecordedBy(cfg, moves[..|moves| - 1], k, id, decision, state, utc)
            == RecordedBy(cfg, moves, k, id, decision, state, utc)
  {
    hide Run, Records;
    assert moves[..|moves| - 1][..k] == moves[..k];
  }

  lemma EarlierMoves(cfg: Config, moves: seq<Move>, id: string, decision: Decision, state: ApprovalState, utc: string)
    requires moves != [] && Run(cfg, moves[..|moves| - 1]).Some?
    ensures SomeRecorded(cfg, moves, id, decision, state, utc) <==>
      SomeRecorded(cfg, moves[..|moves| - 1], id, decision, state, utc)
      || Records(Run(cfg, moves[..|moves| - 1]).value, moves[|moves| - 1], id, decision, state, utc)
  {
    hide Run, Records;
    var n := |moves| - 1;
    var init := moves[..n];
    assert RecordedBy(cfg, moves, n, id, decision, state, utc) <==>
      Records(Run(cfg, init).value, moves[n], id, decision, state, utc);
    assert forall k: nat | RecordedBy(cfg, moves, k, id, decision, state, utc) :: k <= n;
    assert forall k: nat | RecordedBy(cfg, init, k, id, decision, state, utc) :: k < n;
    hide RecordedBy;
    if k: nat :| RecordedBy(cfg, init, k, id, decision, state, utc) {
      SameMove(cfg, moves, k, id, decision, state, utc);
    }
    if k: nat :| RecordedBy(cfg, moves, k, id, decision, state, utc) {
      if k < n {
        SameMove(cfg, moves, k, id, decision, state, utc);
      }
    }
  }

  /** A request whose wait ran out before anybody finalized its approval is recorded as an expired denial. */
  lemma TimedOutIsExpired(cfg: Config, moves: seq<Move>, k: nat, id: string, utc: string)
    requires k < |moves| && moves[k] == ExpireMove(id, utc) && Run(cfg, moves).Some?
    requires Run(cfg, moves[..k]).Some? && id in Run(cfg, moves[..k]).value.tables.pending
    ensures InRecord(Run(cfg, moves).value.tables.history, id, Deny, Expired, utc)
  {
    ExpiringThere(cfg, moves, k);
    hide Run, InRecord;
    assert RecordedBy(cfg, moves, k, id, Deny, Expired, utc);
    RecordedIff(cfg, moves, id, Deny, Expired, utc);
  }

  lemma ExpiringThere(cfg: Config, moves: seq<Move>, k: nat)
    requires k < |moves| && moves[k].ExpireMove? && Run(cfg, moves).Some? && Run(cfg, moves[..k]).Some?
    ensures var s := Run(cfg, moves[..k]).value; moves[k].id in s.requests && s.requests[moves[k].id] == Expiring
  {
    HistoryIsAppendOnly(cfg, moves, k + 1);
    assert moves[..k + 1][..k] == moves[..k] && moves[..k + 1][k] == moves[k];
    hide Attempted, Finalized;
  }

  /** An approval a cancellation found still pending is recorded as a cancelled denial. */
  lemma CancelledIsCancelled(cfg: Config, moves: seq<Move>, k: nat, id: string, utc: string, call: nat)
    requires k < |moves| && Run(cfg, moves).Some? && Run(cfg, moves[..k]).Some?
    requires id in Run(cfg, moves[..k]).value.tables.pending && call in Run(cfg, moves[..k]).value.sweeps
    requires var sweep := Run(cfg, moves[..k]).value.sweeps[call];
             || (moves[k] == CancelFoundMove(call, utc) && sweep == CancellingOne(id))
             || (moves[k] == CancelNextMove(call, utc) && sweep.CancellingAll? && sweep.done < |sweep.ids|
                 && sweep.ids[sweep.done] == id)
    ensures InRecord(Run(cfg, moves).value.tables.history, id, Deny, Cancelled, utc)
  {
    hide Run, InRecord;
    assert RecordedBy(cfg, moves, k, id, Deny, Cancelled, utc);
    RecordedIff(cfg, moves, id, Deny, Cancelled, utc);
  }

  // ----- records say what was asked -----

  ghost predicate AskedIn(cfg: Config, moves: seq<Move>, body: Body) {
    exists k :: 0 <= k < |moves| && AsksFor(cfg, moves[k], body)
  }

  ghost predicate AsksFor(cfg: Config, m: Move, body: Body) {
    m.AskMove? && SaysAsked(cfg, body, m.ask, m.id, m.utc)
  }

  ghost predicate AllAsked(cfg: Config, moves: seq<Move>, t: Tables) {
    && (forall id | id in t.pending :: AskedIn(cfg, moves, t.pending[id].body))
    && (forall i | 0 <= i < |t.history| :: AskedIn(cfg, moves, t.history[i].body))
  }

  lemma AskedStays(cfg: Config, moves: seq<Move>, body: Body)
    requires moves != [] && AskedIn(cfg, moves[..|moves| - 1], body)
    ensures AskedIn(cfg, moves, body)
  {
    hide AsksFor;
    var init := moves[..|moves| - 1];
    var k :| 0 <= k < |init| && AsksFor(cfg, init[k], body);
    assert moves[k] == init[k];
  }

  lemma ResolvedSaysAsked(cfg: Config, moves: seq<Move>, before: Record, after: Record, decision: Decision,
                          state: ApprovalState, utc: string)
    requires AskedIn(cfg, moves, before.body) && Resolved(cfg, before, after, decision, state, utc)
    ensures AskedIn(cfg, moves, after.body)
  {
    var k :| 0 <= k < |moves| && AsksFor(cfg, moves[k], before.body);
    assert AsksFor(cfg, moves[k], after.body);
  }

  lemma AppendedAsked(cfg: Config, moves: seq<Move>, t: Tables, u: Tables, id: string, decision: Decision,
                      state: ApprovalState, utc: string)
    requires AllAsked(cfg, moves, t) && Appends(cfg, t, u, id, decision, state, utc)
    ensures AllAsked(cfg, moves, u)
  {
    hide AskedIn, Resolved;
    var n := |t.history|;
    ResolvedSaysAsked(cfg, moves, t.pending[id], u.history[n], decision, state, utc);
    assert forall i | 0 <= i < n :: u.history[i] == u.history[..n][i];
  }

  lemma AllAskedStays(cfg: Config, moves: seq<Move>, t: Tables)
    requires moves != [] && AllAsked(cfg, moves[..|moves| - 1], t)
    ensures AllAsked(cfg, moves, t)
  {
    hide AskedIn;
    forall id | id in t.pending ensures AskedIn(cfg, moves, t.pending[id].body) {
      AskedStays(cfg, moves, t.pending[id].body);
    }
    forall i | 0 <= i < |t.history| ensures AskedIn(cfg, moves, t.history[i].body) {
      AskedStays(cfg, moves, t.history[i].body);
    }
  }

  /** Tables change only by a queued request or a recorded outcome. */
  lemma StepChanges(cfg: Config, s: System, m: Move)
    requires Next(cfg, s, m).Some? && Next(cfg, s, m).value.tables != s.tables
    ensures RecordsAnything(s, m)
            || (m.AskMove? && Admitted(cfg, s.tables, m.ask, m.id, m.utc).Queued?
                && Next(cfg, s, m).value.tables == Admitted(cfg, s.tables, m.ask, m.id, m.utc).tables)
  {
    if m.AskMove? {
      AskShape(cfg, s, m);
    } else if m.DecideMove? {
      DecideRecordsNothing(cfg, s, m);
    } else {
      if Next(cfg, s, m).value.tables.history == s.tables.history {
        OthersKeepTables(cfg, s, m);
      } else {
        StepAppendsOnly(cfg, s, m);
      }
    }
  }

  lemma OthersKeepTables(cfg: Config, s: System, m: Move)
    requires Next(cfg, s, m).Some? && !m.AskMove? && !m.DecideMove?
    requires Next(cfg, s, m).value.tables.history == s.tables.history
    ensures Next(cfg, s, m).value.tables == s.tables
  {
    hide Finalized, LatestOf, IsListing, Attempted;
    match m
    case ExpireMove(id, utc) => AttemptAppends(cfg, s.tables, id, Expired, utc);
    case CancelNextMove(call, utc) =>
      AttemptAppends(cfg, s.tables, s.sweeps[call].ids[s.sweeps[call].done], Cancelled, utc);
    case CancelFoundMove(call, utc) => AttemptAppends(cfg, s.tables, s.sweeps[call].id, Cancelled, utc);
    case _ =>
  }

  /**
   In every interleaving each pending and each recorded approval says what some request of the run asked: its provider
   request, action, redacted texts, risk and offered decisions never change.
   */
  lemma {:induction false} RecordsSayAsked(cfg: Config, moves: seq<Move>)
    requires Run(cfg, moves).Some?
    ensures AllAsked(cfg, moves, Run(cfg, moves).value.tables)
    decreases |moves|
  {
    if moves != [] {
      hide Next, Records, AllAsked, Appends, SaysAsked;
      var n := |moves| - 1;
      var s, m := Run(cfg, moves[..n]).value, moves[n];
      var u := Next(cfg, s, m).value.tables;
      RecordsSayAsked(cfg, moves[..n]);
      AllAskedStays(cfg, moves, s.tables);
      if u != s.tables {
        StepChanges(cfg, s, m);
        if RecordsAnything(s, m) {
          var id, decision, state, utc :| Records(s, m, id, decision, state, utc);
          StepAppends(cfg, s, m, id, decision, state, utc);
          AppendedAsked(cfg, moves, s.tables, u, id, decision, state, utc);
        } else {
          QueuedRecord(cfg, s.tables, m.ask, m.id, m.utc);
          QueuedAsked(cfg, moves, s.tables, u);
        }
      }
    }
  }

  lemma QueuedAsked(cfg: Config, moves: seq<Move>, t: Tables, u: Tables)
    requires moves != [] && AllAsked(cfg, moves, t)
    requires var m := moves[|moves| - 1];
             m.AskMove? && m.id in u.pending && u == Tables(t.pending[m.id := u.pending[m.id]], t.history)
             && SaysAsked(cfg, u.pending[m.id].body, m.ask, m.id, m.utc)
    ensures AllAsked(cfg, moves, u)
  {
    hide SaysAsked;
    assert AsksFor(cfg, moves[|moves| - 1], u.pending[moves[|moves| - 1].id].body);
    assert AskedIn(cfg, moves, u.pending[moves[|moves| - 1].id].body);
    hide AskedIn;
  }
}
