/**
 All interleavings of approval requests, resolutions, timeouts and cancellations
 (src/peerbridge_mcp/approval_broker.py:160-297). One move is one lock-held region or one return from a wait; between
 any two moves of one call, any other call may move.
 */
module ApprovalRuns {
  import opened Results
  import opened ApprovalBroker

  /** Where a queued `request` call stands; it is identified by its approval id. */
  datatype Phase = Waiting | Expiring | Reading | Returned(decision: Decision) | Raised

  /** Where a `cancel_all` or `cancel_provider_request` call stands. */
  datatype Sweep = CancellingAll(ids: seq<string>, done: nat) | CancellingOne(id: string)
                 | CancelEnded(id: string, won: bool)

  datatype System = System(tables: Tables, requests: map<string, Phase>, sweeps: map<nat, Sweep>)

  const START := System(Tables(map[], []), map[], map[])

  datatype Move =
    | AskMove(ask: Ask, id: string, utc: string)
    | DecideMove(id: string, decision: Decision, utc: string)
    | WakeMove(id: string)
    | WaitExpiresMove(id: string)
    | ExpireMove(id: string, utc: string)
    | ReadMove(id: string)
    | CancelAllMove(call: nat, ids: seq<string>)
    | CancelNextMove(call: nat, utc: string)
    | FindMove(call: nat, providerRequestId: string, id: string)
    | CancelFoundMove(call: nat, utc: string)

  ghost predicate IsListing(ids: seq<string>, s: set<string>) {
    && (forall id :: id in ids <==> id in s)
    && (forall i, j | 0 <= i < j < |ids| :: ids[i] != ids[j])
  }

  /** The wait returns true exactly when the record was finalized. */
  predicate IsSet(t: Tables, id: string) {
    id !in t.pending
  }

  /** The system after a finalization that its caller may see fail with `KeyError`. */
  function Attempted(cfg: Config, t: Tables, id: string, state: ApprovalState, utc: string): Tables {
    match Finalized(cfg, t, id, Deny, Some(state), utc)
    case Ok(u) => u
    case Err(_) => t
  }

  /** The system after a move, or nothing if the move cannot happen in this state. */
  ghost function Next(cfg: Config, s: System, m: Move): Option<System> {
    match m
    case AskMove(ask, id, utc) =>
      if id in s.requests || Known(s.tables, id) then None    // approval ids are fresh random values
      else
        var r := Admitted(cfg, s.tables, ask, id, utc);
        if r.Queued? then Some(s.(tables := r.tables, requests := s.requests[id := Waiting])) else Some(s)
    case DecideMove(id, decision, utc) =>
      if ResolveFault(id, decision).Some? then Some(s)
      else
        var r := Finalized(cfg, s.tables, id, decision, None, utc);
        if r.Ok? then Some(s.(tables := r.value)) else Some(s)
    case WakeMove(id) =>
      if id in s.requests && s.requests[id] == Waiting && IsSet(s.tables, id)
      then Some(s.(requests := s.requests[id := Reading])) else None
    case WaitExpiresMove(id) =>
      if id in s.requests && s.requests[id] == Waiting && !IsSet(s.tables, id)
      then Some(s.(requests := s.requests[id := Expiring])) else None
    case ExpireMove(id, utc) =>
      if !(id in s.requests && s.requests[id] == Expiring) then None
      else
        var r := Finalized(cfg, s.tables, id, Deny, Some(Expired), utc);
        Some(System(Attempted(cfg, s.tables, id, Expired, utc),
                    s.requests[id := if r.Ok? then Reading else Raised], s.sweeps))
    case ReadMove(id) =>
      if !(id in s.requests && s.requests[id] == Reading) then None
      else
        var found := LatestOf(s.tables.history, id);
        Some(s.(requests := s.requests[id := if found.None? then Raised
                                       else Returned(found.value.body.decision.GetOr(Deny))]))
    case CancelAllMove(call, ids) =>
      if call in s.sweeps || !IsListing(ids, s.tables.pending.Keys) then None
      else Some(s.(sweeps := s.sweeps[call := CancellingAll(ids, 0)]))
    case CancelNextMove(call, utc) =>
      if !(call in s.sweeps && s.sweeps[call].CancellingAll? && s.sweeps[call].done < |s.sweeps[call].ids|) then None
      else
        var sweep := s.sweeps[call];
        Some(s.(tables := Attempted(cfg, s.tables, sweep.ids[sweep.done], Cancelled, utc),
                sweeps := s.sweeps[call := CancellingAll(sweep.ids, sweep.done + 1)]))
    case FindMove(call, provider, id) =>
      if call in s.sweeps || id !in s.tables.pending || s.tables.pending[id].body.providerRequestId != provider then
        None
      else Some(s.(sweeps := s.sweeps[call := CancellingOne(id)]))
    case CancelFoundMove(call, utc) =>
      if !(call in s.sweeps && s.sweeps[call].CancellingOne?) then None
      else
        var id := s.sweeps[call].id;
        Some(s.(tables := Attempted(cfg, s.tables, id, Cancelled, utc),
                sweeps := s.sweeps[call := CancelEnded(id, id in s.tables.pending)]))
  }

  /** The system after a run of moves from the start, or nothing if some move could not happen. */
  ghost function Run(cfg: Config, moves: seq<Move>): Option<System>
    decreases |moves|
  {
    if moves == [] then Some(START)
    else
      match Run(cfg, moves[..|moves| - 1])
      case None => None
      case Some(s) => Next(cfg, s, moves[|moves| - 1])
  }

  // ----- the invariant -----

  ghost predicate RecordedAs(t: Tables, id: string, decision: Decision) {
    exists i :: 0 <= i < |t.history| && t.history[i].body.approvalId == id
      && t.history[i].body.decision == Some(decision)
  }

  ghost predicate PhaseOk(t: Tables, id: string, phase: Phase) {
    match phase
    case Waiting => Known(t, id)
    case Expiring => Known(t, id)
    case Reading => InHistory(t, id)
    case Raised => InHistory(t, id)
    case Returned(d) => RecordedAs(t, id, d)
  }

  ghost predicate SweepOk(t: Tables, sweep: Sweep) {
    match sweep
    case CancellingAll(ids, done) =>
      done <= |ids| && (forall i | 0 <= i < |ids| :: Known(t, ids[i]))
        && (forall i | 0 <= i < done :: InHistory(t, ids[i]))
    case CancellingOne(id) => Known(t, id)
    case CancelEnded(id, won) => InHistory(t, id)
  }

  /**
   Every registered approval is pending or recorded (`registered = pending + history`), and every call stands where it
   may.
   */
  ghost predicate Invariant(cfg: Config, s: System) {
    && TablesOk(cfg, s.tables)
    && (forall id :: Known(s.tables, id) <==> id in s.requests)
    && (forall id | id in s.requests :: PhaseOk(s.tables, id, s.requests[id]))
    && (forall c | c in s.sweeps :: SweepOk(s.tables, s.sweeps[c]))
  }

  /** Nothing known is forgotten and the history only grows at its end. */
  ghost predicate Grows(t: Tables, u: Tables) {
    t.history <= u.history && forall id :: Known(t, id) ==> Known(u, id)
  }

  lemma GrowsKeepsPhase(t: Tables, u: Tables, id: string, phase: Phase)
    requires Grows(t, u) && PhaseOk(t, id, phase)
    ensures PhaseOk(u, id, phase)
  {
    HistoryGrows(t, u, id);
    if phase.Returned? {
      var i :| 0 <= i < |t.history| && t.history[i].body.approvalId == id
        && t.history[i].body.decision == Some(phase.decision);
      assert u.history[i] == t.history[i];
    }
  }

  lemma GrowsKeepsSweep(t: Tables, u: Tables, sweep: Sweep)
    requires Grows(t, u) && SweepOk(t, sweep)
    ensures SweepOk(u, sweep)
  {
    match sweep
    case CancellingAll(ids, done) =>
      forall i | 0 <= i < done ensures InHistory(u, ids[i]) {
        HistoryGrows(t, u, ids[i]);
      }
    case CancellingOne(id) =>
    case CancelEnded(id, _) => HistoryGrows(t, u, id);
  }

  /** Tables that grew, with every call left where it was or standing where it may. */
  lemma GrowsKeepsCalls(cfg: Config, s: System, u: System)
    requires Invariant(cfg, s) && TablesOk(cfg, u.tables) && Grows(s.tables, u.tables)
    requires forall k :: Known(u.tables, k) <==> k in u.requests
    requires forall k | k in u.requests ::
               (k in s.requests && u.requests[k] == s.requests[k]) || PhaseOk(u.tables, k, u.requests[k])
    requires forall c | c in u.sweeps ::
               (c in s.sweeps && u.sweeps[c] == s.sweeps[c]) || SweepOk(u.tables, u.sweeps[c])
    ensures Invariant(cfg, u)
  {
    forall k | k in u.requests ensures PhaseOk(u.tables, k, u.requests[k]) {
      if k in s.requests && u.requests[k] == s.requests[k] {
        GrowsKeepsPhase(s.tables, u.tables, k, s.requests[k]);
      }
    }
    forall c | c in u.sweeps ensures SweepOk(u.tables, u.sweeps[c]) {
      if c in s.sweeps && u.sweeps[c] == s.sweeps[c] {
        GrowsKeepsSweep(s.tables, u.tables, s.sweeps[c]);
      }
    }
  }

  lemma AttemptedMeaning(cfg: Config, t: Tables, id: string, state: ApprovalState, utc: string)
    requires TablesOk(cfg, t) && Known(t, id) && (state == Expired || state == Cancelled)
    ensures var u := Attempted(cfg, t, id, state, utc);
            TablesOk(cfg, u) && Grows(t, u) && InHistory(u, id) && forall k :: Known(u, k) <==> Known(t, k)
  {
    FinalizeKeepsTables(cfg, t, id, Deny, Some(state), utc);
  }

  lemma AskShape(cfg: Config, s: System, m: Move)
    requires m.AskMove? && Next(cfg, s, m).Some? && Next(cfg, s, m).value != s
    ensures m.id !in s.requests && !Known(s.tables, m.id)
    ensures var r, u := Admitted(cfg, s.tables, m.ask, m.id, m.utc), Next(cfg, s, m).value;
            && r.Queued? && u == System(r.tables, s.requests[m.id := Waiting], s.sweeps)
            && u.tables.history == s.tables.history && u.tables.pending.Keys == s.tables.pending.Keys + {m.id}
  {
    hide NewRecord, AskFault, Known;
  }

  lemma OneMoreKnown(t: Tables, u: Tables, id: string)
    requires u.history == t.history && u.pending.Keys == t.pending.Keys + {id}
    ensures Grows(t, u) && forall k :: Known(u, k) <==> Known(t, k) || k == id
  {
    forall k ensures Known(u, k) <==> Known(t, k) || k == id {
      assert InHistory(u, k) <==> InHistory(t, k);
    }
  }

  /** One approval was registered by a call that now waits. */
  lemma OneCallAdded(cfg: Config, s: System, tables: Tables, id: string)
    requires Invariant(cfg, s) && TablesOk(cfg, tables) && Grows(s.tables, tables)
    requires forall k :: Known(tables, k) <==> Known(s.tables, k) || k == id
    ensures Invariant(cfg, System(tables, s.requests[id := Waiting], s.sweeps))
  {
    hide TablesOk, Known, Grows, SweepOk;
    assert PhaseOk(tables, id, Waiting);
    hide PhaseOk;
    GrowsKeepsCalls(cfg, s, System(tables, s.requests[id := Waiting], s.sweeps));
  }

  lemma AskKeepsInvariant(cfg: Config, s: System, m: Move)
    requires Invariant(cfg, s) && m.AskMove?
    ensures var r := Next(cfg, s, m); r.Some? ==> Invariant(cfg, r.value) && Grows(s.tables, r.value.tables)
  {
    var r := Next(cfg, s, m);
    if r.Some? && r.value != s {
      var u := r.value;
      AskShape(cfg, s, m);
      AdmitKeepsTables(cfg, s.tables, m.ask, m.id, m.utc);
      hide Next, TablesOk, Admitted, Known, Grows;
      OneMoreKnown(s.tables, u.tables, m.id);
      hide Invariant;
      OneCallAdded(cfg, s, u.tables, m.id);
    }
  }

  lemma DecideKeepsInvariant(cfg: Config, s: System, m: Move)
    requires Invariant(cfg, s) && m.DecideMove?
    ensures var r := Next(cfg, s, m); r.Some? ==> Invariant(cfg, r.value) && Grows(s.tables, r.value.tables)
  {
    var r := Next(cfg, s, m);
    if r.value != s {
      FinalizeKeepsTables(cfg, s.tables, m.id, m.decision, None, m.utc);
      GrowsKeepsCalls(cfg, s, r.value);
    }
  }

  /** Waking and giving up move only the request; a wake finds its record in the history. */
  lemma WaitKeepsInvariant(cfg: Config, s: System, m: Move)
    requires Invariant(cfg, s) && (m.WakeMove? || m.WaitExpiresMove?)
    ensures var r := Next(cfg, s, m); r.Some? ==> Invariant(cfg, r.value) && Grows(s.tables, r.value.tables)
  {
    var r := Next(cfg, s, m);
    if r.Some? {
      assert PhaseOk(s.tables, m.id, s.requests[m.id]);
      GrowsKeepsCalls(cfg, s, r.value);
    }
  }

  lemma ExpireShape(cfg: Config, s: System, m: Move)
    requires m.ExpireMove? && Next(cfg, s, m).Some?
    ensures m.id in s.requests && s.requests[m.id] == Expiring
    ensures var u := Next(cfg, s, m).value;
            && u.tables == Attempted(cfg, s.tables, m.id, Expired, m.utc) && u.sweeps == s.sweeps
            && (u.requests == s.requests[m.id := Reading] || u.requests == s.requests[m.id := Raised])
  {
    hide Attempted, Finalized;
  }

  /** The tables grew without a new approval, and one call moved on. */
  lemma OneCallMoved(cfg: Config, s: System, tables: Tables, id: string, phase: Phase)
    requires Invariant(cfg, s) && TablesOk(cfg, tables) && Grows(s.tables, tables)
    requires forall k :: Known(tables, k) <==> Known(s.tables, k)
    requires id in s.requests && PhaseOk(tables, id, phase)
    ensures Invariant(cfg, System(tables, s.requests[id := phase], s.sweeps))
  {
    hide TablesOk, Known, Grows, PhaseOk, SweepOk;
    GrowsKeepsCalls(cfg, s, System(tables, s.requests[id := phase], s.sweeps));
  }

  lemma ExpireKeepsInvariant(cfg: Config, s: System, m: Move)
    requires Invariant(cfg, s) && m.ExpireMove?
    ensures var r := Next(cfg, s, m); r.Some? ==> Invariant(cfg, r.value) && Grows(s.tables, r.value.tables)
  {
    if Next(cfg, s, m).Some? {
      ExpireShape(cfg, s, m);
      var u := Next(cfg, s, m).value;
      assert Known(s.tables, m.id) by {
        assert PhaseOk(s.tables, m.id, s.requests[m.id]);
      }
      hide Next, TablesOk, Attempted, Known, Grows;
      AttemptedMeaning(cfg, s.tables, m.id, Expired, m.utc);
      hide Invariant, InHistory;
      OneCallMoved(cfg, s, u.tables, m.id, u.requests[m.id]);
    }
  }

  /** The final search always finds the record: a request never falls through its last line. */
  lemma ReadFinds(cfg: Config, t: Tables, id: string)
    requires TablesOk(cfg, t) && InHistory(t, id)
    ensures var r := LatestOf(t.history, id);
            r.Some? && r.value.body.decision.Some? && RecordedAs(t, id, r.value.body.decision.value)
  {
    LatestIsUnique(t.history, id);
    var found := LatestOf(t.history, id).value;
    var i :| 0 <= i < |t.history| && t.history[i] == found;
    assert ResolvedOk(cfg, t.history[i]);
  }

  lemma ReadKeepsInvariant(cfg: Config, s: System, m: Move)
    requires Invariant(cfg, s) && m.ReadMove?
    ensures var r := Next(cfg, s, m);
            r.Some? ==> Invariant(cfg, r.value) && Grows(s.tables, r.value.tables) && r.value.requests[m.id].Returned?
  {
    var r := Next(cfg, s, m);
    if r.Some? {
      assert PhaseOk(s.tables, m.id, s.requests[m.id]);
      ReadFinds(cfg, s.tables, m.id);
      GrowsKeepsCalls(cfg, s, r.value);
    }
  }

  lemma SweepKeepsInvariant(cfg: Config, s: System, m: Move)
    requires Invariant(cfg, s) && (m.CancelAllMove? || m.CancelNextMove? || m.FindMove? || m.CancelFoundMove?)
    ensures var r := Next(cfg, s, m); r.Some? ==> Invariant(cfg, r.value) && Grows(s.tables, r.value.tables)
  {
    hide Invariant, Grows;
    var r := Next(cfg, s, m);
    if r.Some? {
      hide Next;
      if m.CancelNextMove? {
        CancelNextKeeps(cfg, s, m);
      } else if m.CancelFoundMove? {
        CancelFoundKeeps(cfg, s, m);
      } else {
        SnapshotKeeps(cfg, s, m);
      }
    }
  }

  /** Taking the snapshot of pending approvals, or finding one, changes no table. */
  lemma SnapshotKeeps(cfg: Config, s: System, m: Move)
    requires Invariant(cfg, s) && (m.CancelAllMove? || m.FindMove?) && Next(cfg, s, m).Some?
    ensures var u := Next(cfg, s, m).value; Invariant(cfg, u) && Grows(s.tables, u.tables)
  {
    hide TablesOk, InHistory, PhaseOk;
    var u := Next(cfg, s, m).value;
    assert m.CancelAllMove? ==> forall i | 0 <= i < |m.ids| :: m.ids[i] in m.ids;
    assert SweepOk(u.tables, u.sweeps[m.call]);
    hide Next, SweepOk, Known;
    GrowsKeepsCalls(cfg, s, u);
  }

  lemma CancelFoundKeeps(cfg: Config, s: System, m: Move)
    requires Invariant(cfg, s) && m.CancelFoundMove? && Next(cfg, s, m).Some?
    ensures Invariant(cfg, Next(cfg, s, m).value) && Grows(s.tables, Next(cfg, s, m).value.tables)
  {
    hide TablesOk, Attempted;
    assert SweepOk(s.tables, s.sweeps[m.call]);
    AttemptedMeaning(cfg, s.tables, s.sweeps[m.call].id, Cancelled, m.utc);
    GrowsKeepsCalls(cfg, s, Next(cfg, s, m).value);
  }

  lemma CancelNextKeeps(cfg: Config, s: System, m: Move)
    requires Invariant(cfg, s) && m.CancelNextMove? && Next(cfg, s, m).Some?
    ensures Invariant(cfg, Next(cfg, s, m).value) && Grows(s.tables, Next(cfg, s, m).value.tables)
  {
    hide TablesOk, Attempted;
    var u := Next(cfg, s, m).value;
    var sweep := s.sweeps[m.call];
    assert SweepOk(s.tables, sweep);
    AttemptedMeaning(cfg, s.tables, sweep.ids[sweep.done], Cancelled, m.utc);
    SweepOneMore(s.tables, u.tables, sweep);
    assert forall c | c in u.sweeps && c != m.call :: c in s.sweeps && u.sweeps[c] == s.sweeps[c];
    GrowsKeepsCalls(cfg, s, u);
  }

  lemma SweepOneMore(t: Tables, u: Tables, sweep: Sweep)
    requires Grows(t, u) && sweep.CancellingAll? && SweepOk(t, sweep) && sweep.done < |sweep.ids|
    requires InHistory(u, sweep.ids[sweep.done])
    ensures SweepOk(u, CancellingAll(sweep.ids, sweep.done + 1))
  {
    GrowsKeepsSweep(t, u, sweep);
  }

  /** Every move keeps the invariant. */
  lemma NextKeepsInvariant(cfg: Config, s: System, m: Move)
    requires Invariant(cfg, s)
    ensures var r := Next(cfg, s, m); r.Some? ==> Invariant(cfg, r.value) && Grows(s.tables, r.value.tables)
  {
    match m
    case AskMove(_, _, _) => AskKeepsInvariant(cfg, s, m);
    case DecideMove(_, _, _) => DecideKeepsInvariant(cfg, s, m);
    case WakeMove(_) => WaitKeepsInvariant(cfg, s, m);
    case WaitExpiresMove(_) => WaitKeepsInvariant(cfg, s, m);
    case ExpireMove(_, _) => ExpireKeepsInvariant(cfg, s, m);
    case ReadMove(_) => ReadKeepsInvariant(cfg, s, m);
    case CancelAllMove(_, _) => SweepKeepsInvariant(cfg, s, m);
    case CancelNextMove(_, _) => SweepKeepsInvariant(cfg, s, m);
    case FindMove(_, _, _) => SweepKeepsInvariant(cfg, s, m);
    case CancelFoundMove(_, _) => SweepKeepsInvariant(cfg, s, m);
  }

  /**
   In every interleaving: each registered approval is pending or in the history exactly once, never both; at most 16 are
   pending, with different provider request ids; a normal return of a queued request is the decision recorded for it.
   */
  lemma {:induction false} RunsKeepInvariant(cfg: Config, moves: seq<Move>)
    ensures var r := Run(cfg, moves); r.Some? ==> Invariant(cfg, r.value)
    decreases |moves|
  {
    if moves != [] {
      RunsKeepInvariant(cfg, moves[..|moves| - 1]);
      var before := Run(cfg, moves[..|moves| - 1]);
      if before.Some? {
        NextKeepsInvariant(cfg, before.value, moves[|moves| - 1]);
      }
    }
  }

  // ----- what runs guarantee -----

  /**
   A run that can happen has prefixes that can happen, and its history extends theirs: no record is ever changed or
   removed.
   */
  lemma {:induction false} HistoryIsAppendOnly(cfg: Config, moves: seq<Move>, i: nat)
    requires i <= |moves| && Run(cfg, moves).Some?
    ensures Run(cfg, moves[..i]).Some?
    ensures Grows(Run(cfg, moves[..i]).value.tables, Run(cfg, moves).value.tables)
    decreases |moves|
  {
    if i == |moves| {
      assert moves[..i] == moves;
    } else {
      var init := moves[..|moves| - 1];
      assert init[..i] == moves[..i];
      HistoryIsAppendOnly(cfg, init, i);
      RunsKeepInvariant(cfg, init);
      NextKeepsInvariant(cfg, Run(cfg, init).value, moves[|moves| - 1]);
    }
  }

  predicate Decides(m: Move, id: string, decision: Decision) {
    m.DecideMove? && m.id == id && m.decision == decision
  }

  /** Every allowing record was put there by a resolution with exactly that decision. */
  lemma {:induction false} AllowedByResolution(cfg: Config, moves: seq<Move>, i: nat)
    requires Run(cfg, moves).Some? && i < |Run(cfg, moves).value.tables.history|
    requires Run(cfg, moves).value.tables.history[i].body.state.Allowed?
    ensures var body := Run(cfg, moves).value.tables.history[i].body;
            exists k :: 0 <= k < |moves| && body.decision.Some?
              && Decides(moves[k], body.approvalId, body.decision.value)
    decreases |moves|
  {
    if moves != [] {
      hide Next, Invariant, Decides;
      var init, m := moves[..|moves| - 1], moves[|moves| - 1];
      var s, u := Run(cfg, init).value, Run(cfg, moves).value;
      RunsKeepInvariant(cfg, init);
      NextKeepsInvariant(cfg, s, m);
      var body := u.tables.history[i].body;
      if i < |s.tables.history| {
        assert s.tables.history[i] == u.tables.history[i];
        AllowedByResolution(cfg, init, i);
        var k :| 0 <= k < |init| && Decides(init[k], body.approvalId, body.decision.value);
        assert moves[k] == init[k];
      } else {
        NewRecordMeaning(cfg, s, m, i);
        assert Decides(moves[|moves| - 1], body.approvalId, body.decision.value);
      }
    }
  }

  /** A resolver records its own decision. */
  lemma DecidedRecord(cfg: Config, t: Tables, id: string, decision: Decision, utc: string)
    requires TablesOk(cfg, t) && Finalized(cfg, t, id, decision, None, utc).Ok?
    ensures var u := Finalized(cfg, t, id, decision, None, utc).value;
            && |u.history| == |t.history| + 1
            && u.history[|t.history|].body.approvalId == id && u.history[|t.history|].body.decision == Some(decision)
  {
    assert PendingOk(cfg, id, t.pending[id]);
    hide TablesOk;
  }

  /** An attempt to expire or cancel records no allowing decision. */
  lemma AttemptedRecord(cfg: Config, t: Tables, id: string, state: ApprovalState, utc: string)
    requires state == Expired || state == Cancelled
    ensures var u := Attempted(cfg, t, id, state, utc);
            && |u.history| <= |t.history| + 1
            && forall i | |t.history| <= i < |u.history| :: !u.history[i].body.state.Allowed?
  {
  }

  /** The tables after the moves that are no resolution. */
  lemma UndecidedRecords(cfg: Config, s: System, m: Move)
    requires Next(cfg, s, m).Some? && !m.DecideMove?
    ensures var u := Next(cfg, s, m).value;
            match m
            case ExpireMove(id, utc) => u.tables == Attempted(cfg, s.tables, id, Expired, utc)
            case CancelNextMove(call, utc) =>
              && call in s.sweeps && s.sweeps[call].CancellingAll? && s.sweeps[call].done < |s.sweeps[call].ids|
              && u.tables == Attempted(cfg, s.tables, s.sweeps[call].ids[s.sweeps[call].done], Cancelled, utc)
            case CancelFoundMove(call, utc) =>
              && call in s.sweeps && s.sweeps[call].CancellingOne?
              && u.tables == Attempted(cfg, s.tables, s.sweeps[call].id, Cancelled, utc)
            case _ => u.tables.history == s.tables.history
  {
    hide Attempted, Finalized, NewRecord, AskFault, LatestOf, IsListing, Known;
  }

  /** The only move that can add an allowing record is a resolution. */
  lemma NewRecordMeaning(cfg: Config, s: System, m: Move, i: nat)
    requires Invariant(cfg, s) && Next(cfg, s, m).Some?
    requires |s.tables.history| <= i < |Next(cfg, s, m).value.tables.history|
    requires Next(cfg, s, m).value.tables.history[i].body.state.Allowed?
    ensures var body := Next(cfg, s, m).value.tables.history[i].body;
            body.decision.Some? && Decides(m, body.approvalId, body.decision.value)
  {
    var t, u := s.tables, Next(cfg, s, m).value.tables;
    if m.DecideMove? {
      if Finalized(cfg, t, m.id, m.decision, None, m.utc).Ok? {
        DecidedRecord(cfg, t, m.id, m.decision, m.utc);
      }
      hide TablesOk, Finalized, ResolveFault;
    } else {
      UndecidedRecords(cfg, s, m);
      if m.ExpireMove? {
        AttemptedRecord(cfg, t, m.id, Expired, m.utc);
      } else if m.CancelNextMove? {
        AttemptedRecord(cfg, t, s.sweeps[m.call].ids[s.sweeps[m.call].done], Cancelled, m.utc);
      } else if m.CancelFoundMove? {
        AttemptedRecord(cfg, t, s.sweeps[m.call].id, Cancelled, m.utc);
      }
      hide Next, Attempted;
    }
  }

  /**
   Fail closed: a queued request returns an allowing decision only if some call resolved that very approval with that
   very decision. Timeouts, cancellations and lost races never allow.
   */
  lemma AllowNeedsResolution(cfg: Config, moves: seq<Move>, id: string)
    requires Run(cfg, moves).Some? && id in Run(cfg, moves).value.requests
    requires Run(cfg, moves).value.requests[id].Returned? && IsAllow(Run(cfg, moves).value.requests[id].decision)
    ensures exists k :: 0 <= k < |moves| && Decides(moves[k], id, Run(cfg, moves).value.requests[id].decision)
  {
    var s := Run(cfg, moves).value;
    RunsKeepInvariant(cfg, moves);
    assert PhaseOk(s.tables, id, s.requests[id]);
    var i :| 0 <= i < |s.tables.history| && s.tables.history[i].body.approvalId == id
             && s.tables.history[i].body.decision == Some(s.requests[id].decision);
    assert ResolvedOk(cfg, s.tables.history[i]);
    AllowedByResolution(cfg, moves, i);
  }

  lemma NotBoth(cfg: Config, t: Tables, id: string)
    requires TablesOk(cfg, t)
    ensures !(id in t.pending && InHistory(t, id))
    ensures id in t.pending ==> t.pending[id].body.approvalId == id
  {
    if id in t.pending {
      assert PendingOk(cfg, id, t.pending[id]);
    }
  }

  /** When the wait of a request runs out after another call finalized the approval, the request raises. */
  lemma LostRaceRaises(cfg: Config, s: System, id: string, utc: string)
    requires Invariant(cfg, s) && id in s.requests && s.requests[id] == Expiring
    ensures Next(cfg, s, ExpireMove(id, utc)).Some?
    ensures var u := Next(cfg, s, ExpireMove(id, utc)).value;
            && (u.requests[id] == Raised <==> InHistory(s.tables, id))
            && (u.requests[id] == Raised ==> u.tables == s.tables)
            && (u.requests[id] != Raised ==> u.requests[id] == Reading && RecordedAs(u.tables, id, Deny))
  {
    hide TablesOk;
    FinalizeKeepsTables(cfg, s.tables, id, Deny, Some(Expired), utc);
    assert PhaseOk(s.tables, id, s.requests[id]);
    NotBoth(cfg, s.tables, id);
    if id in s.tables.pending {
      hide Known;
      var u := Next(cfg, s, ExpireMove(id, utc)).value;
      assert u.tables.history[|s.tables.history|].body.approvalId == id;
    }
  }

  /** What a queued request that has not ended does next. */
  function OwnMove(s: System, id: string, utc: string): Move
    requires id in s.requests
  {
    match s.requests[id]
    case Waiting => if IsSet(s.tables, id) then WakeMove(id) else WaitExpiresMove(id)
    case Expiring => ExpireMove(id, utc)
    case _ => ReadMove(id)
  }

  /** A queued request that has not ended can always move on by itself: it never depends on another call to finish. */
  lemma RequestsNeverStick(cfg: Config, s: System, id: string, utc: string)
    requires Invariant(cfg, s) && id in s.requests && !s.requests[id].Returned? && !s.requests[id].Raised?
    ensures var r := Next(cfg, s, OwnMove(s, id, utc));
            && r.Some? && id in r.value.requests
            && Remaining(r.value.requests[id]) < Remaining(s.requests[id])
  {
    hide TablesOk, Finalized, Known;
    if s.requests[id] == Reading {
      ReadKeepsInvariant(cfg, s, ReadMove(id));
    }
  }

  function Remaining(phase: Phase): nat {
    match phase
    case Waiting => 3
    case Expiring => 2
    case Reading => 1
    case _ => 0
  }

  /** A `cancel_all` in progress keeps its snapshot of ids and only advances. */
  lemma {:induction false} SweepAdvances(cfg: Config, moves: seq<Move>, i: nat, call: nat)
    requires i <= |moves| && Run(cfg, moves).Some? && Run(cfg, moves[..i]).Some?
    requires call in Run(cfg, moves[..i]).value.sweeps && Run(cfg, moves[..i]).value.sweeps[call].CancellingAll?
    ensures var s := Run(cfg, moves).value;
            call in s.sweeps && s.sweeps[call].CancellingAll?
              && s.sweeps[call].ids == Run(cfg, moves[..i]).value.sweeps[call].ids
    decreases |moves|
  {
    if i == |moves| {
      assert moves[..i] == moves;
    } else {
      hide Next;
      var init := moves[..|moves| - 1];
      assert init[..i] == moves[..i];
      SweepAdvances(cfg, init, i, call);
      SweepStays(cfg, Run(cfg, init).value, moves[|moves| - 1], call);
    }
  }

  /** No move ends a `cancel_all` or changes its snapshot. */
  lemma SweepStays(cfg: Config, s: System, m: Move, call: nat)
    requires call in s.sweeps && s.sweeps[call].CancellingAll? && Next(cfg, s, m).Some?
    ensures var u := Next(cfg, s, m).value;
            call in u.sweeps && u.sweeps[call].CancellingAll? && u.sweeps[call].ids == s.sweeps[call].ids
  {
    hide Admitted, Finalized, Attempted, LatestOf, ResolveFault;
  }

  /**
   Whatever runs in between, a finished `cancel_all` has seen every approval that was pending at its snapshot
   finalized.
   */
  lemma CancelAllFinalizes(cfg: Config, moves: seq<Move>, i: nat, call: nat, ids: seq<string>, id: string)
    requires i < |moves| && moves[i] == CancelAllMove(call, ids) && Run(cfg, moves).Some?
    requires Run(cfg, moves[..i]).Some? ==> id in Run(cfg, moves[..i]).value.tables.pending
    requires call in Run(cfg, moves).value.sweeps && Run(cfg, moves).value.sweeps[call].CancellingAll?
    requires Run(cfg, moves).value.sweeps[call].done == |Run(cfg, moves).value.sweeps[call].ids|
    ensures InHistory(Run(cfg, moves).value.tables, id) && id !in Run(cfg, moves).value.tables.pending
  {
    HistoryIsAppendOnly(cfg, moves, i);
    HistoryIsAppendOnly(cfg, moves, i + 1);
    assert moves[..i + 1][..i] == moves[..i];
    SweepAdvances(cfg, moves, i + 1, call);
    RunsKeepInvariant(cfg, moves);
    var s := Run(cfg, moves).value;
    assert SweepOk(s.tables, s.sweeps[call]);
    assert id in ids;
    var k :| 0 <= k < |ids| && ids[k] == id;
    var j :| 0 <= j < |s.tables.history| && s.tables.history[j].body.approvalId == id;
  }

  /** What a cancellation does to the tables. */
  lemma CancelReports(cfg: Config, t: Tables, id: string, utc: string)
    requires TablesOk(cfg, t)
    ensures var u := Attempted(cfg, t, id, Cancelled, utc);
            && (id in t.pending <==> |u.history| == |t.history| + 1)
            && (id in t.pending ==> RecordedAs(u, id, Deny))
  {
    FinalizeKeepsTables(cfg, t, id, Deny, Some(Cancelled), utc);
    if id in t.pending {
      var n, u := |t.history|, Attempted(cfg, t, id, Cancelled, utc);
      assert PendingOk(cfg, id, t.pending[id]);
      hide TablesOk, Finalized, Attempted;
      assert u.history[n].body.approvalId == id && u.history[n].body.decision == Some(Deny);
    }
  }

  /** A cancellation of one provider request reports success exactly when its own finalization recorded the denial. */
  lemma CancelOneReports(cfg: Config, s: System, call: nat, utc: string)
    requires Invariant(cfg, s) && call in s.sweeps && s.sweeps[call].CancellingOne?
    ensures var u := Next(cfg, s, CancelFoundMove(call, utc));
            && u.Some? && u.value.sweeps[call].CancelEnded?
            && (u.value.sweeps[call].won <==> |u.value.tables.history| == |s.tables.history| + 1)
            && (u.value.sweeps[call].won ==> RecordedAs(u.value.tables, s.sweeps[call].id, Deny))
  {
    hide TablesOk, Finalized, RecordedAs, Attempted;
    CancelReports(cfg, s.tables, s.sweeps[call].id, utc);
  }
}
