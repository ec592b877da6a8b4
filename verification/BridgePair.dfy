/**
 The call and return events behind one tool call (src/peerbridge_mcp/acp_client_receipt.py:600-644): finding the only
 pair in the audit log, and what appending to the log does to it.
 */
module BridgePair {
  import opened Results

  datatype Kind = Called | Returned | OtherKind

  /** An event of the scope with the parts of its payload the search looks at. */
  datatype Event = Event(sequence: int, actor: string, kind: Kind, tool: Option<string>, session: Option<string>,
                         identity: Option<string>, argumentsSha: Option<string>, resultSha: Option<string>)

  datatype Query = Query(agent: string, tool: string, identity: string, argumentsSha: string, resultSha: string)

  predicate IsCall(q: Query, e: Event) {
    && e.kind.Called? && e.actor == q.agent && e.tool == Some(q.tool) && e.identity == Some(q.identity)
    && e.argumentsSha == Some(q.argumentsSha)
  }

  /** Another call of the same tool in the same session ends the search for a return. */
  predicate Intervenes(q: Query, call: Event, e: Event) {
    e.actor == q.agent && e.kind.Called? && e.tool == Some(q.tool) && e.session == call.session
  }

  predicate IsReturn(q: Query, call: Event, e: Event) {
    && e.actor == q.agent && e.kind.Returned? && e.tool == Some(q.tool) && e.session == call.session
    && e.identity == Some(q.identity) && e.resultSha == Some(q.resultSha)
  }

  /** A call, its first matching return, and no other call of the tool and session by that agent in between. */
  predicate Pair(q: Query, events: seq<Event>, i: nat, j: nat) {
    && i < j < |events| && IsCall(q, events[i]) && IsReturn(q, events[i], events[j])
    && forall k | i < k < j :: !Intervenes(q, events[i], events[k]) && !IsReturn(q, events[i], events[k])
  }

  /**
   A pair, event by event: a call of the tool by the agent with the identity and the arguments, a later return of it in
   the same session with the identity and the result, and no such return and no call of the tool in the session between.
   */
  lemma PairIff(q: Query, events: seq<Event>, i: nat, j: nat)
    ensures Pair(q, events, i, j) <==>
      && i < j < |events|
      && var call, back := events[i], events[j];
         && call.kind == Called && call.actor == q.agent && call.tool == Some(q.tool)
         && call.identity == Some(q.identity) && call.argumentsSha == Some(q.argumentsSha)
         && back.kind == Returned && back.actor == q.agent && back.tool == Some(q.tool)
         && back.session == call.session && back.identity == Some(q.identity) && back.resultSha == Some(q.resultSha)
         && forall k | i < k < j && events[k].actor == q.agent && events[k].tool == Some(q.tool)
                       && events[k].session == call.session ::
              events[k].kind != Called
              && !(events[k].kind == Returned && events[k].identity == Some(q.identity)
                   && events[k].resultSha == Some(q.resultSha))
  {
  }

  ghost predicate OnlyPair(q: Query, events: seq<Event>, i: nat, j: nat) {
    Pair(q, events, i, j) && forall a: nat, b: nat :: Pair(q, events, a, b) ==> a == i && b == j
  }

  /** The inner loop: the return of one call, if it has one. */
  method ReturnOf(q: Query, events: seq<Event>, i: nat) returns (r: Option<nat>)
    requires i < |events| && IsCall(q, events[i])
    ensures match r
            case Some(j) => Pair(q, events, i, j)
            case None => forall j :: !Pair(q, events, i, j)
  {
    var j := i + 1;
    while j < |events|
      invariant i < j <= |events|
      invariant forall k | i < k < j :: !Intervenes(q, events[i], events[k]) && !IsReturn(q, events[i], events[k])
    {
      if Intervenes(q, events[i], events[j]) {
        return None;
      }
      if IsReturn(q, events[i], events[j]) {
        return Some(j);
      }
      j := j + 1;
    }
    r := None;
  }

  /** `_matching_bridge_pair`: the only pair of the log, if there is exactly one. */
  method MatchingBridgePair(q: Query, events: seq<Event>) returns (r: Option<(nat, nat)>)
    ensures match r
            case Some((i, j)) => OnlyPair(q, events, i, j)
            case None => forall i, j :: !OnlyPair(q, events, i, j)
  {
    var matches: seq<(nat, nat)> := [];
    for i := 0 to |events|
      invariant forall m | m in matches :: m.0 < i && Pair(q, events, m.0, m.1)
      invariant forall a: nat, b: nat | a < i && Pair(q, events, a, b) :: (a, b) in matches
      invariant forall x, y | 0 <= x < y < |matches| :: matches[x].0 < matches[y].0
    {
      if IsCall(q, events[i]) {
        var j := ReturnOf(q, events, i);
        if j.Some? {
          matches := matches + [(i, j.value)];
        }
      }
    }
    if |matches| == 1 {
      return Some(matches[0]);
    }
    if |matches| > 1 {
      assert matches[0] in matches && matches[1] in matches;
    }
    r := None;
  }

  // ----- growth of the log -----

  /** Pairs inside the old log are the pairs of the new log that end in it. */
  lemma PairsKept(q: Query, events: seq<Event>, more: seq<Event>, i: nat, j: nat)
    requires j < |events|
    ensures Pair(q, events + more, i, j) <==> Pair(q, events, i, j)
  {
    var all := events + more;
    assert forall k | 0 <= k <= j :: all[k] == events[k];
  }

  /** Appending to the log leaves the result as it is exactly when no new pair ends among the added events. */
  lemma AppendedKeepsPair(q: Query, events: seq<Event>, more: seq<Event>, i: nat, j: nat)
    requires OnlyPair(q, events, i, j)
    ensures OnlyPair(q, events + more, i, j)
            <==> forall a: nat, b: nat :: b >= |events| ==> !Pair(q, events + more, a, b)
  {
    var all := events + more;
    PairsKept(q, events, more, i, j);
    forall a: nat, b: nat | Pair(q, all, a, b) && b < |events| ensures a == i && b == j {
      PairsKept(q, events, more, a, b);
    }
  }

  /** In particular when no added event is a return of this tool with this identity and result by this agent. */
  lemma NoFurtherReturn(q: Query, events: seq<Event>, more: seq<Event>, i: nat, j: nat)
    requires OnlyPair(q, events, i, j)
    requires forall e | e in more :: !(e.kind.Returned? && e.actor == q.agent && e.tool == Some(q.tool)
                                       && e.identity == Some(q.identity) && e.resultSha == Some(q.resultSha))
    ensures OnlyPair(q, events + more, i, j)
  {
    AppendedKeepsPair(q, events, more, i, j);
    var all := events + more;
    forall a: nat, b: nat | b >= |events| ensures !Pair(q, all, a, b) {
      assert b < |all| ==> all[b] == more[b - |events|] && all[b] in more;
    }
  }
}
