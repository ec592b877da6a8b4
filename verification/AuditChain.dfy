/**
 The audit chain of one scope: how an event is appended (src/peerbridge_mcp/bridge.py:1818-1880), the diagnosis that
 lists every fault (src/peerbridge_mcp/doctor.py:195-236) and the prefix check that stops at the first one
 (src/peerbridge_mcp/provider_receipt.py:323-343).
 */
module AuditChain {
  import opened Results

  const ZERO_SHA256 := "0000000000000000000000000000000000000000000000000000000000000000"

  datatype Envelope = Envelope(eventId: string, scope: string, actor: string, eventType: string, taskId: Option<string>,
                               payloadSha: string, createdUtc: string, prevSha: string)

  /** A row of the events table; its position in the table is `sequence`. */
  datatype Stored = Stored(sequence: int, eventId: string, scope: string, actor: string, eventType: string,
                           taskId: Option<string>, payload: string, createdUtc: string,
                           payloadSha: string, prevSha: string, chainSha: string)

  datatype Digests = Digests(ofPayload: string -> string, ofEnvelope: Envelope -> string)

  /** The idealisation of SHA-256: different inputs have different digests, and no envelope has the zero digest. */
  ghost predicate Collisionless(h: Digests) {
    && (forall x, y :: h.ofPayload(x) == h.ofPayload(y) ==> x == y)
    && (forall x, y :: h.ofEnvelope(x) == h.ofEnvelope(y) ==> x == y)
    && (forall x :: h.ofEnvelope(x) != ZERO_SHA256)
  }

  datatype FaultKind = PayloadSha | PrevChainSha | ChainSha
  datatype Fault = Fault(sequence: int, kind: FaultKind)

  function EnvelopeOf(h: Digests, row: Stored, previous: string): Envelope {
    Envelope(row.eventId, row.scope, row.actor, row.eventType, row.taskId, h.ofPayload(row.payload), row.createdUtc,
             previous)
  }

  function When(c: bool, f: Fault): seq<Fault> {
    if c then [f] else []
  }

  function RowFaults(h: Digests, previous: string, row: Stored): seq<Fault> {
    When(row.payloadSha != h.ofPayload(row.payload), Fault(row.sequence, PayloadSha))
    + When(row.prevSha != previous, Fault(row.sequence, PrevChainSha))
    + When(row.chainSha != h.ofEnvelope(EnvelopeOf(h, row, previous)), Fault(row.sequence, ChainSha))
  }

  function Head(previous: string, rows: seq<Stored>): string {
    if rows == [] then previous else rows[|rows| - 1].chainSha
  }

  /** Every fault of the rows, in row order; `previous` is the chain value before them. */
  function Faults(h: Digests, previous: string, rows: seq<Stored>): seq<Fault> {
    if rows == [] then []
    else
      var init := rows[..|rows| - 1];
      Faults(h, previous, init) + RowFaults(h, Head(previous, init), rows[|rows| - 1])
  }

  ghost predicate Valid(h: Digests, rows: seq<Stored>) {
    Faults(h, ZERO_SHA256, rows) == []
  }

  /** The three comparisons on one row. */
  method DiagnoseRow(h: Digests, previous: string, row: Stored) returns (faults: seq<Fault>)
    ensures faults == RowFaults(h, previous, row)
  {
    var payloadSha := h.ofPayload(row.payload);
    var chainSha := h.ofEnvelope(EnvelopeOf(h, row, previous));
    faults := [];
    if row.payloadSha != payloadSha {
      faults := faults + [Fault(row.sequence, PayloadSha)];
    }
    if row.prevSha != previous {
      faults := faults + [Fault(row.sequence, PrevChainSha)];
    }
    if row.chainSha != chainSha {
      faults := faults + [Fault(row.sequence, ChainSha)];
    }
  }

  /** `_verify_audit_chain`. */
  method Diagnose(h: Digests, rows: seq<Stored>) returns (faults: seq<Fault>, head: string)
    ensures faults == Faults(h, ZERO_SHA256, rows)
    ensures head == Head(ZERO_SHA256, rows)
  {
    hide RowFaults;
    var previous := ZERO_SHA256;
    faults := [];
    for i := 0 to |rows|
      invariant previous == Head(ZERO_SHA256, rows[..i])
      invariant faults == Faults(h, ZERO_SHA256, rows[..i])
    {
      assert rows[..i + 1][..i] == rows[..i];
      var found := DiagnoseRow(h, previous, rows[i]);
      faults := faults + found;
      previous := rows[i].chainSha;
    }
    assert rows[..|rows|] == rows;
    head := previous;
  }

  datatype PrefixError = EmptyPrefix | BadRow(sequence: int, kind: FaultKind)

  function Through(rows: seq<Stored>, sequence: int): seq<Stored> {
    if rows == [] then []
    else (if rows[0].sequence <= sequence then [rows[0]] else []) + Through(rows[1..], sequence)
  }

  /** `_verify_chain_prefix`: the rows up to a sequence, or the first fault among them. */
  method VerifyPrefix(h: Digests, rows: seq<Stored>, sequence: int) returns (r: Result<seq<Stored>, PrefixError>)
    ensures var prefix := Through(rows, sequence);
            match r
            case Ok(checked) => checked == prefix && prefix != [] && Valid(h, prefix)
            case Err(EmptyPrefix) => prefix == []
            case Err(BadRow(s, kind)) =>
              Faults(h, ZERO_SHA256, prefix) != [] && Faults(h, ZERO_SHA256, prefix)[0] == Fault(s, kind)
  {
    hide EnvelopeOf, Through;
    var prefix := Through(rows, sequence);
    if prefix == [] {
      return Err(EmptyPrefix);
    }
    var previous := ZERO_SHA256;
    for i := 0 to |prefix|
      invariant previous == Head(ZERO_SHA256, prefix[..i])
      invariant Valid(h, prefix[..i])
    {
      var row := prefix[i];
      assert prefix[..i + 1][..i] == prefix[..i];
      FaultsOfPrefix(h, ZERO_SHA256, prefix, i + 1);
      var chainSha := h.ofEnvelope(EnvelopeOf(h, row, previous));
      if row.payloadSha != h.ofPayload(row.payload) {
        return Err(BadRow(row.sequence, PayloadSha));
      }
      if row.prevSha != previous {
        return Err(BadRow(row.sequence, PrevChainSha));
      }
      if row.chainSha != chainSha {
        return Err(BadRow(row.sequence, ChainSha));
      }
      previous := row.chainSha;
    }
    assert prefix[..|prefix|] == prefix;
    r := Ok(prefix);
  }

  // ----- prefixes, locality, appending -----

  /** The faults of a prefix are a prefix of the faults, so every prefix of a valid chain is valid. */
  lemma {:induction false} FaultsOfPrefix(h: Digests, previous: string, rows: seq<Stored>, n: nat)
    requires n <= |rows|
    ensures Faults(h, previous, rows[..n]) <= Faults(h, previous, rows)
    decreases |rows|
  {
    if n == |rows| {
      assert rows[..n] == rows;
    } else {
      var init := rows[..|rows| - 1];
      assert init[..n] == rows[..n];
      FaultsOfPrefix(h, previous, init, n);
    }
  }

  /** The chain value a row is checked against: the one stored in the row before it. */
  function Before(rows: seq<Stored>, i: nat): string
    requires i < |rows|
  {
    if i == 0 then ZERO_SHA256 else rows[i - 1].chainSha
  }

  /**
   Errors are local: `row` at position i is reported for exactly the faults it has against the chain value stored in the
   row before it, between the faults of the rows before and those of the rows after it.
   */
  lemma {:induction false} FaultsAreLocal(h: Digests, rows: seq<Stored>, i: nat)
    requires i < |rows|
    ensures Faults(h, ZERO_SHA256, rows)
            == Faults(h, ZERO_SHA256, rows[..i]) + RowFaults(h, Before(rows, i), rows[i])
              + Faults(h, rows[i].chainSha, rows[i + 1..])
    decreases |rows|
  {
    hide RowFaults;
    var init := rows[..|rows| - 1];
    if i == |rows| - 1 {
      assert rows[i + 1..] == [] && rows[..i] == init;
    } else {
      FaultsAreLocal(h, init, i);
      var rest := rows[i + 1..];
      assert rest[..|rest| - 1] == init[i + 1..] && init[..i] == rows[..i] && Before(init, i) == Before(rows, i);
      assert Head(ZERO_SHA256, init) == Head(rows[i].chainSha, init[i + 1..]);
      Regroup(Faults(h, ZERO_SHA256, rows[..i]), RowFaults(h, Before(rows, i), rows[i]),
              Faults(h, rows[i].chainSha, init[i + 1..]),
              RowFaults(h, Head(ZERO_SHA256, init), rows[|rows| - 1]),
              Faults(h, ZERO_SHA256, init), Faults(h, rows[i].chainSha, rest));
    }
  }

  lemma Regroup<T>(a: seq<T>, b: seq<T>, c: seq<T>, d: seq<T>, whole: seq<T>, tail: seq<T>)
    requires whole == a + b + c && tail == c + d
    ensures whole + d == a + b + tail
  {
  }

  /** Editing one payload of a valid chain is reported at that row alone, as a wrong payload and a wrong chain value. */
  lemma PayloadEditDoesNotCascade(h: Digests, rows: seq<Stored>, i: nat, payload: string)
    requires Collisionless(h) && Valid(h, rows) && i < |rows| && payload != rows[i].payload
    ensures Faults(h, ZERO_SHA256, rows[i := rows[i].(payload := payload)])
            == [Fault(rows[i].sequence, PayloadSha), Fault(rows[i].sequence, ChainSha)]
  {
    ValidAround(h, rows, i);
    EditIsLocal(h, rows, i, rows[i].(payload := payload));
    EditedRow(h, Before(rows, i), rows[i], payload);
  }

  lemma ValidAround(h: Digests, rows: seq<Stored>, i: nat)
    requires i < |rows| && Valid(h, rows)
    ensures Valid(h, rows[..i]) && RowFaults(h, Before(rows, i), rows[i]) == []
            && Faults(h, rows[i].chainSha, rows[i + 1..]) == []
  {
    FaultsAreLocal(h, rows, i);
    Pieces(Faults(h, ZERO_SHA256, rows[..i]), RowFaults(h, Before(rows, i), rows[i]),
           Faults(h, rows[i].chainSha, rows[i + 1..]));
  }

  /** Any edit of one row that leaves its stored chain value is reported at that row alone. */
  lemma EditIsLocal(h: Digests, rows: seq<Stored>, i: nat, row: Stored)
    requires i < |rows| && Valid(h, rows) && row.chainSha == rows[i].chainSha
    ensures Faults(h, ZERO_SHA256, rows[i := row]) == RowFaults(h, Before(rows, i), row)
  {
    ValidAround(h, rows, i);
    var edited := rows[i := row];
    assert edited[..i] == rows[..i] && edited[i + 1..] == rows[i + 1..];
    FaultsAreLocal(h, edited, i);
    var faults := RowFaults(h, Before(rows, i), row);
    assert [] + faults + [] == faults;
  }

  lemma Pieces<T>(a: seq<T>, b: seq<T>, c: seq<T>)
    requires a + b + c == []
    ensures a == [] && b == [] && c == []
  {
    assert |a + b + c| == |a| + |b| + |c|;
  }

  lemma EditedRow(h: Digests, previous: string, row: Stored, payload: string)
    requires Collisionless(h) && RowFaults(h, previous, row) == [] && payload != row.payload
    ensures RowFaults(h, previous, row.(payload := payload))
            == [Fault(row.sequence, PayloadSha), Fault(row.sequence, ChainSha)]
  {
    RowClean(h, previous, row);
    assert EnvelopeOf(h, row.(payload := payload), previous) != EnvelopeOf(h, row, previous);
  }

  lemma RowClean(h: Digests, previous: string, row: Stored)
    ensures RowFaults(h, previous, row) == []
            <==> row.payloadSha == h.ofPayload(row.payload) && row.prevSha == previous
                 && row.chainSha == h.ofEnvelope(EnvelopeOf(h, row, previous))
  {
  }

  /** Which faults a row has, and in which order they are reported: payload, previous chain value, chain value. */
  lemma RowFaultsMeaning(h: Digests, previous: string, row: Stored)
    ensures var f := RowFaults(h, previous, row);
            && (Fault(row.sequence, PayloadSha) in f <==> row.payloadSha != h.ofPayload(row.payload))
            && (Fault(row.sequence, PrevChainSha) in f <==> row.prevSha != previous)
            && (Fault(row.sequence, ChainSha) in f <==>
                  row.chainSha != h.ofEnvelope(Envelope(row.eventId, row.scope, row.actor, row.eventType, row.taskId,
                                                        h.ofPayload(row.payload), row.createdUtc, previous)))
            && (forall i | 0 <= i < |f| :: f[i].sequence == row.sequence)
            && (forall i, j | 0 <= i < j < |f| :: f[i].kind != ChainSha && f[j].kind != PayloadSha && f[i] != f[j])
  {
  }

  /** What a writer supplies for a new event. */
  datatype NewEvent = NewEvent(sequence: int, eventId: string, scope: string, actor: string, eventType: string,
                               taskId: Option<string>, payload: string, createdUtc: string)

  /** `_event`: the row that continues the chain. */
  function Appended(h: Digests, rows: seq<Stored>, e: NewEvent): seq<Stored> {
    var previous := Head(ZERO_SHA256, rows);
    var sha := h.ofPayload(e.payload);
    rows + [Stored(e.sequence, e.eventId, e.scope, e.actor, e.eventType, e.taskId, e.payload, e.createdUtc, sha,
                   previous,
                   h.ofEnvelope(Envelope(e.eventId, e.scope, e.actor, e.eventType, e.taskId, sha, e.createdUtc,
                                         previous)))]
  }

  function AppendedAll(h: Digests, rows: seq<Stored>, added: seq<NewEvent>): seq<Stored>
    decreases |added|
  {
    if added == [] then rows else AppendedAll(h, Appended(h, rows, added[0]), added[1..])
  }

  /** Appending never adds a fault, and never hides one. */
  lemma {:induction false} AppendingKeepsFaults(h: Digests, rows: seq<Stored>, added: seq<NewEvent>)
    ensures Faults(h, ZERO_SHA256, AppendedAll(h, rows, added)) == Faults(h, ZERO_SHA256, rows)
    ensures rows <= AppendedAll(h, rows, added) && |AppendedAll(h, rows, added)| == |rows| + |added|
    decreases |added|
  {
    if added != [] {
      var next := Appended(h, rows, added[0]);
      assert next[..|next| - 1] == rows;
      AppendingKeepsFaults(h, next, added[1..]);
    }
  }

  // ----- tamper evidence -----

  predicate SameHashedFields(a: Stored, b: Stored) {
    a.(sequence := 0) == b.(sequence := 0)
  }

  /** Two valid chains with the same head have the same length and agree on every hashed field of every row. */
  lemma {:induction false} SameHeadSameChain(h: Digests, a: seq<Stored>, b: seq<Stored>)
    requires Collisionless(h) && Valid(h, a) && Valid(h, b)
    requires Head(ZERO_SHA256, a) == Head(ZERO_SHA256, b)
    ensures |a| == |b| && forall i | 0 <= i < |a| :: SameHashedFields(a[i], b[i])
    decreases |a|
  {
    if a != [] && b != [] {
      var p, q := a[..|a| - 1], b[..|b| - 1];
      LastRow(h, a);
      LastRow(h, b);
      SameEnvelope(h, a[|a| - 1], Head(ZERO_SHA256, p), b[|b| - 1], Head(ZERO_SHA256, q));
      SameHeadSameChain(h, p, q);
      forall i | 0 <= i < |a| ensures SameHashedFields(a[i], b[i]) {
        assert i == |p| || (a[i] == p[i] && b[i] == q[i]);
      }
    } else if a != [] {
      LastRow(h, a);
    } else if b != [] {
      LastRow(h, b);
    }
  }

  lemma LastRow(h: Digests, rows: seq<Stored>)
    requires Valid(h, rows) && rows != []
    ensures var init, last := rows[..|rows| - 1], rows[|rows| - 1];
            && Valid(h, init)
            && last.payloadSha == h.ofPayload(last.payload) && last.prevSha == Head(ZERO_SHA256, init)
            && last.chainSha == h.ofEnvelope(EnvelopeOf(h, last, Head(ZERO_SHA256, init)))
  {
    var init := rows[..|rows| - 1];
    var last := RowFaults(h, Head(ZERO_SHA256, init), rows[|rows| - 1]);
    assert Faults(h, ZERO_SHA256, init) + last == [];
    Pieces(Faults(h, ZERO_SHA256, init), last, []);
    RowClean(h, Head(ZERO_SHA256, init), rows[|rows| - 1]);
  }

  lemma SameEnvelope(h: Digests, x: Stored, p: string, y: Stored, q: string)
    requires Collisionless(h) && h.ofEnvelope(EnvelopeOf(h, x, p)) == h.ofEnvelope(EnvelopeOf(h, y, q))
    ensures p == q && x.eventId == y.eventId && x.scope == y.scope && x.actor == y.actor && x.eventType == y.eventType
            && x.taskId == y.taskId && x.payload == y.payload && x.createdUtc == y.createdUtc
  {
    assert EnvelopeOf(h, x, p) == EnvelopeOf(h, y, q);
  }
}
