/**
 The tool-call audits of one agent turn (src/peerbridge_mcp/acpx_runner.py:203-214, 457-520, 691-737): one from the
 streamed events, one from the recorded session, both over the same table of tool-name variants.
 */
module ToolAudit {
  import opened Results
  import opened Lists
  import opened Sorting
  import opened Texts

  const PREFIX_PLAIN := "peerbridge__"
  const PREFIX_MCP := "mcp__peerbridge__"
  const PREFIX_DOTTED := "mcp.peerbridge."

  predicate IsVariant(v: string, tool: string) {
    v == tool || v == PREFIX_PLAIN + tool || v == PREFIX_MCP + tool || v == PREFIX_DOTTED + tool
  }

  /** The table with the four variants of one more tool. */
  function WithTool(m: map<string, string>, tool: string): (r: map<string, string>)
    ensures forall v :: v in r <==> v in m || IsVariant(v, tool)
    ensures forall v | v in r :: r[v] == if IsVariant(v, tool) then tool else m[v]
  {
    m[tool := tool][PREFIX_PLAIN + tool := tool][PREFIX_MCP + tool := tool][PREFIX_DOTTED + tool := tool]
  }

  predicate StartsWith(s: string, prefix: string) {
    prefix <= s
  }

  predicate LooksLikeBridgeTool(name: string) {
    StartsWith(name, PREFIX_PLAIN) || StartsWith(name, PREFIX_MCP) || StartsWith(name, PREFIX_DOTTED)
  }

  /** `_mcp_tool_variants`, with the allowed set enumerated in some order: a later tool overrides an earlier one. */
  function VariantMap(order: seq<string>): map<string, string> {
    if order == [] then map[] else WithTool(VariantMap(order[..|order| - 1]), order[|order| - 1])
  }

  /** The table maps every variant of every tool, and maps it to a tool it is a variant of. */
  lemma {:induction false} VariantMapMeaning(order: seq<string>)
    ensures forall v | v in VariantMap(order) :: VariantMap(order)[v] in order && IsVariant(v, VariantMap(order)[v])
    ensures forall v, tool | tool in order && IsVariant(v, tool) :: v in VariantMap(order)
  {
    if order != [] {
      var init, last := order[..|order| - 1], order[|order| - 1];
      VariantMapMeaning(init);
      assert order == init + [last];
      assert forall tool | tool in order :: tool in init || tool == last;
    }
  }

  ghost predicate Enumerates(order: seq<string>, tools: set<string>) {
    Elements(order) == tools
  }

  /** No allowed tool's name is a prefixed form of another allowed tool's name. */
  predicate Unambiguous(tools: set<string>) {
    forall a, b | a in tools && b in tools && a != b :: !IsVariant(a, b)
  }

  /** Two tools share a variant only if one of them is itself a variant of the other. */
  lemma SharedVariant(a: string, b: string, v: string)
    requires IsVariant(v, a) && IsVariant(v, b)
    ensures IsVariant(a, b) || IsVariant(b, a)
  {
    if v == PREFIX_PLAIN + a {
      SharedPrefixed(PREFIX_PLAIN, a, b, v);
    } else if v == PREFIX_MCP + a {
      SharedPrefixed(PREFIX_MCP, a, b, v);
    } else if v == PREFIX_DOTTED + a {
      SharedPrefixed(PREFIX_DOTTED, a, b, v);
    }
  }

  lemma SharedPrefixed(p: string, a: string, b: string, v: string)
    requires p in {PREFIX_PLAIN, PREFIX_MCP, PREFIX_DOTTED} && v == p + a && IsVariant(v, b)
    ensures a == b || b == v
  {
    if v == PREFIX_PLAIN + b {
      SamePrefix(p, PREFIX_PLAIN, a, b);
    } else if v == PREFIX_MCP + b {
      SamePrefix(p, PREFIX_MCP, a, b);
    } else if v == PREFIX_DOTTED + b {
      SamePrefix(p, PREFIX_DOTTED, a, b);
    }
  }

  /** The three prefixes differ within their first four characters, so a prefixed name has only one of them. */
  lemma SamePrefix(p: string, q: string, a: string, b: string)
    requires p in {PREFIX_PLAIN, PREFIX_MCP, PREFIX_DOTTED} && q in {PREFIX_PLAIN, PREFIX_MCP, PREFIX_DOTTED}
    requires p + a == q + b
    ensures a == b
  {
    assert (p + a)[0] == p[0] && (q + b)[0] == q[0] && (p + a)[3] == p[3] && (q + b)[3] == q[3];
    assert p == q;
    assert (p + a)[|p|..] == a && (q + b)[|q|..] == b;
  }

  /** Without ambiguity a name is mapped to the one allowed tool it is a variant of, whatever the order. */
  lemma LookupMeaning(order: seq<string>, tools: set<string>, v: string, tool: string)
    requires Enumerates(order, tools) && Unambiguous(tools)
    ensures MapsTo(VariantMap(order), v, tool) <==> tool in tools && IsVariant(v, tool)
  {
    VariantMapMeaning(order);
    assert forall t :: t in order <==> t in Elements(order);
    if tool in tools && IsVariant(v, tool) {
      SharedVariant(VariantMap(order)[v], tool, v);
    }
  }

  predicate MapsTo(m: map<string, string>, v: string, tool: string) {
    v in m && m[v] == tool
  }

  lemma SameMaps(m: map<string, string>, n: map<string, string>)
    requires forall v, tool :: MapsTo(m, v, tool) <==> MapsTo(n, v, tool)
    ensures m == n
  {
    forall v ensures v in m <==> v in n
      ensures v in m && v in n ==> m[v] == n[v]
    {
      assert v in m ==> MapsTo(m, v, m[v]);
      assert v in n ==> MapsTo(n, v, n[v]);
    }
  }

  /**
   The table does not depend on the order in which the allowed set is enumerated, if and only if no tool is a variant
   of another.
   */
  lemma OrderFreeIffUnambiguous(tools: set<string>)
    ensures (forall o1, o2 :: Enumerates(o1, tools) && Enumerates(o2, tools) ==> VariantMap(o1) == VariantMap(o2))
            <==> Unambiguous(tools)
  {
    if Unambiguous(tools) {
      forall o1, o2 | Enumerates(o1, tools) && Enumerates(o2, tools) ensures VariantMap(o1) == VariantMap(o2) {
        SameTable(o1, o2, tools);
      }
    } else {
      var a, b :| a in tools && b in tools && a != b && IsVariant(a, b);
      var o1, o2 := AmbiguousOrders(tools, a, b);
    }
  }

  lemma SameTable(o1: seq<string>, o2: seq<string>, tools: set<string>)
    requires Unambiguous(tools) && Enumerates(o1, tools) && Enumerates(o2, tools)
    ensures VariantMap(o1) == VariantMap(o2)
  {
    forall v, tool ensures MapsTo(VariantMap(o1), v, tool) <==> MapsTo(VariantMap(o2), v, tool) {
      LookupMeaning(o1, tools, v, tool);
      LookupMeaning(o2, tools, v, tool);
    }
    SameMaps(VariantMap(o1), VariantMap(o2));
  }

  lemma AmbiguousOrders(tools: set<string>, a: string, b: string) returns (o1: seq<string>, o2: seq<string>)
    requires a in tools && b in tools && a != b && IsVariant(a, b)
    ensures Enumerates(o1, tools) && Enumerates(o2, tools) && VariantMap(o1) != VariantMap(o2)
  {
    var rest := Listing(tools - {a, b});
    o1, o2 := rest + [a] + [b], rest + [b] + [a];
    LastWins(rest + [a], b, a);
    LastWins(rest + [b], a, a);
    forall x ensures x in o1 <==> x in tools
      ensures x in o2 <==> x in tools
    {
      assert x in rest <==> x in tools - {a, b};
    }
  }

  lemma LastWins(init: seq<string>, tool: string, v: string)
    requires IsVariant(v, tool)
    ensures MapsTo(VariantMap(init + [tool]), v, tool)
  {
    assert (init + [tool])[..|init|] == init;
  }

  ghost function Listing(s: set<string>): (q: seq<string>)
    ensures forall x :: x in q <==> x in s
  {
    if s == {} then []
    else
      var x :| x in s;
      Listing(s - {x}) + [x]
  }

  // ----- counting -----

  datatype Audit = Audit(calls: nat, auxiliary: nat, mcp: nat, allowed: nat, unrecognized: nat, errors: nat,
                         tools: set<string>, names: seq<string>)

  function IsAllowed(variants: map<string, string>): string -> bool {
    name => name in variants
  }

  function IsUnrecognized(variants: map<string, string>): string -> bool {
    name => name !in variants && LooksLikeBridgeTool(name)
  }

  function IsAuxiliary(variants: map<string, string>): string -> bool {
    name => name !in variants && !LooksLikeBridgeTool(name)
  }

  function ToolsCalled(variants: map<string, string>, names: seq<string>): set<string> {
    set name | name in names && name in variants :: variants[name]
  }

  /** The audit of a list of observed tool names. */
  function AuditOf(variants: map<string, string>, calls: nat, names: seq<string>, errors: nat): Audit {
    var allowed := |Filter(names, IsAllowed(variants))|;
    var unrecognized := |Filter(names, IsUnrecognized(variants))|;
    Audit(calls, |Filter(names, IsAuxiliary(variants))|, allowed + unrecognized, allowed, unrecognized, errors,
          ToolsCalled(variants, names), names)
  }

  /**
   Every observed name is counted in exactly one of the three classes, and every tool reported called is an allowed
   one.
   */
  lemma {:induction false} ClassesPartition(order: seq<string>, names: seq<string>, errors: nat)
    ensures var a := AuditOf(VariantMap(order), |names|, names, errors);
            && a.calls == a.auxiliary + a.allowed + a.unrecognized && a.mcp == a.calls - a.auxiliary
            && a.tools <= Elements(order)
            && (a.tools == {} <==> a.allowed == 0)
    decreases |names|
  {
    var variants := VariantMap(order);
    if names != [] {
      var init, last := names[..|names| - 1], names[|names| - 1];
      ClassesPartition(order, init, errors);
      assert names == init + [last];
      OneMoreName(variants, init, last);
      VariantMapMeaning(order);
    }
  }

  /** One more observed name. */
  lemma OneMoreName(variants: map<string, string>, names: seq<string>, name: string)
    ensures |Filter(names + [name], IsAllowed(variants))| == |Filter(names, IsAllowed(variants))|
            + (if name in variants then 1 else 0)
    ensures |Filter(names + [name], IsUnrecognized(variants))|
            == |Filter(names, IsUnrecognized(variants))|
              + (if name !in variants && LooksLikeBridgeTool(name) then 1 else 0)
    ensures |Filter(names + [name], IsAuxiliary(variants))|
            == |Filter(names, IsAuxiliary(variants))|
              + (if name !in variants && !LooksLikeBridgeTool(name) then 1 else 0)
    ensures ToolsCalled(variants, names + [name]) == ToolsCalled(variants, names)
            + (if name in variants then {variants[name]} else {})
  {
    assert (names + [name])[..|names|] == names;
  }

  /**
   The class of a name: allowed if it is an allowed tool with one of the three prefixes or none, else unrecognized if it
   has one of the prefixes, else auxiliary.
   */
  lemma ClassOfName(order: seq<string>, name: string)
    ensures IsAllowed(VariantMap(order))(name) <==>
      exists tool | tool in order ::
        name == tool || name == "peerbridge__" + tool || name == "mcp__peerbridge__" + tool
        || name == "mcp.peerbridge." + tool
    ensures IsUnrecognized(VariantMap(order))(name) <==>
      !IsAllowed(VariantMap(order))(name)
      && ("peerbridge__" <= name || "mcp__peerbridge__" <= name || "mcp.peerbridge." <= name)
    ensures IsAuxiliary(VariantMap(order))(name) <==>
      !IsAllowed(VariantMap(order))(name) && !IsUnrecognized(VariantMap(order))(name)
  {
    VariantMapMeaning(order);
  }

  /** The running counters of either audit loop, after some observed names. */
  datatype Counters = Counters(canonical: seq<string>, unrecognized: nat, auxiliary: nat)

  predicate Counts(variants: map<string, string>, names: seq<string>, c: Counters) {
    && |c.canonical| == |Filter(names, IsAllowed(variants))|
    && Elements(c.canonical) == ToolsCalled(variants, names)
    && c.unrecognized == |Filter(names, IsUnrecognized(variants))|
    && c.auxiliary == |Filter(names, IsAuxiliary(variants))|
  }

  /** The classification both loops end a turn with. */
  method Classify(variants: map<string, string>, ghost names: seq<string>, c: Counters, name: string)
    returns (d: Counters)
    requires Counts(variants, names, c)
    ensures Counts(variants, names + [name], d)
  {
    OneMoreName(variants, names, name);
    if name in variants {
      d := c.(canonical := c.canonical + [variants[name]]);
      assert Elements(d.canonical) == Elements(c.canonical) + {variants[name]};
    } else if LooksLikeBridgeTool(name) {
      d := c.(unrecognized := c.unrecognized + 1);
    } else {
      d := c.(auxiliary := c.auxiliary + 1);
    }
  }

  function Summary(c: Counters, calls: nat, names: seq<string>, errors: nat): Audit {
    Audit(calls, c.auxiliary, |c.canonical| + c.unrecognized, |c.canonical|, c.unrecognized, errors,
          Elements(c.canonical), names)
  }

  // ----- the streamed events -----

  /** A streamed update: a tool call with its id (empty if it has none) and its resolved name, or something else. */
  datatype StreamEvent = ToolCall(id: string, name: string) | OtherUpdate

  function CallId(events: seq<StreamEvent>, i: nat): string
    requires i < |events| && events[i].ToolCall?
  {
    if events[i].id == "" then "event-" + Decimal(i) else events[i].id
  }

  /** A call without an id gets one made from its position among the events. */
  lemma CallIdMeaning(events: seq<StreamEvent>, i: nat)
    requires i < |events| && events[i].ToolCall?
    ensures |events[i].id| > 0 ==> CallId(events, i) == events[i].id
    ensures |events[i].id| == 0 ==> CallId(events, i) == "event-" + Decimal(i)
  {
  }

  /** Ids of the tool calls among the first n events. */
  function SeenIds(events: seq<StreamEvent>, n: nat): set<string>
    requires n <= |events|
  {
    set i | 0 <= i < n && events[i].ToolCall? :: CallId(events, i)
  }

  /** Names of the tool calls among the first n events, repeated ids left out. */
  function StreamNames(events: seq<StreamEvent>, n: nat): seq<string>
    requires n <= |events|
  {
    if n == 0 then []
    else
      var names := StreamNames(events, n - 1);
      if events[n - 1].ToolCall? && CallId(events, n - 1) !in SeenIds(events, n - 1) then names + [events[n - 1].name]
      else names
  }

  lemma SeenCount(events: seq<StreamEvent>, n: nat)
    requires n < |events|
    ensures |SeenIds(events, n + 1)|
            == |SeenIds(events, n)|
               + if events[n].ToolCall? && CallId(events, n) !in SeenIds(events, n) then 1 else 0
  {
    SeenOneMore(events, n);
    hide SeenIds, CallId;
    var before := SeenIds(events, n);
    if events[n].ToolCall? {
      AddedOne(before, CallId(events, n));
    } else {
      assert before + {} == before;
    }
  }

  /** One name is observed for each different call id. */
  lemma {:induction false} OneNamePerCall(events: seq<StreamEvent>, n: nat)
    requires n <= |events|
    ensures |StreamNames(events, n)| == |SeenIds(events, n)|
  {
    if n == 0 {
      assert SeenIds(events, 0) == {};
    } else {
      OneNamePerCall(events, n - 1);
      SeenCount(events, n - 1);
      hide SeenIds, CallId;
    }
  }

  lemma AddedOne<T>(s: set<T>, x: T)
    ensures |s + {x}| == |s| + if x in s then 0 else 1
  {
    if x in s {
      assert s + {x} == s;
    }
  }

  /** The i-th event is the first tool call with its id. */
  predicate FirstCall(events: seq<StreamEvent>, i: nat)
    requires i < |events|
  {
    events[i].ToolCall? && forall j: nat | j < i && events[j].ToolCall? :: CallId(events, j) != CallId(events, i)
  }

  /** The streamed names are those of the first call of each id; a call without an id is told apart by its position. */
  lemma {:induction false} StreamNamesMeaning(events: seq<StreamEvent>, n: nat, name: string)
    requires n <= |events|
    ensures name in StreamNames(events, n) <==> exists i: nat :: i < n && FirstCall(events, i) && events[i].name == name
  {
    if n > 0 {
      StreamNamesMeaning(events, n - 1, name);
      FirstIsUnseen(events, n - 1);
      hide FirstCall, SeenIds, CallId;
    }
  }

  lemma FirstIsUnseen(events: seq<StreamEvent>, i: nat)
    requires i < |events|
    ensures FirstCall(events, i) <==> events[i].ToolCall? && CallId(events, i) !in SeenIds(events, i)
  {
  }

  function StreamAuditOf(events: seq<StreamEvent>, order: seq<string>): Audit {
    AuditOf(VariantMap(order), |SeenIds(events, |events|)|, StreamNames(events, |events|), 0)
  }

  /** `_mcp_tool_call_audit`. */
  method StreamAudit(events: seq<StreamEvent>, order: seq<string>) returns (audit: Audit)
    ensures audit == StreamAuditOf(events, order)
    ensures audit.calls == audit.auxiliary + audit.allowed + audit.unrecognized
    ensures audit.tools <= Elements(order)
  {
    var variants := VariantMap(order);
    var seen: set<string> := {};
    var names: seq<string> := [];
    var counters := Counters([], 0, 0);
    for i := 0 to |events|
      invariant seen == SeenIds(events, i) && names == StreamNames(events, i)
      invariant Counts(variants, names, counters)
    {
      SeenOneMore(events, i);
      if events[i].ToolCall? && CallId(events, i) !in seen {
        seen := seen + {CallId(events, i)};
        counters := Classify(variants, names, counters, events[i].name);
        names := names + [events[i].name];
      }
    }
    OneNamePerCall(events, |events|);
    ClassesPartition(order, names, 0);
    audit := Summary(counters, |seen|, names, 0);
  }

  lemma SeenOneMore(events: seq<StreamEvent>, n: nat)
    requires n < |events|
    ensures SeenIds(events, n + 1) == SeenIds(events, n) + if events[n].ToolCall? then {CallId(events, n)} else {}
  {
  }

  // ----- the recorded session -----

  datatype ToolResult = ToolResult(name: string, isError: bool)
  datatype ToolUse = ToolUse(id: string, name: string)
  /** One recorded agent message: the tool uses in its content and the results it carries. */
  datatype AgentMessage = AgentMessage(uses: seq<ToolUse>, results: map<string, ToolResult>)
  datatype Use = Use(use: ToolUse, results: map<string, ToolResult>)

  /** The tool uses of all messages in order, each beside the results of its message. */
  function Uses(messages: seq<AgentMessage>): seq<Use> {
    if messages == [] then []
    else
      var m := messages[0];
      seq(|m.uses|, i requires 0 <= i < |m.uses| => Use(m.uses[i], m.results)) + Uses(messages[1..])
  }

  predicate Counted(u: Use, seen: set<string>) {
    u.use.id != "" && u.use.id !in seen
  }

  function ResultName(u: Use): string
    requires u.use.id in u.results
  {
    var r := u.results[u.use.id];
    if r.name == "" then u.use.name else r.name
  }

  /** Ids met, names of the uses that have a result, errors among them, and uses without a result. */
  datatype Tally = Tally(seen: set<string>, names: seq<string>, errors: nat, missing: nat)

  function TallyOf(uses: seq<Use>): (t: Tally)
    ensures |t.seen| == |t.names| + t.missing && t.errors <= |t.names|
  {
    if uses == [] then Tally({}, [], 0, 0)
    else
      var t, u := TallyOf(uses[..|uses| - 1]), uses[|uses| - 1];
      if !Counted(u, t.seen) then t
      else if u.use.id !in u.results then Tally(t.seen + {u.use.id}, t.names, t.errors, t.missing + 1)
      else Tally(t.seen + {u.use.id}, t.names + [ResultName(u)],
                 t.errors + if u.results[u.use.id].isError then 1 else 0, t.missing)
  }

  function RecordAuditOf(messages: seq<AgentMessage>, order: seq<string>): Audit {
    var t := TallyOf(Uses(messages));
    AuditOf(VariantMap(order), |t.seen|, t.names, t.errors)
  }

  predicate AllResultsPresent(messages: seq<AgentMessage>) {
    TallyOf(Uses(messages)).missing == 0
  }

  /** The i-th use is the first with its id, which is not empty. */
  predicate FirstUse(uses: seq<Use>, i: nat)
    requires i < |uses|
  {
    uses[i].use.id != "" && forall j: nat | j < i :: uses[j].use.id != uses[i].use.id
  }

  predicate HasResult(u: Use) {
    u.use.id in u.results
  }

  predicate ResultsThere(uses: seq<Use>) {
    forall i: nat | i < |uses| && FirstUse(uses, i) :: HasResult(uses[i])
  }

  predicate HasError(u: Use) {
    HasResult(u) && u.results[u.use.id].isError
  }

  predicate NoErrors(uses: seq<Use>) {
    forall i: nat | i < |uses| && FirstUse(uses, i) :: !HasError(uses[i])
  }

  lemma {:induction false} SeenMeaning(uses: seq<Use>, id: string)
    ensures id in TallyOf(uses).seen <==> id != "" && exists i: nat :: i < |uses| && uses[i].use.id == id
  {
    if uses != [] {
      SeenMeaning(uses[..|uses| - 1], id);
      assert uses == uses[..|uses| - 1] + [uses[|uses| - 1]];
    }
  }

  lemma FirstIsCounted(uses: seq<Use>, u: Use)
    ensures FirstUse(uses + [u], |uses|) <==> Counted(u, TallyOf(uses).seen)
    ensures forall i: nat | i < |uses| :: FirstUse(uses + [u], i) <==> FirstUse(uses, i)
  {
    SeenMeaning(uses, u.use.id);
    hide TallyOf;
    assert forall i: nat | i < |uses| :: (uses + [u])[i].use.id == uses[i].use.id;
    if i: nat :| i < |uses| && uses[i].use.id == u.use.id {
      assert (uses + [u])[i].use.id == u.use.id;
    }
  }

  lemma ThereOneMore(uses: seq<Use>, u: Use)
    ensures ResultsThere(uses + [u]) <==>
      ResultsThere(uses) && (Counted(u, TallyOf(uses).seen) ==> HasResult(u))
    ensures NoErrors(uses + [u]) <==> NoErrors(uses) && (Counted(u, TallyOf(uses).seen) ==> !HasError(u))
  {
    FirstIsCounted(uses, u);
    hide FirstUse, TallyOf, Counted, HasResult, HasError;
    assert forall i: nat | i < |uses| :: (uses + [u])[i] == uses[i];
    assert (uses + [u])[|uses|] == u;
  }

  /** Every result is present exactly if the first use of each id has one in its own message. */
  lemma {:induction false} TallyMeaning(uses: seq<Use>)
    ensures TallyOf(uses).missing == 0 <==> ResultsThere(uses)
    ensures TallyOf(uses).errors == 0 <==> NoErrors(uses)
  {
    if uses != [] {
      var init, last := uses[..|uses| - 1], uses[|uses| - 1];
      TallyMeaning(init);
      ThereOneMore(init, last);
      assert uses == init + [last];
      hide ResultsThere, NoErrors;
    }
  }

  /** The name a use is audited under: the one its result gives, or its own if the result gives none. */
  predicate AuditedAs(u: Use, name: string) {
    HasResult(u) && name == if |u.results[u.use.id].name| > 0 then u.results[u.use.id].name else u.use.name
  }

  ghost predicate SomeAuditedAs(uses: seq<Use>, name: string) {
    exists i: nat :: i < |uses| && FirstUse(uses, i) && AuditedAs(uses[i], name)
  }

  lemma AuditedOneMore(uses: seq<Use>, u: Use, name: string)
    ensures SomeAuditedAs(uses + [u], name) <==>
      SomeAuditedAs(uses, name) || (Counted(u, TallyOf(uses).seen) && AuditedAs(u, name))
  {
    FirstIsCounted(uses, u);
    hide FirstUse, TallyOf, Counted, AuditedAs;
    assert forall i: nat | i < |uses| :: (uses + [u])[i] == uses[i];
    assert (uses + [u])[|uses|] == u;
    if SomeAuditedAs(uses, name) {
      var i: nat :| i < |uses| && FirstUse(uses, i) && AuditedAs(uses[i], name);
      assert FirstUse(uses + [u], i) && AuditedAs((uses + [u])[i], name);
    }
  }

  /** The audited names are those of the first use of each id that has a result. */
  lemma {:induction false} NamesMeaning(uses: seq<Use>, name: string)
    ensures name in TallyOf(uses).names <==> SomeAuditedAs(uses, name)
  {
    if uses != [] {
      var init, last := uses[..|uses| - 1], uses[|uses| - 1];
      NamesMeaning(init, name);
      AuditedOneMore(init, last, name);
      assert uses == init + [last];
      hide SomeAuditedAs;
    }
  }

  /** The loop of `_record_tool_result_audit`, over the uses of all messages. */
  method TallyUses(uses: seq<Use>, variants: map<string, string>) returns (t: Tally, counters: Counters)
    ensures t == TallyOf(uses) && Counts(variants, t.names, counters)
  {
    t, counters := Tally({}, [], 0, 0), Counters([], 0, 0);
    for i := 0 to |uses|
      invariant t == TallyOf(uses[..i]) && Counts(variants, t.names, counters)
    {
      var u := uses[i];
      assert uses[..i + 1][..i] == uses[..i];
      if Counted(u, t.seen) {
        if u.use.id !in u.results {
          t := t.(seen := t.seen + {u.use.id}, missing := t.missing + 1);
        } else {
          var name := ResultName(u);
          counters := Classify(variants, t.names, counters, name);
          t := Tally(t.seen + {u.use.id}, t.names + [name], t.errors + if u.results[u.use.id].isError then 1 else 0,
                     t.missing);
        }
      }
    }
    assert uses[..|uses|] == uses;
  }

  /**
   `_record_tool_result_audit`. The calls are the classified ones plus those whose result is missing, so the three
   classes add up to the calls exactly when every result is present.
   */
  method RecordAudit(messages: seq<AgentMessage>, order: seq<string>) returns (audit: Audit, complete: bool)
    ensures audit == RecordAuditOf(messages, order)
    ensures complete == AllResultsPresent(messages)
    ensures complete <==> ResultsThere(Uses(messages))
    ensures complete <==> audit.calls == audit.auxiliary + audit.allowed + audit.unrecognized
    ensures audit.errors <= audit.calls
  {
    var t, counters := TallyUses(Uses(messages), VariantMap(order));
    TallyMeaning(Uses(messages));
    ClassesPartition(order, t.names, t.errors);
    audit, complete := Summary(counters, |t.seen|, t.names, t.errors), t.missing == 0;
  }
}
