/**
 Reading a conversation export and paging through what was imported
 (src/peerbridge_mcp/conversation_import.py:447-539, 769-909).
 */
module ImportedHistory {
  import opened Results
  import opened Lists
  import opened Sorting

  const MAX_CONVERSATIONS := 128
  const MAX_MESSAGES_PER_CONVERSATION := 2000
  const MAX_TOTAL_MESSAGES := 5000
  const MAX_PAGE := 512
  const MAX_IDENTIFIER := 500

  /** Everything of a message except its sequence and its own digest. */
  datatype Content = Content(sourceId: string, role: string, createdUtc: Option<string>, text: string, redacted: bool)
  datatype Row = Row(content: Content, sequence: int, sha: string)

  /** A conversation as the provider-specific readers deliver it: identifier and title stripped, empty if absent. */
  datatype RawConversation = RawConversation(id: string, title: string, messages: seq<Content>)
  datatype Conversation = Conversation(id: string, title: string, startedUtc: Option<string>, endedUtc: Option<string>,
                                       messages: seq<Row>)

  /** Digests, redaction, and the title case of a provider name. */
  datatype Env = Env(fingerprint: Content -> string, rowSha: (Content, int) -> string, rowsSha: seq<Row> -> string,
                     redact: string -> string, titleCase: string -> string)

  datatype ParseError = DuplicateIdentity | NoVisibleMessages

  // ----- deduplication -----

  function Numbered(env: Env, contents: seq<Content>): (rows: seq<Row>)
    ensures |rows| == |contents|
  {
    if contents == [] then []
    else
      var n := |contents|;
      Numbered(env, contents[..n - 1]) + [Row(contents[n - 1], n, env.rowSha(contents[n - 1], n))]
  }

  lemma {:induction false} NumberedMeaning(env: Env, contents: seq<Content>)
    ensures forall i | 0 <= i < |contents| ::
              Numbered(env, contents)[i] == Row(contents[i], i + 1, env.rowSha(contents[i], i + 1))
  {
    if contents != [] {
      NumberedMeaning(env, contents[..|contents| - 1]);
    }
  }

  function UpTo<T>(q: seq<T>, n: int): seq<T> {
    if n <= 0 then [] else if n < |q| then q[..n] else q
  }

  function Deduplicated(env: Env, contents: seq<Content>): seq<Row> {
    Numbered(env, UpTo(Firsts(contents, env.fingerprint), MAX_MESSAGES_PER_CONVERSATION))
  }

  /** The loop's variables after i messages. */
  ghost predicate Deduplicating(env: Env, contents: seq<Content>, i: nat, kept: seq<Content>, seen: set<string>)
    requires i <= |contents|
  {
    kept == Firsts(contents[..i], env.fingerprint) && seen == Keys(kept, env.fingerprint)
  }

  lemma DeduplicateTurn(env: Env, contents: seq<Content>, i: nat, kept: seq<Content>, seen: set<string>)
    requires i < |contents| && Deduplicating(env, contents, i, kept, seen)
    ensures var c := contents[i];
            if env.fingerprint(c) in seen then Deduplicating(env, contents, i + 1, kept, seen)
            else Deduplicating(env, contents, i + 1, kept + [c], seen + {env.fingerprint(c)})
  {
    assert contents[..i + 1][..i] == contents[..i];
    KeysAppend(kept, contents[i], env.fingerprint);
  }

  lemma DeduplicateEnd(env: Env, contents: seq<Content>, i: nat, kept: seq<Content>)
    requires i <= |contents| && kept == Firsts(contents[..i], env.fingerprint)
             && |kept| <= MAX_MESSAGES_PER_CONVERSATION
    requires i < |contents| ==> |kept| == MAX_MESSAGES_PER_CONVERSATION
    ensures UpTo(Firsts(contents, env.fingerprint), MAX_MESSAGES_PER_CONVERSATION) == kept
  {
    FirstsOfPrefix(contents, env.fingerprint, i);
    assert i == |contents| ==> contents[..i] == contents;
  }

  lemma NumberedAppend(env: Env, kept: seq<Content>, c: Content)
    ensures Numbered(env, kept + [c]) == Numbered(env, kept) + [Row(c, |kept| + 1, env.rowSha(c, |kept| + 1))]
  {
    assert (kept + [c])[..|kept|] == kept;
  }

  /** `_deduplicate_messages`: the first 2000 different messages, numbered from 1. */
  method DeduplicateMessages(env: Env, contents: seq<Content>) returns (rows: seq<Row>)
    ensures rows == Deduplicated(env, contents)
  {
    rows := [];
    var seen: set<string> := {};
    ghost var kept: seq<Content> := [];
    var i := 0;
    while i < |contents| && |rows| < MAX_MESSAGES_PER_CONVERSATION
      invariant 0 <= i <= |contents| && Deduplicating(env, contents, i, kept, seen)
      invariant rows == Numbered(env, kept) && |kept| <= MAX_MESSAGES_PER_CONVERSATION
      decreases |contents| - i
    {
      var c := contents[i];
      DeduplicateTurn(env, contents, i, kept, seen);
      if env.fingerprint(c) !in seen {
        seen := seen + {env.fingerprint(c)};
        NumberedAppend(env, kept, c);
        kept := kept + [c];
        rows := rows + [Row(c, |rows| + 1, env.rowSha(c, |rows| + 1))];
      }
      i := i + 1;
    }
    DeduplicateEnd(env, contents, i, kept);
  }

  // ----- parsing -----

  function FirstUserText(rows: seq<Row>): string {
    if rows == [] then ""
    else if rows[0].content.role == "user" then rows[0].content.text
    else FirstUserText(rows[1..])
  }

  function TitleOf(env: Env, provider: string, raw: RawConversation, rows: seq<Row>): string {
    var first := UpTo(FirstUserText(rows), 120);
    var title := if raw.title != "" then raw.title else if first != "" then first
      else env.titleCase(provider) + " conversation";
    UpTo(env.redact(title), 160)
  }

  function Timestamps(rows: seq<Row>): seq<string> {
    if rows == [] then []
    else
      (if OrEmpty(rows[0].content.createdUtc) == "" then [] else [rows[0].content.createdUtc.value])
      + Timestamps(rows[1..])
  }

  function OrEmpty(text: Option<string>): string {
    text.GetOr("")
  }

  function Least(q: seq<string>): Option<string> {
    if q == [] then None
    else
      var rest := Least(q[1..]);
      if rest.None? || !TextLess(rest.value, q[0]) then Some(q[0]) else rest
  }

  function Greatest(q: seq<string>): Option<string> {
    if q == [] then None
    else
      var rest := Greatest(q[1..]);
      if rest.None? || !TextLess(q[0], rest.value) then Some(q[0]) else rest
  }

  /** The start and end of a conversation are its earliest and latest timestamps. */
  lemma {:induction false} SpanMeaning(q: seq<string>)
    ensures Least(q).Some? <==> q != []
    ensures Greatest(q).Some? <==> q != []
    ensures q != [] ==> Least(q).value in q && Greatest(q).value in q
    ensures q != [] ==> forall t | t in q :: !TextLess(t, Least(q).value) && !TextLess(Greatest(q).value, t)
  {
    if q != [] {
      SpanMeaning(q[1..]);
      assert forall t | t in q :: t == q[0] || t in q[1..];
      TextLessIrreflexive(q[0]);
      if q[1..] != [] {
        var low, high := Least(q[1..]).value, Greatest(q[1..]).value;
        TextLessTotal(low, q[0]);
        TextLessTotal(q[0], high);
        forall t | t in q[1..] ensures !TextLess(t, Least(q).value) && !TextLess(Greatest(q).value, t) {
          SpanStep(t, q[0], low);
          SpanStep(q[0], t, high);
        }
      }
    }
  }

  /** If b is not before `low` and t is not before `low`, and `low` is not before b, then t is not before b. */
  lemma SpanStep(t: string, b: string, low: string)
    ensures !TextLess(t, low) && !TextLess(low, b) ==> !TextLess(t, b)
  {
    TextLessTotal(t, low);
    TextLessTotal(low, b);
    TextLessTotal(t, b);
    if TextLess(t, b) && TextLess(low, t) {
      TextLessTransitive(low, t, b);
    }
  }

  function Identifier(env: Env, provider: string, raw: RawConversation, rows: seq<Row>): string {
    UpTo(if raw.id != "" then raw.id else provider + "-" + UpTo(env.rowsSha(rows), 24), MAX_IDENTIFIER)
  }

  function ConversationOf(env: Env, provider: string, raw: RawConversation, rows: seq<Row>): Conversation {
    var times := Timestamps(rows);
    Conversation(Identifier(env, provider, raw, rows), TitleOf(env, provider, raw, rows), Least(times), Greatest(times),
                 rows)
  }

  function IdentityOf(env: Env, provider: string): RawConversation -> string {
    (raw: RawConversation) => Identifier(env, provider, raw, Deduplicated(env, raw.messages))
  }

  predicate IdentitiesDistinct(env: Env, provider: string, raws: seq<RawConversation>) {
    forall i, j | 0 <= i < j < |raws| :: IdentityOf(env, provider)(raws[i]) != IdentityOf(env, provider)(raws[j])
  }

  /** The conversations read from the first n raw ones, and the number of their messages. */
  datatype Parsed = Parsed(conversations: seq<Conversation>, total: nat)

  /** One turn of the reading loop; an empty conversation or a spent budget adds nothing. */
  function ParsedWith(env: Env, provider: string, p: Parsed, raw: RawConversation): Parsed {
    var rows := UpTo(Deduplicated(env, raw.messages), MAX_TOTAL_MESSAGES - p.total);
    if rows == [] then p else Parsed(p.conversations + [ConversationOf(env, provider, raw, rows)], p.total + |rows|)
  }

  function ParsedUpTo(env: Env, provider: string, raws: seq<RawConversation>, n: nat): Parsed
    requires n <= |raws|
  {
    if n == 0 then Parsed([], 0) else ParsedWith(env, provider, ParsedUpTo(env, provider, raws, n - 1), raws[n - 1])
  }

  /** The first loop of `parse_conversation_export`: every conversation's identity, whether or not it will be kept. */
  method CheckIdentities(env: Env, provider: string, raws: seq<RawConversation>) returns (distinct: bool)
    ensures distinct <==> IdentitiesDistinct(env, provider, raws)
  {
    var seen: set<string> := {};
    var identity := IdentityOf(env, provider);
    var k := 0;
    while k < |raws|
      invariant 0 <= k <= |raws|
      invariant forall i, j | 0 <= i < j < k :: identity(raws[i]) != identity(raws[j])
      invariant forall id :: id in seen <==> exists i :: 0 <= i < k && identity(raws[i]) == id
    {
      var rows := DeduplicateMessages(env, raws[k].messages);
      var id := Identifier(env, provider, raws[k], rows);
      assert id == identity(raws[k]);
      if id in seen {
        return false;
      }
      seen := seen + {id};
      k := k + 1;
    }
    distinct := true;
  }

  /** One turn of the second loop. */
  method ReadConversation(env: Env, provider: string, p: Parsed, raw: RawConversation) returns (next: Parsed)
    ensures next == ParsedWith(env, provider, p, raw)
  {
    var rows := DeduplicateMessages(env, raw.messages);
    rows := UpTo(rows, MAX_TOTAL_MESSAGES - p.total);
    if rows == [] {
      return p;
    }
    next := Parsed(p.conversations + [ConversationOf(env, provider, raw, rows)], p.total + |rows|);
  }

  /** The second loop: the conversations kept, until the budget of messages is spent. */
  method ReadConversations(env: Env, provider: string, raws: seq<RawConversation>) returns (p: Parsed)
    ensures p == ParsedUpTo(env, provider, raws, |raws|)
  {
    hide ParsedWith;
    p := Parsed([], 0);
    var i := 0;
    while i < |raws| && p.total < MAX_TOTAL_MESSAGES
      invariant 0 <= i <= |raws| && p == ParsedUpTo(env, provider, raws, i)
    {
      p := ReadConversation(env, provider, p, raws[i]);
      i := i + 1;
    }
    BudgetSpent(env, provider, raws, i, |raws|);
  }

  /** `parse_conversation_export`, from the raw conversations on. */
  method ParseConversations(env: Env, provider: string, raws: seq<RawConversation>)
    returns (r: Result<seq<Conversation>, ParseError>)
    ensures r == Err(DuplicateIdentity) <==> !IdentitiesDistinct(env, provider, raws)
    ensures r != Err(DuplicateIdentity) ==>
              var first := UpTo(raws, MAX_CONVERSATIONS);
              var all := ParsedUpTo(env, provider, first, |first|).conversations;
              r == if all == [] then Err(NoVisibleMessages) else Ok(all)
  {
    var distinct := CheckIdentities(env, provider, raws);
    if !distinct {
      return Err(DuplicateIdentity);
    }
    var p := ReadConversations(env, provider, UpTo(raws, MAX_CONVERSATIONS));
    r := if p.conversations == [] then Err(NoVisibleMessages) else Ok(p.conversations);
  }

  /** Once the budget is spent the remaining conversations add nothing. */
  lemma {:induction false} BudgetSpent(env: Env, provider: string, raws: seq<RawConversation>, i: nat, n: nat)
    requires i <= n <= |raws| && (i < n ==> ParsedUpTo(env, provider, raws, i).total >= MAX_TOTAL_MESSAGES)
    ensures ParsedUpTo(env, provider, raws, n) == ParsedUpTo(env, provider, raws, i)
    decreases n - i
  {
    hide ParsedWith;
    if i < n {
      BudgetSpent(env, provider, raws, i, n - 1);
      NothingLeft(env, provider, ParsedUpTo(env, provider, raws, n - 1), raws[n - 1]);
    }
  }

  lemma NothingLeft(env: Env, provider: string, p: Parsed, raw: RawConversation)
    requires p.total >= MAX_TOTAL_MESSAGES
    ensures ParsedWith(env, provider, p, raw) == p
  {
  }

  // ----- what parsing guarantees -----

  predicate NumberedFromOne(rows: seq<Row>) {
    forall i | 0 <= i < |rows| :: rows[i].sequence == i + 1
  }

  function MessageTotal(conversations: seq<Conversation>): nat {
    if conversations == [] then 0
    else MessageTotal(conversations[..|conversations| - 1]) + |conversations[|conversations| - 1].messages|
  }

  /** One conversation read from `raw`: its first different messages, numbered from 1, at least one. */
  predicate ReadFrom(env: Env, provider: string, c: Conversation, raw: RawConversation) {
    && c.messages != [] && |c.messages| <= MAX_MESSAGES_PER_CONVERSATION && NumberedFromOne(c.messages)
    && c.messages <= Deduplicated(env, raw.messages)
    && c.id == Identifier(env, provider, raw, c.messages)
  }

  /** `from` says which raw conversation each result was read from, in order. */
  ghost predicate ReadInOrder(env: Env, provider: string, conversations: seq<Conversation>, raws: seq<RawConversation>,
                              from: seq<nat>)
  {
    && |from| == |conversations|
    && (forall i, j | 0 <= i < j < |from| :: from[i] < from[j])
    && (forall i | 0 <= i < |from| :: from[i] < |raws| && ReadFrom(env, provider, conversations[i], raws[from[i]]))
  }

  /** What has been read from the first n raw conversations. */
  ghost predicate ReadUpTo(env: Env, provider: string, p: Parsed, raws: seq<RawConversation>, n: nat, from: seq<nat>) {
    && p.total == MessageTotal(p.conversations) <= MAX_TOTAL_MESSAGES && |p.conversations| <= n
    && ReadInOrder(env, provider, p.conversations, raws, from)
    && forall i | 0 <= i < |from| :: from[i] < n
  }

  lemma {:induction false} ParsedMeaning(env: Env, provider: string, raws: seq<RawConversation>, n: nat)
    returns (from: seq<nat>)
    requires n <= |raws|
    ensures ReadUpTo(env, provider, ParsedUpTo(env, provider, raws, n), raws, n, from)
  {
    hide ParsedWith;
    if n == 0 {
      from := [];
    } else {
      hide ReadUpTo;
      from := ParsedMeaning(env, provider, raws, n - 1);
      from := ParsedTurn(env, provider, ParsedUpTo(env, provider, raws, n - 1), raws, from, n - 1);
    }
  }

  lemma ParsedTurn(env: Env, provider: string, p: Parsed, raws: seq<RawConversation>, from: seq<nat>, k: nat)
    returns (froms: seq<nat>)
    requires k < |raws| && ReadUpTo(env, provider, p, raws, k, from)
    ensures ReadUpTo(env, provider, ParsedWith(env, provider, p, raws[k]), raws, k + 1, froms)
  {
    hide ConversationOf, Deduplicated, UpTo, ReadFrom;
    var rows := UpTo(Deduplicated(env, raws[k].messages), MAX_TOTAL_MESSAGES - p.total);
    froms := from;
    if rows != [] {
      KeptIsRead(env, provider, raws[k], MAX_TOTAL_MESSAGES - p.total);
      ReadOneMore(env, provider, p.conversations, raws, from, ConversationOf(env, provider, raws[k], rows), k);
      froms := from + [k];
    }
  }

  lemma DeduplicatedMeaning(env: Env, contents: seq<Content>, budget: int)
    ensures var rows := UpTo(Deduplicated(env, contents), budget);
            && rows <= Deduplicated(env, contents) && |rows| <= MAX_MESSAGES_PER_CONVERSATION && NumberedFromOne(rows)
            && (budget >= 0 ==> |rows| <= budget)
  {
    NumberedMeaning(env, UpTo(Firsts(contents, env.fingerprint), MAX_MESSAGES_PER_CONVERSATION));
  }

  lemma KeptIsRead(env: Env, provider: string, raw: RawConversation, budget: nat)
    requires UpTo(Deduplicated(env, raw.messages), budget) != []
    ensures var rows := UpTo(Deduplicated(env, raw.messages), budget);
            && ReadFrom(env, provider, ConversationOf(env, provider, raw, rows), raw) && |rows| <= budget
            && ConversationOf(env, provider, raw, rows).messages == rows
  {
    hide TitleOf, Timestamps;
    DeduplicatedMeaning(env, raw.messages, budget);
  }

  lemma ReadOneMore(env: Env, provider: string, conversations: seq<Conversation>, raws: seq<RawConversation>,
                    from: seq<nat>, c: Conversation, k: nat)
    requires ReadInOrder(env, provider, conversations, raws, from) && k < |raws| && ReadFrom(env, provider, c, raws[k])
    requires forall i | 0 <= i < |from| :: from[i] < k
    ensures ReadInOrder(env, provider, conversations + [c], raws, from + [k])
    ensures MessageTotal(conversations + [c]) == MessageTotal(conversations) + |c.messages|
  {
    assert (conversations + [c])[..|conversations|] == conversations;
    var all, froms := conversations + [c], from + [k];
    forall i | 0 <= i < |froms| ensures ReadFrom(env, provider, all[i], raws[froms[i]]) {
      assert i == |from| || (all[i] == conversations[i] && froms[i] == from[i]);
    }
  }

  /** Every reader gives each conversation an identifier (lines 213-229, 266-267, 298, 326, 372). */
  predicate Identified(raws: seq<RawConversation>) {
    forall i | 0 <= i < |raws| :: raws[i].id != ""
  }

  /**
   A parsed export has at most 128 conversations with different ids, at most 5000 messages in all, and in each the
   sequences 1..k of its first k different messages.
   */
  lemma ParsingGuarantees(env: Env, provider: string, raws: seq<RawConversation>)
    requires Identified(raws) && IdentitiesDistinct(env, provider, raws)
    ensures var first := UpTo(raws, MAX_CONVERSATIONS);
            var all := ParsedUpTo(env, provider, first, |first|).conversations;
            && |all| <= 128 && MessageTotal(all) <= 5000
            && (forall i | 0 <= i < |all| ::
                  0 < |all[i].messages| <= 2000 && NumberedFromOne(all[i].messages))
            && (forall i, j | 0 <= i < j < |all| :: all[i].id != all[j].id)
  {
    var first := UpTo(raws, MAX_CONVERSATIONS);
    var all := ParsedUpTo(env, provider, first, |first|).conversations;
    var from := ParsedMeaning(env, provider, first, |first|);
    forall i, j | 0 <= i < j < |all| ensures all[i].id != all[j].id {
      var a, b := from[i], from[j];
      assert first[a] == raws[a] && first[b] == raws[b];
      assert ReadFrom(env, provider, all[i], first[a]) && ReadFrom(env, provider, all[j], first[b]);
      assert IdentityOf(env, provider)(raws[a]) != IdentityOf(env, provider)(raws[b]);
    }
    forall i | 0 <= i < |all| ensures 0 < |all[i].messages| <= 2000 && NumberedFromOne(all[i].messages) {
      assert ReadFrom(env, provider, all[i], first[from[i]]);
    }
  }

  // ----- paging -----

  function FingerprintOf(env: Env): Row -> string {
    (row: Row) => env.fingerprint(row.content)
  }

  function Sequence(): Row -> int {
    (row: Row) => row.sequence
  }

  /** The stored messages below the cursor. */
  function Source(rows: seq<Row>, before: Option<int>): seq<Row> {
    if before.None? then rows else Filter(rows, Below(Sequence(), before.value))
  }

  /** The different ones among them. */
  function Visible(env: Env, rows: seq<Row>, before: Option<int>): seq<Row> {
    Firsts(Source(rows, before), FingerprintOf(env))
  }

  function PageSize(limit: int): nat {
    if limit < 1 then 1 else if limit > MAX_PAGE then MAX_PAGE else limit
  }

  function LastOf<T>(q: seq<T>, n: nat): seq<T> {
    if n < |q| then q[|q| - n..] else q
  }

  datatype Page = Page(rows: seq<Row>, collapsed: nat, hasOlder: bool, oldest: Option<int>)

  function PageOf(env: Env, rows: seq<Row>, limit: int, before: Option<int>): Page {
    var source := Source(rows, before);
    var visible := Visible(env, rows, before);
    var page := LastOf(visible, PageSize(limit));
    Page(page, |source| - |visible|, |visible| > |page|, if page == [] then None else Some(page[0].sequence))
  }

  /** The message loop: the different messages, and how many repetitions were collapsed. */
  method Collapse(env: Env, source: seq<Row>) returns (visible: seq<Row>, collapsed: nat)
    ensures visible == Firsts(source, FingerprintOf(env)) && collapsed == |source| - |visible|
  {
    visible, collapsed := [], 0;
    var seen: set<string> := {};
    for i := 0 to |source|
      invariant Collapsing(env, source, i, visible, seen) && collapsed == i - |visible|
    {
      CollapseTurn(env, source, i, visible, seen);
      if env.fingerprint(source[i].content) in seen {
        collapsed := collapsed + 1;
      } else {
        seen := seen + {env.fingerprint(source[i].content)};
        visible := visible + [source[i]];
      }
    }
    assert source[..|source|] == source;
  }

  predicate Collapsing(env: Env, source: seq<Row>, i: nat, visible: seq<Row>, seen: set<string>)
    requires i <= |source|
  {
    visible == Firsts(source[..i], FingerprintOf(env)) && seen == Keys(visible, FingerprintOf(env))
  }

  lemma CollapseTurn(env: Env, source: seq<Row>, i: nat, visible: seq<Row>, seen: set<string>)
    requires i < |source| && Collapsing(env, source, i, visible, seen)
    ensures var row := source[i];
            if env.fingerprint(row.content) in seen then Collapsing(env, source, i + 1, visible, seen)
            else Collapsing(env, source, i + 1, visible + [row], seen + {env.fingerprint(row.content)})
  {
    assert source[..i + 1][..i] == source[..i];
    KeysAppend(visible, source[i], FingerprintOf(env));
  }

  /** The message part of `imported_room_view`. */
  method RoomPage(env: Env, rows: seq<Row>, limit: int, before: Option<int>) returns (page: Page)
    ensures page == PageOf(env, rows, limit, before)
  {
    hide Firsts;
    var source := Source(rows, before);
    var visible, collapsed := Collapse(env, source);
    var shown := LastOf(visible, PageSize(limit));
    page := Page(shown, collapsed, |visible| > |shown|, if shown == [] then None else Some(shown[0].sequence));
  }

  /** Whatever the cursor was, moving it to a visible message shows exactly the visible messages before that one. */
  lemma CursorMoves(env: Env, rows: seq<Row>, before: Option<int>, j: nat)
    requires Increasing(rows, Sequence()) && j < |Visible(env, rows, before)|
    ensures Visible(env, rows, Some(Visible(env, rows, before)[j].sequence)) == Visible(env, rows, before)[..j]
  {
    var source := Source(rows, before);
    var row := Visible(env, rows, before)[j];
    if before.Some? {
      FilterIncreasing(rows, Sequence(), before.value);
      FirstsMeaning(source, FingerprintOf(env));
      FilterMeaning(rows, Below(Sequence(), before.value));
      assert row in source && Below(Sequence(), before.value)(row);
      FilterTwice(rows, Sequence(), before.value, row.sequence);
    }
    FirstsBelow(source, FingerprintOf(env), Sequence(), j);
    assert Sequence()(row) == row.sequence;
  }

  /** A page that reports older messages leaves exactly the visible messages before it for the next cursor. */
  lemma OlderRemains(env: Env, rows: seq<Row>, limit: int, before: Option<int>)
    requires Increasing(rows, Sequence()) && PageOf(env, rows, limit, before).hasOlder
    ensures var page, visible := PageOf(env, rows, limit, before), Visible(env, rows, before);
            && page.oldest.Some? && 0 < |page.rows| < |visible|
            && visible == Visible(env, rows, page.oldest) + page.rows
  {
    hide Visible;
    var page, visible := PageOf(env, rows, limit, before), Visible(env, rows, before);
    var n := |visible| - |page.rows|;
    assert page.rows == visible[n..] && visible[n..][0] == visible[n];
    CursorMoves(env, rows, before, n);
    assert visible == visible[..n] + visible[n..];
  }

  /**
   Everything a reader sees who pages backwards, with any limits, until nothing older is reported; oldest page first.
   */
  function PagedBack(env: Env, rows: seq<Row>, limits: nat -> int, k: nat, before: Option<int>): seq<Row>
    requires Increasing(rows, Sequence())
    decreases |Visible(env, rows, before)|
  {
    var page := PageOf(env, rows, limits(k), before);
    if !page.hasOlder then page.rows
    else
      OlderRemains(env, rows, limits(k), before);
      PagedBack(env, rows, limits, k + 1, page.oldest) + page.rows
  }

  lemma {:induction false} PagingSeesVisible(env: Env, rows: seq<Row>, limits: nat -> int, k: nat, before: Option<int>)
    requires Increasing(rows, Sequence())
    ensures PagedBack(env, rows, limits, k, before) == Visible(env, rows, before)
    decreases |Visible(env, rows, before)|
  {
    var page := PageOf(env, rows, limits(k), before);
    if page.hasOlder {
      OlderRemains(env, rows, limits(k), before);
      PagingSeesVisible(env, rows, limits, k + 1, page.oldest);
    }
  }

  /** Some visited message is the same message as this one. */
  predicate Visited(env: Env, seen: seq<Row>, row: Row) {
    exists i :: 0 <= i < |seen| && env.fingerprint(seen[i].content) == env.fingerprint(row.content)
  }

  lemma FirstsVisitAll(env: Env, rows: seq<Row>)
    ensures forall row | row in rows :: Visited(env, Firsts(rows, FingerprintOf(env)), row)
  {
    var key := FingerprintOf(env);
    FirstsMeaning(rows, key);
    forall row | row in rows ensures Visited(env, Firsts(rows, key), row) {
      assert key(row) in Keys(rows, key);
      var i :| 0 <= i < |Firsts(rows, key)| && key(Firsts(rows, key)[i]) == key(row);
    }
  }

  /**
   Paging backwards from the newest page, with any page sizes, ends and visits every different message of the record
   exactly once and in order, even when the record stores duplicates.
   */
  lemma PagingVisitsEachOnce(env: Env, rows: seq<Row>, limits: nat -> int)
    requires Increasing(rows, Sequence())
    ensures var seen := PagedBack(env, rows, limits, 0, None);
            && seen == Firsts(rows, FingerprintOf(env))
            && DistinctBy(seen, FingerprintOf(env))
            && (forall row | row in rows :: Visited(env, seen, row))
            && Increasing(seen, Sequence())
  {
    PagingSeesVisible(env, rows, limits, 0, None);
    FirstsVisitAll(env, rows);
    FirstsMeaning(rows, FingerprintOf(env));
    FirstsIncreasing(rows, FingerprintOf(env), Sequence());
    hide Visited;
  }
}
