/**
 What an import reads, keeps, refuses and shows (src/peerbridge_mcp/conversation_import.py:447-909), written out.
 */
module ImportConditions {
  import opened Results
  import opened Lists
  import opened Sorting
  import opened ImportedHistory
  import opened ImportStore

  /** At most the first n characters. */
  predicate IsStart(s: string, whole: string, n: nat) {
    s <= whole && |s| == if |whole| < n then |whole| else n
  }

  /** The text of the first user message, or nothing. */
  predicate IsFirstUserText(rows: seq<Row>, text: string) {
    || (text == "" && forall i | 0 <= i < |rows| :: rows[i].content.role != "user")
    || exists i | 0 <= i < |rows| ::
         rows[i].content.role == "user" && rows[i].content.text == text
         && forall j | 0 <= j < i :: rows[j].content.role != "user"
  }

  lemma {:induction false} FirstUserIs(rows: seq<Row>)
    ensures IsFirstUserText(rows, FirstUserText(rows))
  {
    if rows != [] && rows[0].content.role != "user" {
      FirstUserIs(rows[1..]);
      var text := FirstUserText(rows[1..]);
      assert forall j | 0 < j < |rows| :: rows[j] == rows[1..][j - 1];
      if i :| 0 <= i < |rows[1..]| && rows[1..][i].content.role == "user" && rows[1..][i].content.text == text
              && forall j | 0 <= j < i :: rows[1..][j].content.role != "user" {
        assert rows[i + 1].content.text == text;
      }
    }
  }

  /** The row carries this time. */
  predicate HasTime(row: Row, t: string) {
    row.content.createdUtc == Some(t) && t != ""
  }

  lemma {:induction false} TimestampsMeaning(rows: seq<Row>, t: string)
    ensures t in Timestamps(rows) <==> exists i :: 0 <= i < |rows| && HasTime(rows[i], t)
  {
    if rows != [] {
      TimestampsMeaning(rows[1..], t);
      assert HasTime(rows[0], t) ==> t in Timestamps(rows);
      if i :| 0 <= i < |rows[1..]| && HasTime(rows[1..][i], t) {
        assert HasTime(rows[i + 1], t);
      }
      if i :| 0 <= i < |rows| && HasTime(rows[i], t) {
        assert i > 0 ==> HasTime(rows[1..][i - 1], t);
      }
    }
  }

  /**
   What a conversation shows: at most 160 characters of its redacted title, which is its own, else the start of its
   first user message, else made from the provider; an identifier of at most 500 characters; and as its span the
   earliest and latest time of its messages.
   */
  lemma ConversationSays(env: Env, provider: string, raw: RawConversation, rows: seq<Row>)
    returns (title: string, first: string)
    ensures var c := ConversationOf(env, provider, raw, rows);
            && c.messages == rows && IsStart(c.title, env.redact(title), 160)
            && IsFirstUserText(rows, first)
            && title == (if |raw.title| > 0 then raw.title else if |first| > 0 then UpTo(first, 120)
                         else env.titleCase(provider) + " conversation")
            && (|raw.id| > 0 ==> IsStart(c.id, raw.id, 500))
            && (|raw.id| == 0 ==> IsStart(c.id, provider + "-" + UpTo(env.rowsSha(rows), 24), 500))
            && (c.startedUtc.Some? <==> exists i, t :: 0 <= i < |rows| && HasTime(rows[i], t))
            && (c.endedUtc.Some? <==> c.startedUtc.Some?)
            && (c.startedUtc.Some? ==>
                  && (exists i :: 0 <= i < |rows| && HasTime(rows[i], c.startedUtc.value))
                  && (exists i :: 0 <= i < |rows| && HasTime(rows[i], c.endedUtc.value))
                  && forall i, t | 0 <= i < |rows| && HasTime(rows[i], t) ::
                       !TextLess(t, c.startedUtc.value) && !TextLess(c.endedUtc.value, t))
  {
    first := FirstUserText(rows);
    FirstUserIs(rows);
    title := if |raw.title| > 0 then raw.title else if |first| > 0 then UpTo(first, 120)
      else env.titleCase(provider) + " conversation";
    var times := Timestamps(rows);
    SpanMeaning(times);
    forall t ensures t in times <==> exists i :: 0 <= i < |rows| && HasTime(rows[i], t) {
      TimestampsMeaning(rows, t);
    }
    hide TextLess, FirstUserText, HasTime, Timestamps, Least, Greatest, IsFirstUserText;
    if times != [] {
      assert times[0] in times;
      var i :| 0 <= i < |rows| && HasTime(rows[i], times[0]);
    }
    if i, t :| 0 <= i < |rows| && HasTime(rows[i], t) {
      assert t in times;
    }
  }

  // ----- pages -----

  /**
   A page holds the newest messages below the cursor, as many as the limit, held between 1 and 512, allows; it says
   whether there are older ones, and where they start.
   */
  lemma PageSays(env: Env, rows: seq<Row>, limit: int, before: Option<int>)
    ensures var page, visible := PageOf(env, rows, limit, before), Visible(env, rows, before);
            var size := if limit <= 1 then 1 else if limit >= 512 then 512 else limit;
            && |page.rows| == (if |visible| < size then |visible| else size)
            && (forall i | 0 <= i < |page.rows| :: page.rows[i] == visible[|visible| - |page.rows| + i])
            && (page.hasOlder <==> |visible| > size)
            && (page.oldest == if |visible| == 0 then None else Some(page.rows[0].sequence))
            && page.collapsed == |Source(rows, before)| - |visible|
    ensures forall row :: row in Source(rows, before) <==> row in rows && (before.Some? ==> row.sequence < before.value)
  {
    hide Firsts;
    if before.Some? {
      FilterMeaning(rows, Below(Sequence(), before.value));
    }
  }

  // ----- the selection -----

  function Different(chosen: seq<string>): set<string> {
    set id | id in chosen && id != ""
  }

  /** An identifier chooses the last conversation that has it. */
  predicate Chooses(conversations: seq<Conversation>, id: string, c: Conversation) {
    exists i | 0 <= i < |conversations| ::
      conversations[i] == c && c.id == id && forall j | i < j < |conversations| :: conversations[j].id != id
  }

  lemma ChoosesAppend(conversations: seq<Conversation>, x: Conversation, id: string, c: Conversation)
    ensures Chooses(conversations + [x], id, c) <==>
      if x.id == id then c == x else Chooses(conversations, id, c)
    ensures HasId(conversations + [x], id) <==> x.id == id || HasId(conversations, id)
  {
    var all, n := conversations + [x], |conversations|;
    assert forall i | 0 <= i < n :: all[i] == conversations[i];
    assert all[n] == x;
    if HasId(conversations, id) {
      var i :| 0 <= i < n && conversations[i].id == id;
      assert all[i].id == id;
    }
  }

  lemma {:induction false} FindIff(conversations: seq<Conversation>, id: string, c: Conversation)
    ensures Find(conversations, id) == Some(c) <==> Chooses(conversations, id, c)
    ensures Find(conversations, id) == None <==> !HasId(conversations, id)
  {
    if conversations != [] {
      var n := |conversations| - 1;
      FindIff(conversations[..n], id, c);
      ChoosesAppend(conversations[..n], conversations[n], id, c);
      assert conversations == conversations[..n] + [conversations[n]];
      hide Chooses, HasId;
    }
  }

  /** A selection is refused if it names none or more than 20 different conversations, or an unknown one. */
  lemma SelectedIff(conversations: seq<Conversation>, chosen: seq<string>)
    ensures var r, n := Selected(conversations, chosen), |Different(chosen)|;
            && (r == Err(BadSelection) <==> n == 0 || n > 20)
            && (r == Err(UnknownSelection) <==>
                  0 < n <= 20 && exists id :: id in Different(chosen) && !HasId(conversations, id))
            && (r.Err? ==> r.error in {BadSelection, UnknownSelection})
            && (r.Ok? ==> |r.value| == n && forall c | c in r.value :: Chooses(conversations, c.id, c))
  {
    var order := FirstMentions(chosen);
    FirstMentionsMeaning(chosen);
    assert Elements(order) == Different(chosen);
    DistinctSize(order);
    forall id ensures Find(conversations, id) == None <==> !HasId(conversations, id) {
      FindIff(conversations, id, Conversation("", "", None, None, []));
    }
    hide HasId;
    var r := Selected(conversations, chosen);
    if r.Ok? {
      forall c | c in r.value ensures Chooses(conversations, c.id, c) {
        var i :| 0 <= i < |r.value| && r.value[i] == c;
        assert order[i] in order;
        FindIff(conversations, order[i], c);
      }
    }
  }

  // ----- one import -----

  /** The record an import of the conversation makes. */
  lemma CandidateSays(env: StoreEnv, call: Import, c: Conversation)
    ensures var r := CandidateOf(env, call, c); var b := r.body;
            && r.sha == env.recordSha(b) && b.importId == env.idOf(call.provider, call.scope, call.sourceSha, c.id)
            && b.scope == call.scope && b.provider == call.provider && b.sourceName == env.safeName(call.sourceName)
            && b.sourceBytes == call.sourceBytes && b.sourceSha == call.sourceSha
            && b.conversationId == env.safeId(c.id) && b.conversation == c && b.importedUtc == call.importedUtc
  {
  }

  /** The file is a record of the scope that carries its own digest. */
  predicate IsRecordOf(env: StoreEnv, file: File, scope: string) {
    file.record.Some? && file.record.value.sha == env.recordSha(file.record.value.body)
    && file.record.value.body.scope == scope
  }

  /** Both records say the same but for the name of the source file and the time of the import. */
  predicate SameImport(a: Body, b: Body) {
    && a.importId == b.importId && a.scope == b.scope && a.provider == b.provider && a.sourceBytes == b.sourceBytes
    && a.sourceSha == b.sourceSha && a.conversationId == b.conversationId && a.conversation == b.conversation
  }

  /** There is no room for another record of this size: 512 records, or 256 MiB with it, unless the store is empty. */
  ghost predicate NoRoom(files: Files, size: nat) {
    |files| >= 512 || (|files| > 0 && TotalBytes(files) + size > 268435456)
  }

  /**
   What one import does: a record over 32 MiB is too large; one whose identifier is taken exists if the file there is a
   record of the scope that says the same, and otherwise conflicts or is invalid; any other is created unless there
   is no room. Nothing but a creation changes the store.
   */
  lemma ImportedOneIff(env: StoreEnv, files: Files, scope: string, candidate: Record)
    ensures var r, id, size := ImportedOne(env, files, scope, candidate), candidate.body.importId, env.size(candidate);
            var fits, taken := size <= 33554432, id in files;
            && (r == Err(TooLarge) <==> !fits)
            && (r == Err(Invalid) <==> fits && taken
                                       && (files[id].record.None?
                                           || files[id].record.value.sha != env.recordSha(files[id].record.value.body)))
            && (r == Err(WrongScope) <==>
                  fits && taken && files[id].record.Some?
                  && files[id].record.value.sha == env.recordSha(files[id].record.value.body)
                  && files[id].record.value.body.scope != scope)
            && (r == Err(Conflict) <==> fits && taken && IsRecordOf(env, files[id], scope)
                                        && !SameImport(files[id].record.value.body, candidate.body))
            && (r == Err(Quota) <==> fits && !taken && NoRoom(files, size))
            && (r.Ok? && r.value.receipt.status == Existing <==>
                  fits && taken && IsRecordOf(env, files[id], scope)
                  && SameImport(files[id].record.value.body, candidate.body))
            && (r.Ok? && r.value.receipt.status == Created <==> fits && !taken && !NoRoom(files, size))
            && (r.Ok? ==> r.value.receipt.importId == id
                          && r.value.files == (if taken then files
                                               else files[id := File(size, Some(candidate))])
                          && r.value.receipt.recordSha == (if taken then files[id].record.value.sha else candidate.sha))
  {
    hide TotalBytes;
    assert |files| > 0 <==> files != map[];
    if candidate.body.importId in files && files[candidate.body.importId].record.Some? {
      var a, b := files[candidate.body.importId].record.value.body, candidate.body;
      assert Immutable(a) == Immutable(b) <==> SameImport(a, b);
    }
  }

  // ----- the listing -----

  /** A listing shows records of the scope of at most 16 MiB that carry their own digest. */
  lemma ListableIff(env: StoreEnv, files: Files, scope: string, id: string)
    ensures id in ListableIds(env, files, scope) <==>
      id in files && files[id].size <= 16777216 && IsRecordOf(env, files[id], scope)
  {
  }

  /** Imported later, or at the same time with the greater identifier, or under the same one in the earlier file. */
  predicate Newer(files: Files, a: string, b: string)
    requires a in files && b in files && files[a].record.Some? && files[b].record.Some?
  {
    var x, y := files[a].record.value.body, files[b].record.value.body;
    || TextLess(y.importedUtc, x.importedUtc)
    || (x.importedUtc == y.importedUtc && TextLess(y.importId, x.importId))
    || (x.importedUtc == y.importedUtc && x.importId == y.importId && TextLess(a, b))
  }

  lemma ListedBeforeIff(env: StoreEnv, files: Files, scope: string, a: string, b: string)
    requires a in ListableIds(env, files, scope) && b in ListableIds(env, files, scope)
    ensures ListedBefore(files, a, b) <==> Newer(files, a, b)
  {
    hide TextLess;
  }
}
