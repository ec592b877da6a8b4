/**
 What a verified capability is evidence of (src/peerbridge_mcp/agent_identity.py:264-343, 399-522, 745-943): the file,
 the arguments and the registered row agree in every part, and no other file takes the place of an issued one.
 */
module IdentityEvidence {
  import opened Results
  import opened Sorting
  import opened AgentIdentity
  import opened IdentityRuns

  // ----- the file -----

  predicate IsAlphanumeric(c: char) {
    c in "ABCDEFGHIJKLMNOPQRSTUVWXYZabcdefghijklmnopqrstuvwxyz0123456789"
  }

  /** 1 to 200 letters, digits, underscores, dots, colons and hyphens, but neither of the two directory names. */
  predicate IdForm(s: string) {
    0 < |s| <= 200 && s != "." && s != ".."
    && forall i | 0 <= i < |s| :: IsAlphanumeric(s[i]) || s[i] in "_.:-"
  }

  predicate DigestForm(s: string) {
    |s| == 64 && forall i | 0 <= i < |s| :: s[i] in "0123456789abcdef"
  }

  predicate LabelForm(text: Option<string>) {
    text.Some? ==>
      0 < |text.value| <= 500
      && forall i | 0 <= i < |text.value| :: IsAlphanumeric(text.value[i]) || text.value[i] in "_.:/-"
  }

  predicate RouteForm(r: Option<Route>) {
    r.Some? ==>
      && LabelForm(r.value.client) && LabelForm(r.value.provider) && LabelForm(r.value.model)
      && LabelForm(r.value.reasoning)
      && (r.value.routeClass.None? || r.value.routeClass.value == "official" || r.value.routeClass.value == "relay"
          || r.value.routeClass.value == "local")
  }

  lemma FormsIff(s: string)
    ensures IsSafeId(s) <==> IdForm(s)
    ensures IsSha(s) <==> DigestForm(s)
  {
    assert forall c :: c in LETTERS_AND_DIGITS <==> IsAlphanumeric(c);
    hide IsAlphanumeric;
  }

  lemma LabelIff(text: Option<string>)
    ensures IsLabel(text) <==> LabelForm(text)
  {
    assert forall c :: c in LETTERS_AND_DIGITS <==> IsAlphanumeric(c);
    hide IsAlphanumeric;
  }

  lemma RouteIff(r: Option<Route>)
    ensures IsRoute(r) <==> RouteForm(r)
  {
    if r.Some? {
      LabelIff(r.value.client);
      LabelIff(r.value.provider);
      LabelIff(r.value.model);
      LabelIff(r.value.reasoning);
    }
    hide IsLabel, LabelForm;
  }

  /** Every field of a current descriptor has its form. */
  predicate FieldsWellFormed(b: Binding) {
    && |b.tools| <= 128 && (forall t | t in b.tools :: IdForm(t))
    && (forall i, j | 0 <= i < j < |b.tools| :: b.tools[i] != b.tools[j])
    && IdForm(b.issuer) && RouteForm(b.route)
    && (b.room.Some? ==> IdForm(b.room.value)) && (b.roomSession.Some? ==> IdForm(b.roomSession.value))
    && (b.profile.Some? ==> IdForm(b.profile.value)) && (b.profileSha.Some? ==> DigestForm(b.profileSha.value))
  }

  /** The file is short enough, in form, and carries the digests of its own token and descriptor. */
  predicate SelfConsistent(env: Env, f: CapFile) {
    var d := f.descriptor;
    && f.bytes <= 16384 && (d.legacy || FieldsWellFormed(d.binding)) && IdForm(d.id)
    && |f.token| >= 48 && DigestForm(d.tokenSha) && DigestForm(f.sha)
    && d.tokenSha == env.tokenSha(f.token) && f.sha == env.descriptorSha(d)
  }

  /** The file names this root, scope and agent, and the path at which it lies. */
  predicate NamedFor(f: CapFile, root: string, scope: string, agent: string, path: string) {
    var d := f.descriptor;
    d.binding.root == root && d.binding.scope == scope && d.binding.agent == agent && d.path == path
  }

  predicate FileAccepted(env: Env, s: State, root: string, scope: string, agent: string, path: string) {
    && IdForm(scope) && IdForm(agent) && path in s.files
    && SelfConsistent(env, s.files[path]) && NamedFor(s.files[path], root, scope, agent, path)
  }

  /** The row names this root, agent and path, and the digests of the file's token and descriptor. */
  predicate RowMatches(env: Env, row: Row, f: CapFile, root: string, agent: string, path: string) {
    && row.root == root && row.agent == agent && row.path == path
    && row.tokenSha == env.tokenSha(f.token) && row.sha == env.descriptorSha(f.descriptor)
  }

  /** The allow-list in order, each tool once; a legacy file is bound to nothing but its root, scope and agent. */
  ghost predicate IsNormalOf(b: Binding, d: Descriptor) {
    && b.root == d.binding.root && b.scope == d.binding.scope && b.agent == d.binding.agent
    && if d.legacy
       then b.tools == [] && b.issuer == "legacy" && b.route.None? && b.room.None? && b.roomSession.None?
            && b.profile.None? && b.profileSha.None?
       else b == d.binding.(tools := b.tools) && InOrder(b.tools, d.binding.tools)
  }

  ghost predicate InOrder(q: seq<string>, tools: seq<string>) {
    (forall t :: t in q <==> t in tools) && forall i, j | 0 <= i < j < |q| :: TextLess(q[i], q[j])
  }

  lemma SortedInOrder(tools: seq<string>)
    ensures InOrder(SortedTools(tools), tools)
  {
    TextOrder(Elements(tools));
    var q := SortedTools(tools);
    assert IsSortOf(q, Elements(tools), TextLess);
    forall t ensures t in q <==> t in tools {
      assert t in tools <==> t in Elements(tools);
    }
  }

  lemma WellFormedIff(b: Binding)
    ensures FieldFault(b).None? <==> FieldsWellFormed(b)
  {
    forall s ensures IsSafeId(s) <==> IdForm(s)
      ensures IsSha(s) <==> DigestForm(s)
    {
      FormsIff(s);
    }
    RouteIff(b.route);
    hide IsSafeId, IsSha, IsRoute, IdForm, DigestForm, RouteForm;
  }

  lemma AcceptedIff(env: Env, s: State, root: string, scope: string, agent: string, path: string)
    ensures FileAccepted(env, s, root, scope, agent, path) <==>
      IsSafeId(scope) && IsSafeId(agent) && path in s.files
      && FileFault(env, s.files[path], root, scope, agent, path).None?
  {
    forall x ensures IsSafeId(x) <==> IdForm(x)
      ensures IsSha(x) <==> DigestForm(x)
    {
      FormsIff(x);
    }
    if path in s.files {
      WellFormedIff(s.files[path].descriptor.binding);
    }
    hide FieldFault, FieldsWellFormed, IsSafeId, IsSha, IdForm, DigestForm;
  }

  // ----- verification -----

  /**
   When a verification succeeds, and what it returns: the file is accepted, and an unrevoked row of its scope and id
   agrees with the arguments and with the digests of the file.
   */
  lemma VerifiedIff(env: Env, s: State, root: string, scope: string, agent: string, path: string)
    ensures var v := Verified(env, s, root, scope, agent, path);
            && (v.Ok? <==>
                  && FileAccepted(env, s, root, scope, agent, path)
                  && var f := s.files[path]; var key := Key(scope, f.descriptor.id);
                     key in s.rows && s.rows[key].revokedUtc.None?
                     && RowMatches(env, s.rows[key], f, root, agent, path))
            && (v.Ok? ==>
                  var f := s.files[path];
                  && v.value.key == Key(scope, f.descriptor.id) && v.value.path == path && v.value.sha == f.sha
                  && v.value.legacy == f.descriptor.legacy && IsNormalOf(v.value.binding, f.descriptor))
  {
    AcceptedIff(env, s, root, scope, agent, path);
    if FileAccepted(env, s, root, scope, agent, path) {
      SortedInOrder(s.files[path].descriptor.binding.tools);
    }
    hide FileFault, SortedTools, InOrder, IsSafeId, FieldsWellFormed, IsSha, IdForm, DigestForm;
  }

  /** The two refusals that only the registry can give: an unknown or revoked id, and a row that differs. */
  lemma RegistryRefusals(env: Env, s: State, root: string, scope: string, agent: string, path: string)
    requires FileAccepted(env, s, root, scope, agent, path)
    ensures var v, f := Verified(env, s, root, scope, agent, path), s.files[path];
            var key := Key(scope, f.descriptor.id);
            && (v == Err(Revoked) <==> key !in s.rows || s.rows[key].revokedUtc.Some?)
            && (v == Err(RegistryMismatch) <==> key in s.rows && s.rows[key].revokedUtc.None?
                                                && !RowMatches(env, s.rows[key], f, root, agent, path))
            && (v.Err? ==> v.error in {Revoked, RegistryMismatch})
  {
    AcceptedIff(env, s, root, scope, agent, path);
    hide FileFault, IsSafeId, FieldsWellFormed, IsSha, IdForm, DigestForm;
  }

  // ----- requests -----

  predicate WellFormedRequest(b: Binding) {
    && IdForm(b.scope) && IdForm(b.agent) && FieldsWellFormed(b)
    && (b.roomSession.Some? || b.profile.Some? || b.profileSha.Some? ==> b.room.Some?)
    && (b.profile.Some? <==> b.profileSha.Some?)
  }

  /** A request is accepted exactly if it is well formed, and asks for what it says with its allow-list in order. */
  lemma RequestedIff(request: Binding)
    ensures Requested(request).Ok? <==> WellFormedRequest(request)
    ensures Requested(request).Ok? ==>
              var b := Requested(request).value;
              b == request.(tools := b.tools) && InOrder(b.tools, request.tools)
  {
    WellFormedIff(request);
    SortedInOrder(request.tools);
    FormsIff(request.scope);
    FormsIff(request.agent);
    hide FieldFault, FieldsWellFormed, SortedTools, InOrder, IsSafeId, IdForm;
  }

  /** What creating writes: the drawn id, token and time under the path of the id, and one row that matches. */
  lemma CreatedContents(env: Env, s: State, b: Binding, drawn: Fresh)
    ensures var t, path, key := Created(env, s, b, drawn), "identity-capabilities/" + drawn.id + ".json",
                                Key(b.scope, drawn.id);
            && path in t.files && key in t.rows
            && t.files == s.files[path := t.files[path]] && t.rows == s.rows[key := t.rows[key]]
            && var f, row := t.files[path], t.rows[key];
               && f.token == drawn.token && f.sha == env.descriptorSha(f.descriptor)
               && f.descriptor == Descriptor(false, drawn.id, b, path, drawn.utc, env.tokenSha(drawn.token))
               && RowMatches(env, row, f, b.root, b.agent, path)
               && row.createdUtc == drawn.utc && row.revokedUtc.None?
  {
    hide BindingBytes, DrawnBytes;
  }

  /** The row's file verifies with exactly this binding as a current capability of the requester. */
  ghost predicate Usable(env: Env, s: State, b: Binding, k: Key) {
    && k in s.rows && k.scope == b.scope && s.rows[k].root == b.root && s.rows[k].agent == b.agent
    && s.rows[k].revokedUtc.None?
    && var v := Verified(env, s, b.root, b.scope, b.agent, s.rows[k].path);
       v.Ok? && !v.value.legacy && v.value.binding == b
  }

  /** Created later, or at the same time with the greater id. */
  predicate CreatedAfter(s: State, a: Key, b: Key)
    requires a in s.rows && b in s.rows
  {
    TextLess(s.rows[b].createdUtc, s.rows[a].createdUtc)
    || (s.rows[a].createdUtc == s.rows[b].createdUtc && TextLess(b.id, a.id))
  }

  /** The search returns the newest usable row, and nothing exactly if there is none. */
  lemma FoundIsNewest(env: Env, s: State, b: Binding)
    ensures match Found(env, s, b)
            case None => forall k :: !Usable(env, s, b, k)
            case Some(k) => Usable(env, s, b, k) && forall o | Usable(env, s, b, o) && o != k :: CreatedAfter(s, k, o)
  {
    CandidatesOrdered(s, b);
    var keys := Sorted(Candidates(s, b), NewestFirst(s.rows));
    assert IsSortOf(keys, Candidates(s, b), NewestFirst(s.rows));
    FirstInOrder(env, s, b, keys);
    assert Found(env, s, b) == FirstFitting(env, s, b, keys);
    assert forall k :: k in keys <==> k in Candidates(s, b);
    hide *;
    forall k ensures Usable(env, s, b, k) <==> k in keys && Fits(env, s, b, k) {
      UsableFits(env, s, b, k);
    }
    if Found(env, s, b).Some? {
      forall o | Usable(env, s, b, o) && o != Found(env, s, b).value
        ensures CreatedAfter(s, Found(env, s, b).value, o)
      {
        EarlierInOrder(env, s, b, keys, o);
      }
    }
  }

  lemma UsableFits(env: Env, s: State, b: Binding, k: Key)
    ensures Usable(env, s, b, k) <==> k in Candidates(s, b) && Fits(env, s, b, k)
    ensures Usable(env, s, b, k) ==> k in s.rows
  {
    hide Verified;
  }

  lemma EarlierInOrder(env: Env, s: State, b: Binding, keys: seq<Key>, o: Key)
    requires IsSortOf(keys, Candidates(s, b), NewestFirst(s.rows)) && FirstFitting(env, s, b, keys).Some?
    requires o in keys && Fits(env, s, b, o) && o != FirstFitting(env, s, b, keys).value
    ensures var k := FirstFitting(env, s, b, keys).value; k in s.rows && o in s.rows && CreatedAfter(s, k, o)
  {
    hide *;
    FirstInOrder(env, s, b, keys);
    var k := FirstFitting(env, s, b, keys).value;
    var i :| 0 <= i < |keys| && keys[i] == k && forall j | 0 <= j < i :: !Fits(env, s, b, keys[j]);
    var j :| 0 <= j < |keys| && keys[j] == o;
    assert i < j;
    OrderAt(s, keys, Candidates(s, b), i, j);
  }

  lemma OrderAt(s: State, keys: seq<Key>, candidates: set<Key>, i: nat, j: nat)
    requires IsSortOf(keys, candidates, NewestFirst(s.rows)) && i < j < |keys|
    ensures keys[i] in s.rows && keys[j] in s.rows && CreatedAfter(s, keys[i], keys[j])
  {
    assert NewestFirst(s.rows)(keys[i], keys[j]);
  }

  lemma {:induction false} FirstInOrder(env: Env, s: State, b: Binding, keys: seq<Key>)
    ensures match FirstFitting(env, s, b, keys)
            case None => forall k | k in keys :: !Fits(env, s, b, k)
            case Some(k) => exists i | 0 <= i < |keys| ::
                keys[i] == k && Fits(env, s, b, k) && forall j | 0 <= j < i :: !Fits(env, s, b, keys[j])
  {
    hide Fits;
    if keys != [] && !Fits(env, s, b, keys[0]) {
      FirstInOrder(env, s, b, keys[1..]);
      if FirstFitting(env, s, b, keys).Some? {
        var k := FirstFitting(env, s, b, keys).value;
        var i :| 0 <= i < |keys[1..]| && keys[1..][i] == k && Fits(env, s, b, k)
                 && forall j | 0 <= j < i :: !Fits(env, s, b, keys[1..][j]);
        assert keys[i + 1] == k && forall j | 0 < j < i + 1 :: keys[j] == keys[1..][j - 1];
      }
    }
  }

  /** Revoking marks the named row if it is unrevoked, and changes nothing else. */
  lemma RevokeMeaning(s: State, key: Key, utc: string)
    ensures var t := AfterRevoke(s, key, utc);
            && t.files == s.files && t.rows.Keys == s.rows.Keys
            && (forall k | k in s.rows && k != key :: t.rows[k] == s.rows[k])
            && (key in s.rows ==>
                  t.rows[key] == if s.rows[key].revokedUtc.None? && IdForm(key.scope) && IdForm(key.id)
                                 then s.rows[key].(revokedUtc := Some(utc)) else s.rows[key])
  {
    FormsIff(key.scope);
    FormsIff(key.id);
    hide IsSafeId, IdForm;
  }

  // ----- an issued file cannot be replaced -----

  /** Different tokens and different descriptors have different digests. */
  ghost predicate Collisionless(env: Env) {
    (forall a, b | env.tokenSha(a) == env.tokenSha(b) :: a == b)
    && (forall d, e | env.descriptorSha(d) == env.descriptorSha(e) :: d == e)
  }

  /** This row is the only one with its path, which is taken. */
  ghost predicate OnlyRowAt(s: State, key: Key, row: Row) {
    && key in s.rows && row.path in s.files
    && s.rows[key] == row.(revokedUtc := s.rows[key].revokedUtc)
    && forall k | k in s.rows && s.rows[k].path == row.path :: k == key
  }

  lemma CreatedKeepsOnlyRow(env: Env, s: State, b: Binding, drawn: Fresh, key: Key, row: Row)
    requires OnlyRowAt(s, key, row) && IsFresh(s, drawn)
    ensures OnlyRowAt(Created(env, s, b, drawn), key, row)
  {
    CreatedContents(env, s, b, drawn);
    hide Created, IsSafeId;
  }

  lemma StepKeepsOnlyRow(env: Env, s: State, op: Operation, key: Key, row: Row)
    requires OnlyRowAt(s, key, row) && (op.EnsureOp? ==> IsFresh(s, op.drawn))
    ensures OnlyRowAt(After(env, s, op), key, row)
  {
    match op
    case EnsureOp(request, drawn) =>
      hide Requested, Found, Verified, Created, OnlyRowAt, IsFresh, AfterRevoke;
      if Requested(request).Ok? {
        CreatedKeepsOnlyRow(env, s, Requested(request).value, drawn, key, row);
      }
    case RevokeOp(k, utc) =>
      hide *;
      RevokeKeepsOnlyRow(s, k, utc, key, row);
  }

  lemma RevokeKeepsOnlyRow(s: State, k: Key, utc: string, key: Key, row: Row)
    requires OnlyRowAt(s, key, row)
    ensures OnlyRowAt(AfterRevoke(s, k, utc), key, row)
  {
    RevokeMeaning(s, k, utc);
    hide AfterRevoke;
  }

  lemma {:induction false} RunKeepsOnlyRow(env: Env, s: State, ops: seq<Operation>, key: Key, row: Row)
    requires OnlyRowAt(s, key, row) && AllFresh(env, s, ops)
    ensures OnlyRowAt(Run(env, s, ops), key, row)
    decreases |ops|
  {
    if ops != [] {
      hide OnlyRowAt, IsFresh, After;
      StepKeepsOnlyRow(env, s, ops[0], key, row);
      RunKeepsOnlyRow(env, After(env, s, ops[0]), ops[1..], key, row);
    }
  }

  /** A file that verifies at the path of an only row is the one whose digests the row holds. */
  lemma OnlyItsFile(env: Env, s: State, key: Key, row: Row, f: CapFile, root: string, scope: string, agent: string)
    requires Collisionless(env) && OnlyRowAt(s, key, row) && RowMatches(env, row, f, row.root, row.agent, row.path)
    requires Verified(env, s, root, scope, agent, row.path).Ok?
    ensures var g := s.files[row.path];
            g.descriptor == f.descriptor && g.token == f.token && g.sha == env.descriptorSha(f.descriptor)
  {
    VerifiedIff(env, s, root, scope, agent, row.path);
    hide Verified, IsSafeId, FieldsWellFormed, IsSha, IdForm, DigestForm;
  }

  /**
   An issued capability cannot be exchanged: after the issue and any further issues and revocations, whatever file is
   put at its path, and whatever else is put at other paths, the path verifies (for any root, scope and agent) only if
   the file has the issued descriptor and the issued token.
   */
  lemma ReplacedNeverVerifies(env: Env, s: State, request: Binding, drawn: Fresh, ops: seq<Operation>,
                              files: map<string, CapFile>, root: string, scope: string, agent: string)
    requires Collisionless(env) && AllIntact(env, s) && IsFresh(s, drawn)
    requires Requested(request).Ok? && Found(env, s, Requested(request).value).None?
    requires AllFresh(env, Ensured(env, s, request, drawn).0, ops)
    ensures var issued := NewFile(env, Requested(request).value, drawn);
            var path, t := PathFor(drawn.id), Run(env, Ensured(env, s, request, drawn).0, ops);
            Verified(env, State(t.rows, files), root, scope, agent, path).Ok? ==>
              && path in files && files[path].descriptor == issued.descriptor && files[path].token == issued.token
              && files[path].sha == issued.sha
  {
    var b := Requested(request).value;
    var issued, path, u := NewFile(env, b, drawn), PathFor(drawn.id), Created(env, s, b, drawn);
    var key := Key(b.scope, drawn.id);
    assert Ensured(env, s, request, drawn).0 == u;
    CreatedContents(env, s, b, drawn);
    NoRowThere(env, s, path);
    var row := u.rows[key];
    assert u.files[path] == issued;
    assert OnlyRowAt(u, key, row);
    hide *;
    RunKeepsOnlyRow(env, u, ops, key, row);
    var t := Run(env, u, ops);
    if Verified(env, State(t.rows, files), root, scope, agent, path).Ok? {
      VerifiedNeedsFile(env, State(t.rows, files), root, scope, agent, path);
      OtherFiles(t, files, key, row);
      OnlyItsFile(env, State(t.rows, files), key, row, issued, root, scope, agent);
    }
  }

  lemma NoRowThere(env: Env, s: State, path: string)
    requires AllIntact(env, s) && path !in s.files
    ensures forall k | k in s.rows :: s.rows[k].path != path
  {
    hide ContentFault, NormalBinding, FileBytes, IsSafeId;
    forall k | k in s.rows ensures s.rows[k].path != path {
      assert Intact(env, s, k);
    }
  }

  lemma VerifiedNeedsFile(env: Env, s: State, root: string, scope: string, agent: string, path: string)
    requires Verified(env, s, root, scope, agent, path).Ok?
    ensures path in s.files
  {
  }

  lemma OtherFiles(s: State, files: map<string, CapFile>, key: Key, row: Row)
    requires OnlyRowAt(s, key, row) && row.path in files
    ensures OnlyRowAt(State(s.rows, files), key, row)
  {
  }
}
