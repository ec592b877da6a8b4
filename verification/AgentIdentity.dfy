/**
 Identity capabilities (src/peerbridge_mcp/agent_identity.py:264-343, 399-522, 745-943): issuing, verifying and
 revoking, over the registry table and the capability files of one database.
 */
module AgentIdentity {
  import opened Results
  import opened Sorting

  const MAX_CAPABILITY_TOOLS := 128
  const MAX_CAPABILITY_FILE_BYTES := 16384
  const MIN_TOKEN := 48
  const CAPABILITY_SCHEMA := "peerbridge.agent-identity-capability.v2"
  const LETTERS_AND_DIGITS := "ABCDEFGHIJKLMNOPQRSTUVWXYZabcdefghijklmnopqrstuvwxyz0123456789"

  datatype Route = Route(client: Option<string>, provider: Option<string>, model: Option<string>,
                         reasoning: Option<string>, routeClass: Option<string>)

  /** Everything a capability is bound to. */
  datatype Binding = Binding(root: string, scope: string, agent: string, tools: seq<string>, issuer: string,
                             route: Option<Route>, room: Option<string>, roomSession: Option<string>,
                             profile: Option<string>, profileSha: Option<string>)

  datatype Descriptor = Descriptor(legacy: bool, id: string, binding: Binding, path: string, issuedUtc: string,
                                   tokenSha: string)
  /** A file that parses, and how long it is. */
  datatype CapFile = CapFile(descriptor: Descriptor, sha: string, token: string, bytes: nat)

  datatype Key = Key(scope: string, id: string)
  datatype Row = Row(root: string, agent: string, path: string, tokenSha: string, sha: string, createdUtc: string,
                     revokedUtc: Option<string>)

  /** The registry table, and the readable capability files by their path below the state root. */
  datatype State = State(rows: map<Key, Row>, files: map<string, CapFile>)

  datatype Env = Env(tokenSha: string -> string, descriptorSha: Descriptor -> string)

  datatype Capability = Capability(key: Key, path: string, sha: string, legacy: bool, binding: Binding)

  datatype IdentityError = BadIdentifier | BadTools | BadRoute | RoomRequired | ProfileUnpaired | FileUnavailable
                         | FileTooLong | BadSecret | BadDescriptor | OtherAgent | OtherPath | Revoked | RegistryMismatch

  // ----- the shape of fields -----

  predicate IsSafeId(s: string) {
    1 <= |s| <= 200 && s != "." && s != ".." && forall c | c in s :: c in LETTERS_AND_DIGITS || c in "_.:-"
  }

  predicate IsSha(s: string) {
    |s| == 64 && forall c | c in s :: c in "0123456789abcdef"
  }

  predicate IsLabel(s: Option<string>) {
    s.Some? ==> 1 <= |s.value| <= 500 && forall c | c in s.value :: c in LETTERS_AND_DIGITS || c in "_.:/-"
  }

  predicate IsRoute(r: Option<Route>) {
    r.Some? ==>
      && IsLabel(r.value.client) && IsLabel(r.value.provider) && IsLabel(r.value.model) && IsLabel(r.value.reasoning)
      && (r.value.routeClass.Some? ==> r.value.routeClass.value in {"official", "relay", "local"})
  }

  predicate IsOptionalId(s: Option<string>) {
    s.Some? ==> IsSafeId(s.value)
  }

  predicate ToolsOk(tools: seq<string>) {
    && |tools| <= MAX_CAPABILITY_TOOLS && (forall t | t in tools :: IsSafeId(t))
    && forall i, j | 0 <= i < j < |tools| :: tools[i] != tools[j]
  }

  lemma TextOrder(s: set<string>)
    ensures StrictOrderOn(TextLess, s)
  {
    forall a, b, c | a in s && b in s && c in s
      ensures !TextLess(a, a) && (a == b || TextLess(a, b) || TextLess(b, a))
      ensures TextLess(a, b) && TextLess(b, c) ==> TextLess(a, c)
    {
      TextLessOrder(a, b, c);
    }
  }

  /** The allow-list in its normal form: sorted. */
  ghost function SortedTools(tools: seq<string>): seq<string> {
    TextOrder(Elements(tools));
    Sorted(Elements(tools), TextLess)
  }

  /** Sorting a sorted list changes nothing, and different lists of the same tools sort alike. */
  lemma SortedToolsStable(tools: seq<string>)
    ensures SortedTools(SortedTools(tools)) == SortedTools(tools)
    ensures ToolsOk(tools) ==> ToolsOk(SortedTools(tools))
  {
    TextOrder(Elements(tools));
    var s := SortedTools(tools);
    assert Elements(s) == Elements(tools);
    AscendingDistinct(s, Elements(tools), TextLess);
    if ToolsOk(tools) {
      DistinctSize(tools);
    }
  }

  function FieldFault(b: Binding): Option<IdentityError> {
    if !ToolsOk(b.tools) then Some(BadTools)
    else if !IsSafeId(b.issuer) then Some(BadIdentifier)
    else if !IsRoute(b.route) then Some(BadRoute)
    else if !IsOptionalId(b.room) || !IsOptionalId(b.roomSession) || !IsOptionalId(b.profile)
            || (b.profileSha.Some? && !IsSha(b.profileSha.value)) then Some(BadIdentifier)
    else None
  }

  // ----- verification -----

  ghost function NormalBinding(d: Descriptor): Binding {
    if d.legacy then Binding(d.binding.root, d.binding.scope, d.binding.agent, [], "legacy", None, None, None, None,
                             None)
    else d.binding.(tools := SortedTools(d.binding.tools))
  }

  predicate IsReadable(f: CapFile) {
    f.bytes <= MAX_CAPABILITY_FILE_BYTES
  }

  /** Why a file is refused as a capability of this root, scope and agent, before the registry is asked. */
  function FileFault(env: Env, f: CapFile, root: string, scope: string, agent: string, path: string)
    : Option<IdentityError>
  {
    if !IsReadable(f) then Some(FileTooLong) else ContentFault(env, f, root, scope, agent, path)
  }

  function ContentFault(env: Env, f: CapFile, root: string, scope: string, agent: string, path: string)
    : Option<IdentityError>
  {
    var d := f.descriptor;
    if !d.legacy && FieldFault(d.binding).Some? then FieldFault(d.binding)
    else if !IsSafeId(d.id) then Some(BadIdentifier)
    else if |f.token| < MIN_TOKEN || !IsSha(d.tokenSha) || !IsSha(f.sha) || env.tokenSha(f.token) != d.tokenSha then
      Some(BadSecret)
    else if env.descriptorSha(d) != f.sha then Some(BadDescriptor)
    else if d.binding.root != root || d.binding.scope != scope || d.binding.agent != agent then Some(OtherAgent)
    else if d.path != path then Some(OtherPath)
    else None
  }

  function RegistryFault(s: State, f: CapFile): Option<IdentityError> {
    var d := f.descriptor;
    var key := Key(d.binding.scope, d.id);
    if key !in s.rows || s.rows[key].revokedUtc.Some? then Some(Revoked)
    else
      var r := s.rows[key];
      if r.root != d.binding.root || r.agent != d.binding.agent || r.path != d.path || r.tokenSha != d.tokenSha
        || r.sha != f.sha
      then Some(RegistryMismatch) else None
  }

  ghost function Verified(env: Env, s: State, root: string, scope: string, agent: string, path: string)
    : Result<Capability, IdentityError>
  {
    if !IsSafeId(scope) || !IsSafeId(agent) then Err(BadIdentifier)
    else if path !in s.files then Err(FileUnavailable)
    else
      var f := s.files[path];
      if FileFault(env, f, root, scope, agent, path).Some? then Err(FileFault(env, f, root, scope, agent, path).value)
      else if RegistryFault(s, f).Some? then Err(RegistryFault(s, f).value)
      else Ok(Capability(Key(scope, f.descriptor.id), path, f.sha, f.descriptor.legacy, NormalBinding(f.descriptor)))
  }

  // ----- issuing -----

  /** The binding a request asks for, in normal form, or why it is refused. */
  ghost function Requested(b: Binding): Result<Binding, IdentityError> {
    if !IsSafeId(b.scope) || !IsSafeId(b.agent) then Err(BadIdentifier)
    else if FieldFault(b).Some? then Err(FieldFault(b).value)
    else if b.room.None? && (b.roomSession.Some? || b.profile.Some? || b.profileSha.Some?) then Err(RoomRequired)
    else if b.profile.None? != b.profileSha.None? then Err(ProfileUnpaired)
    else Ok(b.(tools := SortedTools(b.tools)))
  }

  function Candidates(s: State, b: Binding): set<Key> {
    set k | k in s.rows && k.scope == b.scope && s.rows[k].root == b.root && s.rows[k].agent == b.agent
      && s.rows[k].revokedUtc.None?
  }

  /** Newest first, then greatest id. */
  predicate NewerRow(rows: map<Key, Row>, a: Key, b: Key) {
    && a in rows && b in rows
    && (TextLess(rows[b].createdUtc, rows[a].createdUtc)
        || (rows[a].createdUtc == rows[b].createdUtc && TextLess(b.id, a.id)))
  }

  function NewestFirst(rows: map<Key, Row>): (Key, Key) -> bool {
    (a, b) => NewerRow(rows, a, b)
  }

  lemma CandidatesOrdered(s: State, b: Binding)
    ensures StrictOrderOn(NewestFirst(s.rows), Candidates(s, b))
  {
    forall x, y, z | x in Candidates(s, b) && y in Candidates(s, b) && z in Candidates(s, b)
      ensures !NewerRow(s.rows, x, x) && (x == y || NewerRow(s.rows, x, y) || NewerRow(s.rows, y, x))
      ensures NewerRow(s.rows, x, y) && NewerRow(s.rows, y, z) ==> NewerRow(s.rows, x, z)
    {
      TextLessOrder(s.rows[x].createdUtc, s.rows[y].createdUtc, s.rows[z].createdUtc);
      TextLessOrder(x.id, y.id, z.id);
    }
  }

  /** The row's file verifies as a current capability with exactly this binding. */
  ghost predicate Fits(env: Env, s: State, b: Binding, k: Key) {
    && k in s.rows
    && var v := Verified(env, s, b.root, b.scope, b.agent, s.rows[k].path);
       v.Ok? && !v.value.legacy && v.value.binding == b
  }

  ghost function FirstFitting(env: Env, s: State, b: Binding, keys: seq<Key>): Option<Key> {
    if keys == [] then None
    else if Fits(env, s, b, keys[0]) then Some(keys[0])
    else FirstFitting(env, s, b, keys[1..])
  }

  ghost function Found(env: Env, s: State, b: Binding): Option<Key> {
    CandidatesOrdered(s, b);
    FirstFitting(env, s, b, Sorted(Candidates(s, b), NewestFirst(s.rows)))
  }

  /** What is drawn when a capability is created. */
  datatype Fresh = Fresh(id: string, token: string, utc: string)

  function PathFor(id: string): string {
    "identity-capabilities/" + id + ".json"
  }

  function NewFile(env: Env, b: Binding, drawn: Fresh): CapFile {
    var d := Descriptor(false, drawn.id, b, PathFor(drawn.id), drawn.utc, env.tokenSha(drawn.token));
    var sha := env.descriptorSha(d);
    CapFile(d, sha, drawn.token, BindingBytes(b) + DrawnBytes(d, sha, drawn.token))
  }

  // ----- how long a new file is: compact JSON with sorted keys, of texts that need no escapes -----

  function TextBytes(s: string): nat {
    |s| + 2
  }

  function OptionalBytes(s: Option<string>): nat {
    if s.None? then |"null"| else TextBytes(s.value)
  }

  /** A key, its colon, its value, and the comma or brace after it. */
  function MemberBytes(key: string, value: nat): nat {
    TextBytes(key) + 1 + value + 1
  }

  /** The texts of a list, each with the comma or bracket after it. */
  function TextsBytes(q: seq<string>): nat {
    if q == [] then 0 else TextsBytes(q[..|q| - 1]) + TextBytes(q[|q| - 1]) + 1
  }

  function ListBytes(q: seq<string>): nat {
    if q == [] then |"[]"| else 1 + TextsBytes(q)
  }

  function RouteBytes(r: Option<Route>): nat {
    if r.None? then |"null"|
    else
      1 + MemberBytes("client_name", OptionalBytes(r.value.client))
        + MemberBytes("model_id", OptionalBytes(r.value.model))
      + MemberBytes("provider_id", OptionalBytes(r.value.provider))
      + MemberBytes("reasoning_mode", OptionalBytes(r.value.reasoning))
      + MemberBytes("route_class", OptionalBytes(r.value.routeClass))
  }

  /** What the binding takes. */
  function BindingBytes(b: Binding): nat {
    MemberBytes("agent_id", TextBytes(b.agent)) + MemberBytes("allowed_tools", ListBytes(b.tools))
    + MemberBytes("bound_room_id", OptionalBytes(b.room))
    + MemberBytes("bound_room_session_id", OptionalBytes(b.roomSession))
    + MemberBytes("bound_route_profile_id", OptionalBytes(b.profile))
    + MemberBytes("bound_route_profile_sha256", OptionalBytes(b.profileSha))
    + MemberBytes("issued_by", TextBytes(b.issuer)) + MemberBytes("route_binding", RouteBytes(b.route))
    + MemberBytes("scope", TextBytes(b.scope)) + MemberBytes("workspace_root_key", TextBytes(b.root))
  }

  /** What everything else takes, with the opening brace and the newline at the end. */
  function DrawnBytes(d: Descriptor, sha: string, token: string): nat {
    1 + MemberBytes("capability_id", TextBytes(d.id)) + MemberBytes("capability_sha256", TextBytes(sha))
    + MemberBytes("issued_utc", TextBytes(d.issuedUtc)) + MemberBytes("schema", TextBytes(CAPABILITY_SCHEMA))
    + MemberBytes("secret_file_relpath", TextBytes(d.path)) + MemberBytes("secret_token", TextBytes(token))
    + MemberBytes("token_sha256", TextBytes(d.tokenSha)) + 1
  }

  function NewRow(f: CapFile): Row {
    var d := f.descriptor;
    Row(d.binding.root, d.binding.agent, d.path, d.tokenSha, f.sha, d.issuedUtc, None)
  }

  function Created(env: Env, s: State, b: Binding, drawn: Fresh): State {
    var f := NewFile(env, b, drawn);
    State(s.rows[Key(b.scope, drawn.id) := NewRow(f)], s.files[PathFor(drawn.id) := f])
  }

  /** The state and the capability after `ensure_agent_identity_capability`, or why it raises. */
  ghost function Ensured(env: Env, s: State, request: Binding, drawn: Fresh)
    : (State, Result<Capability, IdentityError>)
  {
    match Requested(request)
    case Err(e) => (s, Err(e))
    case Ok(b) =>
      match Found(env, s, b)
      case Some(k) => if k in s.rows then (s, Verified(env, s, b.root, b.scope, b.agent, s.rows[k].path))
        else (s, Err(Revoked))
      case None =>
        var t := Created(env, s, b, drawn);
        (t, Verified(env, t, b.root, b.scope, b.agent, PathFor(drawn.id)))
  }

  /** The state after `revoke_agent_identity_capability`. */
  function AfterRevoke(s: State, key: Key, utc: string): State {
    if IsSafeId(key.scope) && IsSafeId(key.id) && key in s.rows && s.rows[key].revokedUtc.None?
    then s.(rows := s.rows[key := s.rows[key].(revokedUtc := Some(utc))])
    else s
  }

  // ----- the registry object -----

  class Registry {
    const env: Env
    var rows: map<Key, Row>
    var files: map<string, CapFile>

    ghost function Contents(): State
      reads this
    {
      State(rows, files)
    }

    constructor (env: Env, rows: map<Key, Row>, files: map<string, CapFile>)
      ensures this.env == env && Contents() == State(rows, files)
    {
      this.env := env;
      this.rows := rows;
      this.files := files;
    }

    method Verify(root: string, scope: string, agent: string, path: string)
      returns (r: Result<Capability, IdentityError>)
      ensures r == Verified(env, Contents(), root, scope, agent, path)
    {
      if !IsSafeId(scope) || !IsSafeId(agent) {
        return Err(BadIdentifier);
      }
      if path !in files {
        return Err(FileUnavailable);
      }
      var f := files[path];
      var fault := FileFault(env, f, root, scope, agent, path);
      if fault.Some? {
        return Err(fault.value);
      }
      fault := RegistryFault(State(rows, files), f);
      if fault.Some? {
        return Err(fault.value);
      }
      TextOrder(Elements(f.descriptor.binding.tools));
      var tools := OrderBy(Elements(f.descriptor.binding.tools), TextLess);
      var d := f.descriptor;
      var binding := if d.legacy then
        Binding(d.binding.root, d.binding.scope, d.binding.agent, [], "legacy", None, None, None, None, None)
                     else d.binding.(tools := tools);
      r := Ok(Capability(Key(scope, d.id), path, f.sha, d.legacy, binding));
    }

    /** The loop over the unrevoked rows of the agent. */
    method Find(b: Binding) returns (r: Option<Capability>)
      ensures match Found(env, Contents(), b)
              case None => r == None
              case Some(k) =>
                k in rows && r.Some?
                && Verified(env, Contents(), b.root, b.scope, b.agent, rows[k].path) == Ok(r.value)
    {
      CandidatesOrdered(Contents(), b);
      var keys := OrderBy(Candidates(State(rows, files), b), NewestFirst(rows));
      ghost var s := Contents();
      assert keys[0..] == keys;
      for i := 0 to |keys|
        invariant Found(env, s, b) == FirstFitting(env, s, b, keys[i..])
      {
        assert keys[i] in keys && keys[i] in Candidates(s, b);
        assert keys[i..][1..] == keys[i + 1..];
        var v := Verify(b.root, b.scope, b.agent, rows[keys[i]].path);
        if v.Ok? && !v.value.legacy && v.value.binding == b {
          return Some(v.value);
        }
      }
      r := None;
    }

    method Ensure(request: Binding, drawn: Fresh) returns (r: Result<Capability, IdentityError>)
      modifies this
      ensures (Contents(), r) == Ensured(env, old(Contents()), request, drawn)
    {
      hide FieldFault, Verified, Found, NewFile, NewRow, IsSafeId;
      if !IsSafeId(request.scope) || !IsSafeId(request.agent) {
        return Err(BadIdentifier);
      }
      var fault := FieldFault(request);
      if fault.Some? {
        return Err(fault.value);
      }
      if request.room.None? && (request.roomSession.Some? || request.profile.Some? || request.profileSha.Some?) {
        return Err(RoomRequired);
      }
      if request.profile.None? != request.profileSha.None? {
        return Err(ProfileUnpaired);
      }
      TextOrder(Elements(request.tools));
      var tools := OrderBy(Elements(request.tools), TextLess);
      var b := request.(tools := tools);
      var existing := Find(b);
      if existing.Some? {
        return Ok(existing.value);
      }
      var f := NewFile(env, b, drawn);
      files := files[PathFor(drawn.id) := f];
      rows := rows[Key(b.scope, drawn.id) := NewRow(f)];
      r := Verify(b.root, b.scope, b.agent, PathFor(drawn.id));
    }

    method Revoke(key: Key, utc: string) returns (r: Result<bool, IdentityError>)
      modifies this`rows
      ensures Contents() == AfterRevoke(old(Contents()), key, utc)
      ensures r == if !IsSafeId(key.scope) || !IsSafeId(key.id) then Err(BadIdentifier)
              else Ok(Contents() != old(Contents()))
    {
      if !IsSafeId(key.scope) || !IsSafeId(key.id) {
        return Err(BadIdentifier);
      }
      if key !in rows || rows[key].revokedUtc.Some? {
        return Ok(false);
      }
      ghost var before := rows;
      rows := rows[key := rows[key].(revokedUtc := Some(utc))];
      assert rows[key] != before[key];
      r := Ok(true);
    }
  }
}
