/**
 Launch arguments of an identified server (src/peerbridge_mcp/agent_identity.py:112-131, 525-742): verifying a launch,
 redacting the path of the secret file, and verifying the redacted arguments later.
 */
module LaunchArguments {
  import opened Results
  import opened AgentIdentity

  const REDACTED := "<peerbridge-agent-identity-capability>"
  const PROJECT_ROOT := "--project-root"
  const DATABASE := "--db"
  const SCOPE := "--scope"
  const AGENT := "--agent-id"
  const CAPABILITY := "--identity-capability"

  predicate StartsWithDashes(s: string) {
    "--" <= s
  }

  function Positions(args: seq<string>, option: string): seq<nat> {
    if args == [] then []
    else
      var n := |args| - 1;
      Positions(args[..n], option) + if args[n] == option then [n] else []
  }

  /** The value that follows the only occurrence of an option; it must not look like an option itself. */
  function SingleOption(args: seq<string>, option: string): Option<(nat, string)> {
    var p := Positions(args, option);
    if |p| != 1 || p[0] + 1 >= |args| then None
    else
      var value := args[p[0] + 1];
      if value == "" || StartsWithDashes(value) then None else Some((p[0], value))
  }

  /** An option that may be absent; present, it obeys the same rule. */
  function OptionalOption(args: seq<string>, option: string): Result<Option<string>, LaunchError> {
    if Positions(args, option) == [] then Ok(None)
    else
      match SingleOption(args, option)
      case None => Err(BadOption)
      case Some((_, value)) => Ok(Some(value))
  }

  /** Paths as the operating system sees them; a capability path resolves to its place below the state root. */
  datatype Paths = Paths(isAbsolute: string -> bool, isDirectory: string -> bool, isFile: string -> bool,
                         resolve: string -> string, rootKey: string -> string, capabilityPath: string -> string)

  /** Resolving does not change what a path denotes. */
  ghost predicate GoodPaths(ps: Paths) {
    forall p :: ps.isAbsolute(ps.resolve(p)) && ps.resolve(ps.resolve(p)) == ps.resolve(p)
                && ps.isDirectory(ps.resolve(p)) == ps.isDirectory(p) && ps.rootKey(ps.resolve(p)) == ps.rootKey(p)
  }

  predicate SamePath(ps: Paths, a: string, b: string) {
    ps.resolve(a) == ps.resolve(b)
  }

  datatype LaunchError = NotAServer | BadOption | BadRoot | BadDatabase | OtherDatabase | OtherRoute
                       | Refused(error: IdentityError) | BadRouteLabels | RouteMismatch | NotRedacted | BadRecord
                       | UnknownCapability | Drifted

  /** The redacted receipt of a launch. */
  datatype Record = Record(capabilityId: string, sha: string, rootKey: string, projectRoot: string,
                           databasePath: string)

  const COMMAND := ["-m", "peerbridge_mcp", "serve"]

  function RouteOf(args: seq<string>): Result<Route, LaunchError> {
    var client, provider := OptionalOption(args, "--client-name"), OptionalOption(args, "--provider-id");
    var model, reasoning := OptionalOption(args, "--model-id"), OptionalOption(args, "--reasoning-mode");
    var routeClass := OptionalOption(args, "--route-class");
    if client.Err? || provider.Err? || model.Err? || reasoning.Err? || routeClass.Err? then Err(BadOption)
    else Ok(Route(client.value, provider.value, model.value, reasoning.value, routeClass.value))
  }

  /** `verify_agent_identity_route_binding`. */
  function RouteFault(c: Capability, observed: Route): Option<LaunchError> {
    if !IsRoute(Some(observed)) then Some(BadRouteLabels)
    else if c.binding.route.Some? then if c.binding.route.value != observed then Some(RouteMismatch) else None
    else if !c.legacy && observed != Route(None, None, None, None, None) then Some(RouteMismatch)
    else None
  }

  function Redacted(args: seq<string>, at: nat): seq<string> {
    if at + 1 < |args| then args[at + 1 := REDACTED] else args
  }

  /** The four options both verifiers compare with what they were told. */
  datatype Named = Named(root: string, database: string, scope: string, agent: string, capability: string, at: nat)

  function NamedOptions(args: seq<string>): Option<Named> {
    var root, database, scope := SingleOption(args, PROJECT_ROOT), SingleOption(args, DATABASE),
      SingleOption(args, SCOPE);
    var agent, capability := SingleOption(args, AGENT), SingleOption(args, CAPABILITY);
    if root.None? || database.None? || scope.None? || agent.None? || capability.None? then None
    else Some(Named(root.value.1, database.value.1, scope.value.1, agent.value.1, capability.value.1,
                    capability.value.0))
  }

  datatype Launch = Launch(args: seq<string>, record: Record, capability: Capability)

  /** `verify_agent_identity_launch_args`. */
  ghost function VerifiedLaunch(env: Env, ps: Paths, s: State, args: seq<string>, db: string, scope: string,
                                agent: string)
    : Result<Launch, LaunchError>
  {
    if !(COMMAND <= args) then Err(NotAServer)
    else
      match NamedOptions(args)
      case None => Err(BadOption)
      case Some(n) =>
        if !ps.isAbsolute(n.root) || !ps.isDirectory(n.root) then Err(BadRoot)
        else if !ps.isAbsolute(n.database) || !ps.isFile(n.database) || !ps.isAbsolute(db) || !ps.isFile(db) then
          Err(BadDatabase)
        else if !SamePath(ps, n.database, db) then Err(OtherDatabase)
        else if n.scope != scope || n.agent != agent then Err(OtherRoute)
        else
          match Verified(env, s, ps.rootKey(n.root), scope, agent, ps.capabilityPath(n.capability))
          case Err(e) => Err(Refused(e))
          case Ok(c) =>
            match RouteOf(args)
            case Err(e) => Err(e)
            case Ok(route) =>
              if RouteFault(c, route).Some? then Err(RouteFault(c, route).value)
              else Ok(Launch(Redacted(args, n.at),
                             Record(c.key.id, c.sha, ps.rootKey(n.root), ps.resolve(n.root), ps.resolve(db)), c))
  }

  /** `verify_agent_identity_binding_record`. */
  ghost function VerifiedRecord(env: Env, ps: Paths, s: State, record: Record, db: string, scope: string, agent: string)
    : Result<Capability, LaunchError>
  {
    if !ps.isAbsolute(record.projectRoot) || !ps.isDirectory(record.projectRoot) || !ps.isAbsolute(record.databasePath)
       || !ps.isAbsolute(db) || !ps.isFile(db) || !SamePath(ps, record.databasePath, db) then Err(BadRecord)
    else if record.rootKey != ps.rootKey(record.projectRoot) then Err(Drifted)
    else if !IsSafeId(record.capabilityId) || !IsSafeId(scope) then Err(Refused(BadIdentifier))
    else if Key(scope, record.capabilityId) !in s.rows then Err(UnknownCapability)
    else
      match Verified(env, s, ps.rootKey(record.projectRoot), scope, agent, s.rows[Key(scope, record.capabilityId)].path)
      case Err(e) => Err(Refused(e))
      case Ok(c) => if c.sha != record.sha then Err(Drifted) else Ok(c)
  }

  /** `verify_redacted_agent_identity_launch_args`. */
  ghost function VerifiedRedacted(env: Env, ps: Paths, s: State, args: seq<string>, record: Record, db: string,
                                  scope: string, agent: string)
    : Result<Capability, LaunchError>
  {
    if !(COMMAND <= args) then Err(NotAServer)
    else
      match NamedOptions(args)
      case None => Err(BadOption)
      case Some(n) =>
        if n.capability != REDACTED then Err(NotRedacted)
        else if !ps.isAbsolute(n.root) || !ps.isDirectory(n.root) then Err(BadRoot)
        else if !ps.isAbsolute(n.database) || !ps.isAbsolute(db) || !ps.isFile(db) || !SamePath(ps, n.database, db) then
          Err(BadDatabase)
        else if n.scope != scope || n.agent != agent then Err(OtherRoute)
        else
          match VerifiedRecord(env, ps, s, record, db, scope, agent)
          case Err(e) => Err(e)
          case Ok(c) =>
            match RouteOf(args)
            case Err(e) => Err(e)
            case Ok(route) =>
              if RouteFault(c, route).Some? then Err(RouteFault(c, route).value)
              else if !SamePath(ps, n.root, record.projectRoot) || !SamePath(ps, n.database, record.databasePath) then
                Err(Drifted)
              else Ok(c)
  }

  // ----- redaction and the other options -----

  lemma {:induction false} PositionsMeaning(args: seq<string>, option: string)
    ensures forall i :: i in Positions(args, option) <==> 0 <= i < |args| && args[i] == option
  {
    if args != [] {
      PositionsMeaning(args[..|args| - 1], option);
    }
  }

  /** Replacing a value that does not look like an option leaves where each option is. */
  lemma {:induction false} PositionsKept(args: seq<string>, k: nat, value: string, option: string)
    requires k < |args| && !StartsWithDashes(args[k]) && !StartsWithDashes(value) && StartsWithDashes(option)
    ensures Positions(args[k := value], option) == Positions(args, option)
  {
    var n := |args| - 1;
    if k < n {
      assert args[k := value][..n] == args[..n][k := value];
      PositionsKept(args[..n], k, value, option);
    } else {
      assert args[k := value][..n] == args[..n];
    }
  }

  lemma SingleAt(args: seq<string>, option: string)
    ensures var r := SingleOption(args, option);
            r.Some? ==> r.value.0 + 1 < |args| && args[r.value.0] == option && args[r.value.0 + 1] == r.value.1
                        && r.value.1 != "" && !StartsWithDashes(r.value.1)
  {
    PositionsMeaning(args, option);
    if |Positions(args, option)| == 1 {
      assert Positions(args, option)[0] in Positions(args, option);
    }
  }

  /** The only position of the capability option is followed by a value that another option cannot claim. */
  lemma OtherOptionElsewhere(args: seq<string>, option: string)
    requires SingleOption(args, CAPABILITY).Some? && option != CAPABILITY && |Positions(args, option)| == 1
    ensures Positions(args, option)[0] != SingleOption(args, CAPABILITY).value.0
  {
    PositionsMeaning(args, option);
    SingleAt(args, CAPABILITY);
    assert Positions(args, option)[0] in Positions(args, option);
  }

  /** Redaction changes the parse of no option but the redacted one. */
  lemma RedactionKeepsOption(args: seq<string>, option: string)
    requires SingleOption(args, CAPABILITY).Some? && StartsWithDashes(option) && option != CAPABILITY
    ensures var at := SingleOption(args, CAPABILITY).value.0;
            && SingleOption(Redacted(args, at), option) == SingleOption(args, option)
            && OptionalOption(Redacted(args, at), option) == OptionalOption(args, option)
  {
    var at := SingleOption(args, CAPABILITY).value.0;
    SingleAt(args, CAPABILITY);
    assert !StartsWithDashes(REDACTED) by {
      assert REDACTED[0] != '-';
    }
    hide StartsWithDashes;
    PositionsKept(args, at + 1, REDACTED, option);
    hide Positions;
    if |Positions(args, option)| == 1 {
      OtherOptionElsewhere(args, option);
    }
  }

  lemma RedactionMarksCapability(args: seq<string>)
    requires SingleOption(args, CAPABILITY).Some?
    ensures var at := SingleOption(args, CAPABILITY).value.0;
            SingleOption(Redacted(args, at), CAPABILITY) == Some((at, REDACTED))
  {
    var at := SingleOption(args, CAPABILITY).value.0;
    SingleAt(args, CAPABILITY);
    assert !StartsWithDashes(REDACTED) by {
      assert REDACTED[0] != '-';
    }
    PositionsKept(args, at + 1, REDACTED, CAPABILITY);
  }

  lemma RedactionKeepsRoute(args: seq<string>)
    requires NamedOptions(args).Some?
    ensures RouteOf(Redacted(args, NamedOptions(args).value.at)) == RouteOf(args)
  {
    hide SingleOption, OptionalOption, Redacted;
    NamedCapability(args);
    RedactionKeepsOption(args, "--client-name");
    RedactionKeepsOption(args, "--provider-id");
    RedactionKeepsOption(args, "--model-id");
    RedactionKeepsOption(args, "--reasoning-mode");
    RedactionKeepsOption(args, "--route-class");
  }

  lemma NamedCapability(args: seq<string>)
    requires NamedOptions(args).Some?
    ensures SingleOption(args, CAPABILITY) == Some((NamedOptions(args).value.at, NamedOptions(args).value.capability))
  {
  }

  lemma RedactionKeepsNames(args: seq<string>)
    requires NamedOptions(args).Some?
    ensures var n := NamedOptions(args).value;
            NamedOptions(Redacted(args, n.at)) == Some(n.(capability := REDACTED))
  {
    hide SingleOption, OptionalOption, Redacted;
    NamedCapability(args);
    RedactionKeepsOption(args, PROJECT_ROOT);
    RedactionKeepsOption(args, DATABASE);
    RedactionKeepsOption(args, SCOPE);
    RedactionKeepsOption(args, AGENT);
    RedactionMarksCapability(args);
  }

  lemma RedactionKeepsCommand(args: seq<string>)
    requires COMMAND <= args && NamedOptions(args).Some?
    ensures COMMAND <= Redacted(args, NamedOptions(args).value.at)
  {
    NamedCapability(args);
    var at := NamedOptions(args).value.at;
    SingleAt(args, CAPABILITY);
    hide NamedOptions, SingleOption;
    assert args[0] == COMMAND[0] && args[1] == COMMAND[1] && args[2] == COMMAND[2];
    assert args[0] == "-m" && args[1] == "peerbridge_mcp" && args[2] == "serve";
    assert args[0][1] == 'm' && args[1][0] == 'p' && args[2][0] == 's' && CAPABILITY[1] == '-' && CAPABILITY[0] == '-';
    assert at >= 3;
  }

  // ----- accepted launches stay accepted after redaction -----

  /** A capability verifies at the path its row registers, whichever accepted path was given. */
  lemma VerifiedAtRow(env: Env, s: State, root: string, scope: string, agent: string, path: string)
    requires Verified(env, s, root, scope, agent, path).Ok?
    ensures var c := Verified(env, s, root, scope, agent, path).value;
            && c.key.scope == scope && IsSafeId(c.key.id) && IsSafeId(scope)
            && c.key in s.rows && s.rows[c.key].path == path
  {
  }

  lemma VerifiesNow(env: Env, ps: Paths, s: State, args: seq<string>, db: string, scope: string, agent: string)
    requires VerifiedLaunch(env, ps, s, args, db, scope, agent).Ok?
    ensures var l := VerifiedLaunch(env, ps, s, args, db, scope, agent).value;
            StillVerifies(env, s, l.record.rootKey, agent, l.capability)
  {
    var n := NamedOptions(args).value;
    hide Verified, VerifiedLaunch, NamedOptions, IsSafeId;
    LaunchRecords(env, ps, s, args, db, scope, agent);
    VerifiedAtRow(env, s, ps.rootKey(n.root), scope, agent, ps.capabilityPath(n.capability));
  }

  /**
   An accepted launch is accepted again from its redacted arguments and its record, as the same capability; and at any
   later state exactly while that capability still verifies with the same digest.
   */
  lemma RedactedLaunchAccepted(env: Env, ps: Paths, s: State, args: seq<string>, db: string, scope: string,
                               agent: string, later: State)
    requires GoodPaths(ps) && VerifiedLaunch(env, ps, s, args, db, scope, agent).Ok?
    ensures var l := VerifiedLaunch(env, ps, s, args, db, scope, agent).value;
            && VerifiedRedacted(env, ps, s, l.args, l.record, db, scope, agent) == Ok(l.capability)
            && (VerifiedRedacted(env, ps, later, l.args, l.record, db, scope, agent) == Ok(l.capability)
                <==> StillVerifies(env, later, l.record.rootKey, agent, l.capability))
  {
    hide *;
    VerifiesNow(env, ps, s, args, db, scope, agent);
    RedactedFollowsRecord(env, ps, s, args, db, scope, agent, s);
    RedactedFollowsRecord(env, ps, s, args, db, scope, agent, later);
    RecordFollowsCapability(env, ps, s, args, db, scope, agent, s);
    RecordFollowsCapability(env, ps, s, args, db, scope, agent, later);
  }

  /** The capability is registered and its registered file verifies as it did. */
  ghost predicate StillVerifies(env: Env, s: State, root: string, agent: string, c: Capability) {
    c.key in s.rows && Verified(env, s, root, c.key.scope, agent, s.rows[c.key].path) == Ok(c)
  }

  /** For the arguments of an accepted launch, only the record decides. */
  lemma RedactedFollowsRecord(env: Env, ps: Paths, s: State, args: seq<string>, db: string, scope: string,
                              agent: string, at: State)
    requires GoodPaths(ps) && VerifiedLaunch(env, ps, s, args, db, scope, agent).Ok?
    ensures var l := VerifiedLaunch(env, ps, s, args, db, scope, agent).value;
            VerifiedRedacted(env, ps, at, l.args, l.record, db, scope, agent) == Ok(l.capability)
            <==> VerifiedRecord(env, ps, at, l.record, db, scope, agent) == Ok(l.capability)
  {
    hide Verified, RouteFault, VerifiedRecord, NamedOptions, RouteOf, Redacted;
    RedactionKeepsNames(args);
    RedactionKeepsRoute(args);
    RedactionKeepsCommand(args);
  }

  /** What an accepted launch records. */
  lemma LaunchRecords(env: Env, ps: Paths, s: State, args: seq<string>, db: string, scope: string, agent: string)
    requires VerifiedLaunch(env, ps, s, args, db, scope, agent).Ok?
    ensures var l := VerifiedLaunch(env, ps, s, args, db, scope, agent).value;
            var root := NamedOptions(args).value.root;
            && ps.isAbsolute(root) && ps.isDirectory(root) && ps.isAbsolute(db) && ps.isFile(db)
            && l.record == Record(l.capability.key.id, l.capability.sha, ps.rootKey(root), ps.resolve(root),
                                  ps.resolve(db))
            && l.capability.key.scope == scope && IsSafeId(l.capability.key.id) && IsSafeId(scope)
            && Verified(env, s, ps.rootKey(root), scope, agent, ps.capabilityPath(NamedOptions(args).value.capability))
               == Ok(l.capability)
  {
    var n := NamedOptions(args).value;
    VerifiedAtRow(env, s, ps.rootKey(n.root), scope, agent, ps.capabilityPath(n.capability));
    hide Verified, RouteFault, RouteOf, NamedOptions, Redacted, IsSafeId;
  }

  lemma RecordFollowsCapability(env: Env, ps: Paths, s: State, args: seq<string>, db: string, scope: string,
                                agent: string, at: State)
    requires GoodPaths(ps) && VerifiedLaunch(env, ps, s, args, db, scope, agent).Ok?
    ensures var l := VerifiedLaunch(env, ps, s, args, db, scope, agent).value;
            VerifiedRecord(env, ps, at, l.record, db, scope, agent) == Ok(l.capability)
            <==> StillVerifies(env, at, l.record.rootKey, agent, l.capability)
  {
    var root := NamedOptions(args).value.root;
    hide Verified, VerifiedLaunch, NamedOptions, IsSafeId;
    LaunchRecords(env, ps, s, args, db, scope, agent);
    var l := VerifiedLaunch(env, ps, s, args, db, scope, agent).value;
    assert l.capability.key == Key(scope, l.record.capabilityId);
    assert SamePath(ps, l.record.databasePath, db);
    assert ps.rootKey(ps.resolve(root)) == ps.rootKey(root);
  }
}
