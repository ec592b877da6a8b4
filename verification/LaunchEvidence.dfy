/**
 When a launch is accepted, read off its arguments (src/peerbridge_mcp/agent_identity.py:112-131, 525-742).
 */
module LaunchEvidence {
  import opened Results
  import opened AgentIdentity
  import opened LaunchArguments
  import IdentityEvidence

  // ----- options -----

  /** The option occurs once, at i, and a value that is neither empty nor an option follows. */
  predicate SaysAt(args: seq<string>, option: string, i: nat, value: string) {
    && i + 1 < |args| && args[i] == option && args[i + 1] == value && value != "" && !("--" <= value)
    && forall j | 0 <= j < |args| && args[j] == option :: j == i
  }

  predicate Says(args: seq<string>, option: string, value: string) {
    exists i: nat | i < |args| :: SaysAt(args, option, i, value)
  }

  predicate SaysOrOmits(args: seq<string>, option: string, value: Option<string>) {
    match value
    case None => option !in args
    case Some(v) => Says(args, option, v)
  }

  lemma {:induction false} PositionsAscend(args: seq<string>, option: string)
    ensures forall k | k in Positions(args, option) :: k < |args|
    ensures forall i, j | 0 <= i < j < |Positions(args, option)| ::
              Positions(args, option)[i] < Positions(args, option)[j]
  {
    if args != [] {
      PositionsAscend(args[..|args| - 1], option);
      var init := Positions(args[..|args| - 1], option);
      assert forall i | 0 <= i < |init| :: init[i] in init;
    }
  }

  lemma SingleIff(args: seq<string>, option: string, i: nat, value: string)
    ensures SingleOption(args, option) == Some((i, value)) <==> SaysAt(args, option, i, value)
  {
    PositionsMeaning(args, option);
    PositionsAscend(args, option);
    var p := Positions(args, option);
    hide Positions;
    assert |p| > 0 ==> p[0] in p;
    assert |p| > 1 ==> p[1] in p && p[0] < p[1];
    if SaysAt(args, option, i, value) {
      assert i in p;
    }
  }

  /** An option has the value that follows its only occurrence, and one that is repeated or without a value has none. */
  lemma OptionIff(args: seq<string>, option: string, value: string)
    ensures Says(args, option, value) <==>
      SingleOption(args, option).Some? && SingleOption(args, option).value.1 == value
    ensures OptionalOption(args, option) == Ok(Some(value)) <==> Says(args, option, value)
    ensures OptionalOption(args, option) == Ok(None) <==> option !in args
  {
    PositionsMeaning(args, option);
    forall i: nat ensures SingleOption(args, option) == Some((i, value)) <==> SaysAt(args, option, i, value) {
      SingleIff(args, option, i, value);
    }
    var r := SingleOption(args, option);
    if r.Some? && r.value.1 == value {
      assert r == Some((r.value.0, value));
    }
    assert option in args <==> Positions(args, option) != [] by {
      if Positions(args, option) != [] {
        assert Positions(args, option)[0] in Positions(args, option);
      }
    }
    hide SingleOption, SaysAt, Positions;
  }

  // ----- the route -----

  predicate ObservedRoute(args: seq<string>, route: Route) {
    && SaysOrOmits(args, "--client-name", route.client) && SaysOrOmits(args, "--provider-id", route.provider)
    && SaysOrOmits(args, "--model-id", route.model) && SaysOrOmits(args, "--reasoning-mode", route.reasoning)
    && SaysOrOmits(args, "--route-class", route.routeClass)
  }

  lemma OptionalIff(args: seq<string>, option: string, value: Option<string>)
    ensures OptionalOption(args, option) == Ok(value) <==> SaysOrOmits(args, option, value)
  {
    OptionIff(args, option, if value.Some? then value.value else "");
  }

  lemma RouteIff(args: seq<string>, route: Route)
    ensures RouteOf(args) == Ok(route) <==> ObservedRoute(args, route)
  {
    hide OptionalOption, SaysOrOmits;
    OptionalIff(args, "--client-name", route.client);
    OptionalIff(args, "--provider-id", route.provider);
    OptionalIff(args, "--model-id", route.model);
    OptionalIff(args, "--reasoning-mode", route.reasoning);
    OptionalIff(args, "--route-class", route.routeClass);
  }

  /**
   The labels are in form; a capability bound to a route is launched with exactly that route, in all five parts; one
   bound to none, unless it is a legacy one, with no label at all.
   */
  predicate RouteAllowed(c: Capability, route: Route) {
    && IdentityEvidence.RouteForm(Some(route))
    && match c.binding.route
       case Some(b) =>
         route.client == b.client && route.provider == b.provider && route.model == b.model
         && route.reasoning == b.reasoning && route.routeClass == b.routeClass
       case None =>
         c.legacy || (route.client.None? && route.provider.None? && route.model.None? && route.reasoning.None?
                      && route.routeClass.None?)
  }

  /** A launch with another route than the bound one is refused, and only that and malformed labels are. */
  lemma RouteFaultIff(c: Capability, route: Route)
    ensures RouteFault(c, route).None? <==> RouteAllowed(c, route)
    ensures RouteFault(c, route) == Some(BadRouteLabels) <==> !IdentityEvidence.RouteForm(Some(route))
    ensures RouteFault(c, route) == Some(LaunchError.RouteMismatch) <==>
      IdentityEvidence.RouteForm(Some(route)) && !RouteAllowed(c, route)
  {
    IdentityEvidence.RouteIff(Some(route));
    hide IsRoute, IdentityEvidence.RouteForm;
  }

  // ----- launches -----

  predicate IsServer(args: seq<string>) {
    |args| >= 3 && args[0] == "-m" && args[1] == "peerbridge_mcp" && args[2] == "serve"
  }

  /** The arguments name an existing root, the database of the evidence, and the expected scope and agent. */
  predicate NamesLaunch(ps: Paths, args: seq<string>, db: string, scope: string, agent: string, root: string,
                        database: string)
  {
    && IsServer(args) && Says(args, "--project-root", root) && Says(args, "--db", database)
    && Says(args, "--scope", scope) && Says(args, "--agent-id", agent)
    && ps.isAbsolute(root) && ps.isDirectory(root) && ps.isAbsolute(database) && ps.isAbsolute(db) && ps.isFile(db)
    && ps.resolve(database) == ps.resolve(db)
  }

  lemma NamedIff(args: seq<string>, n: Named)
    ensures NamedOptions(args) == Some(n) <==>
      && Says(args, "--project-root", n.root) && Says(args, "--db", n.database) && Says(args, "--scope", n.scope)
      && Says(args, "--agent-id", n.agent) && SaysAt(args, "--identity-capability", n.at, n.capability)
  {
    OptionIff(args, "--project-root", n.root);
    OptionIff(args, "--db", n.database);
    OptionIff(args, "--scope", n.scope);
    OptionIff(args, "--agent-id", n.agent);
    SingleIff(args, "--identity-capability", n.at, n.capability);
    hide SingleOption, Says, SaysAt;
  }

  /** The capability named by the arguments verifies and its route is the launched one. */
  ghost predicate LaunchAttested(env: Env, ps: Paths, s: State, args: seq<string>, db: string, scope: string,
                                 agent: string, n: Named, route: Route, l: Launch)
  {
    && NamesLaunch(ps, args, db, scope, agent, n.root, n.database) && ps.isFile(n.database)
    && n.scope == scope && n.agent == agent && SaysAt(args, "--identity-capability", n.at, n.capability)
    && Verified(env, s, ps.rootKey(n.root), scope, agent, ps.capabilityPath(n.capability)) == Ok(l.capability)
    && ObservedRoute(args, route) && RouteAllowed(l.capability, route)
    && l.args == args[n.at + 1 := "<peerbridge-agent-identity-capability>"]
    && l.record == Record(l.capability.key.id, l.capability.sha, ps.rootKey(n.root), ps.resolve(n.root), ps.resolve(db))
  }

  /**
   When a launch is accepted, and with what result: exactly when its arguments name, each once, the root, the database,
   the scope, the agent and a capability that verifies for them, and the launched route is the one the capability is
   bound to.
   */
  lemma LaunchIff(env: Env, ps: Paths, s: State, args: seq<string>, db: string, scope: string, agent: string, l: Launch)
    ensures VerifiedLaunch(env, ps, s, args, db, scope, agent) == Ok(l) <==>
      exists n, route :: LaunchAttested(env, ps, s, args, db, scope, agent, n, route, l)
  {
    hide *;
    if VerifiedLaunch(env, ps, s, args, db, scope, agent) == Ok(l) {
      AcceptedIsAttested(env, ps, s, args, db, scope, agent);
    }
    if n, route :| LaunchAttested(env, ps, s, args, db, scope, agent, n, route, l) {
      AttestedIsAccepted(env, ps, s, args, db, scope, agent, n, route, l);
    }
  }

  lemma ServerIff(args: seq<string>)
    ensures COMMAND <= args <==> IsServer(args)
  {
    if IsServer(args) {
      assert args[..3] == COMMAND;
    }
  }

  /** The conditions of an accepted launch, one by one. */
  lemma AcceptedParts(env: Env, ps: Paths, s: State, args: seq<string>, db: string, scope: string, agent: string,
                      n: Named, route: Route, l: Launch)
    ensures VerifiedLaunch(env, ps, s, args, db, scope, agent) == Ok(l)
            && NamedOptions(args) == Some(n) && RouteOf(args) == Ok(route)
            <==>
            && IsServer(args) && NamedOptions(args) == Some(n) && RouteOf(args) == Ok(route)
            && ps.isAbsolute(n.root) && ps.isDirectory(n.root) && ps.isAbsolute(n.database) && ps.isFile(n.database)
            && ps.isAbsolute(db) && ps.isFile(db) && ps.resolve(n.database) == ps.resolve(db)
            && n.scope == scope && n.agent == agent
            && Verified(env, s, ps.rootKey(n.root), scope, agent, ps.capabilityPath(n.capability)) == Ok(l.capability)
            && RouteFault(l.capability, route).None? && l.args == Redacted(args, n.at)
            && l.record == Record(l.capability.key.id, l.capability.sha, ps.rootKey(n.root), ps.resolve(n.root),
                                  ps.resolve(db))
  {
    ServerIff(args);
    hide Verified, NamedOptions, RouteOf, RouteFault, Redacted, IsServer;
  }

  lemma AcceptedIsAttested(env: Env, ps: Paths, s: State, args: seq<string>, db: string, scope: string, agent: string)
    requires VerifiedLaunch(env, ps, s, args, db, scope, agent).Ok?
    ensures NamedOptions(args).Some? && RouteOf(args).Ok?
    ensures LaunchAttested(env, ps, s, args, db, scope, agent, NamedOptions(args).value, RouteOf(args).value,
                           VerifiedLaunch(env, ps, s, args, db, scope, agent).value)
  {
    AcceptedHasParts(env, ps, s, args, db, scope, agent);
    var n, route, l := NamedOptions(args).value, RouteOf(args).value,
      VerifiedLaunch(env, ps, s, args, db, scope, agent).value;
    hide Verified, VerifiedLaunch, NamedOptions, RouteOf, RouteFault, IsServer, Says, ObservedRoute, RouteAllowed;
    AcceptedParts(env, ps, s, args, db, scope, agent, n, route, l);
    NamedIff(args, n);
    RouteIff(args, route);
    RouteFaultIff(l.capability, route);
  }

  lemma AcceptedHasParts(env: Env, ps: Paths, s: State, args: seq<string>, db: string, scope: string, agent: string)
    requires VerifiedLaunch(env, ps, s, args, db, scope, agent).Ok?
    ensures NamedOptions(args).Some? && RouteOf(args).Ok?
  {
    hide Verified, NamedOptions, RouteOf, RouteFault, Redacted;
  }

  lemma AttestedIsAccepted(env: Env, ps: Paths, s: State, args: seq<string>, db: string, scope: string, agent: string,
                           n: Named, route: Route, l: Launch)
    requires LaunchAttested(env, ps, s, args, db, scope, agent, n, route, l)
    ensures VerifiedLaunch(env, ps, s, args, db, scope, agent) == Ok(l)
  {
    hide Verified, VerifiedLaunch, NamedOptions, RouteOf, RouteFault, IsServer, Says, ObservedRoute, RouteAllowed;
    NamedIff(args, n);
    RouteIff(args, route);
    RouteFaultIff(l.capability, route);
    AcceptedParts(env, ps, s, args, db, scope, agent, n, route, l);
  }

  // ----- redacted launches -----

  /** What the record must say of the launch and of the registry. */
  ghost predicate RecordAttested(env: Env, ps: Paths, s: State, record: Record, db: string, scope: string,
                                 agent: string, c: Capability)
  {
    var key := Key(scope, record.capabilityId);
    && ps.isAbsolute(record.projectRoot) && ps.isDirectory(record.projectRoot) && ps.isAbsolute(record.databasePath)
    && ps.isAbsolute(db) && ps.isFile(db) && ps.resolve(record.databasePath) == ps.resolve(db)
    && record.rootKey == ps.rootKey(record.projectRoot)
    && IdentityEvidence.IdForm(record.capabilityId) && IdentityEvidence.IdForm(scope) && key in s.rows
    && Verified(env, s, record.rootKey, scope, agent, s.rows[key].path) == Ok(c) && c.sha == record.sha
  }

  ghost predicate RedactedAttested(env: Env, ps: Paths, s: State, args: seq<string>, record: Record, db: string,
                                   scope: string, agent: string, n: Named, route: Route, c: Capability)
  {
    && NamesLaunch(ps, args, db, scope, agent, n.root, n.database) && n.scope == scope && n.agent == agent
    && SaysAt(args, "--identity-capability", n.at, n.capability)
    && n.capability == "<peerbridge-agent-identity-capability>"
    && RecordAttested(env, ps, s, record, db, scope, agent, c)
    && ObservedRoute(args, route) && RouteAllowed(c, route) && ps.resolve(n.root) == ps.resolve(record.projectRoot)
  }

  /**
   Redacted arguments are accepted exactly when they name the root, database, scope and agent of the record, the
   registered capability of the record verifies with the recorded digest, and the route is the one it is bound to.
   */
  lemma RedactedIff(env: Env, ps: Paths, s: State, args: seq<string>, record: Record, db: string, scope: string,
                    agent: string, c: Capability)
    ensures VerifiedRedacted(env, ps, s, args, record, db, scope, agent) == Ok(c) <==>
      exists n, route :: RedactedAttested(env, ps, s, args, record, db, scope, agent, n, route, c)
  {
    hide *;
    if VerifiedRedacted(env, ps, s, args, record, db, scope, agent) == Ok(c) {
      RedactedIsAttested(env, ps, s, args, record, db, scope, agent);
    }
    if n, route :| RedactedAttested(env, ps, s, args, record, db, scope, agent, n, route, c) {
      AttestedIsRedacted(env, ps, s, args, record, db, scope, agent, n, route, c);
    }
  }

  lemma RecordIff(env: Env, ps: Paths, s: State, record: Record, db: string, scope: string, agent: string,
                  c: Capability)
    ensures VerifiedRecord(env, ps, s, record, db, scope, agent) == Ok(c) <==>
      RecordAttested(env, ps, s, record, db, scope, agent, c)
  {
    IdentityEvidence.FormsIff(record.capabilityId);
    IdentityEvidence.FormsIff(scope);
    hide Verified, IsSafeId, IdentityEvidence.IdForm;
  }

  /** The conditions of accepted redacted arguments, one by one. */
  lemma RedactedParts(env: Env, ps: Paths, s: State, args: seq<string>, record: Record, db: string, scope: string,
                      agent: string, n: Named, route: Route, c: Capability)
    requires NamedOptions(args) == Some(n) && RouteOf(args) == Ok(route)
    ensures VerifiedRedacted(env, ps, s, args, record, db, scope, agent) == Ok(c)
            <==>
            && IsServer(args) && n.capability == REDACTED
            && ps.isAbsolute(n.root) && ps.isDirectory(n.root) && ps.isAbsolute(n.database)
            && ps.isAbsolute(db) && ps.isFile(db) && ps.resolve(n.database) == ps.resolve(db)
            && n.scope == scope && n.agent == agent
            && VerifiedRecord(env, ps, s, record, db, scope, agent) == Ok(c) && RouteFault(c, route).None?
            && ps.resolve(n.root) == ps.resolve(record.projectRoot)
            && ps.resolve(n.database) == ps.resolve(record.databasePath)
  {
    ServerIff(args);
    hide VerifiedRecord, NamedOptions, RouteOf, RouteFault, IsServer;
  }

  lemma RedactedHasParts(env: Env, ps: Paths, s: State, args: seq<string>, record: Record, db: string, scope: string,
                         agent: string)
    requires VerifiedRedacted(env, ps, s, args, record, db, scope, agent).Ok?
    ensures NamedOptions(args).Some? && RouteOf(args).Ok?
  {
    hide VerifiedRecord, NamedOptions, RouteOf, RouteFault;
  }

  lemma RedactedIsAttested(env: Env, ps: Paths, s: State, args: seq<string>, record: Record, db: string, scope: string,
                           agent: string)
    requires VerifiedRedacted(env, ps, s, args, record, db, scope, agent).Ok?
    ensures NamedOptions(args).Some? && RouteOf(args).Ok?
    ensures RedactedAttested(env, ps, s, args, record, db, scope, agent, NamedOptions(args).value, RouteOf(args).value,
                             VerifiedRedacted(env, ps, s, args, record, db, scope, agent).value)
  {
    RedactedHasParts(env, ps, s, args, record, db, scope, agent);
    hide VerifiedRedacted, VerifiedRecord, RecordAttested, NamedOptions, RouteOf, RouteFault, ObservedRoute,
         RouteAllowed, Says, IsServer;
    var n, route := NamedOptions(args).value, RouteOf(args).value;
    var c := VerifiedRedacted(env, ps, s, args, record, db, scope, agent).value;
    NamedIff(args, n);
    RouteIff(args, route);
    RouteFaultIff(c, route);
    RecordIff(env, ps, s, record, db, scope, agent, c);
    RedactedParts(env, ps, s, args, record, db, scope, agent, n, route, c);
  }

  lemma AttestedIsRedacted(env: Env, ps: Paths, s: State, args: seq<string>, record: Record, db: string, scope: string,
                           agent: string, n: Named, route: Route, c: Capability)
    requires RedactedAttested(env, ps, s, args, record, db, scope, agent, n, route, c)
    ensures VerifiedRedacted(env, ps, s, args, record, db, scope, agent) == Ok(c)
  {
    hide VerifiedRedacted, VerifiedRecord, RecordAttested, NamedOptions, RouteOf, RouteFault, ObservedRoute,
         RouteAllowed, Says, IsServer;
    NamedIff(args, n);
    RouteIff(args, route);
    RouteFaultIff(c, route);
    RecordIff(env, ps, s, record, db, scope, agent, c);
    DatabaseOf(env, ps, s, record, db, scope, agent, c);
    RedactedParts(env, ps, s, args, record, db, scope, agent, n, route, c);
  }

  lemma DatabaseOf(env: Env, ps: Paths, s: State, record: Record, db: string, scope: string, agent: string,
                   c: Capability)
    requires RecordAttested(env, ps, s, record, db, scope, agent, c)
    ensures ps.resolve(record.databasePath) == ps.resolve(db)
  {
    IdentityEvidence.FormsIff(record.capabilityId);
    IdentityEvidence.FormsIff(scope);
    hide Verified, IsSafeId, IdentityEvidence.IdForm;
  }
}
