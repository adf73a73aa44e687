/**
 Runs that mix every transaction on the authentication tables, starting from empty ones.
 */
module CredentialRuns {
  import opened Options
  import opened Runs
  import opened Identifiers
  import opened CredentialTables
  import LocalAccess
  import GenerationChange
  import ProductionBootstrap
  import AgentCredentials
  import AgentReissue
  import PrincipalAgent

  datatype Action =
    | Bootstrap(config: ProductionBootstrap.Config, checkedAt: int)
    | Provision(request: AgentCredentials.Request, grant: AgentCredentials.Grant)
    | Reprovision(request: AgentCredentials.Request, prior: CredentialId)
    | RevokeAgent(agent: ActorId, performer: ActorId)
    | SeedTenant(synthetic: Tenant)
    | SeedIdentity(who: LocalAccess.Identity)
    | SeedCredential(who: LocalAccess.Identity, binding: LocalAccess.Binding, retired: seq<CredentialId>)
    | Rotate(turns: seq<LocalAccess.Turn>)
    | CreateRuntime(caller: PrincipalAgent.Caller, service: PrincipalAgent.Service, draw: PrincipalAgent.Draw)
    | RevokeRuntime(caller: PrincipalAgent.Caller, agent: ActorId)

  datatype Step = Step(action: Action, now: int)

  /** What a transaction commits; `None` when it raises. The row lists of seeding and rotation
      are the ones their queries return. */
  ghost function Commit(t: Tables, s: Step): Option<Tables> {
    match s.action
    case Bootstrap(c, checkedAt) =>
      var o :- ProductionBootstrap.Bootstrap(t, c, checkedAt, s.now); Some(o.0)
    case Provision(r, g) =>
      var o :- AgentCredentials.Provision(t, r, g, s.now); Some(o.tables)
    case Reprovision(r, prior) =>
      var o :- AgentCredentials.Reprovision(t, r, prior, s.now); Some(o.tables)
    case RevokeAgent(a, performer) => AgentCredentials.RevokeAgent(t, a, performer, s.now)
    case SeedTenant(synthetic) => Some(LocalAccess.SeedTenant(t, synthetic))
    case SeedIdentity(who) => LocalAccess.SeedIdentity(t, who, s.now)
    case SeedCredential(who, b, retired) =>
      if LocalAccess.ListsRetired(t, who, b.issuer, retired) then LocalAccess.SeedCredential(t, who, b, retired, s.now)
      else None
    case Rotate(turns) =>
      if LocalAccess.QueryAnswers(t, turns, s.now) then LocalAccess.RotateAll(t, turns, s.now) else None
    case CreateRuntime(who, service, d) =>
      var o :- PrincipalAgent.Create(t, who, service, d, s.now); Some(o.0)
    case RevokeRuntime(who, a) => PrincipalAgent.RevokeRuntime(t, who, a, s.now)
  }

  /** Commit, or roll back. */
  ghost function After(t: Tables, s: Step): Tables {
    var r := Commit(t, s);
    if r.Some? then r.value else t
  }

  ghost function Run(t: Tables, steps: seq<Step>): Tables {
    RunFrom(After, t, steps)
  }

  lemma CommitSound(t: Tables, s: Step)
    requires Commit(t, s).Some?
    ensures Sound(t, Commit(t, s).value)
  {
    hide Sound, LogAgrees, Preserves, ProductionBootstrap.SeedAll, AgentCredentials.Provision,
         AgentCredentials.Reprovision,
         AgentCredentials.RevokeAgent, LocalAccess.SeedIdentity, LocalAccess.SeedCredential, LocalAccess.RotateAll,
         LocalAccess.ListsRetired, LocalAccess.QueryAnswers, LocalAccess.SeedTenant,
         PrincipalAgent.Create, PrincipalAgent.RevokeRuntime;
    match s.action {
      case Bootstrap(c, checkedAt) => ProductionBootstrap.SeedAllSound(t, c, s.now);
      case Provision(r, g) => AgentCredentials.ProvisionSound(t, r, g, s.now);
      case Reprovision(r, prior) => AgentCredentials.ReprovisionSound(t, r, prior, s.now);
      case RevokeAgent(a, performer) => AgentCredentials.RevokeAgentSound(t, a, performer, s.now);
      case SeedTenant(synthetic) => LocalAccess.SeedTenantSound(t, synthetic);
      case SeedIdentity(who) => LocalAccess.SeedIdentitySound(t, who, s.now);
      case SeedCredential(who, b, retired) => LocalAccess.SeedCredentialSound(t, who, b, retired, s.now);
      case Rotate(turns) => LocalAccess.RotateAllSound(t, turns, s.now);
      case CreateRuntime(who, service, d) => PrincipalAgent.CreateSound(t, who, service, d, s.now);
      case RevokeRuntime(who, a) => PrincipalAgent.RevokeRuntimeSound(t, who, a, s.now);
    }
  }

  lemma {:induction false} RunSound(t: Tables, steps: seq<Step>)
    ensures Sound(t, Run(t, steps))
    decreases |steps|
  {
    hide Sound, Commit;
    if steps == [] {
      SameAccountSound(t, t);
    } else {
      var u := After(t, steps[0]);
      if Commit(t, steps[0]).Some? { CommitSound(t, steps[0]); } else { SameAccountSound(t, t); }
      RunSound(u, steps[1..]);
      SoundTrans(t, u, Run(t, steps));
    }
  }

  /** After every run, folding the event log gives each credential's status, each credential
      has one registration event, and there is none for anything else. */
  lemma EveryRunAgrees(steps: seq<Step>, id: CredentialId)
    ensures var t := Run(Empty, steps);
            && LogAgrees(t) && RuntimesOk(t)
            && LoggedStatus(t.events, id) == (if id in t.credentials then Some(t.credentials[id].status) else None)
            && Registrations(t.events, id) == if id in t.credentials then 1 else 0
  {
    EmptyAgrees();
    RunSound(Empty, steps);
  }

  /** However a run goes on, credentials stay with the grants they were registered with, and a
      revoked one is never active again. */
  lemma NeverRevived(steps: seq<Step>, more: seq<Step>, id: CredentialId)
    requires id in Run(Empty, steps).credentials
    ensures var t, u := Run(Empty, steps), Run(Empty, steps + more);
            && id in u.credentials && SameGrant(t.credentials[id], u.credentials[id])
            && (t.credentials[id].status == Revoked ==> u.credentials[id].status == Revoked)
            && |t.events| <= |u.events| && u.events[..|t.events|] == t.events
  {
    EveryRunAgrees(steps, id);
    RunSplits(After, Empty, steps, more);
    RunSound(Run(Empty, steps), more);
  }

  lemma RunStep(steps: seq<Step>, s: Step, more: seq<Step>)
    ensures Run(Empty, steps + [s] + more) == Run(After(Run(Empty, steps), s), more)
  {
    RunSplits(After, Empty, steps, [s]);
    RunSplits(After, Empty, steps + [s], more);
    var t := Run(Empty, steps);
    assert Run(After(t, s), []) == After(t, s);
    assert [s][1..] == [] && Run(t, [s]) == After(t, s);
  }

  lemma RevokeStep(t: Tables, who: PrincipalAgent.Caller, agent: ActorId, now: int)
    requires PrincipalAgent.RevokeRuntime(t, who, agent, now).Some?
    ensures who.actor in t.runtimes
    ensures After(t, Step(RevokeRuntime(who, agent), now)) == PrincipalAgent.RevokeRuntime(t, who, agent, now).value
  {
    hide PrincipalAgent.Allowed;
  }

  lemma RunAgrees(steps: seq<Step>)
    ensures LogAgrees(Run(Empty, steps)) && RuntimesOk(Run(Empty, steps))
  {
    EmptyAgrees();
    RunSound(Empty, steps);
    hide Run, LogAgrees;
  }

  /** Once a principal has revoked its Agent, no continuation of the run makes its client id
      acceptable again. */
  lemma RuntimeStaysRevoked(steps: seq<Step>, who: PrincipalAgent.Caller, agent: ActorId, now: int, more: seq<Step>,
                            later: int)
    requires PrincipalAgent.RevokeRuntime(Run(Empty, steps), who, agent, now).Some?
    ensures who.actor in Run(Empty, steps).runtimes
    ensures var u := Run(Empty, steps + [Step(RevokeRuntime(who, agent), now)] + more);
            !PrincipalAgent.AcceptsClientId(u, Run(Empty, steps).runtimes[who.actor].clientId, later)
  {
    hide Run, After, Commit, PrincipalAgent.RevokeRuntime, PrincipalAgent.AcceptsClientId, RuntimesOk, RuntimesKept,
         LogAgrees;
    var t := Run(Empty, steps);
    RevokeStep(t, who, agent, now);
    RunStep(steps, Step(RevokeRuntime(who, agent), now), more);
    RunAgrees(steps);
    var v := PrincipalAgent.RevokeRuntime(t, who, agent, now).value;
    PrincipalAgent.RevokeRuntimeSound(t, who, agent, now);
    RunSound(v, more);
    PrincipalAgent.RevokedIsRefused(t, who, agent, now, Run(v, more), later);
  }

  /** Once an Agent was reprovisioned, every later success for it in the run is a repeat of
      that request, with the same answer and no change. */
  lemma ReprovisionedForGood(steps: seq<Step>, r: AgentCredentials.Request, prior: CredentialId, now: int,
                             more: seq<Step>,
                             q: AgentCredentials.Request, other: CredentialId, later: int)
    requires AgentCredentials.Reprovision(Run(Empty, steps), r, prior, now).Some? && q.actor == r.actor
    ensures var u := Run(Empty, steps + [Step(Reprovision(r, prior), now)] + more);
            var again := AgentCredentials.Reprovision(u, q, other, later);
            again.Some? ==>
              AgentReissue.SameReferences(r, q) &&
              again.value.tables == u && again.value.replayed &&
              again.value.credential == AgentCredentials.Reprovision(Run(Empty, steps), r, prior, now).value.credential
  {
    var t, s := Run(Empty, steps), Step(Reprovision(r, prior), now);
    assert After(t, s) == AgentCredentials.Reprovision(t, r, prior, now).value.tables;
    hide Run, AgentCredentials.Reprovision, RuntimesOk, RuntimesKept, LoggedStatus, Registrations, After, Commit,
         Sound, LogAgrees;
    RunStep(steps, s, more);
    EveryRunAgrees(steps, prior);
    var v := AgentCredentials.Reprovision(t, r, prior, now).value.tables;
    RunSound(v, more);
    if AgentCredentials.Reprovision(Run(v, more), q, other, later).Some? {
      AgentReissue.OnlyTheSameSucceeds(t, r, prior, now, Run(v, more), q, other, later);
    }
  }

  /** A local deployment's own run: tenant, system actor, identity and credential are seeded by
      an older startup, and a later one rotates the credential. */
  function LocalRun(synthetic: Tenant, system: LocalAccess.Identity, prior: LocalAccess.Identity,
                    b: LocalAccess.Binding, at: int, now: int): seq<Step>
  {
    [Step(SeedTenant(synthetic), at), Step(SeedIdentity(system), at), Step(SeedIdentity(prior), at),
     Step(SeedCredential(prior, b, []), at),
     Step(Rotate([LocalAccess.Turn(prior.actor, b.issuer, [Generated(0)])]), now)]
  }

  /** Such runs do rotate: the seeded credential ends revoked, with a successor to be found. */
  lemma LocalRunRotates(synthetic: Tenant, system: LocalAccess.Identity, t: Tables, e: GenerationChange.Entrant,
                        at: int, now: int)
    requires LocalAccess.SeedIdentity(LocalAccess.SeedTenant(Empty, synthetic), system, at) == Some(t)
    requires GenerationChange.OlderStartup(t, e, at) && at <= now < e.b.expiresAt
    requires Identifiers.ListItem(e.who.clientId) && |LocalAccess.Extended(e.template)| <= 64
    ensures var u := Run(Empty, LocalRun(synthetic, system, GenerationChange.Prior(e), e.b, at, now));
            && Generated(0) in u.credentials && u.credentials[Generated(0)].status == Revoked
            && exists x :: LocalAccess.Existing(u, e.who, e.b, x)
  {
    var prior := GenerationChange.Prior(e);
    assert FreshId(t) == Generated(0);
    hide GenerationChange.OlderStartup, LocalAccess.SeedIdentity, LocalAccess.SeedCredential,
         LocalAccess.ListsSelected, LocalAccess.ListsRetired, LocalAccess.RotateRows, LocalAccess.Existing,
         LocalAccess.SeedTenant, LocalAccess.Extended, Identifiers.ListItem, Run;
    GenerationChange.ChangeOfGeneration(t, e, at, now, [], now);
    var t1 := LocalAccess.SeedIdentity(t, prior, at).value;
    var t2 := LocalAccess.SeedCredential(t1, prior, e.b, [], at).value;
    var t3 := LocalAccess.Rotate(t2, e.who.actor, e.b.issuer, [Generated(0)], now).value;
    LocalRunIs(synthetic, system, prior, e.b, at, now, t, t1, t2, t3);
  }

  lemma LocalRunIs(synthetic: Tenant, system: LocalAccess.Identity, prior: LocalAccess.Identity, b: LocalAccess.Binding,
                   at: int, now: int, t0: Tables, t1: Tables, t2: Tables, t3: Tables)
    requires LocalAccess.SeedIdentity(LocalAccess.SeedTenant(Empty, synthetic), system, at) == Some(t0)
    requires LocalAccess.SeedIdentity(t0, prior, at) == Some(t1)
    requires LocalAccess.ListsRetired(t1, prior, b.issuer, [])
    requires LocalAccess.SeedCredential(t1, prior, b, [], at) == Some(t2)
    requires LocalAccess.ListsSelected(t2, prior.actor, b.issuer, [Generated(0)], now)
    requires LocalAccess.Rotate(t2, prior.actor, b.issuer, [Generated(0)], now) == Some(t3)
    ensures Run(Empty, LocalRun(synthetic, system, prior, b, at, now)) == t3
  {
    hide LocalAccess.SeedIdentity, LocalAccess.SeedCredential, LocalAccess.ListsSelected,
         LocalAccess.ListsRetired, LocalAccess.RotateRows, LocalAccess.SeedTenant;
    var steps := LocalRun(synthetic, system, prior, b, at, now);
    OneTurn(t2, LocalAccess.Turn(prior.actor, b.issuer, [Generated(0)]), now);
    FiveSteps(Empty, steps);
  }

  lemma OneTurn(t: Tables, turn: LocalAccess.Turn, now: int)
    requires LocalAccess.ListsSelected(t, turn.base, turn.issuer, turn.ids, now)
    requires LocalAccess.Rotate(t, turn.base, turn.issuer, turn.ids, now).Some?
    ensures LocalAccess.QueryAnswers(t, [turn], now)
    ensures LocalAccess.RotateAll(t, [turn], now) == LocalAccess.Rotate(t, turn.base, turn.issuer, turn.ids, now)
  {
    hide LocalAccess.RotateRows, LocalAccess.ListsSelected;
    assert [turn][1..] == [];
    var u := LocalAccess.Rotate(t, turn.base, turn.issuer, turn.ids, now).value;
    assert LocalAccess.RotateAll(u, [], now) == Some(u) && LocalAccess.QueryAnswers(u, [], now);
  }

  lemma FiveSteps(t: Tables, steps: seq<Step>)
    requires |steps| == 5
    ensures Run(t, steps) == After(After(After(After(After(t, steps[0]), steps[1]), steps[2]), steps[3]), steps[4])
  {
    hide After;
    var t1 := After(t, steps[0]);
    var t2 := After(t1, steps[1]);
    var t3 := After(t2, steps[2]);
    var t4 := After(t3, steps[3]);
    assert steps[1..][1..] == steps[2..] && steps[2..][1..] == steps[3..];
    assert steps[3..][1..] == steps[4..] && steps[4..][1..] == [];
    var t5 := After(t4, steps[4]);
    assert steps[4..][0] == steps[4] && Run(t5, []) == t5;
    assert Run(t4, steps[4..]) == Run(t5, steps[4..][1..]);
    assert Run(t3, steps[3..]) == Run(t4, steps[4..]);
    assert Run(t2, steps[2..]) == Run(t3, steps[3..]);
    assert Run(t1, steps[1..]) == Run(t2, steps[2..]);
  }
}
