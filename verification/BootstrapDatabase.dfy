/**
 `seedTenantAndIdentity` as it runs: loops over the configuration's entries that insert rows one
 by one, count the credentials inserted, and roll everything back when a check fails.
 */
module BootstrapDatabase {
  import opened Options
  import opened Identifiers
  import opened CredentialTables
  import opened ProductionBootstrap

  class Database {
    var tables: Tables

    /** The unique constraint the database enforces. */
    ghost predicate Valid()
      reads this
    {
      UniqueBindings(tables)
    }

    constructor ()
      ensures Valid() && tables == Empty
    {
      tables := Empty;
    }

    method InsertIdentities(entries: seq<Entry>, policy: string, now: int) returns (ok: bool)
      requires Valid()
      modifies this
      ensures ok <==> SeedIdentities(old(tables), entries, policy, now).Some?
      ensures ok ==> Valid() && tables == SeedIdentities(old(tables), entries, policy, now).value
    {
      hide SeedIdentity, UniqueBindings;
      ghost var start := tables;
      var i := 0;
      while i < |entries|
        invariant 0 <= i <= |entries| && tables.credentials == start.credentials
        invariant SeedIdentities(start, entries, policy, now) == SeedIdentities(tables, entries[i..], policy, now)
      {
        var next := SeedIdentity(tables, EntrySeed(entries[i]), policy, now);
        assert entries[i..][1..] == entries[i + 1..];
        if next.None? { return false; }
        IdentitySound(tables, EntrySeed(entries[i]), policy, now);
        tables := next.value;
        i := i + 1;
      }
      SameUnique(start, tables);
      ok := true;
    }

    method InsertPartners(entries: seq<Entry>, tenant: Tenant) returns (ok: bool)
      requires Valid()
      modifies this
      ensures ok <==> SeedPartners(old(tables), entries, tenant).Some?
      ensures ok ==> Valid() && tables == SeedPartners(old(tables), entries, tenant).value
    {
      ghost var start := tables;
      hide UniqueBindings;
      var i := 0;
      while i < |entries|
        invariant 0 <= i <= |entries| && tables.credentials == start.credentials
        invariant SeedPartners(start, entries, tenant) == SeedPartners(tables, entries[i..], tenant)
      {
        var next := SeedPartner(tables, entries[i], tenant);
        assert entries[i..][1..] == entries[i + 1..];
        if next.None? { return false; }
        tables := next.value;
        i := i + 1;
      }
      SameUnique(start, tables);
      ok := true;
    }

    /** One turn of the credential loop. */
    method InsertCredential(e: Entry, policy: string, now: int) returns (ok: bool, inserted: nat)
      requires Valid()
      modifies this
      ensures ok <==> SeedCredential(old(tables), e, policy, now).Some?
      ensures ok ==> Valid() && SeedCredential(old(tables), e, policy, now) == Some((tables, inserted))
      ensures !ok ==> tables == old(tables)
    {
      inserted := 0;
      var invited := Holders(tables.events, InvitationRef(e));
      var sharing := set x | x in tables.credentials && SharesSender(tables, x, e);
      var clear := (forall x :: x in sharing ==> tables.credentials[x].actor == e.actor) &&
                   forall x, y :: x in sharing && y in sharing ==> x == y;
      assert clear <==> SenderFree(tables, e) by { SharingRows(tables, e, sharing); }
      if |invited| > 1 || (AgentKind(e.kind) && !clear) { return false, 0; }
      var existing := set x | x in tables.credentials && Binds(tables, x, e);
      if existing != {} {
        var id :| id in existing;
        SoleBinding(tables, e, id);
        ok := StoredMatches(tables, id, e, policy);
        return;
      }
      NoBinding(tables, e, existing);
      if invited != [] { return false, 0; }
      var next := Register(tables, FreshId(tables), NewRow(e, policy, now), Some(InvitationRef(e)));
      if next.None? { return false, 0; }
      RegisterUnique(tables, FreshId(tables), NewRow(e, policy, now), Some(InvitationRef(e)));
      tables := next.value;
      return true, 1;
    }

    method InsertCredentials(entries: seq<Entry>, policy: string, now: int) returns (ok: bool, inserted: nat)
      requires Valid()
      modifies this
      ensures ok <==> SeedCredentials(old(tables), entries, policy, now).Some?
      ensures ok ==> Valid() && SeedCredentials(old(tables), entries, policy, now) == Some((tables, inserted))
    {
      hide SeedCredential, UniqueBindings;
      ghost var start := tables;
      inserted := 0;
      var i := 0;
      while i < |entries|
        invariant 0 <= i <= |entries| && Valid()
        invariant SeedCredentials(start, entries, policy, now) ==
                  Plus(SeedCredentials(tables, entries[i..], policy, now), inserted)
      {
        ghost var t := tables;
        var one;
        ok, one := InsertCredential(entries[i], policy, now);
        assert entries[i..][1..] == entries[i + 1..];
        if !ok { return false, 0; }
        PlusPlus(SeedCredentials(tables, entries[i + 1..], policy, now), one, inserted);
        inserted := inserted + one;
        i := i + 1;
      }
      ok := true;
    }

    /** The enrollment of one self-service entry's only active credential. */
    method InsertEnrollment(e: Entry, policy: string) returns (ok: bool)
      modifies this
      ensures ok <==> SeedEnrollment(old(tables), e, policy).Some?
      ensures ok ==> tables == SeedEnrollment(old(tables), e, policy).value
      ensures ok ==> tables.credentials == old(tables).credentials
      ensures !ok ==> tables == old(tables)
    {
      if !SelfService(e.profile) { return true; }
      var held := set x | x in tables.credentials && Holds(tables, x, e);
      HeldRows(tables, e, held);
      if held == {} || exists x, y :: x in held && y in held && x != y { return false; }
      var id :| id in held;
      var key, row := (id, RoleOf(e.profile)), NewEnrollment(e, policy, tables.credentials[id]);
      if !EnrollmentRow(RoleOf(e.profile), row) { return false; }
      if key !in tables.enrollments {
        tables := tables.(enrollments := tables.enrollments[key := row]);
      }
      ok := true;
    }

    method InsertEnrollments(entries: seq<Entry>, policy: string) returns (ok: bool)
      requires Valid()
      modifies this
      ensures ok <==> SeedEnrollments(old(tables), entries, policy).Some?
      ensures ok ==> Valid() && tables == SeedEnrollments(old(tables), entries, policy).value
    {
      hide SeedEnrollment;
      ghost var start := tables;
      var i := 0;
      while i < |entries|
        invariant 0 <= i <= |entries| && tables.credentials == start.credentials
        invariant SeedEnrollments(start, entries, policy) == SeedEnrollments(tables, entries[i..], policy)
      {
        ok := InsertEnrollment(entries[i], policy);
        assert entries[i..][1..] == entries[i + 1..];
        if !ok { return false; }
        i := i + 1;
      }
      SameUnique(start, tables);
      ok := true;
    }

    /** The whole transaction: it commits what `SeedAll` describes, or changes nothing. */
    method SeedTenantAndIdentity(c: Config, now: int) returns (ok: bool, inserted: nat)
      requires Valid()
      modifies this
      ensures Valid()
      ensures ok <==> SeedAll(old(tables), c, now).Some?
      ensures ok ==> SeedAll(old(tables), c, now) == Some((tables, inserted))
      ensures !ok ==> tables == old(tables)
    {
      hide SeedTenant, SeedIdentity, SeedIdentities, SeedCredentials, SeedEnrollments, SeedPartners, UniqueBindings;
      var saved := tables;
      inserted := 0;
      var tenant := SeedTenant(tables, c.tenant);
      if tenant.None? { return false, 0; }
      var system := SeedIdentity(tenant.value, SystemSeed(c), c.policy, now);
      if system.None? { return false, 0; }
      SameCredentials(saved, c, now);
      tables := system.value;
      ok := InsertIdentities(c.entries, c.policy, now);
      if ok { ok := InsertPartners(c.entries, c.tenant); }
      if ok { ok, inserted := InsertCredentials(c.entries, c.policy, now); }
      if ok { ok := InsertEnrollments(c.entries, c.policy); }
      if !ok {
        tables := saved;
        inserted := 0;
      }
    }
  }

  /** The rest of a loop, with what was inserted before it. */
  ghost function Plus(r: Option<(Tables, nat)>, n: nat): Option<(Tables, nat)> {
    if r.None? then None else Some((r.value.0, n + r.value.1))
  }

  lemma PlusPlus(r: Option<(Tables, nat)>, one: nat, n: nat)
    ensures Plus(Plus(r, one), n) == Plus(r, n + one)
  {
  }

  lemma SameUnique(t: Tables, u: Tables)
    requires UniqueBindings(t) && t.credentials == u.credentials
    ensures UniqueBindings(u)
  {
  }

  lemma SameCredentials(t: Tables, c: Config, now: int)
    requires UniqueBindings(t) && SeedTenant(t, c.tenant).Some?
    requires SeedIdentity(SeedTenant(t, c.tenant).value, SystemSeed(c), c.policy, now).Some?
    ensures UniqueBindings(SeedIdentity(SeedTenant(t, c.tenant).value, SystemSeed(c), c.policy, now).value)
  {
    IdentitySound(SeedTenant(t, c.tenant).value, SystemSeed(c), c.policy, now);
  }

  lemma HeldRows(t: Tables, e: Entry, held: set<CredentialId>)
    requires forall x :: x in held <==> x in t.credentials && Holds(t, x, e)
    ensures HoldsOne(t, e) <==> held != {} && !exists x, y :: x in held && y in held && x != y
  {
    assert forall x :: Holds(t, x, e) <==> x in held;
    if held != {} { var x :| x in held; }
  }

  lemma SharingRows(t: Tables, e: Entry, sharing: set<CredentialId>)
    requires forall x :: x in sharing <==> x in t.credentials && SharesSender(t, x, e)
    ensures SenderFree(t, e) <==>
              && (forall x :: x in sharing ==> t.credentials[x].actor == e.actor)
              && forall x, y :: x in sharing && y in sharing ==> x == y
  {
    assert forall x :: SharesSender(t, x, e) <==> x in sharing;
  }

  /** The unique constraint leaves one candidate. */
  lemma SoleBinding(t: Tables, e: Entry, id: CredentialId)
    requires UniqueBindings(t) && Binds(t, id, e)
    ensures forall x :: Binds(t, x, e) ==> x == id
  {
    forall x | Binds(t, x, e) ensures x == id {
      assert SameBinding(t.credentials[x], t.credentials[id]);
    }
  }

  lemma NoBinding(t: Tables, e: Entry, existing: set<CredentialId>)
    requires existing == {} && forall x :: x in existing <==> x in t.credentials && Binds(t, x, e)
    ensures !exists x :: Binds(t, x, e)
  {
    forall x ensures !Binds(t, x, e) { assert x !in existing; }
  }

  lemma RegisterUnique(t: Tables, id: CredentialId, c: Credential, invitation: Option<Hash>)
    requires UniqueBindings(t) && Register(t, id, c, invitation).Some?
    ensures UniqueBindings(Register(t, id, c, invitation).value)
  {
  }
}
