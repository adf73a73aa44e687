/**
 The local access transactions as they run against the database: statements update the tables
 one after another inside a transaction, and any failure rolls all of them back.
 */
module LocalAccessDatabase {
  import opened Options
  import opened Identifiers
  import opened CredentialTables
  import opened LocalAccess

  class Database {
    var tables: Tables

    constructor ()
      ensures tables == Empty
    {
      tables := Empty;
    }

    /** The revoking UPDATE and its event, for one credential. */
    method RevokeOne(id: CredentialId, now: int) returns (ok: bool)
      modifies this
      ensures ok <==> Revoke(old(tables), id, now).Some?
      ensures tables == if ok then Revoke(old(tables), id, now).value else old(tables)
    {
      ok := CanRevoke(tables, id, now);
      if ok {
        var revoked := tables.credentials[id].(status := Revoked, updatedAt := now);
        tables := tables.(credentials := tables.credentials[id := revoked]);
        tables := tables.(events := tables.events + [Event(CredentialRevoked, id, None)]);
      }
    }

    /** Revoke the retired credentials one by one; the first failure undoes them all. */
    method RevokeRows(ids: seq<CredentialId>, now: int) returns (ok: bool)
      modifies this
      ensures ok <==> RevokeRetired(old(tables), ids, now).Some?
      ensures tables == if ok then RevokeRetired(old(tables), ids, now).value else old(tables)
    {
      var saved := tables;
      if ids != [] && !CanLog(tables) { return false; }
      var i := 0;
      while i < |ids|
        invariant 0 <= i <= |ids|
        invariant RevokeEach(saved, ids, now) == RevokeEach(tables, ids[i..], now)
      {
        ok := RevokeOne(ids[i], now);
        if !ok {
          tables := saved;
          return false;
        }
        assert ids[i..][1..] == ids[i + 1..];
        i := i + 1;
      }
      ok := true;
    }

    /** One row of the rotation, statement by statement. */
    method RotateRow(selected: map<ActorId, Membership>, id: CredentialId, to: ClientId, now: int) returns (ok: bool)
      modifies this
      ensures ok <==> RotateOne(old(tables), selected, id, to, now).Some?
      ensures ok ==> tables == RotateOne(old(tables), selected, id, to, now).value
    {
      if !Rotatable(tables, id, now) { return true; }
      var c, next := tables.credentials[id], FreshId(tables);
      if c.actor !in tables.memberships || c.actor !in selected { return false; }
      if !WritableRows(tables, selected, id, to, now) { return false; }
      var m := RenewedMembership(tables.memberships[c.actor], selected[c.actor], c.clientId, to);
      tables := tables.(memberships := tables.memberships[c.actor := m]);
      tables := tables.(enrollments := RotatedEnrollments(tables.enrollments, id, c.actor, next, to, now));
      tables := tables.(sessions := EndSessions(tables.sessions, id));
      ok := RevokeOne(id, now);
      if ok {
        var inserted := Register(tables, next, Replacement(c, to, now), None);
        ok := inserted.Some?;
        if ok { tables := inserted.value; }
      }
    }

    /** The SELECT of the rows to rotate, in whatever order the set yields them. */
    method SelectRows(base: ActorId, issuer: string, now: int) returns (ids: seq<CredentialId>)
      ensures ListsSelected(tables, base, issuer, ids, now)
    {
      var rest := set id | id in tables.credentials && Selected(tables, base, issuer, id, now);
      ghost var all := rest;
      ids := [];
      while rest != {}
        invariant Distinct(ids) && rest <= all && forall id :: id in ids <==> id in all && id !in rest
        decreases |rest|
      {
        var id :| id in rest;
        rest := rest - {id};
        ids := ids + [id];
      }
      hide Selected;
      assert forall id :: Selected(tables, base, issuer, id, now) <==> id in all by {
        OnlyStored(tables, base, issuer, now);
      }
    }

    /** The loop over one identity's rows; a failure leaves the transaction to be rolled back. */
    method RotateSelected(base: ActorId, ids: seq<CredentialId>, now: int) returns (ok: bool)
      modifies this
      ensures ok <==> RotateRows(old(tables), old(tables).memberships, ids, WEB027K + base, now).Some?
      ensures ok ==> tables == RotateRows(old(tables), old(tables).memberships, ids, WEB027K + base, now).value
    {
      var selected, to := tables.memberships, WEB027K + base;
      ghost var start := tables;
      hide RotateOne;
      var i := 0;
      while i < |ids|
        invariant 0 <= i <= |ids|
        invariant RotateRows(start, selected, ids, to, now) == RotateRows(tables, selected, ids[i..], to, now)
      {
        ok := RotateRow(selected, ids[i], to, now);
        assert ids[i..][1..] == ids[i + 1..];
        if !ok { return false; }
        i := i + 1;
      }
      ok := true;
    }

    /** `rotateLocalAccessCredentials`: select and rotate for each identity in turn, and roll
        all of them back together when one fails. `turns` records what the queries returned. */
    method RotateLocalAccess(hosts: seq<(ActorId, string)>, now: int) returns (ok: bool, ghost turns: seq<Turn>)
      modifies this
      ensures |turns| <= |hosts| && (ok ==> |turns| == |hosts|)
      ensures forall k :: 0 <= k < |turns| ==> (turns[k].base, turns[k].issuer) == hosts[k]
      ensures QueryAnswers(old(tables), turns, now)
      ensures ok <==> RotateAll(old(tables), turns, now).Some?
      ensures tables == if ok then RotateAll(old(tables), turns, now).value else old(tables)
      ensures Sound(old(tables), tables)
    {
      var saved := tables;
      turns := [];
      var i := 0;
      hide ListsSelected, RotateRows, Sound;
      while i < |hosts|
        invariant 0 <= i <= |hosts| && |turns| == i
        invariant forall k :: 0 <= k < |turns| ==> (turns[k].base, turns[k].issuer) == hosts[k]
        invariant QueryAnswers(saved, turns, now) && RotateAll(saved, turns, now) == Some(tables)
      {
        var ids := SelectRows(hosts[i].0, hosts[i].1, now);
        ghost var turn := Turn(hosts[i].0, hosts[i].1, ids);
        NextTurn(saved, turns, turn, tables, now);
        turns := turns + [turn];
        ok := RotateSelected(hosts[i].0, ids, now);
        if !ok {
          tables := saved;
          SameAccountSound(saved, saved);
          return;
        }
        i := i + 1;
      }
      RotateAllSound(saved, turns, now);
      ok := true;
    }

    /** `seedIdentity`: the missing actor, then the membership upsert. */
    method SeedActorAndMembership(who: Identity, now: int) returns (ok: bool)
      modifies this
      ensures ok <==> SeedIdentity(old(tables), who, now).Some?
      ensures tables == if ok then SeedIdentity(old(tables), who, now).value else old(tables)
    {
      var saved := tables;
      if who.controller == Some(who.actor) { return false; }
      if who.actor !in tables.actors {
        tables := tables.(actors := tables.actors[who.actor := Actor(who.actorType, true)]);
      }
      if who.actor !in tables.memberships {
        ok := ControllerKnown(tables, who.actor, who.controller);
        if ok {
          var m := Membership(who.role, who.capabilities, [who.clientId], POLICY, who.controller, Active, now, None, 1);
          tables := tables.(memberships := tables.memberships[who.actor := m]);
        }
      } else {
        var m := tables.memberships[who.actor];
        var differs := m.capabilities != who.capabilities || m.clientIds != [who.clientId] || m.policy != POLICY ||
                       m.controller != who.controller;
        ok := m.role == who.role;
        if ok && Valid(m, now) && differs {
          ok := m.controller == who.controller;
          if ok {
            var updated := m.(capabilities := who.capabilities, clientIds := [who.clientId], policy := POLICY,
                              version := m.version + 1);
            tables := tables.(memberships := tables.memberships[who.actor := updated]);
          }
        }
      }
      if !ok { tables := saved; }
    }
  }

  lemma OnlyStored(t: Tables, base: ActorId, issuer: string, now: int)
    ensures forall id :: Selected(t, base, issuer, id, now) ==> id in t.credentials
  {
  }

  /** One more turn after those that committed. */
  lemma {:induction false} NextTurn(t: Tables, turns: seq<Turn>, turn: Turn, u: Tables, now: int)
    requires QueryAnswers(t, turns, now) && RotateAll(t, turns, now) == Some(u)
    requires ListsSelected(u, turn.base, turn.issuer, turn.ids, now)
    ensures QueryAnswers(t, turns + [turn], now)
    ensures RotateAll(t, turns + [turn], now) == RotateRows(u, u.memberships, turn.ids, WEB027K + turn.base, now)
    decreases |turns|
  {
    hide ListsSelected, RotateRows;
    var more := turns + [turn];
    if turns == [] {
      assert more == [turn] && more[1..] == [];
      var r := RotateRows(u, u.memberships, turn.ids, WEB027K + turn.base, now);
      assert r.Some? ==> RotateAll(r.value, more[1..], now) == r;
    } else {
      assert more[0] == turns[0] && more[1..] == turns[1..] + [turn];
      var t1 := RotateRows(t, t.memberships, turns[0].ids, WEB027K + turns[0].base, now).value;
      NextTurn(t1, turns[1..], turn, u, now);
    }
  }
}
