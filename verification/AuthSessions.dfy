/** Login sessions refreshed by any number of replicas, each from a copy it read
    at some earlier time, while other calls revoke them. */
module AuthSessions {
  import opened Wrappers

  datatype Session = Session(
    userId: string,
    accessExpiresAt: int,
    refreshExpiresAt: int,
    lastRefreshedAt: Option<int>,
    revokedAt: Option<int>,
    expiresAt: int)

  type Table = map<string, Session>

  predicate Active(s: Session, now: int) {
    s.revokedAt.None? && s.expiresAt > now
  }

  /** A provider's answer to a refresh, as points in time. */
  datatype Tokens = Tokens(accessExpiresAt: int, refreshExpiresAt: Option<int>)

  function Earlier(a: int, b: int): int {
    if a < b then a else b
  }

  /** A new session lasts no longer than its refresh token, nor than the absolute limit. */
  function NewSession(userId: string, now: int, ttlMs: int, accessExpiresAt: int, refreshExpiresAt: int): Session {
    Session(userId, accessExpiresAt, refreshExpiresAt, None, None, Earlier(refreshExpiresAt, now + ttlMs))
  }

  /** What a refresh that started from `copy` writes over the row it finds. */
  function Refreshed(row: Session, copy: Session, tokens: Tokens, now: int): Session {
    var refreshExpiresAt := if tokens.refreshExpiresAt.Some? then tokens.refreshExpiresAt.value else copy.refreshExpiresAt;
    row.(accessExpiresAt := tokens.accessExpiresAt, refreshExpiresAt := refreshExpiresAt,
         lastRefreshedAt := Some(now), expiresAt := Earlier(refreshExpiresAt, copy.expiresAt))
  }

  /** A created session is found until the earlier of its refresh token's end and the absolute limit. */
  lemma CreatedSessionsAreFound(
    table: Table, id: string, userId: string, now: int, ttlMs: int, accessExpiresAt: int, refreshExpiresAt: int, later: int)
    ensures var s := NewSession(userId, now, ttlMs, accessExpiresAt, refreshExpiresAt);
      && s.userId == userId && s.accessExpiresAt == accessExpiresAt && s.refreshExpiresAt == refreshExpiresAt
      && s.lastRefreshedAt.None?
      && FindActive(table[id := s], id, later) == if later < refreshExpiresAt && later < now + ttlMs then Some(s) else None
  {
  }

  // ---------- Repository calls, each atomic ----------

  function FindActive(table: Table, id: string, now: int): Option<Session> {
    if id in table && Active(table[id], now) then Some(table[id]) else None
  }

  function UpdateAfterRefresh(table: Table, id: string, copy: Session, tokens: Tokens, now: int): Table {
    if FindActive(table, id, now).Some? then table[id := Refreshed(table[id], copy, tokens, now)] else table
  }

  function RevokedAt(s: Session, at: int): Session {
    if s.revokedAt.None? then s.(revokedAt := Some(at), expiresAt := at) else s
  }

  function Revoke(table: Table, id: string, at: int): Table {
    if id in table then table[id := RevokedAt(table[id], at)] else table
  }

  function RevokeAll(table: Table, userId: string, at: int): Table {
    map id | id in table :: if table[id].userId == userId && table[id].expiresAt > at then RevokedAt(table[id], at) else table[id]
  }

  function DeleteExpired(table: Table, now: int): Table {
    map id | id in table && table[id].expiresAt >= now :: table[id]
  }

  /** Revoking a user's sessions ends exactly that user's: none of them is active
      at the time of the revocation or later, everyone else's stays as it was. */
  lemma RevokeAllEndsTheUsers(table: Table, userId: string, at: int, id: string, now: int)
    requires id in table && at <= now
    ensures table[id].userId == userId ==> FindActive(RevokeAll(table, userId, at), id, now).None?
    ensures table[id].userId == userId && Active(table[id], at) ==>
      RevokeAll(table, userId, at)[id] == table[id].(revokedAt := Some(at), expiresAt := at)
    ensures table[id].userId != userId ==> FindActive(RevokeAll(table, userId, at), id, now) == FindActive(table, id, now)
  {
  }

  /** Sweeping takes away exactly the rows past their expiry, so no active session. */
  lemma SweepKeepsTheActive(table: Table, sweptAt: int, id: string, now: int)
    requires sweptAt <= now
    ensures id in DeleteExpired(table, sweptAt) <==> id in table && !(table[id].expiresAt < sweptAt)
    ensures id in DeleteExpired(table, sweptAt) ==> DeleteExpired(table, sweptAt)[id] == table[id]
    ensures FindActive(DeleteExpired(table, sweptAt), id, now) == FindActive(table, id, now)
  {
  }

  // ---------- Every interleaving ----------

  /** The table, every copy any replica ever read, and the expiry each session was created with. */
  datatype World = World(table: Table, seen: set<(string, Session)>, created: map<string, int>)

  datatype Step =
    | CreateSession(id: string, userId: string, now: int, ttlMs: int, accessExpiresAt: int, refreshExpiresAt: int)
    | Read(id: string, now: int)
    | WriteRefresh(id: string, copy: Session, tokens: Tokens, now: int)
    | RevokeOne(id: string, at: int)
    | RevokeUser(userId: string, at: int)
    | Expire(now: int)

  /** Ids are never reused, and a refresh starts from a copy that was read. */
  predicate CanTake(w: World, step: Step) {
    match step
    case CreateSession(id, _, _, _, _, _) => id !in w.created
    case WriteRefresh(id, copy, _, _) => (id, copy) in w.seen
    case _ => true
  }

  function Take(w: World, step: Step): World {
    match step
    case CreateSession(id, userId, now, ttlMs, accessExpiresAt, refreshExpiresAt) =>
      var session := NewSession(userId, now, ttlMs, accessExpiresAt, refreshExpiresAt);
      World(w.table[id := session], w.seen + {(id, session)}, w.created[id := session.expiresAt])
    case Read(id, now) =>
      var found := FindActive(w.table, id, now);
      if found.Some? then w.(seen := w.seen + {(id, found.value)}) else w
    case WriteRefresh(id, copy, tokens, now) =>
      var table := UpdateAfterRefresh(w.table, id, copy, tokens, now);
      w.(table := table, seen := if id in table && FindActive(w.table, id, now).Some? then w.seen + {(id, table[id])} else w.seen)
    case RevokeOne(id, at) => w.(table := Revoke(w.table, id, at))
    case RevokeUser(userId, at) => w.(table := RevokeAll(w.table, userId, at))
    case Expire(now) => w.(table := DeleteExpired(w.table, now))
  }

  /** Where a sequence of steps, of any replicas in any order, leads. */
  function Reached(steps: seq<Step>): Option<World> {
    if steps == [] then Some(World(map[], {}, map[]))
    else
      var before := Reached(steps[..|steps| - 1]);
      var step := steps[|steps| - 1];
      if before.Some? && CanTake(before.value, step) then Some(Take(before.value, step)) else None
  }

  ghost predicate Bounded(w: World) {
    && (forall id | id in w.table :: id in w.created)
    && (forall id | id in w.table && w.table[id].revokedAt.None? :: w.table[id].expiresAt <= w.created[id])
    && (forall r | r in w.seen :: r.0 in w.created && r.1.revokedAt.None? && r.1.expiresAt <= w.created[r.0])
  }

  lemma StepKeepsBound(w: World, step: Step)
    requires Bounded(w) && CanTake(w, step)
    ensures Bounded(Take(w, step))
  {
  }

  /** An unrevoked session never outlives the expiry it was created with. */
  lemma {:induction false} NoRefreshOutlivesCreation(steps: seq<Step>)
    requires Reached(steps).Some?
    ensures Bounded(Reached(steps).value)
  {
    hide Take; hide CanTake; hide Bounded;
    if steps == [] {
      assert Bounded(World(map[], {}, map[])) by { NothingIsBounded(); }
    } else {
      NoRefreshOutlivesCreation(steps[..|steps| - 1]);
      StepKeepsBound(Reached(steps[..|steps| - 1]).value, steps[|steps| - 1]);
    }
  }

  lemma NothingIsBounded()
    ensures Bounded(World(map[], {}, map[]))
  {
  }

  /** Created once, and no longer to be found active by anyone at any time. */
  predicate Dead(w: World, id: string) {
    id in w.created && (id in w.table ==> w.table[id].revokedAt.Some?)
  }

  lemma DeadStaysDead(w: World, step: Step, id: string)
    requires Dead(w, id) && CanTake(w, step)
    ensures Dead(Take(w, step), id)
  {
  }

  /** Once a revoke has committed, no later lookup finds the session, whatever
      refreshes were under way and whatever the replicas' clocks say. */
  lemma {:induction false} RevokedStaysRevoked(steps: seq<Step>, i: nat, j: nat, id: string, now: int)
    requires i <= j <= |steps| && Reached(steps[..i]).Some? && Reached(steps[..j]).Some?
    requires id in Reached(steps[..i]).value.table && Reached(steps[..i]).value.table[id].revokedAt.Some?
    ensures Dead(Reached(steps[..j]).value, id)
    ensures FindActive(Reached(steps[..j]).value.table, id, now).None?
    decreases j
  {
    hide Take; hide CanTake;
    if i == j {
      NoRefreshOutlivesCreation(steps[..i]);
    } else {
      assert steps[..j][..j - 1] == steps[..j - 1];
      RevokedStaysRevoked(steps, i, j - 1, id, now);
      DeadStaysDead(Reached(steps[..j - 1]).value, steps[j - 1], id);
    }
  }

  /** A refresh from a stale copy can raise the stored expiry again, exactly
      when its copy and its refresh token both reach further than the row. */
  lemma RefreshRaisesExpiryIff(row: Session, copy: Session, tokens: Tokens, now: int)
    ensures var next := if tokens.refreshExpiresAt.Some? then tokens.refreshExpiresAt.value else copy.refreshExpiresAt;
      (Refreshed(row, copy, tokens, now).expiresAt > row.expiresAt)
      <==> (copy.expiresAt > row.expiresAt && next > row.expiresAt)
  {
  }

  /** Two replicas refresh from the same copy: the second lifts the limit the first one set. */
  lemma StaleRefreshLiftsALimit() returns (steps: seq<Step>, id: string)
    ensures |steps| == 3 && Reached(steps).Some? && Reached(steps[..2]).Some?
    ensures var before, after := Reached(steps[..2]).value.table, Reached(steps).value.table;
      id in before && id in after && before[id].expiresAt < after[id].expiresAt
  {
    id := "s";
    var copy := Session("u", 10, 100, None, None, 100);
    var one := CreateSession(id, "u", 0, 100, 10, 100);
    var two := WriteRefresh(id, copy, Tokens(20, Some(50)), 11);
    var three := WriteRefresh(id, copy, Tokens(20, None), 12);
    steps := [one, two, three];
    assert steps[..2] == [one, two] && [one, two][..1] == [one] && [one][..0] == [];
    assert Reached([one]) == Some(Take(World(map[], {}, map[]), one));
  }

  // ---------- One replica ----------

  class SessionRepository {
    var table: Table

    constructor ()
      ensures table == map[]
    {
      table := map[];
    }

    method DoUpdateAfterRefresh(id: string, copy: Session, tokens: Tokens, now: int) returns (updated: Option<Session>)
      modifies this
      ensures table == UpdateAfterRefresh(old(table), id, copy, tokens, now)
      ensures updated == if FindActive(old(table), id, now).Some? then Some(table[id]) else None
      // field by field: the new tokens, never past the limit of the copy, over an unrevoked and unexpired row
      ensures updated.Some? <==> id in old(table) && old(table)[id].revokedAt.None? && old(table)[id].expiresAt > now
      ensures updated.Some? ==>
        var s := updated.value;
        && s.accessExpiresAt == tokens.accessExpiresAt
        && (if tokens.refreshExpiresAt.Some? then s.refreshExpiresAt == tokens.refreshExpiresAt.value
            else s.refreshExpiresAt == copy.refreshExpiresAt)
        && s.expiresAt <= s.refreshExpiresAt && s.expiresAt <= copy.expiresAt
        && s.expiresAt in {s.refreshExpiresAt, copy.expiresAt}
        && s.lastRefreshedAt == Some(now) && s.revokedAt.None? && s.userId == old(table)[id].userId
      ensures updated.None? ==> table == old(table)
      ensures table.Keys == old(table).Keys && forall other | other in table && other != id :: table[other] == old(table)[other]
    {
      if id !in table || !Active(table[id], now) {
        return None;
      }
      var row := table[id];
      var refreshExpiresAt := if tokens.refreshExpiresAt.Some? then tokens.refreshExpiresAt.value else copy.refreshExpiresAt;
      row := row.(accessExpiresAt := tokens.accessExpiresAt);
      row := row.(refreshExpiresAt := refreshExpiresAt);
      row := row.(lastRefreshedAt := Some(now));
      row := row.(expiresAt := if refreshExpiresAt < copy.expiresAt then refreshExpiresAt else copy.expiresAt);
      table := table[id := row];
      updated := Some(row);
    }

    method DoRevoke(id: string, at: int)
      modifies this
      ensures table == Revoke(old(table), id, at)
      // never to be found again at any time; the first revocation stands; no other session moves
      ensures forall now :: FindActive(table, id, now).None?
      ensures id in old(table) && old(table)[id].revokedAt.Some? ==> table == old(table)
      ensures id in old(table) && old(table)[id].revokedAt.None? ==>
        id in table && table[id] == old(table)[id].(revokedAt := Some(at), expiresAt := at)
      ensures forall other, now | other != id :: FindActive(table, other, now) == FindActive(old(table), other, now)
    {
      if id in table && table[id].revokedAt.None? {
        table := table[id := table[id].(revokedAt := Some(at), expiresAt := at)];
      }
    }
  }

  /** A refresh under way: what it started from, and whether it is about to revoke. */
  datatype Task = Task(id: string, copy: Session, revoking: bool)

  datatype Answer = Unchanged(session: Session) | LoggedOut | Waiting(task: nat)

  class AuthService {
    const repository: SessionRepository
    const leewayMs: int
    var refreshInFlight: map<string, nat>
    /** Refreshes started and not settled, by number. */
    var tasks: map<nat, Task>
    var nextTask: nat

    constructor (repository: SessionRepository, leewayMs: int)
      ensures Valid() && this.repository == repository && this.leewayMs == leewayMs && tasks == map[]
    {
      this.repository, this.leewayMs := repository, leewayMs;
      refreshInFlight, tasks, nextTask := map[], map[], 0;
    }

    /** The map names every refresh under way. */
    ghost predicate Valid()
      reads this
    {
      && (forall t | t in tasks :: t < nextTask && tasks[t].id in refreshInFlight && refreshInFlight[tasks[t].id] == t)
      && (forall id | id in refreshInFlight :: refreshInFlight[id] in tasks && tasks[refreshInFlight[id]].id == id)
    }

    /** One process runs at most one refresh of a session at a time. */
    ghost predicate OneRefreshPerSession()
      reads this
    {
      forall s, t | s in tasks && t in tasks && tasks[s].id == tasks[t].id :: s == t
    }

    method RefreshSessionIfNeeded(id: string, copy: Session, now: int) returns (answer: Answer)
      requires Valid()
      modifies this, repository
      ensures Valid() && OneRefreshPerSession()
      ensures answer.Unchanged? <==> copy.accessExpiresAt > now + leewayMs
      ensures answer.Unchanged? ==> answer.session == copy
      ensures answer.LoggedOut? <==> copy.accessExpiresAt <= now + leewayMs && copy.refreshExpiresAt <= now
      ensures repository.table == if answer.LoggedOut? then Revoke(old(repository.table), id, now) else old(repository.table)
      ensures answer.Waiting? ==> answer.task in tasks && tasks[answer.task].id == id
      ensures tasks == if answer.Waiting? && id !in old(refreshInFlight)
                       then old(tasks)[answer.task := Task(id, copy, false)] else old(tasks)
    {
      if copy.accessExpiresAt > now + leewayMs {
        return Unchanged(copy);
      }
      if copy.refreshExpiresAt <= now {
        repository.DoRevoke(id, now);
        return LoggedOut;
      }
      if id in refreshInFlight {
        return Waiting(refreshInFlight[id]);
      }
      var task := nextTask;
      nextTask := nextTask + 1;
      tasks := tasks[task := Task(id, copy, false)];
      refreshInFlight := refreshInFlight[id := task];
      return Waiting(task);
    }

    method Settle(task: nat)
      requires Valid() && task in tasks
      modifies this
      ensures Valid() && OneRefreshPerSession() && tasks == old(tasks) - {task}
    {
      refreshInFlight := refreshInFlight - {tasks[task].id};
      tasks := tasks - {task};
    }

    /** The provider answered with tokens. A session revoked meanwhile stays so. */
    method OnTokens(task: nat, tokens: Tokens, now: int) returns (updated: Option<Session>)
      requires Valid() && task in tasks && !tasks[task].revoking
      modifies this, repository
      ensures Valid() && OneRefreshPerSession() && tasks == old(tasks) - {task}
      ensures var t := old(tasks)[task];
        && repository.table == UpdateAfterRefresh(old(repository.table), t.id, t.copy, tokens, now)
        && (updated.Some? <==> FindActive(old(repository.table), t.id, now).Some?)
        && (updated.Some? ==> t.id in repository.table && updated.value == repository.table[t.id])
    {
      var t := tasks[task];
      updated := repository.DoUpdateAfterRefresh(t.id, t.copy, tokens, now);
      Settle(task);
    }

    /** The refresh failed otherwise: the session is kept for another try. */
    method OnTransientFailure(task: nat) returns (session: Session)
      requires Valid() && task in tasks
      modifies this
      ensures Valid() && OneRefreshPerSession() && tasks == old(tasks) - {task} && session == old(tasks)[task].copy
    {
      session := tasks[task].copy;
      Settle(task);
    }

    /** The provider rejected the refresh token. If a sibling refreshed the
        session since the copy was read, its row is used; otherwise the session
        is about to be revoked. */
    method OnUnauthorized(task: nat, now: int) returns (sibling: Option<Session>)
      requires Valid() && task in tasks && !tasks[task].revoking
      modifies this
      ensures Valid() && OneRefreshPerSession()
      ensures var t := old(tasks)[task]; var latest := FindActive(repository.table, t.id, now);
        && sibling == (if latest.Some? && RefreshedSince(t.copy, latest.value) then latest else None)
        // refreshed later than the copy, a session never refreshed counting from the epoch
        && (sibling.Some? <==>
              && t.id in repository.table && repository.table[t.id].revokedAt.None? && repository.table[t.id].expiresAt > now
              && match (repository.table[t.id].lastRefreshedAt, t.copy.lastRefreshedAt)
                 case (Some(theirs), Some(ours)) => theirs > ours
                 case (Some(theirs), None) => theirs > 0
                 case (None, Some(ours)) => 0 > ours
                 case (None, None) => false)
        && tasks == (if sibling.Some? then old(tasks) - {task} else old(tasks)[task := t.(revoking := true)])
    {
      var t := tasks[task];
      var latest := FindActive(repository.table, t.id, now);
      if latest.Some? && RefreshedSince(t.copy, latest.value) {
        Settle(task);
        return latest;
      }
      tasks := tasks[task := t.(revoking := true)];
      return None;
    }

    method OnRevoke(task: nat, at: int)
      requires Valid() && task in tasks && tasks[task].revoking
      modifies this, repository
      ensures Valid() && OneRefreshPerSession() && tasks == old(tasks) - {task}
      ensures repository.table == Revoke(old(repository.table), old(tasks)[task].id, at)
    {
      repository.DoRevoke(tasks[task].id, at);
      Settle(task);
    }
  }

  function RefreshTime(s: Session): int {
    if s.lastRefreshedAt.Some? then s.lastRefreshedAt.value else 0
  }

  predicate RefreshedSince(copy: Session, latest: Session) {
    RefreshTime(latest) > RefreshTime(copy)
  }
}
