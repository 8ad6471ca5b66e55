/** The permission cache: filled on reads with a lifetime that ends at the next role expiry, cleared on
    writes. Instants are microseconds. */
module Permissions {
  import opened Common

  const SECOND := 1_000_000

  const TIMEOUT := 3600

  /** A user's assignment to a role. */
  datatype Grant = Grant(active: bool, expires: Option<int>) {
    predicate Expired(now: int) {
      expires.Some? && expires.value < now
    }

    /** Active and not expired at this instant. */
    predicate Counts(now: int) {
      active && !Expired(now)
    }
  }

  /** A cached answer; the instant of the fill is not stored by the cache and is kept here to state what holds. */
  datatype Entry = Entry(permissions: set<nat>, filledAt: int, expiresAt: int)

  /** Grants are keyed by user and role; role permissions are pairs of role and permission. */
  datatype Rbac = Rbac(grants: map<(nat, nat), Grant>, permissions: set<(nat, nat)>, cache: map<nat, Entry>, clock: int)

  datatype Account = Anonymous | Superuser(id: nat) | Member(id: nat)

  function Roles(s: Rbac, user: nat, now: int): set<nat> {
    set k | k in s.grants && k.0 == user && s.grants[k].Counts(now) :: k.1
  }

  /** The uncached computation. */
  function Computed(s: Rbac, user: nat, now: int): set<nat> {
    set x | x in s.permissions && (user, x.0) in s.grants && s.grants[(user, x.0)].Counts(now) :: x.1
  }

  /** The instants after now at which an active role of the user expires. */
  function Expiries(s: Rbac, user: nat, now: int): set<int> {
    set k | k in s.grants && k.0 == user && s.grants[k].active && s.grants[k].expires.Some?
            && now < s.grants[k].expires.value :: s.grants[k].expires.value
  }

  lemma {:induction false} LeastExists(xs: set<int>)
    requires xs != {}
    ensures exists m :: m in xs && forall x :: x in xs ==> m <= x
    decreases |xs|
  {
    assert (forall a :: a !in xs) ==> xs == {};
    var a :| a in xs;
    var rest := xs - {a};
    var m := a;
    if rest != {} {
      LeastExists(rest);
      var b :| b in rest && forall x :: x in rest ==> b <= x;
      m := Min(a, b);
    }
    assert m in xs;
    forall x | x in xs ensures m <= x {
      assert x == a || x in rest;
    }
  }

  function Least(xs: set<int>): (m: int)
    requires xs != {}
    ensures m in xs && forall x :: x in xs ==> m <= x
  {
    LeastExists(xs);
    var m :| m in xs && forall x :: x in xs ==> m <= x;
    m
  }

  /** The cache lifetime in seconds: an hour, or the whole seconds to the next expiry, but at least one. */
  function Lifetime(s: Rbac, user: nat, now: int): (r: int)
    ensures 1 <= r <= TIMEOUT
  {
    var next := Expiries(s, user, now);
    if next == {} then TIMEOUT else Min(TIMEOUT, Max(1, (Least(next) - now) / SECOND))
  }

  predicate Live(s: Rbac, user: nat) {
    user in s.cache && s.clock < s.cache[user].expiresAt
  }

  function Filled(s: Rbac, user: nat): Entry {
    Entry(Computed(s, user, s.clock), s.clock, s.clock + Lifetime(s, user, s.clock) * SECOND)
  }

  /** A read: the live entry, or a fresh one. */
  function Read(s: Rbac, user: nat): Rbac {
    if Live(s, user) then s else s.(cache := s.cache[user := Filled(s, user)])
  }

  /** The answer to a permission check, after any fill. */
  function Answer(s: Rbac, a: Account, permission: nat): bool {
    match a
    case Anonymous => false
    case Superuser(_) => true
    case Member(u) => permission in Read(s, u).cache[u].permissions
  }

  function Cleared(s: Rbac, user: nat): Rbac {
    s.(cache := s.cache - {user})
  }

  /** The users with an active grant of the role, expired or not. */
  function Holders(s: Rbac, role: nat): set<nat> {
    set k | k in s.grants && k.1 == role && s.grants[k].active :: k.0
  }

  function ClearedRole(s: Rbac, role: nat): Rbac {
    s.(cache := s.cache - Holders(s, role))
  }

  function Saved(s: Rbac, user: nat, role: nat, g: Grant): Rbac {
    Cleared(s.(grants := s.grants[(user, role) := g]), user)
  }

  datatype Event =
    | Pass(elapsed: nat)
    | Check(user: nat)
    | Assign(user: nat, role: nat, expires: Option<int>)
    | Remove(user: nat, role: nat)
    | Save(user: nat, role: nat, grant: Grant)
    | Allow(role: nat, permission: nat)
    | Disallow(role: nat, permission: nat)

  function Step(s: Rbac, e: Event): Rbac {
    match e
    case Pass(d) => s.(clock := s.clock + d)
    case Check(u) => Read(s, u)
    case Assign(u, r, x) => Saved(s, u, r, Grant(true, x))
    case Remove(u, r) => Cleared(s.(grants := s.grants - {(u, r)}), u)
    case Save(u, r, g) => Saved(s, u, r, g)
    case Allow(r, p) =>
      if (r, p) in s.permissions then s else ClearedRole(s.(permissions := s.permissions + {(r, p)}), r)
    case Disallow(r, p) =>
      if (r, p) !in s.permissions then s else ClearedRole(s.(permissions := s.permissions - {(r, p)}), r)
  }

  function Run(s: Rbac, events: seq<Event>): Rbac {
    if events == [] then s
    else Step(Run(s, events[..|events| - 1]), events[|events| - 1])
  }

  // ----- Every entry is what the tables gave when it was filled

  ghost predicate EntryOk(s: Rbac, u: nat) {
    u in s.cache ==>
      && s.cache[u].permissions == Computed(s, u, s.cache[u].filledAt)
      && s.cache[u].expiresAt == s.cache[u].filledAt + Lifetime(s, u, s.cache[u].filledAt) * SECOND
      && s.cache[u].filledAt <= s.clock
  }

  ghost predicate CacheOk(s: Rbac) {
    forall u: nat :: EntryOk(s, u)
  }

  /** A user's entry survives writes that leave the user's grants and what they give as they were. */
  lemma {:induction false} EntrySurvives(s: Rbac, s': Rbac, u: nat)
    requires EntryOk(s, u) && s.clock <= s'.clock
    requires u in s'.cache ==> u in s.cache && s'.cache[u] == s.cache[u]
    requires forall r: nat :: (u, r) in s.grants <==> (u, r) in s'.grants
    requires forall r: nat :: (u, r) in s.grants ==> s'.grants[(u, r)] == s.grants[(u, r)]
    requires u in s'.cache ==>
               (forall x :: (x in s.permissions <==> x in s'.permissions)
                            || !((u, x.0) in s.grants && s.grants[(u, x.0)].active))
    ensures EntryOk(s', u)
  {
    if u in s'.cache {
      var at := s.cache[u].filledAt;
      assert Computed(s', u, at) == Computed(s, u, at);
      assert Expiries(s', u, at) == Expiries(s, u, at) by {
        assert forall k :: k in s.grants && k.0 == u ==> k == (u, k.1);
        assert forall k :: k in s'.grants && k.0 == u ==> k == (u, k.1);
      }
    }
  }

  lemma {:induction false} StepKeeps(s: Rbac, e: Event)
    requires CacheOk(s)
    ensures CacheOk(Step(s, e))
  {
    var s' := Step(s, e);
    forall u: nat ensures EntryOk(s', u) {
      assert EntryOk(s, u);
      match e
      case Allow(r, p) => RoleChangeKeeps(s, e, u);
      case Disallow(r, p) => RoleChangeKeeps(s, e, u);
      case Check(v) =>
        if v != u {
          EntrySurvives(s, s', u);
        } else if !Live(s, v) {
          FreshEntryOk(s, v);
        }
      case Pass(_) => EntrySurvives(s, s', u);
      case Assign(v, _, _) => GrantChangeKeeps(s, e, v, u);
      case Remove(v, _) => GrantChangeKeeps(s, e, v, u);
      case Save(v, _, _) => GrantChangeKeeps(s, e, v, u);
    }
  }

  lemma {:induction false} FreshEntryOk(s: Rbac, v: nat)
    requires !Live(s, v)
    ensures EntryOk(Read(s, v), v)
  {
    var s' := Read(s, v);
    assert Computed(s', v, s.clock) == Computed(s, v, s.clock);
    assert Expiries(s', v, s.clock) == Expiries(s, v, s.clock);
  }

  lemma {:induction false} GrantChangeKeeps(s: Rbac, e: Event, v: nat, u: nat)
    requires EntryOk(s, u)
    requires (e.Assign? || e.Remove? || e.Save?) && e.user == v
    ensures EntryOk(Step(s, e), u)
  {
    if u != v {
      EntrySurvives(s, Step(s, e), u);
    }
  }

  lemma {:induction false} RoleChangeKeeps(s: Rbac, e: Event, u: nat)
    requires EntryOk(s, u) && (e.Allow? || e.Disallow?)
    ensures EntryOk(Step(s, e), u)
  {
    var s' := Step(s, e);
    if u in s'.cache && s' != s {
      forall x | x !in s.permissions || x !in s'.permissions
        ensures (x in s.permissions <==> x in s'.permissions) || !((u, x.0) in s.grants && s.grants[(u, x.0)].active)
      {
        assert u !in Holders(s, e.role);
      }
      EntrySurvives(s, s', u);
    }
  }

  lemma {:induction false} RunKeeps(s: Rbac, events: seq<Event>)
    requires CacheOk(s)
    ensures CacheOk(Run(s, events))
    decreases |events|
  {
    if events != [] {
      RunKeeps(s, events[..|events| - 1]);
      StepKeeps(Run(s, events[..|events| - 1]), events[|events| - 1]);
    }
  }

  // ----- How long a live entry can disagree

  /** The active roles of a user that expire in [from, to). */
  ghost predicate ExpiresWithin(s: Rbac, user: nat, role: nat, from: int, to: int) {
    (user, role) in s.grants && s.grants[(user, role)].active
    && s.grants[(user, role)].expires.Some? && from <= s.grants[(user, role)].expires.value < to
  }

  /** A role that a live entry still counts and that has expired since did so at the very instant of the
      fill, or after it and within the second that the entry lives at least. */
  lemma {:induction false} StaleRole(s: Rbac, user: nat, role: nat)
    requires EntryOk(s, user) && Live(s, user)
    requires ExpiresWithin(s, user, role, s.cache[user].filledAt, s.clock)
    ensures
      var x, at := s.grants[(user, role)].expires.value, s.cache[user].filledAt;
      x == at || (at < x < s.clock < at + SECOND)
  {
    var x, at := s.grants[(user, role)].expires.value, s.cache[user].filledAt;
    if at < x {
      var next := Expiries(s, user, at);
      assert (user, role) in s.grants;
      assert x in next;
      var seconds := (Least(next) - at) / SECOND;
      assert Least(next) <= x;
      assert seconds * SECOND <= Least(next) - at;
    }
  }

  /** The cached and the recomputed roles differ exactly by the roles that expired since the fill. */
  lemma {:induction false} RolesSinceFill(s: Rbac, user: nat, at: int, now: int, role: nat)
    requires at <= now
    ensures role in Roles(s, user, now) <==>
              role in Roles(s, user, at) && !ExpiresWithin(s, user, role, at, now)
  {
    assert role in Roles(s, user, now) <==> (user, role) in s.grants && s.grants[(user, role)].Counts(now) by {
      RoleCounts(s, user, now, role);
    }
    RoleCounts(s, user, at, role);
  }

  lemma {:induction false} RoleCounts(s: Rbac, user: nat, now: int, role: nat)
    ensures role in Roles(s, user, now) <==> (user, role) in s.grants && s.grants[(user, role)].Counts(now)
  {
    if (user, role) in s.grants && s.grants[(user, role)].Counts(now) {
      var k := (user, role);
      assert k in s.grants && k.0 == user && k.1 == role;
    }
  }

  /** A counting role of the user gives the permission now. */
  ghost predicate Gives(s: Rbac, user: nat, role: nat, permission: nat, now: int) {
    (role, permission) in s.permissions && (user, role) in s.grants && s.grants[(user, role)].Counts(now)
  }

  lemma {:induction false} ComputedMeans(s: Rbac, user: nat, permission: nat, now: int)
    ensures permission in Computed(s, user, now) <==> exists r: nat :: Gives(s, user, r, permission, now)
  {
    if permission in Computed(s, user, now) {
      var x :| x in s.permissions && (user, x.0) in s.grants && s.grants[(user, x.0)].Counts(now) && x.1 == permission;
      assert x == (x.0, permission);
      assert Gives(s, user, x.0, permission, now);
    }
    if r: nat :| Gives(s, user, r, permission, now) {
      var x := (r, permission);
      assert x in s.permissions && x.1 == permission;
    }
  }

  /** A role with the permission that has expired, at the very instant of the fill, or after it when the
      fill is less than a second ago. */
  ghost predicate Outlived(s: Rbac, user: nat, role: nat, permission: nat)
    requires user in s.cache
  {
    && (role, permission) in s.permissions && (user, role) in s.grants && s.grants[(user, role)].active
    && s.grants[(user, role)].expires.Some?
    && var x, at := s.grants[(user, role)].expires.value, s.cache[user].filledAt;
    && x < s.clock
    && (x == at || (at < x && s.clock < at + SECOND))
  }

  /** A live entry outlives a role's permission exactly when the role counted at the fill and not any more. */
  lemma {:induction false} OutlivedExactly(s: Rbac, user: nat, role: nat, permission: nat)
    requires EntryOk(s, user) && Live(s, user)
    ensures Outlived(s, user, role, permission) <==>
              && Gives(s, user, role, permission, s.cache[user].filledAt)
              && !Gives(s, user, role, permission, s.clock)
  {
    var at := s.cache[user].filledAt;
    if Gives(s, user, role, permission, at) && !Gives(s, user, role, permission, s.clock) {
      assert ExpiresWithin(s, user, role, at, s.clock);
      StaleRole(s, user, role);
    }
  }

  /** After every run, on any clock, a cached answer differs from the recomputed one iff the entry is live,
      it has outlived a role with the permission, and no counting role gives the permission now. */
  lemma {:induction false} DisagreementExactly(s: Rbac, events: seq<Event>, user: nat, permission: nat)
    requires CacheOk(s)
    ensures
      var now := Run(s, events);
      (Answer(now, Member(user), permission) != (permission in Computed(now, user, now.clock))) <==>
        && Live(now, user)
        && (exists r: nat :: Outlived(now, user, r, permission))
        && (forall r: nat :: !Gives(now, user, r, permission, now.clock))
  {
    RunKeeps(s, events);
    var now := Run(s, events);
    assert EntryOk(now, user);
    if Live(now, user) {
      var at := now.cache[user].filledAt;
      ComputedMeans(now, user, permission, at);
      ComputedMeans(now, user, permission, now.clock);
      ComputedShrinks(now, user, at, now.clock);
      forall r: nat
        ensures Outlived(now, user, r, permission) <==>
                  Gives(now, user, r, permission, at) && !Gives(now, user, r, permission, now.clock)
      {
        OutlivedExactly(now, user, r, permission);
      }
    }
  }

  ghost predicate WholeSeconds(s: Rbac) {
    && s.clock % SECOND == 0
    && (forall u :: u in s.cache ==> s.cache[u].filledAt % SECOND == 0)
    && (forall k :: k in s.grants && s.grants[k].expires.Some? ==> s.grants[k].expires.value % SECOND == 0)
  }

  /** No active role of the user expires at the instant at which the user's entry was filled. */
  ghost predicate NoExpiryAtFill(s: Rbac, user: nat) {
    user in s.cache ==> forall r: nat :: (user, r) in s.grants && s.grants[(user, r)].active ==>
      s.grants[(user, r)].expires != Some(s.cache[user].filledAt)
  }

  /** On a clock of whole seconds, the answers differ iff the live entry was filled earlier, at the very
      second at which a role with the permission expired, and no counting role gives the permission now. */
  lemma {:induction false} WholeSecondDisagreementExactly(s: Rbac, events: seq<Event>, user: nat, permission: nat)
    requires CacheOk(s) && WholeSeconds(Run(s, events))
    ensures
      var now := Run(s, events);
      (Answer(now, Member(user), permission) != (permission in Computed(now, user, now.clock))) <==>
        && Live(now, user) && now.cache[user].filledAt < now.clock
        && (exists r: nat :: ExpiredAtFill(now, user, r, permission))
        && (forall r: nat :: !Gives(now, user, r, permission, now.clock))
  {
    DisagreementExactly(s, events, user, permission);
    var now := Run(s, events);
    if Live(now, user) {
      forall r: nat
        ensures Outlived(now, user, r, permission) <==>
                  ExpiredAtFill(now, user, r, permission) && now.cache[user].filledAt < now.clock
      {
        if Outlived(now, user, r, permission) {
          NoWholeSecondBetween(now.cache[user].filledAt, now.grants[(user, r)].expires.value);
        }
      }
    }
  }

  /** An active role with the permission expires at the instant at which the user's entry was filled. */
  ghost predicate ExpiredAtFill(s: Rbac, user: nat, role: nat, permission: nat)
    requires user in s.cache
  {
    && (role, permission) in s.permissions && (user, role) in s.grants && s.grants[(user, role)].active
    && s.grants[(user, role)].expires == Some(s.cache[user].filledAt)
  }

  /** So on whole seconds every answer after every run is the answer recomputed now, unless a role expires
      at the very second at which the entry was filled. */
  lemma {:induction false} AnswersAreCurrent(s: Rbac, events: seq<Event>, user: nat, permission: nat)
    requires CacheOk(s)
    requires WholeSeconds(Run(s, events)) && NoExpiryAtFill(Run(s, events), user)
    ensures
      var now := Run(s, events);
      Answer(now, Member(user), permission) <==> permission in Computed(now, user, now.clock)
  {
    WholeSecondDisagreementExactly(s, events, user, permission);
  }

  lemma {:induction false} NoWholeSecondBetween(a: int, x: int)
    requires a % SECOND == 0 && x % SECOND == 0
    ensures !(a < x < a + SECOND)
  {
  }

  /** With fixed tables, time only takes permissions away. */
  lemma {:induction false} ComputedShrinks(s: Rbac, user: nat, at: int, now: int)
    requires at <= now
    ensures Computed(s, user, now) <= Computed(s, user, at)
  {
  }

  /** The proviso is needed: a role that expires at the very instant of the fill still counts then, is not
      seen as a next expiry, and so is served from the cache for the whole hour after it expired. */
  lemma {:induction false} ExpiryAtFillServedForAnHour(wait: nat)
    requires 0 < wait < 3600 * 1_000_000
    ensures
      var s := Rbac(map[(0, 0) := Grant(true, Some(0))], {(0, 7)}, map[], 0);
      var now := Run(s, [Check(0), Pass(wait)]);
      && CacheOk(s) && !NoExpiryAtFill(now, 0)
      && Answer(now, Member(0), 7) && 7 !in Computed(now, 0, now.clock)
  {
    var s := Rbac(map[(0, 0) := Grant(true, Some(0))], {(0, 7)}, map[], 0);
    var events := [Check(0), Pass(wait)];
    assert events[..1] == [Check(0)] && events[..1][..0] == [];
    assert Expiries(s, 0, 0) == {};
    assert (0, 7) in s.permissions;
    assert 7 in Computed(s, 0, 0);
    assert Run(s, events[..1]) == Read(s, 0);
    assert Run(s, events) == Read(s, 0).(clock := wait);
  }

  // ----- What the writes do

  /** The role gives the user the permission at this instant: assigned, active, not past its expiry. */
  predicate GivesAt(s: Rbac, user: nat, role: nat, permission: nat, now: int) {
    && (role, permission) in s.permissions
    && (user, role) in s.grants
    && s.grants[(user, role)].active
    && (s.grants[(user, role)].expires.None? || now <= s.grants[(user, role)].expires.value)
  }

  lemma {:induction false} GivesIs(s: Rbac, user: nat, role: nat, permission: nat, now: int)
    ensures GivesAt(s, user, role, permission, now) <==> Gives(s, user, role, permission, now)
  {
  }

  /** The tables answer yes iff some role gives the permission; without a live entry so does the check. */
  lemma {:induction false} TablesAnswer(s: Rbac, user: nat, permission: nat, now: int)
    ensures permission in Computed(s, user, now) <==> exists r: nat :: GivesAt(s, user, r, permission, now)
    ensures now == s.clock && !Live(s, user) ==>
              (Answer(s, Member(user), permission) <==> exists r: nat :: GivesAt(s, user, r, permission, now))
  {
    ComputedMeans(s, user, permission, now);
    forall r: nat ensures GivesAt(s, user, r, permission, now) <==> Gives(s, user, r, permission, now) {
      GivesIs(s, user, r, permission, now);
    }
  }

  /** Superusers are always allowed, and anonymous users never. */
  lemma {:induction false} FixedAnswers(s: Rbac, id: nat, permission: nat)
    ensures Answer(s, Superuser(id), permission) && !Answer(s, Anonymous, permission)
  {
  }

  /** After a role is removed, its user is allowed exactly what another role gives. */
  lemma {:induction false} AfterRemove(s: Rbac, user: nat, role: nat, permission: nat)
    ensures
      var s' := Step(s, Remove(user, role));
      && (user, role) !in s'.grants
      && (Answer(s', Member(user), permission) <==>
            exists r: nat :: r != role && GivesAt(s, user, r, permission, s.clock))
  {
    var s' := Step(s, Remove(user, role));
    TablesAnswer(s', user, permission, s'.clock);
    forall r: nat
      ensures GivesAt(s', user, r, permission, s.clock) <==> r != role && GivesAt(s, user, r, permission, s.clock)
    {
    }
  }

  /** And whatever happens next, short of giving the role back: cached or not, an answer yes comes from another
      role of the user. */
  lemma {:induction false} RemovedGivesNothing(
    s: Rbac, user: nat, role: nat, events: seq<Event>, permission: nat)
    requires CacheOk(s)
    requires forall i :: 0 <= i < |events| ==>
               !((events[i].Assign? || events[i].Save?) && events[i].user == user && events[i].role == role)
    ensures
      var t := Run(Step(s, Remove(user, role)), events);
      && (user, role) !in t.grants
      && (Answer(t, Member(user), permission) ==>
            exists r: nat, at: int :: r != role && at <= t.clock && GivesAt(t, user, r, permission, at))
  {
    var s' := Step(s, Remove(user, role));
    var t := Run(s', events);
    StepKeeps(s, Remove(user, role));
    RunKeeps(s', events);
    StaysRemoved(s', user, role, events);
    var at := if Live(t, user) then t.cache[user].filledAt else t.clock;
    if Answer(t, Member(user), permission) {
      assert EntryOk(t, user);
      TablesAnswer(t, user, permission, at);
      var r: nat :| GivesAt(t, user, r, permission, at);
      assert r != role && at <= t.clock && GivesAt(t, user, r, permission, at);
    }
  }

  lemma {:induction false} StaysRemoved(s: Rbac, user: nat, role: nat, events: seq<Event>)
    requires (user, role) !in s.grants
    requires forall i :: 0 <= i < |events| ==>
               !((events[i].Assign? || events[i].Save?) && events[i].user == user && events[i].role == role)
    ensures (user, role) !in Run(s, events).grants
    decreases |events|
  {
    if events != [] {
      StaysRemoved(s, user, role, events[..|events| - 1]);
    }
  }

  /** After a role is assigned until x, its user is allowed what the role gives as long as x is not past, and
      what another role gives; in the tables at any later instant, and at once in the answers. */
  lemma {:induction false} AfterAssign(s: Rbac, user: nat, role: nat, x: Option<int>, permission: nat, now: int)
    ensures
      var s' := Step(s, Assign(user, role, x));
      && (permission in Computed(s', user, now) <==>
            || ((role, permission) in s.permissions && (x.None? || now <= x.value))
            || exists r: nat :: r != role && GivesAt(s, user, r, permission, now))
      && (Answer(s', Member(user), permission) <==> permission in Computed(s', user, s.clock))
  {
    var s' := Step(s, Assign(user, role, x));
    TablesAnswer(s', user, permission, now);
    TablesAnswer(s', user, permission, s.clock);
    assert s'.grants[(user, role)] == Grant(true, x);
    forall r: nat
      ensures GivesAt(s', user, r, permission, now) <==>
                if r == role then (role, permission) in s.permissions && (x.None? || now <= x.value)
                else GivesAt(s, user, r, permission, now)
    {
    }
  }

  /** After a permission is added to a role, whoever has the role counting is allowed it. */
  lemma {:induction false} AfterAllow(s: Rbac, user: nat, role: nat, permission: nat)
    requires CacheOk(s) && (user, role) in s.grants && s.grants[(user, role)].Counts(s.clock)
    ensures Answer(Step(s, Allow(role, permission)), Member(user), permission)
  {
    var s' := Step(s, Allow(role, permission));
    StepKeeps(s, Allow(role, permission));
    TablesAnswer(s', user, permission, s'.clock);
    assert GivesAt(s', user, role, permission, s'.clock);
    if Live(s', user) {
      assert EntryOk(s', user);
      ComputedShrinks(s', user, s'.cache[user].filledAt, s'.clock);
    }
  }

  /** After it is taken from the role, nobody without another active role with it is. */
  lemma {:induction false} AfterDisallow(s: Rbac, user: nat, role: nat, permission: nat)
    requires CacheOk(s)
    requires forall r: nat :: r != role ==>
               !((r, permission) in s.permissions && (user, r) in s.grants && s.grants[(user, r)].active)
    ensures !Answer(Step(s, Disallow(role, permission)), Member(user), permission)
  {
    var s' := Step(s, Disallow(role, permission));
    StepKeeps(s, Disallow(role, permission));
    TablesAnswer(s', user, permission, s'.clock);
    if Live(s', user) {
      assert EntryOk(s', user);
      TablesAnswer(s', user, permission, s'.cache[user].filledAt);
    }
  }

  /** A write changes nothing that it does not name. */
  lemma {:induction false} WritesNameTheirs(s: Rbac, e: Event, k: (nat, nat), x: (nat, nat))
    ensures
      var s' := Step(s, e);
      && (((k in s'.grants <==> k in s.grants) && (k in s.grants ==> s'.grants[k] == s.grants[k]))
          || ((e.Assign? || e.Remove? || e.Save?) && k == (e.user, e.role)))
      && ((x in s'.permissions <==> x in s.permissions)
          || ((e.Allow? || e.Disallow?) && x == (e.role, e.permission)))
      && (e.Allow? ==> (e.role, e.permission) in s'.permissions)
      && (e.Disallow? ==> (e.role, e.permission) !in s'.permissions)
      && (e.Save? ==> (e.user, e.role) in s'.grants && s'.grants[(e.user, e.role)] == e.grant)
  {
  }

  /** How long an entry lives: an hour, or less up to the next expiry, in whole seconds but at least one. */
  lemma {:induction false} LifetimeExact(s: Rbac, user: nat, role: nat, now: int)
    ensures 1 <= Lifetime(s, user, now) <= 3600
    ensures (user, role) in s.grants && s.grants[(user, role)].active && s.grants[(user, role)].expires.Some?
            && now < s.grants[(user, role)].expires.value ==>
              Lifetime(s, user, now) <= Max(1, (s.grants[(user, role)].expires.value - now) / 1_000_000)
    ensures Lifetime(s, user, now) == 3600
            || exists r: nat :: (user, r) in s.grants && s.grants[(user, r)].active
                 && s.grants[(user, r)].expires.Some? && now < s.grants[(user, r)].expires.value
                 && Lifetime(s, user, now) == Max(1, (s.grants[(user, r)].expires.value - now) / 1_000_000)
  {
    var next := Expiries(s, user, now);
    if next != {} {
      var k :| k in s.grants && k.0 == user && s.grants[k].active && s.grants[k].expires.Some?
               && now < s.grants[k].expires.value && s.grants[k].expires.value == Least(next);
      assert k == (user, k.1);
    }
    if (user, role) in s.grants && s.grants[(user, role)].active && s.grants[(user, role)].expires.Some?
       && now < s.grants[(user, role)].expires.value {
      var x := s.grants[(user, role)].expires.value;
      assert (user, role).0 == user && x in next;
      WholeSecondsInOrder(Least(next) - now, x - now);
    }
  }

  lemma {:induction false} WholeSecondsInOrder(a: int, b: int)
    requires a <= b
    ensures a / 1_000_000 <= b / 1_000_000
  {
  }

  // ----- The service as it runs

  class Service {
    var grants: map<(nat, nat), Grant>
    var permissions: set<(nat, nat)>
    var cache: map<nat, Entry>
    var clock: int

    function State(): Rbac
      reads this
    {
      Rbac(grants, permissions, cache, clock)
    }

    /** Role by role, the permissions of the user's counting roles. */
    method Compute(user: nat) returns (found: set<nat>)
      ensures found == Computed(State(), user, clock)
    {
      found := {};
      var todo := set k | k in grants && k.0 == user && grants[k].active;
      ghost var seen: set<(nat, nat)> := {};
      while todo != {}
        invariant todo + seen == set k | k in grants && k.0 == user && grants[k].active
        invariant found == set x | x in permissions && (user, x.0) in seen && grants[(user, x.0)].Counts(clock) :: x.1
        decreases |todo|
      {
        var k :| k in todo;
        todo := todo - {k};
        seen := seen + {k};
        if !grants[k].Expired(clock) {
          found := found + (set x | x in permissions && x.0 == k.1 :: x.1);
        }
        assert k == (user, k.1);
      }
    }

    /** The cached permissions of a user, computed and stored when there is no live entry. */
    method GetUserPermissions(user: nat) returns (found: set<nat>)
      modifies this`cache
      ensures State() == Read(old(State()), user)
      ensures user in cache && found == cache[user].permissions
    {
      if user in cache && clock < cache[user].expiresAt {
        return cache[user].permissions;
      }
      found := Compute(user);
      var timeout := TIMEOUT;
      var next := Expiries(State(), user, clock);
      if next != {} {
        timeout := Min(timeout, Max(1, (Least(next) - clock) / SECOND));
      }
      cache := cache[user := Entry(found, clock, clock + timeout * SECOND)];
    }

    method HasPermission(account: Account, permission: nat) returns (allowed: bool)
      modifies this`cache
      ensures allowed == Answer(old(State()), account, permission)
      ensures State() == if account.Member? then Read(old(State()), account.id) else old(State())
    {
      match account
      case Anonymous => return false;
      case Superuser(_) => return true;
      case Member(u) =>
        var found := GetUserPermissions(u);
        return permission in found;
    }

    method ClearUser(user: nat)
      modifies this`cache
      ensures State() == Cleared(old(State()), user)
    {
      cache := cache - {user};
    }

    /** One by one, the entries of the users with an active grant of the role. */
    method ClearRole(role: nat)
      modifies this`cache
      ensures State() == ClearedRole(old(State()), role)
    {
      var todo := Holders(State(), role);
      while todo != {}
        invariant todo <= Holders(old(State()), role)
        invariant cache == old(cache) - (Holders(old(State()), role) - todo)
        decreases |todo|
      {
        var u :| u in todo;
        ClearUser(u);
        todo := todo - {u};
      }
    }

    method AssignRole(user: nat, role: nat, expires: Option<int>)
      modifies this`grants, this`cache
      ensures State() == Step(old(State()), Assign(user, role, expires))
    {
      grants := grants[(user, role) := Grant(true, expires)];
      ClearUser(user);
    }

    method RemoveRole(user: nat, role: nat)
      modifies this`grants, this`cache
      ensures State() == Step(old(State()), Remove(user, role))
    {
      grants := grants - {(user, role)};
      ClearUser(user);
    }

    method AllowPermission(role: nat, permission: nat)
      modifies this`permissions, this`cache
      ensures State() == Step(old(State()), Allow(role, permission))
    {
      if (role, permission) !in permissions {
        permissions := permissions + {(role, permission)};
        ClearRole(role);
      }
    }

    method DisallowPermission(role: nat, permission: nat)
      modifies this`permissions, this`cache
      ensures State() == Step(old(State()), Disallow(role, permission))
    {
      if (role, permission) in permissions {
        permissions := permissions - {(role, permission)};
        ClearRole(role);
      }
    }
  }
}
