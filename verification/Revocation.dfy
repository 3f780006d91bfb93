/** Sign-in sessions over whole runs (backend/app/api/auth_routes.py, backend/app/security.py). */
module Revocation {
  import opened Common
  import opened SessionToken

  /** passwordHash stands for the stored hash; sessionsValidAfter is in microseconds. */
  datatype User = User(username: string, email: Option<string>, passwordHash: string, isActive: bool, isBuiltin: bool,
                       groups: set<string>, sessionsValidAfter: Option<nat>)

  datatype UserUpdate = UserUpdate(email: Option<string>, password: Option<string>, isActive: Option<bool>,
                                   groups: Option<set<string>>)

  /** The signed-in caller of a request. */
  datatype Actor = Actor(id: string, isAdmin: bool)

  datatype Outcome = Done(session: Option<Payload>) | HttpError(code: int)

  /** Password rules and hashing, which libraries provide, and the names in the group table. */
  datatype Rules = Rules(acceptable: string -> bool, hash: string -> string, groupNames: set<string>)

  predicate ChangesPassword(update: UserUpdate)
  {
    update.password.Some? && update.password.value != ""
  }

  /** _set_groups: every account joins "authenticated"; names without a group are dropped. */
  function Joined(names: set<string>, rules: Rules): set<string>
  {
    (names + {"authenticated"}) * rules.groupNames
  }

  // ----- What one update means -----

  /** The refusals, in the order the handler meets them. */
  function Refusal(users: map<string, User>, actor: Actor, userId: string, update: UserUpdate,
                   rules: Rules): Option<int>
  {
    if userId !in users then Some(404)
    else if actor.id != userId && !actor.isAdmin then Some(403)
    else if ChangesPassword(update) && !rules.acceptable(update.password.value) then Some(400)
    else if update.isActive.Some? && (actor.id == userId || users[userId].isBuiltin) then Some(400)
    else if update.groups.Some? && !actor.isAdmin then Some(403)
    else None
  }

  /** An accepted update ends the sessions of its user. */
  predicate Revokes(update: UserUpdate)
  {
    ChangesPassword(update) || update.isActive == Some(false)
  }

  function Updated(user: User, update: UserUpdate, now: nat, rules: Rules): User
  {
    User(user.username,
         if update.email.Some? then update.email else user.email,
         if ChangesPassword(update) then rules.hash(update.password.value) else user.passwordHash,
         if update.isActive.Some? then update.isActive.value else user.isActive,
         user.isBuiltin,
         if update.groups.Some? then Joined(update.groups.value, rules) else user.groups,
         if Revokes(update) then Some(now) else user.sessionsValidAfter)
  }

  /** The stored accounts. */
  class Accounts {
    var users: map<string, User>

    constructor ()
      ensures users == map[]
    {
      users := map[];
    }

    /** PATCH /access/users/{user_id}. A refused request commits nothing, whatever it had assigned. */
    method UpdateUser(actor: Actor, userId: string, update: UserUpdate, now: nat, ttlMinutes: nat, rules: Rules)
      returns (outcome: Outcome)
      modifies this
      ensures match Refusal(old(users), actor, userId, update, rules)
        case Some(code) => users == old(users) && outcome == HttpError(code)
        case None =>
          users == old(users)[userId := Updated(old(users)[userId], update, now, rules)] &&
          outcome == Done(if actor.id == userId && ChangesPassword(update)
                          then Some(NewPayload(userId, old(users)[userId].username, now, ttlMinutes)) else None)
    {
      if userId !in users {
        return HttpError(404);
      }
      var user := users[userId];
      var selfEdit := actor.id == userId;
      if !selfEdit && !actor.isAdmin {
        return HttpError(403);
      }
      if update.email.Some? {
        user := user.(email := update.email);
      }
      if ChangesPassword(update) {
        if !rules.acceptable(update.password.value) {
          return HttpError(400);
        }
        user := user.(passwordHash := rules.hash(update.password.value));
        user := user.(sessionsValidAfter := Some(now));
      }
      if update.isActive.Some? {
        if selfEdit || user.isBuiltin {
          return HttpError(400);
        }
        user := user.(isActive := update.isActive.value);
        if !update.isActive.value {
          user := user.(sessionsValidAfter := Some(now));
        }
      }
      if update.groups.Some? {
        if !actor.isAdmin {
          return HttpError(403);
        }
        user := user.(groups := Joined(update.groups.value, rules));
      }
      users := users[userId := user];
      if selfEdit && ChangesPassword(update) {
        return Done(Some(NewPayload(userId, user.username, now, ttlMinutes)));
      }
      return Done(None);
    }
  }

  // ----- Runs -----

  /** The hub between requests: accounts, clock, and every session issued so far. */
  datatype Hub = Hub(users: map<string, User>, now: nat, issued: set<Payload>)

  /** A login names the account and whether the password verified. */
  datatype Event =
    | Tick(micros: nat)
    | CreateUser(userId: string, user: User)
    | Login(userId: string, verified: bool, ttlMinutes: nat)
    | Update(actor: Actor, userId: string, update: UserUpdate, ttlMinutes: nat)

  function Step(hub: Hub, event: Event, rules: Rules): Hub
  {
    match event
    case Tick(micros) => hub.(now := hub.now + micros)
    case CreateUser(userId, user) =>
      if userId in hub.users then hub
      else hub.(users := hub.users[userId := user.(isActive := true, sessionsValidAfter := None)])
    case Login(userId, verified, ttlMinutes) =>
      if userId in hub.users && hub.users[userId].isActive && verified
      then hub.(issued := hub.issued + {NewPayload(userId, hub.users[userId].username, hub.now, ttlMinutes)})
      else hub
    case Update(actor, userId, update, ttlMinutes) =>
      if Refusal(hub.users, actor, userId, update, rules).Some? then hub
      else
        hub.(users := hub.users[userId := Updated(hub.users[userId], update, hub.now, rules)],
             issued := hub.issued + if actor.id == userId && ChangesPassword(update)
                                    then {NewPayload(userId, hub.users[userId].username, hub.now, ttlMinutes)} else {})
  }

  function Run(hub: Hub, events: seq<Event>, rules: Rules): Hub
    decreases |events|
  {
    if events == [] then hub else Run(Step(hub, events[0], rules), events[1..], rules)
  }

  /** _profile_from_token: the token reads back, its user is active and not revoked since. */
  predicate Accepts(hub: Hub, token: string, lib: Library)
  {
    match ReadSessionToken(Some(token), hub.now, lib)
    case Accepted(p) =>
      p.sub in hub.users && hub.users[p.sub].isActive && SessionStillValid(p, hub.users[p.sub].sessionsValidAfter)
    case _ => false
  }

  /** For an issued token acceptance is a question about its payload. */
  predicate Live(hub: Hub, p: Payload)
  {
    Seconds(hub.now) <= p.exp && p.sub in hub.users && hub.users[p.sub].isActive &&
    SessionStillValid(p, hub.users[p.sub].sessionsValidAfter)
  }

  lemma AcceptsLive(hub: Hub, p: Payload, lib: Library)
    requires Sound(lib)
    ensures Accepts(hub, IssueSessionToken(p, lib), lib) <==> Live(hub, p)
  {
    TokenRoundTrip(p, hub.now, lib);
  }

  /** No revocation lies in the future. */
  ghost predicate Consistent(hub: Hub)
  {
    forall id :: id in hub.users ==>
      hub.users[id].sessionsValidAfter.Some? ==> hub.users[id].sessionsValidAfter.value <= hub.now
  }

  /** A revocation of p's user in a later second than the one p was issued in. */
  predicate RevokedAfter(hub: Hub, p: Payload)
  {
    p.sub in hub.users && hub.users[p.sub].sessionsValidAfter.Some? &&
    p.iat < Seconds(hub.users[p.sub].sessionsValidAfter.value)
  }

  lemma SecondsMonotone(a: nat, b: nat)
    requires a <= b
    ensures Seconds(a) <= Seconds(b)
  {
  }

  lemma StepKeepsRevoked(hub: Hub, event: Event, rules: Rules, p: Payload)
    requires Consistent(hub)
    ensures Consistent(Step(hub, event, rules))
    ensures RevokedAfter(hub, p) ==> RevokedAfter(Step(hub, event, rules), p)
  {
  }

  /** Main result: once revoked in a later second, a token is never accepted again, whatever happens:
      not after the account is enabled again, and not after another password change. */
  lemma {:induction false} RevocationIsPermanent(hub: Hub, events: seq<Event>, rules: Rules, p: Payload, lib: Library)
    requires Sound(lib) && Consistent(hub) && RevokedAfter(hub, p)
    ensures !Accepts(Run(hub, events, rules), IssueSessionToken(p, lib), lib)
    ensures RevokedAfter(Run(hub, events, rules), p)
    decreases |events|
  {
    if events == [] {
      AcceptsLive(hub, p, lib);
    } else {
      StepKeepsRevoked(hub, events[0], rules, p);
      RevocationIsPermanent(Step(hub, events[0], rules), events[1..], rules, p, lib);
    }
  }

  /** The event is an accepted password change or disabling of this user. */
  predicate RevokesUser(hub: Hub, event: Event, rules: Rules, userId: string)
  {
    event.Update? && event.userId == userId && Revokes(event.update) &&
    Refusal(hub.users, event.actor, event.userId, event.update, rules).None?
  }

  /** Every password change and every disabling revokes all tokens issued in an earlier second. */
  lemma RevocationTakesEffect(hub: Hub, event: Event, rules: Rules, p: Payload)
    requires RevokesUser(hub, event, rules, p.sub)
    ensures RevokedAfter(Step(hub, event, rules), p) <==> p.iat < Seconds(hub.now)
  {
  }

  /** Main result: a token issued in an earlier second than a password change or a disabling of its
      user is refused from then on, in every run. */
  lemma RevokedForever(hub: Hub, event: Event, events: seq<Event>, rules: Rules, p: Payload, lib: Library)
    requires Sound(lib) && Consistent(hub) && RevokesUser(hub, event, rules, p.sub) && p.iat < Seconds(hub.now)
    ensures !Accepts(Run(Step(hub, event, rules), events, rules), IssueSessionToken(p, lib), lib)
  {
    RevocationTakesEffect(hub, event, rules, p);
    StepKeepsRevoked(hub, event, rules, p);
    RevocationIsPermanent(Step(hub, event, rules), events, rules, p, lib);
  }

  predicate NoRevocation(hub: Hub, events: seq<Event>, rules: Rules, userId: string)
    decreases |events|
  {
    events == [] ||
    (!RevokesUser(hub, events[0], rules, userId) &&
     NoRevocation(Step(hub, events[0], rules), events[1..], rules, userId))
  }

  /** Main result: while its user is active and no revocation follows, a token issued at or after
      the latest revocation is accepted exactly until its expiry. */
  lemma {:induction false} ValidUntilExpiry(hub: Hub, events: seq<Event>, rules: Rules, p: Payload, lib: Library)
    requires Sound(lib) && p.sub in hub.users && hub.users[p.sub].isActive
    requires SessionStillValid(p, hub.users[p.sub].sessionsValidAfter)
    requires NoRevocation(hub, events, rules, p.sub)
    ensures var later := Run(hub, events, rules);
      Accepts(later, IssueSessionToken(p, lib), lib) <==> Seconds(later.now) <= p.exp
    decreases |events|
  {
    if events == [] {
      AcceptsLive(hub, p, lib);
    } else {
      ValidUntilExpiry(Step(hub, events[0], rules), events[1..], rules, p, lib);
    }
  }

  /** A new session starts valid: a login, or the session a password change hands to its own user. */
  lemma NewSessionIsValid(hub: Hub, event: Event, rules: Rules, p: Payload, lib: Library)
    requires Sound(lib) && Consistent(hub) && p in Step(hub, event, rules).issued - hub.issued
    ensures p.iat == Seconds(hub.now)
    ensures p.sub in hub.users && SessionStillValid(p, Step(hub, event, rules).users[p.sub].sessionsValidAfter)
    ensures hub.users[p.sub].isActive ==> Accepts(Step(hub, event, rules), IssueSessionToken(p, lib), lib)
  {
    var after := Step(hub, event, rules);
    if event.Login? {
      var validAfter := hub.users[p.sub].sessionsValidAfter;
      if validAfter.Some? { SecondsMonotone(validAfter.value, hub.now); }
      SecondsMonotone(hub.now, hub.now + event.ttlMinutes * 60 * Second);
    } else {
      SecondsMonotone(hub.now, hub.now + event.ttlMinutes * 60 * Second);
    }
    AcceptsLive(after, p, lib);
  }

  /** What a password change leaves behind: of the tokens accepted before, exactly those issued
      in the very second of the change survive it. */
  lemma PasswordChangeSparesItsSecond(hub: Hub, event: Event, rules: Rules, p: Payload, lib: Library)
    requires Sound(lib) && RevokesUser(hub, event, rules, p.sub) && event.update.isActive.None?
    requires Accepts(hub, IssueSessionToken(p, lib), lib)
    ensures Accepts(Step(hub, event, rules), IssueSessionToken(p, lib), lib) <==> p.iat >= Seconds(hub.now)
  {
    AcceptsLive(hub, p, lib);
    AcceptsLive(Step(hub, event, rules), p, lib);
  }

  /** Such a token exists: issued at 5.2 s, it outlives a password change at 5.9 s. */
  lemma SameSecondSurvives(rules: Rules, lib: Library)
    requires Sound(lib) && rules.acceptable("new password 1A")
    ensures var user := User("ann", None, "hash", true, false, {}, None);
      var hub := Hub(map["1" := user], 5_200_000, {});
      var token := IssueSessionToken(NewPayload("1", "ann", 5_200_000, 480), lib);
      var change := Update(Actor("1", false), "1", UserUpdate(None, Some("new password 1A"), None, None), 480);
      Accepts(Run(hub, [Login("1", true, 480), Tick(700_000), change], rules), token, lib)
  {
    var user := User("ann", None, "hash", true, false, {}, None);
    var hub := Hub(map["1" := user], 5_200_000, {});
    var p := NewPayload("1", "ann", 5_200_000, 480);
    var change := Update(Actor("1", false), "1", UserUpdate(None, Some("new password 1A"), None, None), 480);
    var events := [Login("1", true, 480), Tick(700_000), change];
    assert events[1..] == [Tick(700_000), change] && events[1..][1..] == [change] && [change][1..] == [];
    var h1 := Step(hub, events[0], rules);
    var h2 := Step(h1, Tick(700_000), rules);
    var h3 := Step(h2, change, rules);
    assert Run(hub, events, rules) ==
      Run(h1, events[1..], rules) == Run(h2, [change], rules) == Run(h3, [], rules) == h3;
    AcceptsLive(h3, p, lib);
  }

  // ----- What an update changes -----

  /** The handler as a step of a run. */
  function UpdateStep(hub: Hub, actor: Actor, userId: string, update: UserUpdate, ttlMinutes: nat, rules: Rules): Hub
  {
    Step(hub, Update(actor, userId, update, ttlMinutes), rules)
  }

  /** An accepted update stores what the request names and leaves every other field and user alone. */
  lemma UpdateByField(hub: Hub, actor: Actor, userId: string, update: UserUpdate, ttlMinutes: nat, rules: Rules)
    requires Refusal(hub.users, actor, userId, update, rules).None?
    ensures var after := UpdateStep(hub, actor, userId, update, ttlMinutes, rules).users;
      after.Keys == hub.users.Keys && (forall id :: id in hub.users && id != userId ==> after[id] == hub.users[id]) &&
      after[userId].username == hub.users[userId].username && after[userId].isBuiltin == hub.users[userId].isBuiltin
    ensures var before := hub.users[userId];
      var after := UpdateStep(hub, actor, userId, update, ttlMinutes, rules).users[userId];
      var changesPassword := update.password.Some? && update.password.value != "";
      (changesPassword ==> after.passwordHash == rules.hash(update.password.value)) &&
      (!changesPassword ==> after.passwordHash == before.passwordHash) &&
      (update.isActive.Some? ==> after.isActive == update.isActive.value) &&
      (update.isActive.None? ==> after.isActive == before.isActive) &&
      (update.email.Some? ==> after.email == update.email) && (update.email.None? ==> after.email == before.email) &&
      (update.groups.Some? ==> forall g :: g in after.groups <==>
        g in rules.groupNames && (g in update.groups.value || g == "authenticated")) &&
      (update.groups.None? ==> after.groups == before.groups) &&
      (changesPassword || update.isActive == Some(false) ==> after.sessionsValidAfter == Some(hub.now)) &&
      (!changesPassword && update.isActive != Some(false) ==> after.sessionsValidAfter == before.sessionsValidAfter)
  {
  }

  /** Who may change what: users change their own account, and only administrators change others, groups
      or whether an account is active; nobody disables themselves or a built-in account. */
  lemma UpdateByRight(hub: Hub, actor: Actor, userId: string, update: UserUpdate, ttlMinutes: nat, rules: Rules)
    ensures var after := UpdateStep(hub, actor, userId, update, ttlMinutes, rules);
      (after != hub ==> userId in hub.users && (actor.id == userId || actor.isAdmin)) &&
      (userId in hub.users && after.users[userId].groups != hub.users[userId].groups ==> actor.isAdmin) &&
      (userId in hub.users && after.users[userId].isActive != hub.users[userId].isActive ==>
        actor.isAdmin && actor.id != userId && !hub.users[userId].isBuiltin) &&
      (userId in hub.users && after.users[userId].passwordHash != hub.users[userId].passwordHash ==>
        update.password.Some? && rules.acceptable(update.password.value))
  {
  }

  /** Nothing else is refused: a request within these rights is accepted. */
  lemma RefusedOnlyByRight(hub: Hub, actor: Actor, userId: string, update: UserUpdate, rules: Rules)
    ensures Refusal(hub.users, actor, userId, update, rules).None? <==>
      userId in hub.users && (actor.id == userId || actor.isAdmin) &&
      (update.groups.Some? ==> actor.isAdmin) &&
      (update.isActive.Some? ==> actor.id != userId && !hub.users[userId].isBuiltin) &&
      (update.password.Some? && update.password.value != "" ==> rules.acceptable(update.password.value))
  {
  }

  /** The codes: 404 for a missing account and for nothing else; 403 for a caller who is no administrator and
      edits another account or asks for groups; 400 for a password the rules reject, or for the activation
      of one's own or the built-in account. */
  lemma CodesByCause(hub: Hub, actor: Actor, userId: string, update: UserUpdate, rules: Rules)
    ensures Refusal(hub.users, actor, userId, update, rules) in {None, Some(400), Some(403), Some(404)}
    ensures Refusal(hub.users, actor, userId, update, rules) == Some(404) <==> userId !in hub.users
    ensures Refusal(hub.users, actor, userId, update, rules) == Some(403) ==>
      !actor.isAdmin && (actor.id != userId || update.groups.Some?)
    ensures Refusal(hub.users, actor, userId, update, rules) == Some(400) ==>
      (update.password.Some? && !rules.acceptable(update.password.value)) ||
      (update.isActive.Some? && (actor.id == userId || hub.users[userId].isBuiltin))
    ensures userId in hub.users && actor.id != userId && !actor.isAdmin ==>
      Refusal(hub.users, actor, userId, update, rules) == Some(403)
  {
  }

  /** Sessions begin with a login of an active user whose password verified, or with a user's own accepted
      password change; they name that user and last for the given minutes. */
  lemma SessionsByRight(hub: Hub, event: Event, rules: Rules, p: Payload)
    requires p in Step(hub, event, rules).issued - hub.issued
    ensures match event
      case Login(userId, verified, ttlMinutes) =>
        verified && userId in hub.users && hub.users[userId].isActive &&
        p == Payload(userId, hub.users[userId].username, hub.now / 1_000_000,
                     (hub.now + ttlMinutes * 60_000_000) / 1_000_000)
      case Update(actor, userId, update, ttlMinutes) =>
        actor.id == userId && userId in hub.users && update.password.Some? &&
        p == Payload(userId, hub.users[userId].username, hub.now / 1_000_000,
                     (hub.now + ttlMinutes * 60_000_000) / 1_000_000)
      case _ => false
  {
  }

  // ----- Disabled accounts -----

  /** The event is an accepted request to enable this user. */
  predicate EnablesUser(hub: Hub, event: Event, rules: Rules, userId: string)
  {
    event.Update? && event.userId == userId && event.update.isActive == Some(true) &&
    Refusal(hub.users, event.actor, event.userId, event.update, rules).None?
  }

  predicate NoEnabling(hub: Hub, events: seq<Event>, rules: Rules, userId: string)
    decreases |events|
  {
    events == [] ||
    (!EnablesUser(hub, events[0], rules, userId) && NoEnabling(Step(hub, events[0], rules), events[1..], rules, userId))
  }

  /** Main result: from an accepted disabling until an accepted enabling, whatever else happens, no token
      of the user is accepted and no login of the user issues a session. */
  lemma {:induction false} DisabledUserIsOut(hub: Hub, events: seq<Event>, rules: Rules, userId: string, p: Payload,
                                             lib: Library)
    requires Sound(lib) && p.sub == userId && userId in hub.users && !hub.users[userId].isActive
    requires NoEnabling(hub, events, rules, userId)
    ensures var later := Run(hub, events, rules);
      userId in later.users && !later.users[userId].isActive &&
      !Accepts(later, IssueSessionToken(p, lib), lib) &&
      forall verified, ttlMinutes :: Step(later, Login(userId, verified, ttlMinutes), rules) == later
    decreases |events|
  {
    if events == [] {
      AcceptsLive(hub, p, lib);
    } else {
      DisabledUserIsOut(Step(hub, events[0], rules), events[1..], rules, userId, p, lib);
    }
  }

  /** Disabling takes effect at once. */
  lemma DisablingTakesEffect(hub: Hub, actor: Actor, userId: string, update: UserUpdate, ttlMinutes: nat, rules: Rules)
    requires Refusal(hub.users, actor, userId, update, rules).None? && update.isActive == Some(false)
    ensures !UpdateStep(hub, actor, userId, update, ttlMinutes, rules).users[userId].isActive
  {
  }

  /** After an enabling a verified login issues a session that is accepted. */
  lemma EnabledUserSignsIn(hub: Hub, actor: Actor, userId: string, update: UserUpdate, ttlMinutes: nat, rules: Rules,
                           lib: Library)
    requires Sound(lib) && Consistent(hub) && update.isActive == Some(true)
    requires Refusal(hub.users, actor, userId, update, rules).None?
    ensures var enabled := UpdateStep(hub, actor, userId, update, ttlMinutes, rules);
      var after := Step(enabled, Login(userId, true, ttlMinutes), rules);
      exists p :: p in after.issued && p.sub == userId && Accepts(after, IssueSessionToken(p, lib), lib)
  {
    var enabled := UpdateStep(hub, actor, userId, update, ttlMinutes, rules);
    var p := NewPayload(userId, enabled.users[userId].username, enabled.now, ttlMinutes);
    var after := Step(enabled, Login(userId, true, ttlMinutes), rules);
    assert p in after.issued;
    StepKeepsRevoked(hub, Update(actor, userId, update, ttlMinutes), rules, p);
    if enabled.users[userId].sessionsValidAfter.Some? {
      SecondsMonotone(enabled.users[userId].sessionsValidAfter.value, enabled.now);
    }
    SecondsMonotone(enabled.now, enabled.now + ttlMinutes * 60 * Second);
    AcceptsLive(after, p, lib);
  }

  /** A new account under a free id is active, nobody else's account changes, and a verified login issues a
      session that is accepted. */
  lemma NewAccountSignsIn(hub: Hub, userId: string, user: User, ttlMinutes: nat, rules: Rules, lib: Library)
    requires Sound(lib) && userId !in hub.users
    ensures var created := Step(hub, CreateUser(userId, user), rules);
      var after := Step(created, Login(userId, true, ttlMinutes), rules);
      created == hub.(users := created.users) && created.users.Keys == hub.users.Keys + {userId} &&
      (forall id :: id in hub.users ==> created.users[id] == hub.users[id]) &&
      exists p :: p in after.issued && p.sub == userId && Accepts(after, IssueSessionToken(p, lib), lib)
  {
    var created := Step(hub, CreateUser(userId, user), rules);
    var p := NewPayload(userId, user.username, hub.now, ttlMinutes);
    var after := Step(created, Login(userId, true, ttlMinutes), rules);
    assert p in after.issued;
    SecondsMonotone(hub.now, hub.now + ttlMinutes * 60 * Second);
    AcceptsLive(after, p, lib);
  }
}
