/** Token families of one user pool: logins, refreshes, revocation and sign-out, each
    request one step. Signatures are taken as ideal: a token that passes was issued. */
module Tokens {
  import opened Values

  datatype Access = Access(sub: string, jti: string, origin: string, exp: int)

  datatype Refresh = Refresh(client: string, sub: string, origin: string, exp: int)

  datatype User = User(sub: string, enabled: bool)

  /** `refresh` and `revoked` are the two directories of the pool, `drawn` what the
      random source has given out, `issued` every access token a client was handed. */
  datatype State = State(
    refresh: map<string, Refresh>,
    revoked: set<string>,
    users: map<string, User>,
    drawn: set<string>,
    issued: set<Access>)

  /** Some live refresh token of the same user carries the origin. */
  predicate Held(refresh: map<string, Refresh>, a: Access) {
    exists t :: t in refresh && refresh[t].origin == a.origin && refresh[t].sub == a.sub
  }

  /** `checkTokenNotRevoked` says no; an empty identifier is not looked up. */
  predicate Rejected(revoked: set<string>, a: Access) {
    (a.jti != "" && a.jti in revoked) || (a.origin != "" && a.origin in revoked)
  }

  /** Every issued access token is revoked with its family, or its family is alive. */
  predicate Covered(s: State) {
    forall a :: a in s.issued ==> a.origin in s.revoked || Held(s.refresh, a)
  }

  /** Identifiers are drawn once: a family belongs to one user, and no token has the
      identifier of a family. */
  predicate Distinct(s: State) {
    && (forall a :: a in s.issued ==> a.origin in s.drawn && a.jti in s.drawn && a.origin != "" && a.jti != "")
    && (forall t :: t in s.refresh ==> s.refresh[t].origin in s.drawn && s.refresh[t].origin != "")
    && (forall a, b :: a in s.issued && b in s.issued ==> a.jti != b.origin && (a.origin == b.origin ==> a.sub == b.sub))
    && (forall a, t :: a in s.issued && t in s.refresh ==>
          a.jti != s.refresh[t].origin && (a.origin == s.refresh[t].origin ==> a.sub == s.refresh[t].sub))
    && (forall t, u :: t in s.refresh && u in s.refresh && s.refresh[t].origin == s.refresh[u].origin ==>
          s.refresh[t].sub == s.refresh[u].sub)
  }

  predicate StateOk(s: State) { Covered(s) && Distinct(s) }

  // ---- steps

  function AfterLogin(s: State, token: string, r: Refresh, a: Access): State {
    s.(refresh := s.refresh[token := r], drawn := s.drawn + {token, r.origin, a.jti}, issued := s.issued + {a})
  }

  lemma LoginKeeps(s: State, token: string, r: Refresh, a: Access)
    requires StateOk(s) && token !in s.refresh && a.origin == r.origin && a.sub == r.sub
    requires r.origin !in s.drawn && a.jti !in s.drawn && r.origin != a.jti && r.origin != "" && a.jti != ""
    ensures StateOk(AfterLogin(s, token, r, a))
  {
    var s' := AfterLogin(s, token, r, a);
    assert s'.refresh[token] == r;
    forall b | b in s'.issued
      ensures b.origin in s'.revoked || Held(s'.refresh, b)
    {
      if b in s.issued && b.origin !in s.revoked {
        assert Held(s.refresh, b);
        var t :| t in s.refresh && s.refresh[t].origin == b.origin && s.refresh[t].sub == b.sub;
        assert s'.refresh[t] == s.refresh[t];
      }
    }
  }

  function AfterRefresh(s: State, a: Access): State {
    s.(drawn := s.drawn + {a.jti}, issued := s.issued + {a})
  }

  lemma RefreshKeeps(s: State, token: string, a: Access)
    requires StateOk(s) && token in s.refresh && a.origin == s.refresh[token].origin && a.sub == s.refresh[token].sub
    requires a.jti !in s.drawn && a.jti != ""
    ensures StateOk(AfterRefresh(s, a))
  {
    assert Held(s.refresh, a);
  }

  /** More is revoked. */
  lemma RevokedKeeps(s: State, more: set<string>)
    requires StateOk(s)
    ensures StateOk(s.(revoked := s.revoked + more))
  {
  }

  /** Refresh tokens whose families are revoked may go. */
  lemma RemovedKeeps(s: State, refresh: map<string, Refresh>)
    requires StateOk(s) && refresh.Keys <= s.refresh.Keys && forall t :: t in refresh ==> refresh[t] == s.refresh[t]
    requires forall t :: t in s.refresh && t !in refresh ==> s.refresh[t].origin in s.revoked
    ensures StateOk(s.(refresh := refresh))
  {
    var s' := s.(refresh := refresh);
    forall a | a in s'.issued && a.origin !in s'.revoked
      ensures Held(refresh, a)
    {
      assert Held(s.refresh, a);
      var t :| t in s.refresh && s.refresh[t].origin == a.origin && s.refresh[t].sub == a.sub;
      assert t in refresh;
    }
  }

  /** The origins of a user's refresh tokens. */
  function OriginsOf(refresh: map<string, Refresh>, sub: string): set<string> {
    set t | t in refresh && refresh[t].sub == sub :: refresh[t].origin
  }

  lemma OwnOrigins(refresh: map<string, Refresh>, sub: string)
    ensures forall t :: t in refresh && refresh[t].sub == sub ==> refresh[t].origin in OriginsOf(refresh, sub)
  {
  }

  /** Revoking a user's families rejects all the user's tokens, and no one else's. */
  lemma SignOutRejects(s: State, sub: string, extra: set<string>)
    requires StateOk(s) && forall o :: o in extra ==> exists a :: a in s.issued && a.origin == o && a.sub == sub
    ensures var revoked := s.revoked + OriginsOf(s.refresh, sub) + extra;
            && (forall a :: a in s.issued && a.sub == sub ==> Rejected(revoked, a))
            && (forall a :: a in s.issued && a.sub != sub ==> (Rejected(revoked, a) <==> Rejected(s.revoked, a)))
  {
    var revoked := s.revoked + OriginsOf(s.refresh, sub) + extra;
    forall a | a in s.issued
      ensures a.sub == sub ==> Rejected(revoked, a)
      ensures a.sub != sub ==> (Rejected(revoked, a) <==> Rejected(s.revoked, a))
    {
      if a.sub == sub && a.origin !in s.revoked {
        assert Held(s.refresh, a);
        var t :| t in s.refresh && s.refresh[t].origin == a.origin && s.refresh[t].sub == a.sub;
        assert a.origin in OriginsOf(s.refresh, sub);
      }
      if a.sub != sub {
        assert a.origin !in OriginsOf(s.refresh, sub) && a.jti !in OriginsOf(s.refresh, sub);
        assert a.origin !in extra && a.jti !in extra;
      }
    }
  }

  /** The refresh tokens of everyone else. */
  function Others(refresh: map<string, Refresh>, sub: string): map<string, Refresh> {
    map t | t in refresh && refresh[t].sub != sub :: refresh[t]
  }

  /** Some of the user's refresh tokens are gone, and no one else's. */
  predicate PartOf(part: map<string, Refresh>, whole: map<string, Refresh>, sub: string) {
    && part.Keys <= whole.Keys && (forall t :: t in part ==> part[t] == whole[t])
    && forall t :: t in whole && whole[t].sub != sub ==> t in part
  }

  function Families(s: State, sub: string, extra: Option<string>): set<string> {
    OriginsOf(s.refresh, sub) + if extra.Some? then {extra.value} else {}
  }

  function AfterSignOut(s: State, sub: string, extra: Option<string>): State {
    s.(revoked := s.revoked + Families(s, sub, extra), refresh := Others(s.refresh, sub))
  }

  /** A sign-out that failed on the way: refresh tokens go only when all families are revoked. */
  predicate PartSignedOut(s: State, sub: string, extra: Option<string>, s': State) {
    && s' == s.(revoked := s'.revoked, refresh := s'.refresh)
    && s.revoked <= s'.revoked <= s.revoked + Families(s, sub, extra)
    && PartOf(s'.refresh, s.refresh, sub)
    && (s'.refresh != s.refresh ==> s'.revoked == s.revoked + Families(s, sub, extra))
  }

  function AfterRevoke(s: State, client: string, token: string): State {
    if token !in s.refresh || s.refresh[token].client != client then s
    else s.(revoked := s.revoked + {s.refresh[token].origin}, refresh := s.refresh - {token})
  }

  function Switched(s: State, username: string, enabled: bool): State {
    if username in s.users then s.(users := s.users[username := s.users[username].(enabled := enabled)]) else s
  }

  /** One family revoked: its user's tokens of that family only. */
  lemma RevokeRejects(s: State, token: string)
    requires StateOk(s) && token in s.refresh
    ensures var revoked := s.revoked + {s.refresh[token].origin};
            forall a :: a in s.issued ==>
              (Rejected(revoked, a) <==> Rejected(s.revoked, a) || a.origin == s.refresh[token].origin)
  {
  }

  // ---- the pool

  datatype Step =
    | Login(username: string, client: string, token: string, origin: string, jti: string, now: int)
    | RefreshAuth(client: string, token: string, jti: string, now: int)
    | Revoke(client: string, token: string)
    | SignOut(access: Access, now: int)
    | DisableUser(username: string)
    | EnableUser(username: string)

  /** The random identifiers a step draws are fresh, and a token it presents was issued. */
  predicate Possible(s: State, step: Step) {
    match step
    case Login(_, _, token, origin, jti, _) => Fresh(s, {origin, jti, token}) && origin != jti && token !in s.refresh
    case RefreshAuth(_, _, jti, _) => Fresh(s, {jti})
    case SignOut(a, _) => a in s.issued
    case _ => true
  }

  /** Nothing the random source gave out before, and nothing that was revoked. */
  predicate Fresh(s: State, ids: set<string>) {
    forall id :: id in ids ==> id != "" && id !in s.drawn && id !in s.revoked
  }

  predicate Enabled(s: State, username: string) { username in s.users && s.users[username].enabled }

  /** The token is known, of this client and unexpired. */
  predicate Presented(s: State, client: string, token: string, now: int) {
    token in s.refresh && s.refresh[token].client == client && !(s.refresh[token].exp > 0 && now > s.refresh[token].exp)
  }

  /** No user the token is for is disabled. */
  predicate Refreshable(s: State, client: string, token: string, now: int) {
    && Presented(s, client, token, now)
    && (exists u :: u in s.users && s.users[u].sub == s.refresh[token].sub)
    && forall u :: u in s.users && s.users[u].sub == s.refresh[token].sub ==> s.users[u].enabled
  }

  /** Some user the token is for is enabled. */
  predicate ForEnabled(s: State, token: string)
    requires token in s.refresh
  {
    exists u :: u in s.users && s.users[u].sub == s.refresh[token].sub && s.users[u].enabled
  }

  const ACCESS_LIFE := 3600

  const REFRESH_LIFE := 2592000

  function LoggedIn(s: State, step: Step): State
    requires step.Login? && step.username in s.users
  {
    var sub := s.users[step.username].sub;
    AfterLogin(s, step.token, Refresh(step.client, sub, step.origin, step.now + REFRESH_LIFE),
               Access(sub, step.jti, step.origin, step.now + ACCESS_LIFE))
  }

  function Refreshed(s: State, token: string, jti: string, now: int): State
    requires token in s.refresh
  {
    AfterRefresh(s, Access(s.refresh[token].sub, jti, s.refresh[token].origin, now + ACCESS_LIFE))
  }

  /** What a request makes of the pool; `clean` says that no file operation failed. */
  predicate Effect(s: State, step: Step, s': State, clean: bool) {
    match step
    case Login(username, _, _, _, _, _) => s' == if clean && Enabled(s, username) then LoggedIn(s, step) else s
    case RefreshAuth(client, token, jti, now) =>
      || (s' == s && !Refreshable(s, client, token, now))
      || (Presented(s, client, token, now) && ForEnabled(s, token) && s' == Refreshed(s, token, jti, now))
    case Revoke(client, token) =>
      if clean then s' == AfterRevoke(s, client, token)
      else s' == s || s' == s.(revoked := AfterRevoke(s, client, token).revoked)
    case SignOut(a, now) =>
      if clean then s' == if now < a.exp && !Rejected(s.revoked, a) then AfterSignOut(s, a.sub, Some(a.origin)) else s
      else s' == s || PartSignedOut(s, a.sub, Some(a.origin), s')
    case DisableUser(username) =>
      if username !in s.users then s' == s
      else
        var off, sub := Switched(s, username, false), s.users[username].sub;
        if clean then s' == AfterSignOut(off, sub, None) else s' == s || PartSignedOut(off, sub, None, s')
    case EnableUser(username) => s' == if clean then Switched(s, username, true) else s
  }

  /** The pool before, between and after the requests of a run, and which of these met no
      failing file operation. A step that is not possible does not happen. */
  predicate IsRun(steps: seq<Step>, trail: seq<State>, clean: seq<bool>) {
    && |trail| == |steps| + 1 && |clean| == |steps|
    && forall i :: 0 <= i < |steps| ==>
         if Possible(trail[i], steps[i]) then Effect(trail[i], steps[i], trail[i + 1], clean[i])
         else trail[i + 1] == trail[i]
  }

  class Pool {
    var refresh: map<string, Refresh>
    var revoked: set<string>
    var users: map<string, User>
    var drawn: set<string>
    var issued: set<Access>
    ghost var faults: nat

    function St(): State
      reads this
    {
      State(refresh, revoked, users, drawn, issued)
    }

    ghost predicate Valid()
      reads this
    {
      StateOk(St())
    }

    /** Tokens are never un-issued and identifiers never un-revoked. */
    twostate predicate Grows()
      reads this
    {
      old(issued) <= issued && old(revoked) <= revoked
    }

    constructor (users: map<string, User>)
      ensures Valid() && St() == State(map[], {}, users, {}, {})
    {
      refresh, revoked, drawn, issued, faults := map[], {}, {}, {}, 0;
      this.users := users;
    }

    /** Any file operation; `faults` counts those that fail. */
    method Attempt() returns (ok: bool)
      modifies this`faults
      ensures faults == old(faults) + if ok then 0 else 1
    {
      ok := *;
      if !ok {
        faults := faults + 1;
      }
    }

    /** The end of a login (`completeAuth`, `writeAuthResult`, `issueTokens`): if the
        refresh token cannot be stored the client gets nothing. */
    method CompleteAuth(username: string, client: string, token: string, origin: string, jti: string, now: int, life: int, refreshLife: int)
      returns (a: Option<Access>)
      requires Valid() && Fresh(St(), {origin, jti, token}) && origin != jti && token !in refresh
      modifies this
      ensures faults >= old(faults)
      ensures Valid() && Grows() && revoked == old(revoked)
      ensures a.Some? ==> a.value in issued && !Rejected(revoked, a.value) && Held(refresh, a.value)
                          && username in users && users[username].enabled
                          && a.value == Access(users[username].sub, jti, origin, now + life)
                          && refresh == old(refresh)[token := Refresh(client, a.value.sub, origin, now + refreshLife)]
                          && St() == AfterLogin(old(St()), token, refresh[token], a.value) && faults == old(faults)
      ensures a.None? ==> St() == old(St())
      ensures a.None? ==> username !in users || !users[username].enabled || faults > old(faults)
    {
      hide StateOk, Rejected;
      if username !in users || !users[username].enabled {
        return None;
      }
      var sub := users[username].sub;
      var access, r := Access(sub, jti, origin, now + life), Refresh(client, sub, origin, now + refreshLife);
      var stored := Attempt();
      if !stored {
        return None;
      }
      LoginKeeps(St(), token, r, access);
      refresh, drawn := refresh[token := r], drawn + {token, r.origin, access.jti};
      issued := issued + {access};
      assert refresh[token] == r;
      NotRevoked(old(St()), access);
      a := Some(access);
    }

    /** `handleRefreshTokenAuth`: a new access token of the same family. */
    method RefreshAccess(client: string, token: string, jti: string, now: int, life: int) returns (a: Option<Access>)
      requires Valid() && Fresh(St(), {jti})
      modifies this
      ensures faults >= old(faults)
      ensures Valid() && Grows() && revoked == old(revoked) && refresh == old(refresh)
      ensures a.Some? ==> a.value in issued && token in refresh && a.value.origin == refresh[token].origin
                          && a.value.sub == refresh[token].sub && refresh[token].client == client && Held(refresh, a.value)
                          && a.value.jti == jti && !(refresh[token].exp > 0 && now > refresh[token].exp)
                          && (exists u :: u in users && users[u].sub == a.value.sub && users[u].enabled)
                          && a.value.exp == now + life && St() == AfterRefresh(old(St()), a.value)
      ensures a.None? ==> St() == old(St()) && !Refreshable(St(), client, token, now)
    {
      hide StateOk, Rejected;
      if token !in refresh || refresh[token].client != client || (refresh[token].exp > 0 && now > refresh[token].exp) {
        return None;
      }
      var r := refresh[token];
      if !(exists u :: u in users && users[u].sub == r.sub) {
        return None;
      }
      var username :| username in users && users[username].sub == r.sub;
      if !users[username].enabled {
        return None;
      }
      var access := Access(r.sub, jti, r.origin, now + life);
      RefreshKeeps(St(), token, access);
      drawn := drawn + {jti};
      issued := issued + {access};
      a := Some(access);
    }

    /** `validateAccessJWT`'s expiry check and `checkTokenNotRevoked`; a check that
        cannot be made counts as a no. */
    method Accepts(a: Access, now: int) returns (ok: bool)
      modifies this`faults
      ensures faults >= old(faults)
      ensures ok ==> now < a.exp && a.jti != "" && !Rejected(revoked, a) && faults == old(faults)
      ensures !ok ==> a.exp <= now || a.jti == "" || Rejected(revoked, a) || faults > old(faults)
    {
      var ids := [a.jti, a.origin];
      if a.exp <= now || a.jti == "" {
        return false;
      }
      for i := 0 to 2
        invariant faults == old(faults) && forall j :: 0 <= j < i ==> ids[j] == "" || ids[j] !in revoked
      {
        if ids[i] != "" {
          var readable := Attempt();
          if !readable || ids[i] in revoked {
            return false;
          }
        }
      }
      assert ids[0] == a.jti && ids[1] == a.origin;
      ok := true;
    }

    /** `RevokeAccessToken`: marks one identifier, unless the write fails. */
    method MarkRevoked(id: string) returns (ok: bool)
      modifies this`revoked, this`faults
      ensures revoked == if ok then old(revoked) + {id} else old(revoked)
      ensures faults == old(faults) + if ok then 0 else 1
    {
      ok := Attempt();
      if ok {
        revoked := revoked + {id};
      }
    }

    /** `RevokeOriginJTIsForSub`: stops at the first write that fails. */
    method RevokeOrigins(sub: string) returns (ok: bool)
      requires forall t :: t in refresh ==> refresh[t].origin != ""
      modifies this`revoked, this`faults
      ensures faults == old(faults) + if ok then 0 else 1
      ensures old(revoked) <= revoked <= old(revoked) + OriginsOf(refresh, sub)
      ensures ok ==> revoked == old(revoked) + OriginsOf(refresh, sub)
    {
      var rest := refresh.Keys;
      while rest != {}
        invariant faults == old(faults) && rest <= refresh.Keys && old(revoked) <= revoked <= old(revoked) + OriginsOf(refresh, sub)
        invariant forall t :: t in refresh && t !in rest && refresh[t].sub == sub ==> refresh[t].origin in revoked
        decreases rest
      {
        var t :| t in rest;
        if refresh[t].sub == sub && refresh[t].origin != "" {
          assert refresh[t].origin in OriginsOf(refresh, sub);
          ok := MarkRevoked(refresh[t].origin);
          if !ok {
            return;
          }
        }
        rest := rest - {t};
      }
      ok := true;
    }

    /** `DeleteRefreshTokensBySub`: stops at the first removal that fails. */
    method DeleteRefreshTokens(sub: string) returns (ok: bool)
      modifies this`refresh, this`faults
      ensures faults == old(faults) + if ok then 0 else 1
      ensures PartOf(refresh, old(refresh), sub)
      ensures ok ==> refresh == Others(old(refresh), sub)
    {
      var rest := refresh.Keys;
      while rest != {}
        invariant faults == old(faults) && rest <= refresh.Keys <= old(refresh.Keys) && forall t :: t in refresh ==> refresh[t] == old(refresh[t])
        invariant forall t :: t in old(refresh) && old(refresh[t]).sub != sub ==> t in refresh
        invariant forall t :: t in refresh && t !in rest ==> refresh[t].sub != sub
        decreases rest
      {
        var t :| t in rest;
        rest := rest - {t};
        if refresh[t].sub == sub {
          ok := Attempt();
          if !ok {
            return;
          }
          refresh := refresh - {t};
        }
      }
      ok := true;
    }

    /** `handleRevokeToken`: the family is revoked first, then its refresh token goes. */
    method RevokeToken(client: string, token: string) returns (ok: bool)
      requires Valid()
      modifies this`revoked, this`refresh, this`faults
      ensures Valid() && Grows() && faults >= old(faults)
      ensures !ok ==> faults > old(faults) || (token in old(refresh) && old(refresh[token]).client != client)
      ensures ok ==> faults == old(faults) && St() == AfterRevoke(old(St()), client, token)
      ensures !ok ==> St() == old(St())
                      || (token in old(refresh) && old(refresh[token]).client == client
                          && St() == old(St()).(revoked := old(revoked) + {old(refresh[token]).origin}))
      ensures ok && token in old(refresh) ==>
                && token !in refresh && old(refresh[token]).client == client
                && forall a :: a in issued ==>
                     (Rejected(revoked, a) <==> Rejected(old(revoked), a) || a.origin == old(refresh[token]).origin)
    {
      hide StateOk, Rejected;
      if token !in refresh {
        return true;
      }
      if refresh[token].client != client {
        return false;
      }
      var r := refresh[token];
      RevokedKeeps(St(), {r.origin});
      RevokeRejects(St(), token);
      OriginNamed(St(), token);
      ok := MarkRevoked(r.origin);
      if !ok {
        return;
      }
      ok := Attempt();
      if ok {
        RemovedKeeps(St(), refresh - {token});
        refresh := refresh - {token};
      }
    }

    /** Revoke and delete everything of one user; `extra` is revoked in between. */
    method EndSessions(sub: string, extra: Option<string>) returns (ok: bool)
      requires Valid()
      requires extra.Some? ==> exists a :: a in issued && a.origin == extra.value && a.sub == sub
      modifies this`revoked, this`refresh, this`faults
      ensures Valid() && Grows() && faults == old(faults) + if ok then 0 else 1
      ensures forall a :: a in issued && a.sub != sub ==> (Rejected(revoked, a) <==> Rejected(old(revoked), a))
      ensures ok ==> forall a :: a in issued && a.sub == sub ==> Rejected(revoked, a)
      ensures ok ==> St() == AfterSignOut(old(St()), sub, extra)
      ensures !ok ==> PartSignedOut(old(St()), sub, extra, St())
    {
      hide StateOk, Rejected, OriginsOf, Others, Held;
      ghost var s, more := St(), if extra.Some? then {extra.value} else {};
      SignOutRejects(s, sub, more);
      OriginsNamed(s);
      OwnOrigins(refresh, sub);
      ok := RevokeOrigins(sub);
      if ok && extra.Some? && extra.value != "" {
        ok := MarkRevoked(extra.value);
      }
      ExtraNamed(s, extra, sub);
      Between(s, s.revoked + OriginsOf(refresh, sub) + more, revoked, sub);
      assert ok ==> revoked == s.revoked + OriginsOf(s.refresh, sub) + more;
      RevokedKeeps(s, revoked);
      assert s.(revoked := s.revoked + revoked) == St();
      if !ok {
        return;
      }
      ok := DeleteRefreshTokens(sub);
      RemovedKeeps(s.(revoked := revoked), refresh);
    }

    /** `handleGlobalSignOut`, with an access token that was issued. */
    method GlobalSignOut(a: Access, now: int) returns (ok: bool)
      requires Valid() && a in issued
      modifies this`revoked, this`refresh, this`faults
      ensures Valid() && Grows() && faults >= old(faults)
      ensures !ok ==> a.exp <= now || Rejected(old(revoked), a) || faults > old(faults)
      ensures forall b :: b in issued && b.sub != a.sub ==> (Rejected(revoked, b) <==> Rejected(old(revoked), b))
      ensures ok ==> forall b :: b in issued && b.sub == a.sub ==> Rejected(revoked, b)
      ensures ok ==> faults == old(faults) && now < a.exp && !Rejected(old(revoked), a)
                     && St() == AfterSignOut(old(St()), a.sub, Some(a.origin))
      ensures !ok ==> St() == old(St()) || PartSignedOut(old(St()), a.sub, Some(a.origin), St())
      ensures !ok && faults == old(faults) ==> St() == old(St())
    {
      hide StateOk, Rejected;
      TokenNamed(St(), a);
      ok := Accepts(a, now);
      if ok {
        ok := EndSessions(a.sub, Some(a.origin));
      }
    }

    /** `handleAdminDisableUser`. */
    method AdminDisableUser(username: string) returns (ok: bool)
      requires Valid()
      modifies this`revoked, this`refresh, this`users, this`faults
      ensures Valid() && Grows() && faults >= old(faults)
      ensures !ok ==> username !in old(users) || faults > old(faults)
      ensures ok ==> username in users && username in old(users) && !users[username].enabled
      ensures username in old(users) ==>
                var sub := old(users[username]).sub;
                && (forall b :: b in issued && b.sub != sub ==> (Rejected(revoked, b) <==> Rejected(old(revoked), b)))
                && (ok ==> forall b :: b in issued && b.sub == sub ==> Rejected(revoked, b))
                && (ok ==> faults == old(faults) && St() == AfterSignOut(Switched(old(St()), username, false), sub, None))
                && (!ok ==> St() == old(St()) || PartSignedOut(Switched(old(St()), username, false), sub, None, St()))
      ensures username !in old(users) ==> !ok && St() == old(St())
    {
      hide StateOk, Rejected;
      if username !in users {
        return false;
      }
      ok := Attempt();
      if !ok {
        return;
      }
      UsersKeep(St(), users[username := users[username].(enabled := false)]);
      users := users[username := users[username].(enabled := false)];
      ok := EndSessions(users[username].sub, None);
    }

    method AdminEnableUser(username: string)
      requires Valid()
      modifies this`users, this`faults
      ensures Valid() && faults >= old(faults)
      ensures users == if faults == old(faults) && username in old(users) then Switched(old(St()), username, true).users else old(users)
    {
      hide StateOk;
      if username !in users {
        return;
      }
      var stored := Attempt();
      if stored {
        UsersKeep(St(), users[username := users[username].(enabled := true)]);
        users := users[username := users[username].(enabled := true)];
      }
    }

    // ---- whole runs

    /** Every request has its effect and takes no revocation back. */
    method Do(step: Step)
      requires Valid() && Possible(St(), step)
      modifies this
      ensures Valid() && Grows() && faults >= old(faults)
      ensures Effect(old(St()), step, St(), faults == old(faults))
    {
      hide StateOk, Rejected, Held, PartSignedOut, AfterSignOut;
      match step {
        case Login(username, client, token, origin, jti, now) =>
          var _ := CompleteAuth(username, client, token, origin, jti, now, ACCESS_LIFE, REFRESH_LIFE);
        case RefreshAuth(client, token, jti, now) => var _ := RefreshAccess(client, token, jti, now, ACCESS_LIFE);
        case Revoke(client, token) => var _ := RevokeToken(client, token);
        case SignOut(a, now) => var _ := GlobalSignOut(a, now);
        case DisableUser(username) => var _ := AdminDisableUser(username);
        case EnableUser(username) => AdminEnableUser(username);
      }
    }

    /** Any requests, each of which may fail part-way. */
    method Run(steps: seq<Step>) returns (ghost trail: seq<State>, ghost clean: seq<bool>)
      requires Valid()
      modifies this
      ensures Valid() && Grows() && faults >= old(faults)
      ensures IsRun(steps, trail, clean) && trail[0] == old(St()) && trail[|steps|] == St()
      ensures faults == old(faults) ==> forall i :: 0 <= i < |steps| ==> clean[i]
    {
      hide StateOk, Possible, Effect;
      trail, clean := [St()], [];
      for i := 0 to |steps|
        invariant Valid() && Grows() && faults >= old(faults)
        invariant IsRun(steps[..i], trail, clean) && trail[0] == old(St()) && trail[i] == St()
        invariant faults == old(faults) ==> forall j :: 0 <= j < i ==> clean[j]
      {
        ghost var before := faults;
        if Possible(St(), steps[i]) {
          Do(steps[i]);
        }
        trail := trail + [St()];
        clean := clean + [faults == before];
      }
      assert steps[..|steps|] == steps;
    }

    /** After a sign-out, whatever requests follow, every access token the user had been
        issued by then stays rejected. */
    method SignedOutForever(a: Access, now: int, steps: seq<Step>)
      returns (ok: bool, ghost trail: seq<State>, ghost clean: seq<bool>)
      requires Valid() && a in issued
      modifies this
      ensures Valid() && Grows() && faults >= old(faults)
      ensures IsRun([SignOut(a, now)] + steps, trail, clean) && trail[0] == old(St()) && trail[|steps| + 1] == St()
      ensures ok ==> forall b :: b in old(issued) && b.sub == a.sub ==> Rejected(revoked, b)
      ensures !ok ==> a.exp <= now || Rejected(old(revoked), a) || faults > old(faults)
    {
      hide StateOk, PartSignedOut, AfterSignOut;
      ghost var s := St();
      ok := GlobalSignOut(a, now);
      ghost var first := faults == old(faults);
      assert Effect(s, SignOut(a, now), St(), first);
      trail, clean := Run(steps);
      RunCons(SignOut(a, now), s, first, steps, trail, clean);
      trail, clean := [s] + trail, [first] + clean;
    }

    /** The same after an administrator disables the user, even once enabled again. */
    method DisabledForever(username: string, steps: seq<Step>)
      returns (ok: bool, ghost trail: seq<State>, ghost clean: seq<bool>)
      requires Valid()
      modifies this
      ensures Valid() && Grows() && faults >= old(faults)
      ensures IsRun([DisableUser(username)] + steps, trail, clean) && trail[0] == old(St()) && trail[|steps| + 1] == St()
      ensures ok ==> username in old(users)
                     && forall b :: b in old(issued) && b.sub == old(users[username]).sub ==> Rejected(revoked, b)
      ensures !ok ==> username !in old(users) || faults > old(faults)
    {
      hide StateOk, PartSignedOut, AfterSignOut;
      ghost var s := St();
      ok := AdminDisableUser(username);
      ghost var first := faults == old(faults);
      assert Effect(s, DisableUser(username), St(), first);
      trail, clean := Run(steps);
      RunCons(DisableUser(username), s, first, steps, trail, clean);
      trail, clean := [s] + trail, [first] + clean;
    }
  }

  lemma RunCons(step: Step, s: State, first: bool, steps: seq<Step>, trail: seq<State>, clean: seq<bool>)
    requires IsRun(steps, trail, clean) && Possible(s, step) && Effect(s, step, trail[0], first)
    ensures IsRun([step] + steps, [s] + trail, [first] + clean)
  {
    hide Possible, Effect;
  }

  lemma NotRevoked(s: State, a: Access)
    requires a.jti !in s.revoked && a.origin !in s.revoked
    ensures !Rejected(s.revoked, a)
  {
  }

  lemma OriginNamed(s: State, token: string)
    requires StateOk(s) && token in s.refresh
    ensures s.refresh[token].origin != ""
  {
  }

  lemma TokenNamed(s: State, a: Access)
    requires StateOk(s) && a in s.issued
    ensures a.jti != ""
  {
  }

  lemma OriginsNamed(s: State)
    requires StateOk(s)
    ensures forall t :: t in s.refresh ==> s.refresh[t].origin != ""
  {
  }

  lemma ExtraNamed(s: State, extra: Option<string>, sub: string)
    requires StateOk(s) && (extra.Some? ==> exists a :: a in s.issued && a.origin == extra.value && a.sub == sub)
    ensures extra != Some("")
  {
  }

  /** What was revoked lies between nothing more and all of the user's families. */
  lemma Between(s: State, all: set<string>, revoked: set<string>, sub: string)
    requires s.revoked <= revoked <= all
    requires forall a :: a in s.issued && a.sub != sub ==> (Rejected(all, a) <==> Rejected(s.revoked, a))
    ensures forall a :: a in s.issued && a.sub != sub ==> (Rejected(revoked, a) <==> Rejected(s.revoked, a))
  {
    forall a | a in s.issued && a.sub != sub
      ensures Rejected(revoked, a) <==> Rejected(s.revoked, a)
    {
      assert Rejected(all, a) <==> Rejected(s.revoked, a);
    }
  }

  lemma UsersKeep(s: State, users: map<string, User>)
    requires StateOk(s)
    ensures StateOk(s.(users := users))
  {
  }
}
