/** Token lifecycle: login, rotation, logout, an expiring denylist and session epochs. */
module Tokens {
  import opened Options
  import Sets

  datatype Kind = Access | Refresh

  /**
   * What a token says, with the time of the login it stems from and the refresh token
   * it was exchanged for; the last two are not part of the payload.
   */
  datatype Token = Token(user: nat, kind: Kind, iat: real, exp: int, login: real, parent: Option<nat>)

  /**
   * `slack` is how long after `exp` the decoder still accepts a token: none, as
   * section 4.1.4 of RFC 7519 has it, or up to a second where whole seconds are compared.
   */
  datatype Config = Config(accessTtl: real, refreshTtl: real, slack: real)

  /** Denylist keys with the time they expire; the last three fields record history. */
  datatype State = State(now: real, issued: map<nat, Token>, denied: map<nat, real>, epochs: map<nat, real>,
                         revoked: set<nat>, exchanged: seq<nat>, bumps: set<(nat, real)>, logins: set<(nat, real)>)

  const START := State(0.0, map[], map[], map[], {}, [], {}, {})

  // ---------------------------------------------------------------- checks

  predicate Decodes(cfg: Config, t: Token, at: real) {
    at < t.exp as real + cfg.slack
  }

  predicate IsDenied(denied: map<nat, real>, jti: nat, at: real) {
    jti in denied && at < denied[jti]
  }

  function Epoch(epochs: map<nat, real>, user: nat): real {
    if user in epochs then epochs[user] else 0.0
  }

  datatype Verdict = Accepted | Undecodable | WrongKind | Denied | Inactive | BeforeEpoch

  /** The guards on a presented token, in the order they are tried. */
  function Judge(cfg: Config, s: State, jti: nat, kind: Kind, at: real, active: bool): Verdict {
    if jti !in s.issued || !Decodes(cfg, s.issued[jti], at) then Undecodable
    else if s.issued[jti].kind != kind then WrongKind
    else if IsDenied(s.denied, jti, at) then Denied
    else if !active then Inactive
    else if s.issued[jti].iat < Epoch(s.epochs, s.issued[jti].user) then BeforeEpoch
    else Accepted
  }

  // ---------------------------------------------------------------- effects

  function TtlSeconds(exp: int, at: real): int {
    if exp - at.Floor < 0 then 0 else exp - at.Floor
  }

  /** The denylist after revoking; nothing is written for a lifetime of zero. */
  function Revoke(denied: map<nat, real>, jti: nat, ttl: int, at: real): map<nat, real> {
    if ttl <= 0 then denied else denied[jti := at + ttl as real]
  }

  function Minted(cfg: Config, user: nat, kind: Kind, at: real, login: real, parent: Option<nat>): Token {
    Token(user, kind, at, (at + if kind == Access then cfg.accessTtl else cfg.refreshTtl).Floor, login, parent)
  }

  function IssuePair(cfg: Config, issued: map<nat, Token>, access: nat, refresh: nat, user: nat, at: real, login: real,
                     parent: Option<nat>): map<nat, Token> {
    issued[access := Minted(cfg, user, Access, at, login, parent)][refresh := Minted(cfg, user, Refresh, at, login, parent)]
  }

  function LoggedIn(cfg: Config, s: State, user: nat, access: nat, refresh: nat, at: real): State {
    s.(now := at, issued := IssuePair(cfg, s.issued, access, refresh, user, at, at, None), logins := s.logins + {(user, at)})
  }

  function Refreshed(cfg: Config, s: State, jti: nat, access: nat, refresh: nat, at: real, active: bool): State {
    if Judge(cfg, s, jti, Refresh, at, active) != Accepted then s.(now := at)
    else
      var t := s.issued[jti];
      s.(now := at,
         denied := Revoke(s.denied, jti, TtlSeconds(t.exp, at), at),
         issued := IssuePair(cfg, s.issued, access, refresh, t.user, at, t.login, Some(jti)),
         revoked := s.revoked + {jti},
         exchanged := s.exchanged + [jti])
  }

  function LoggedOut(cfg: Config, s: State, jti: nat, cookie: Option<nat>, at: real, active: bool): State {
    if Judge(cfg, s, jti, Access, at, active) != Accepted then s.(now := at)
    else
      var first := s.(now := at, denied := Revoke(s.denied, jti, TtlSeconds(s.issued[jti].exp, at), at),
                      revoked := s.revoked + {jti});
      if cookie.Some? && cookie.value in s.issued && Decodes(cfg, s.issued[cookie.value], at) then
        first.(denied := Revoke(first.denied, cookie.value, TtlSeconds(s.issued[cookie.value].exp, at), at),
               revoked := first.revoked + {cookie.value})
      else first
  }

  function Bumped(s: State, user: nat, at: real): State {
    s.(now := at, epochs := s.epochs[user := at], bumps := s.bumps + {(user, at)})
  }

  // ---------------------------------------------------------------- the handlers

  class AuthServer {
    var issued: map<nat, Token>
    var denied: map<nat, real>
    var epochs: map<nat, real>
    ghost var now: real
    ghost var revoked: set<nat>
    ghost var exchanged: seq<nat>
    ghost var bumps: set<(nat, real)>
    ghost var logins: set<(nat, real)>
    const cfg: Config

    constructor (cfg: Config)
      ensures Now() == START && this.cfg == cfg
    {
      issued, denied, epochs := map[], map[], map[];
      now, revoked, exchanged, bumps, logins := 0.0, {}, [], {}, {};
      this.cfg := cfg;
    }

    ghost function Now(): State
      reads this
    {
      State(now, issued, denied, epochs, revoked, exchanged, bumps, logins)
    }

    method RevokeJti(jti: nat, ttl: int, at: real)
      modifies `denied
      ensures denied == Revoke(old(denied), jti, ttl, at)
      ensures forall t :: IsDenied(denied, jti, t) <==> if ttl > 0 then t < at + ttl as real else IsDenied(old(denied), jti, t)
      ensures forall j, t | j != jti :: IsDenied(denied, j, t) <==> IsDenied(old(denied), j, t)
    {
      if ttl <= 0 {
        return;
      }
      denied := denied[jti := at + ttl as real];
    }

    /**
     * A bearer token is accepted exactly if it was issued here, still decodes, is an access token,
     * has no live denylist entry, and its user is active and was not bumped since it was issued.
     */
    method GetCurrentUser(jti: nat, at: real, active: bool) returns (user: Option<nat>)
      ensures user.Some? <==>
                && jti in issued && at < issued[jti].exp as real + cfg.slack && issued[jti].kind == Access
                && !(jti in denied && at < denied[jti]) && active
                && issued[jti].iat >= if issued[jti].user in epochs then epochs[issued[jti].user] else 0.0
      ensures user.Some? ==> user.value == issued[jti].user
      ensures user == if Judge(cfg, Now(), jti, Access, at, active) == Accepted then Some(issued[jti].user) else None
    {
      if jti !in issued || !Decodes(cfg, issued[jti], at) || issued[jti].kind != Access {
        return None;
      }
      if jti in denied && at < denied[jti] {
        return None;
      }
      var t := issued[jti];
      if !active || t.iat < (if t.user in epochs then epochs[t.user] else 0.0) {
        return None;
      }
      return Some(t.user);
    }

    method Login(user: nat, access: nat, refresh: nat, at: real)
      modifies this
      ensures Now() == LoggedIn(cfg, old(Now()), user, access, refresh, at)
      ensures issued == old(issued)[access := Token(user, Access, at, (at + cfg.accessTtl).Floor, at, None)]
                                    [refresh := Token(user, Refresh, at, (at + cfg.refreshTtl).Floor, at, None)]
      ensures denied == old(denied) && epochs == old(epochs)
    {
      issued := IssuePair(cfg, issued, access, refresh, user, at, at, None);
      now, logins := at, logins + {(user, at)};
    }

    /**
     * A refresh token passes the same checks; it is then denied for what is left of its life,
     * and a pair for the same user and login is issued for it. A rejected one changes nothing.
     */
    method RefreshPair(jti: nat, access: nat, refresh: nat, at: real, active: bool) returns (verdict: Verdict)
      modifies this
      ensures verdict == Judge(cfg, old(Now()), jti, Refresh, at, active)
      ensures Now() == Refreshed(cfg, old(Now()), jti, access, refresh, at, active)
      ensures verdict == Accepted <==>
                && jti in old(issued) && at < old(issued)[jti].exp as real + cfg.slack && old(issued)[jti].kind == Refresh
                && !(jti in old(denied) && at < old(denied)[jti]) && active
                && old(issued)[jti].iat >= if old(issued)[jti].user in epochs then epochs[old(issued)[jti].user] else 0.0
      ensures epochs == old(epochs)
      ensures verdict != Accepted ==> issued == old(issued) && denied == old(denied) && exchanged == old(exchanged)
      ensures verdict == Accepted ==>
                var t := old(issued)[jti];
                && issued == old(issued)[access := Token(t.user, Access, at, (at + cfg.accessTtl).Floor, t.login, Some(jti))]
                                         [refresh := Token(t.user, Refresh, at, (at + cfg.refreshTtl).Floor, t.login, Some(jti))]
                && denied == (if t.exp > at.Floor then old(denied)[jti := at + (t.exp - at.Floor) as real] else old(denied))
                && exchanged == old(exchanged) + [jti]
    {
      now := at;
      if jti !in issued || !Decodes(cfg, issued[jti], at) {
        return Undecodable;
      }
      var t := issued[jti];
      if t.kind != Refresh {
        return WrongKind;
      }
      if jti in denied && at < denied[jti] {
        return Denied;
      }
      if !active {
        return Inactive;
      }
      if t.iat < (if t.user in epochs then epochs[t.user] else 0.0) {
        return BeforeEpoch;
      }
      RevokeJti(jti, TtlSeconds(t.exp, at), at);
      issued := IssuePair(cfg, issued, access, refresh, t.user, at, t.login, Some(jti));
      revoked, exchanged := revoked + {jti}, exchanged + [jti];
      return Accepted;
    }

    /** Whether a logout denies `j`: the bearer token, and the refresh cookie as long as it decodes. */
    ghost predicate Denies(jti: nat, cookie: Option<nat>, at: real, j: nat)
      reads this
    {
      && j in issued && issued[j].exp > at.Floor
      && (j == jti || (cookie == Some(j) && at < issued[j].exp as real + cfg.slack))
    }

    /** A logout with an accepted access token denies it and the cookie for what is left of their lives. */
    method Logout(jti: nat, cookie: Option<nat>, at: real, active: bool)
      modifies this
      ensures Now() == LoggedOut(cfg, old(Now()), jti, cookie, at, active)
      ensures issued == old(issued) && epochs == old(epochs)
      ensures var accepted :=
                && jti in issued && at < issued[jti].exp as real + cfg.slack && issued[jti].kind == Access
                && !(jti in old(denied) && at < old(denied)[jti]) && active
                && issued[jti].iat >= if issued[jti].user in epochs then epochs[issued[jti].user] else 0.0;
              if accepted then
                && (forall j :: j in denied <==> j in old(denied) || Denies(jti, cookie, at, j))
                && (forall j | j in denied ::
                      denied[j] == if Denies(jti, cookie, at, j) then at + (issued[j].exp - at.Floor) as real else old(denied)[j])
              else denied == old(denied)
    {
      hide Judge;
      var user := GetCurrentUser(jti, at, active);
      now := at;
      if user == None {
        return;
      }
      RevokeJti(jti, TtlSeconds(issued[jti].exp, at), at);
      revoked := revoked + {jti};
      if cookie.Some? && cookie.value in issued && Decodes(cfg, issued[cookie.value], at) {
        RevokeJti(cookie.value, TtlSeconds(issued[cookie.value].exp, at), at);
        revoked := revoked + {cookie.value};
      }
    }

    method BumpSessionEpoch(user: nat, at: real)
      modifies this
      ensures Now() == Bumped(old(Now()), user, at)
      ensures epochs == old(epochs)[user := at] && issued == old(issued) && denied == old(denied)
    {
      epochs := epochs[user := at];
      now, bumps := at, bumps + {(user, at)};
    }
  }

  // ---------------------------------------------------------------- every run

  datatype Event =
    | LoginAt(at: real, user: nat, access: nat, refresh: nat)
    | RefreshAt(at: real, jti: nat, access: nat, refresh: nat, active: bool)
    | LogoutAt(at: real, jti: nat, cookie: Option<nat>, active: bool)
    | BumpAt(at: real, user: nat)

  predicate FreshPair(s: State, access: nat, refresh: nat) {
    access !in s.issued && refresh !in s.issued && access != refresh
  }

  /** Time moves on strictly, and identifiers are never reused. */
  predicate Enabled(s: State, e: Event) {
    && e.at > s.now
    && match e
       case LoginAt(_, _, access, refresh) => FreshPair(s, access, refresh)
       case RefreshAt(_, _, access, refresh, _) => FreshPair(s, access, refresh)
       case _ => true
  }

  function Happens(cfg: Config, s: State, e: Event): State {
    match e
    case LoginAt(at, user, access, refresh) => LoggedIn(cfg, s, user, access, refresh, at)
    case RefreshAt(at, jti, access, refresh, active) => Refreshed(cfg, s, jti, access, refresh, at, active)
    case LogoutAt(at, jti, cookie, active) => LoggedOut(cfg, s, jti, cookie, at, active)
    case BumpAt(at, user) => Bumped(s, user, at)
  }

  ghost predicate IsRun(cfg: Config, s: State, events: seq<Event>, end: State)
    decreases |events|
  {
    if events == [] then end == s
    else Enabled(s, events[0]) && IsRun(cfg, Happens(cfg, s, events[0]), events[1..], end)
  }

  // ---------------------------------------------------------------- the denylist

  /** A revoked token is denied for at least as long as it decodes. */
  ghost predicate DenialsOutlive(s: State) {
    forall jti | jti in s.revoked :: jti in s.issued && jti in s.denied && s.denied[jti] >= s.issued[jti].exp as real
  }

  ghost predicate ExchangedOnce(s: State) {
    && (forall i | 0 <= i < |s.exchanged| :: s.exchanged[i] in s.revoked)
    && (forall i, j | 0 <= i < j < |s.exchanged| :: s.exchanged[i] != s.exchanged[j])
  }

  /** Revoking a token that still decodes outlives it, and no other entry changes. */
  lemma RevokeOutlives(cfg: Config, denied: map<nat, real>, jti: nat, t: Token, at: real)
    requires cfg.slack == 0.0 && Decodes(cfg, t, at)
    ensures var after := Revoke(denied, jti, TtlSeconds(t.exp, at), at);
            && jti in after && after[jti] >= t.exp as real
            && forall j | j in denied && j != jti :: j in after && after[j] == denied[j]
  {
    assert at.Floor as real <= at;
  }

  lemma RevokedIsRejected(cfg: Config, s: State, jti: nat, kind: Kind, at: real, active: bool)
    requires cfg.slack == 0.0 && DenialsOutlive(s) && jti in s.revoked
    ensures Judge(cfg, s, jti, kind, at, active) != Accepted
  {
  }

  lemma RefreshKeepsDenials(cfg: Config, s: State, jti: nat, access: nat, refresh: nat, at: real, active: bool)
    requires cfg.slack == 0.0 && DenialsOutlive(s) && ExchangedOnce(s) && FreshPair(s, access, refresh)
    ensures var t := Refreshed(cfg, s, jti, access, refresh, at, active); DenialsOutlive(t) && ExchangedOnce(t)
  {
    if Judge(cfg, s, jti, Refresh, at, active) == Accepted {
      RevokeOutlives(cfg, s.denied, jti, s.issued[jti], at);
      if jti in s.revoked {
        RevokedIsRejected(cfg, s, jti, Refresh, at, active);
      }
      hide Revoke, TtlSeconds, Minted, Judge, Decodes;
    }
  }

  lemma LogoutKeepsDenials(cfg: Config, s: State, jti: nat, cookie: Option<nat>, at: real, active: bool)
    requires cfg.slack == 0.0 && DenialsOutlive(s) && ExchangedOnce(s)
    ensures var t := LoggedOut(cfg, s, jti, cookie, at, active); DenialsOutlive(t) && ExchangedOnce(t)
  {
    if Judge(cfg, s, jti, Access, at, active) == Accepted {
      RevokeOutlives(cfg, s.denied, jti, s.issued[jti], at);
      var denied := Revoke(s.denied, jti, TtlSeconds(s.issued[jti].exp, at), at);
      if cookie.Some? && cookie.value in s.issued && Decodes(cfg, s.issued[cookie.value], at) {
        RevokeOutlives(cfg, denied, cookie.value, s.issued[cookie.value], at);
      }
      hide Revoke, TtlSeconds, Judge, Decodes;
    }
  }

  lemma EventKeepsDenials(cfg: Config, s: State, e: Event)
    requires cfg.slack == 0.0 && DenialsOutlive(s) && ExchangedOnce(s) && Enabled(s, e)
    ensures DenialsOutlive(Happens(cfg, s, e)) && ExchangedOnce(Happens(cfg, s, e))
  {
    match e {
      case RefreshAt(at, jti, access, refresh, active) => RefreshKeepsDenials(cfg, s, jti, access, refresh, at, active);
      case LogoutAt(at, jti, cookie, active) => LogoutKeepsDenials(cfg, s, jti, cookie, at, active);
      case _ =>
    }
    hide Refreshed, LoggedOut;
  }

  lemma {:induction false} RunKeepsDenials(cfg: Config, s: State, events: seq<Event>, end: State)
    requires cfg.slack == 0.0 && DenialsOutlive(s) && ExchangedOnce(s) && IsRun(cfg, s, events, end)
    ensures DenialsOutlive(end) && ExchangedOnce(end) && s.revoked <= end.revoked
    decreases |events|
  {
    hide DenialsOutlive, ExchangedOnce, Enabled, Happens;
    if events != [] {
      EventKeepsDenials(cfg, s, events[0]);
      EventKeepsRevoked(cfg, s, events[0]);
      RunKeepsDenials(cfg, Happens(cfg, s, events[0]), events[1..], end);
    }
  }

  lemma EventKeepsRevoked(cfg: Config, s: State, e: Event)
    ensures s.revoked <= Happens(cfg, s, e).revoked
  {
    hide Judge, Revoke, TtlSeconds, IssuePair, Decodes;
  }

  /**
   * A token once revoked, by an exchange or a logout, is rejected at every later time of
   * every run, as access and as refresh token: its denylist entry outlives it.
   */
  lemma RevokedForEver(cfg: Config, before: seq<Event>, s: State, after: seq<Event>, end: State, jti: nat,
                       kind: Kind, at: real, active: bool)
    requires cfg.slack == 0.0 && IsRun(cfg, START, before, s) && IsRun(cfg, s, after, end)
    requires jti in s.revoked
    ensures Judge(cfg, end, jti, kind, at, active) != Accepted
  {
    RunKeepsDenials(cfg, START, before, s);
    RunKeepsDenials(cfg, s, after, end);
    RevokedIsRejected(cfg, end, jti, kind, at, active);
  }

  // ---------------------------------------------------------------- a decoder with slack

  lemma {:induction false} RunGrows(cfg: Config, s: State, events: seq<Event>, mid: State, e: Event)
    requires IsRun(cfg, s, events, mid) && Enabled(mid, e)
    ensures IsRun(cfg, s, events + [e], Happens(cfg, mid, e))
    decreases |events|
  {
    hide Happens, Enabled;
    if events == [] {
      assert ([] + [e])[1..] == [];
      assert IsRun(cfg, Happens(cfg, mid, e), [], Happens(cfg, mid, e));
    } else {
      RunGrows(cfg, Happens(cfg, s, events[0]), events[1..], mid, e);
      assert (events + [e])[1..] == events[1..] + [e];
    }
  }

  /** One login, as the first event. */
  lemma OneLogin(cfg: Config) returns (events: seq<Event>, s: State)
    ensures IsRun(cfg, START, events, s) && s == LoggedIn(cfg, START, 0, 0, 1, 1.0)
  {
    var e := LoginAt(1.0, 0, 0, 1);
    s := Happens(cfg, START, e);
    events := [] + [e];
    assert Enabled(START, e) && IsRun(cfg, START, [], START);
    RunGrows(cfg, START, [], START, e);
  }

  /** With any slack a token revoked by a logout is accepted again once its denylist entry is gone. */
  lemma SlackRevivesRevoked(cfg: Config) returns (events: seq<Event>, s: State, at: real)
    requires cfg.slack > 0.0 && cfg.accessTtl >= 1.0
    ensures IsRun(cfg, START, events, s) && 0 in s.revoked && at > s.now
    ensures Judge(cfg, s, 0, Access, at, true) == Accepted
  {
    var before, first := OneLogin(cfg);
    var exp := (1.0 + cfg.accessTtl).Floor;
    assert first.issued[0] == Token(0, Access, 1.0, exp, 1.0, None) && exp >= 2;
    var out := LogoutAt(2.0, 0, None, true);
    s := Happens(cfg, first, out);
    RunGrows(cfg, START, before, first, out);
    events := before + [out];
    assert Judge(cfg, first, 0, Access, 2.0, true) == Accepted;
    assert s.denied == Revoke(map[], 0, TtlSeconds(exp, 2.0), 2.0);
    assert 0 in s.denied ==> s.denied[0] == exp as real;
    at := exp as real + cfg.slack / 2.0;
  }

  /** In the slack after `exp` an exchange is accepted and writes nothing to the denylist. */
  lemma LateExchangeLeavesNoTrace(cfg: Config, s: State, jti: nat, access: nat, refresh: nat, at: real)
    requires jti in s.issued && s.issued[jti].kind == Refresh && jti !in s.denied && s.epochs == map[]
    requires s.issued[jti].iat >= 0.0 && FreshPair(s, access, refresh)
    requires s.issued[jti].exp as real <= at < s.issued[jti].exp as real + cfg.slack
    ensures var t := Refreshed(cfg, s, jti, access, refresh, at, true);
            && t.exchanged == s.exchanged + [jti] && t.denied == s.denied && t.epochs == s.epochs
            && jti in t.issued && t.issued[jti] == s.issued[jti] && t.now == at
            && t.issued.Keys == s.issued.Keys + {access, refresh}
  {
    assert Judge(cfg, s, jti, Refresh, at, true) == Accepted;
    assert TtlSeconds(s.issued[jti].exp, at) == 0;
    hide Judge, TtlSeconds, Minted;
  }

  function Repeated(jti: nat, n: nat): seq<nat> {
    if n == 0 then [] else Repeated(jti, n - 1) + [jti]
  }

  /** After `n` late exchanges of token 1 the same may be done again. */
  ghost predicate CanRepeat(cfg: Config, s: State, n: nat) {
    && s.exchanged == Repeated(1, n) && s.denied == map[] && s.epochs == map[]
    && (forall jti | jti in s.issued :: jti < 2 * n + 2)
    && 1 in s.issued && s.issued[1].kind == Refresh && s.issued[1].iat == 1.0
    && s.now < s.issued[1].exp as real + cfg.slack
  }

  /** With any slack one refresh token is exchanged as often as it is presented just after `exp`. */
  lemma {:induction false} SlackBreaksRotation(cfg: Config, n: nat) returns (events: seq<Event>, s: State)
    requires cfg.slack > 0.0 && cfg.refreshTtl >= 1.0
    ensures IsRun(cfg, START, events, s) && CanRepeat(cfg, s, n)
    ensures s.exchanged == Repeated(1, n)
  {
    if n == 0 {
      events, s := OneLogin(cfg);
      assert s.issued[1] == Token(0, Refresh, 1.0, (1.0 + cfg.refreshTtl).Floor, 1.0, None);
    } else {
      var before, mid := SlackBreaksRotation(cfg, n - 1);
      var exp := mid.issued[1].exp as real;
      var at := if mid.now < exp then exp else (mid.now + exp + cfg.slack) / 2.0;
      var e := RefreshAt(at, 1, 2 * n, 2 * n + 1, true);
      LateExchangeLeavesNoTrace(cfg, mid, 1, 2 * n, 2 * n + 1, at);
      s := Happens(cfg, mid, e);
      hide Refreshed, IsRun;
      RunGrows(cfg, START, before, mid, e);
      events := before + [e];
      forall jti | jti in s.issued ensures jti < 2 * n + 2 {
        assert jti in s.issued.Keys;
      }
    }
  }

  /** Each refresh token is exchanged at most once in every run, exactly when tokens are rejected from `exp` on. */
  lemma ExchangedAtMostOnce(cfg: Config)
    requires cfg.slack >= 0.0 && cfg.refreshTtl >= 1.0
    ensures (forall events, s | IsRun(cfg, START, events, s) :: ExchangedOnce(s)) <==> cfg.slack == 0.0
  {
    if cfg.slack == 0.0 {
      forall events, s | IsRun(cfg, START, events, s) ensures ExchangedOnce(s) {
        RunKeepsDenials(cfg, START, events, s);
      }
    } else {
      var events, s := SlackBreaksRotation(cfg, 2);
      assert s.exchanged == Repeated(1, 1) + [1] == [1, 1];
      assert s.exchanged[0] == s.exchanged[1];
    }
  }

  /** Every revoked token is rejected from now on. */
  ghost predicate RevokedStayOut(cfg: Config, s: State) {
    forall jti, kind, at, active | jti in s.revoked && at > s.now :: Judge(cfg, s, jti, kind, at, active) != Accepted
  }

  /** Every revoked token is rejected at every later time of every run, exactly when tokens are rejected from `exp` on. */
  lemma RevocationIsFinal(cfg: Config)
    requires cfg.slack >= 0.0 && cfg.accessTtl >= 1.0
    ensures (forall events, s | IsRun(cfg, START, events, s) :: RevokedStayOut(cfg, s)) <==> cfg.slack == 0.0
  {
    if cfg.slack == 0.0 {
      forall events, s | IsRun(cfg, START, events, s) ensures RevokedStayOut(cfg, s) {
        RunKeepsDenials(cfg, START, events, s);
        forall jti, kind, at, active | jti in s.revoked && at > s.now ensures Judge(cfg, s, jti, kind, at, active) != Accepted {
          RevokedIsRejected(cfg, s, jti, kind, at, active);
        }
      }
    } else {
      var events, s, at := SlackRevivesRevoked(cfg);
      assert !RevokedStayOut(cfg, s);
      hide IsRun, RevokedStayOut;
      assert IsRun(cfg, START, events, s) && !RevokedStayOut(cfg, s);
    }
  }

  // ---------------------------------------------------------------- session epochs

  /** A bump of the user's epoch falls before the login the token stems from, or after the token was issued. */
  predicate Separated(t: Token, b: (nat, real)) {
    b.0 == t.user ==> b.1 < t.login || t.iat < b.1
  }

  /** A token was issued at its login, or for a refresh token of the same login. */
  predicate Descends(s: State, t: Token) {
    && (t.user, t.login) in s.logins
    && t.iat <= s.now
    && match t.parent
       case None => t.iat == t.login
       case Some(p) =>
         && p in s.exchanged && p in s.issued && s.issued[p].kind == Refresh
         && s.issued[p].user == t.user && s.issued[p].login == t.login && s.issued[p].iat < t.iat
  }

  ghost predicate EpochsKept(s: State) {
    && (forall b | b in s.bumps :: b.1 <= s.now && b.1 <= Epoch(s.epochs, b.0))
    && (forall jti | jti in s.issued :: Descends(s, s.issued[jti]))
    && (forall jti, b | jti in s.issued && b in s.bumps :: Separated(s.issued[jti], b))
  }

  /** Nothing recorded about a token is lost while time moves on. */
  lemma StillDescends(s: State, t: State, token: Token)
    requires Descends(s, token) && s.now <= t.now && s.logins <= t.logins
    requires forall jti | jti in s.issued :: jti in t.issued && t.issued[jti] == s.issued[jti]
    requires forall jti | jti in s.exchanged :: jti in t.exchanged
    ensures Descends(t, token)
  {
  }

  lemma IssueKeepsEpochs(cfg: Config, s: State, t: State, access: nat, refresh: nat, user: nat, login: real, parent: Option<nat>)
    requires EpochsKept(s) && s.now < t.now && FreshPair(s, access, refresh)
    requires t.issued == IssuePair(cfg, s.issued, access, refresh, user, t.now, login, parent)
    requires t.epochs == s.epochs && t.bumps == s.bumps && s.logins <= t.logins
    requires forall jti | jti in s.exchanged :: jti in t.exchanged
    requires (user, login) in t.logins
    requires match parent
             case None => login == t.now
             case Some(p) => p in t.exchanged && p in s.issued && s.issued[p].kind == Refresh
                             && s.issued[p].user == user && s.issued[p].login == login
    requires forall b | b in s.bumps && b.0 == user :: b.1 < login
    ensures EpochsKept(t)
  {
    forall jti | jti in t.issued ensures Descends(t, t.issued[jti]) {
      if jti in s.issued {
        StillDescends(s, t, s.issued[jti]);
      }
      assert parent.Some? ==> Descends(s, s.issued[parent.value]);
    }
    forall jti, b | jti in t.issued && b in t.bumps ensures Separated(t.issued[jti], b) {
      assert jti in s.issued ==> Separated(s.issued[jti], b);
    }
  }

  lemma RefreshKeepsEpochs(cfg: Config, s: State, jti: nat, access: nat, refresh: nat, at: real, active: bool)
    requires EpochsKept(s) && s.now < at && FreshPair(s, access, refresh)
    ensures EpochsKept(Refreshed(cfg, s, jti, access, refresh, at, active))
  {
    var t := Refreshed(cfg, s, jti, access, refresh, at, active);
    if Judge(cfg, s, jti, Refresh, at, active) == Accepted {
      var presented := s.issued[jti];
      assert Descends(s, presented);
      forall b | b in s.bumps && b.0 == presented.user ensures b.1 < presented.login {
        assert Separated(presented, b);
      }
      IssueKeepsEpochs(cfg, s, t, access, refresh, presented.user, presented.login, Some(jti));
    } else {
      SameTokensKeepEpochs(s, t);
    }
  }

  lemma SameTokensKeepEpochs(s: State, t: State)
    requires EpochsKept(s) && s.now < t.now
    requires t.issued == s.issued && t.epochs == s.epochs && t.bumps == s.bumps && t.logins == s.logins && t.exchanged == s.exchanged
    ensures EpochsKept(t)
  {
    forall jti | jti in t.issued ensures Descends(t, t.issued[jti]) {
      StillDescends(s, t, s.issued[jti]);
    }
  }

  lemma BumpKeepsEpochs(s: State, user: nat, at: real)
    requires EpochsKept(s) && s.now < at
    ensures EpochsKept(Bumped(s, user, at))
  {
    var t := Bumped(s, user, at);
    forall jti | jti in t.issued ensures Descends(t, t.issued[jti]) {
      StillDescends(s, t, s.issued[jti]);
    }
    forall jti, b | jti in t.issued && b in t.bumps ensures Separated(t.issued[jti], b) {
      assert Descends(s, s.issued[jti]);
      assert b in s.bumps ==> Separated(s.issued[jti], b);
    }
  }

  lemma EventKeepsEpochs(cfg: Config, s: State, e: Event)
    requires EpochsKept(s) && Enabled(s, e)
    ensures EpochsKept(Happens(cfg, s, e))
  {
    match e {
      case LoginAt(at, user, access, refresh) =>
        IssueKeepsEpochs(cfg, s, Happens(cfg, s, e), access, refresh, user, at, None);
      case RefreshAt(at, jti, access, refresh, active) => RefreshKeepsEpochs(cfg, s, jti, access, refresh, at, active);
      case LogoutAt(at, jti, cookie, active) => SameTokensKeepEpochs(s, LoggedOut(cfg, s, jti, cookie, at, active));
      case BumpAt(at, user) => BumpKeepsEpochs(s, user, at);
    }
  }

  lemma {:induction false} RunKeepsEpochs(cfg: Config, s: State, events: seq<Event>, end: State)
    requires EpochsKept(s) && IsRun(cfg, s, events, end)
    ensures EpochsKept(end)
    decreases |events|
  {
    hide EpochsKept, Enabled, Happens;
    if events != [] {
      EventKeepsEpochs(cfg, s, events[0]);
      RunKeepsEpochs(cfg, Happens(cfg, s, events[0]), events[1..], end);
    }
  }

  // ---------------------------------------------------------------- back to the login

  /** `later` was issued for the exchanged refresh token `earlier`, of the same user and login. */
  predicate ExchangedFor(s: State, earlier: nat, later: nat) {
    && earlier in s.issued && later in s.issued
    && s.issued[later].parent == Some(earlier) && earlier in s.exchanged
    && s.issued[earlier].kind == Refresh && s.issued[earlier].iat < s.issued[later].iat
    && s.issued[earlier].user == s.issued[later].user && s.issued[earlier].login == s.issued[later].login
  }

  /** From a token issued at a login, each exchanged for the next, to the token. */
  ghost predicate IsLineage(s: State, path: seq<nat>, jti: nat) {
    && path != [] && path[|path| - 1] == jti
    && path[0] in s.issued && s.issued[path[0]].parent == None
    && s.issued[path[0]].iat == s.issued[path[0]].login
    && (s.issued[path[0]].user, s.issued[path[0]].iat) in s.logins
    && forall i | 0 <= i < |path| - 1 :: ExchangedFor(s, path[i], path[i + 1])
  }

  function Older(s: State, t: Token): set<nat> {
    set jti | jti in s.issued && s.issued[jti].iat < t.iat
  }

  /** Following the parents from any token ends at a token issued at its login. */
  lemma {:induction false} TracesBack(s: State, jti: nat) returns (path: seq<nat>)
    requires EpochsKept(s) && jti in s.issued
    ensures IsLineage(s, path, jti)
    ensures s.issued[path[0]].user == s.issued[jti].user && s.issued[path[0]].iat == s.issued[jti].login
    decreases |Older(s, s.issued[jti])|
  {
    var t := s.issued[jti];
    assert Descends(s, t);
    if t.parent == None {
      path := [jti];
    } else {
      var p := t.parent.value;
      assert p in Older(s, t) && p !in Older(s, s.issued[p]);
      Sets.ProperSubsetSize(Older(s, s.issued[p]), Older(s, t), p);
      var before := TracesBack(s, p);
      path := before + [jti];
      forall i | 0 <= i < |path| - 1 ensures ExchangedFor(s, path[i], path[i + 1]) {
        if i < |before| - 1 {
          assert ExchangedFor(s, before[i], before[i + 1]);
        }
      }
    }
  }

  /**
   * After an epoch bump, a token that is accepted, at any time and of either kind, stems
   * from a login after that bump: a token was issued at that login, each token from there
   * on was exchanged for the next, and the last one is the token accepted.
   */
  lemma AcceptedStemsFromLaterLogin(cfg: Config, events: seq<Event>, s: State, jti: nat, kind: Kind, at: real, active: bool,
                                    bump: real)
    requires IsRun(cfg, START, events, s) && Judge(cfg, s, jti, kind, at, active) == Accepted
    requires (s.issued[jti].user, bump) in s.bumps
    ensures bump < s.issued[jti].login && (s.issued[jti].user, s.issued[jti].login) in s.logins
    ensures exists path :: IsLineage(s, path, jti) && s.issued[path[0]].user == s.issued[jti].user
                           && bump < s.issued[path[0]].iat == s.issued[jti].login
  {
    RunKeepsEpochs(cfg, START, events, s);
    assert Separated(s.issued[jti], (s.issued[jti].user, bump));
    assert Descends(s, s.issued[jti]);
    var path := TracesBack(s, jti);
  }
}
