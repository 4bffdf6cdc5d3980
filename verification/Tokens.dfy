/** Refresh-token rotation, logout, and cleanup of the token blacklist. */
module Tokens {
  import opened Common

  /** A token is its claims: the encoding is deterministic, so equal claims are the same string. Only refresh tokens carry
      a unique id. exp is an instant in UTC. */
  datatype Token = AccessToken(subject: string, exp: int) | RefreshToken(jti: nat, subject: string, exp: int)

  /** Lifetimes of new tokens, how far the host's local time is ahead of UTC, and the leeway the decoder allows after an
      expiry, all in microseconds. */
  datatype Config = Config(accessTtl: nat, refreshTtl: nat, utcOffset: int, leeway: nat)

  /** The clock, the blacklist rows with their naive expiry, the tokens ever signed, and the ids used up. */
  datatype Core = Core(now: int, blacklist: map<Token, int>, signed: set<Token>, nextJti: nat)

  datatype TokenError = BadToken | AlreadyConsumed

  /** Section 4.1.4 of RFC 7519: not accepted on or after the expiry, but for some small leeway. */
  predicate Decodes(cfg: Config, s: Core, t: Token) {
    t in s.signed && s.now < t.exp + cfg.leeway
  }

  predicate Verifies(cfg: Config, s: Core, t: Token, refresh: bool) {
    t !in s.blacklist && Decodes(cfg, s, t) && t.RefreshToken? == refresh
  }

  /** One insert: the row's expiry is the token's, read as the host's local time; the token column is unique. */
  function Blacklisted(cfg: Config, s: Core, t: Token): Result<Core, TokenError> {
    if !Decodes(cfg, s, t) then Err(BadToken)
    else if t in s.blacklist then Err(AlreadyConsumed)
    else Ok(s.(blacklist := s.blacklist[t := t.exp + cfg.utcOffset]))
  }

  function NewAccess(cfg: Config, s: Core, subject: string): Token {
    AccessToken(subject, s.now + cfg.accessTtl)
  }

  function NewRefresh(cfg: Config, s: Core, subject: string): Token {
    RefreshToken(s.nextJti, subject, s.now + cfg.refreshTtl)
  }

  function Issued(cfg: Config, s: Core, subject: string): Core {
    s.(signed := s.signed + {NewAccess(cfg, s, subject), NewRefresh(cfg, s, subject)}, nextJti := s.nextJti + 1)
  }

  function Rotated(cfg: Config, s: Core, t: Token): Result<Core, TokenError> {
    match Blacklisted(cfg, s, t)
    case Err(e) => Err(e)
    case Ok(after) => Ok(Issued(cfg, after, t.subject))
  }

  /** Logout blacklists the access token first; if that fails the refresh token is not reached. */
  function LoggedOut(cfg: Config, s: Core, access: Token, refresh: Token): (Core, Option<TokenError>) {
    match Blacklisted(cfg, s, access)
    case Err(e) => (s, Some(e))
    case Ok(after) => (
      match Blacklisted(cfg, after, refresh)
      case Err(e) => (after, Some(e))
      case Ok(done) => (done, None))
  }

  /** Rows go once their naive expiry is before the current time in UTC. */
  function Cleaned(s: Core): Core {
    s.(blacklist := map t | t in s.blacklist && s.blacklist[t] >= s.now :: s.blacklist[t])
  }

  class AuthService {
    const cfg: Config
    var now: int
    var blacklist: map<Token, int>
    var signed: set<Token>
    var nextJti: nat

    function View(): Core
      reads this
    {
      Core(now, blacklist, signed, nextJti)
    }

    constructor (cfg: Config, now: int)
      ensures this.cfg == cfg && View() == Core(now, map[], {}, 0)
    {
      this.cfg, this.now, blacklist, signed, nextJti := cfg, now, map[], {}, 0;
    }

    method VerifyToken(t: Token, refresh: bool) returns (subject: Option<string>)
      ensures subject == if Verifies(cfg, View(), t, refresh) then Some(t.subject) else None
    {
      if t in blacklist {
        return None;
      }
      if !(t in signed && now < t.exp + cfg.leeway) || t.RefreshToken? != refresh {
        return None;
      }
      return Some(t.subject);
    }

    method BlacklistToken(t: Token) returns (error: Option<TokenError>)
      modifies `blacklist
      ensures match Blacklisted(cfg, old(View()), t)
              case Ok(after) => error == None && View() == after
              case Err(e) => error == Some(e) && View() == old(View())
    {
      if !(t in signed && now < t.exp + cfg.leeway) {
        return Some(BadToken);
      }
      if t in blacklist {
        return Some(AlreadyConsumed);
      }
      blacklist := blacklist[t := t.exp + cfg.utcOffset];
      return None;
    }

    method BlacklistTokens(access: Token, refresh: Token) returns (error: Option<TokenError>)
      modifies `blacklist
      ensures (View(), error) == LoggedOut(cfg, old(View()), access, refresh)
    {
      error := BlacklistToken(access);
      if error.None? {
        error := BlacklistToken(refresh);
      }
    }

    method CreateTokens(subject: string) returns (access: Token, refresh: Token)
      modifies `signed, `nextJti
      ensures View() == Issued(cfg, old(View()), subject)
      ensures access == NewAccess(cfg, old(View()), subject) && refresh == NewRefresh(cfg, old(View()), subject)
    {
      access, refresh := AccessToken(subject, now + cfg.accessTtl), RefreshToken(nextJti, subject, now + cfg.refreshTtl);
      signed := signed + {access, refresh};
      nextJti := nextJti + 1;
    }

    method RotateRefreshToken(t: Token) returns (r: Result<(Token, Token), TokenError>)
      modifies this
      ensures match Rotated(cfg, old(View()), t)
              case Ok(after) =>
                && View() == after
                && r == Ok((NewAccess(cfg, old(View()), t.subject), NewRefresh(cfg, old(View()), t.subject)))
              case Err(e) => r == Err(e) && View() == old(View())
    {
      var error := BlacklistToken(t);
      if error.Some? {
        return Err(error.value);
      }
      var access, refresh := CreateTokens(t.subject);
      return Ok((access, refresh));
    }

    method DeleteExpiredEntries() returns (count: nat)
      modifies `blacklist
      ensures View() == Cleaned(old(View())) && count == |old(blacklist)| - |blacklist|
      ensures forall t :: t in blacklist <==> t in old(blacklist) && now <= old(blacklist)[t]
    {
      var kept := map t | t in blacklist && blacklist[t] >= now :: blacklist[t];
      assert |kept| <= |blacklist| by {
        assert kept.Keys <= blacklist.Keys;
        SubsetSize(kept.Keys, blacklist.Keys);
      }
      count := |blacklist| - |kept|;
      blacklist := kept;
    }
  }

  lemma {:induction false} SubsetSize<T>(a: set<T>, b: set<T>)
    requires a <= b
    ensures |a| <= |b|
  {
    assert b == a + (b - a);
  }

  // ---- Runs ----

  datatype Op =
    | Tick(to: int)
    | Login(subject: string)
    | Rotate(token: Token)
    | Logout(access: Token, refresh: Token)
    | Cleanup

  /** With what an observer keeps: the login each refresh token descends from, all tokens ever blacklisted, and the
      successful rotations. */
  datatype State = State(core: Core, login: map<nat, nat>, revoked: set<Token>, rotations: seq<Token>)

  function Start(now: int): State {
    State(Core(now, map[], {}, 0), map[], {}, [])
  }

  /** The service verifies a token as a refresh token before it rotates it, so nothing else gets this far. Whether the
      token was still good when its turn came is left to the insert. */
  function Apply(cfg: Config, s: State, op: Op): State {
    match op
    case Tick(to) => if to > s.core.now then s.(core := s.core.(now := to)) else s
    case Login(subject) =>
      s.(core := Issued(cfg, s.core, subject), login := s.login[s.core.nextJti := s.core.nextJti])
    case Rotate(token) =>
      if token.AccessToken? || token.jti !in s.login then s
      else
        (match Rotated(cfg, s.core, token)
         case Err(_) => s
         case Ok(after) =>
           State(after, s.login[s.core.nextJti := s.login[token.jti]], s.revoked + {token}, s.rotations + [token]))
    case Logout(access, refresh) =>
      var after := LoggedOut(cfg, s.core, access, refresh).0;
      s.(core := after, revoked := s.revoked + after.blacklist.Keys)
    case Cleanup => s.(core := Cleaned(s.core))
  }

  function Run(cfg: Config, s: State, ops: seq<Op>): State {
    if ops == [] then s else Apply(cfg, Run(cfg, s, ops[..|ops| - 1]), Last(ops))
  }

  /** No row is deleted while its token is still accepted. Without leeway this says the host is not behind UTC. */
  predicate RowsOutliveTokens(cfg: Config) {
    cfg.utcOffset + 1 >= cfg.leeway
  }

  /** A revoked token is still listed, or has expired. */
  ghost predicate StaysRevoked(cfg: Config, s: State) {
    && (forall t :: t in s.revoked ==> t in s.core.blacklist || t.exp + cfg.leeway <= s.core.now)
    && (forall t :: t in s.core.blacklist ==> t in s.revoked && s.core.blacklist[t] == t.exp + cfg.utcOffset)
  }

  /** Ids are used once, and every refresh token descends from a login. */
  ghost predicate FreshIds(s: State) {
    && (forall t :: t in s.core.signed && t.RefreshToken? ==> t.jti < s.core.nextJti && t.jti in s.login)
    && (forall t, u :: t in s.core.signed && u in s.core.signed && t.RefreshToken? && u.RefreshToken? && t.jti == u.jti ==> t == u)
    && (forall j :: j in s.login ==> j < s.core.nextJti && s.login[j] < s.core.nextJti)
    && s.revoked <= s.core.signed
  }

  /** Each login has at most one refresh token that was never blacklisted. */
  ghost predicate OneUnrevoked(s: State) {
    forall t, u :: Unrevoked(s, t) && Unrevoked(s, u) && s.login[t.jti] == s.login[u.jti] ==> t == u
  }

  ghost predicate Unrevoked(s: State, t: Token) {
    t in s.core.signed && t.RefreshToken? && t !in s.revoked && t.jti in s.login
  }

  ghost predicate RotatedOnce(s: State) {
    && (forall i :: 0 <= i < |s.rotations| ==> s.rotations[i] in s.revoked)
    && (forall i, j :: 0 <= i < j < |s.rotations| ==> s.rotations[i] != s.rotations[j])
  }

  lemma ApplyKeepsRevoked(cfg: Config, s: State, op: Op)
    requires RowsOutliveTokens(cfg) && StaysRevoked(cfg, s)
    ensures StaysRevoked(cfg, Apply(cfg, s, op))
  {
  }

  lemma IssuedKeepsIds(cfg: Config, s: State, subject: string, root: nat)
    requires FreshIds(s) && root <= s.core.nextJti
    ensures FreshIds(s.(core := Issued(cfg, s.core, subject), login := s.login[s.core.nextJti := root]))
  {
  }

  lemma ApplyKeepsIds(cfg: Config, s: State, op: Op)
    requires StaysRevoked(cfg, s) && FreshIds(s)
    ensures FreshIds(Apply(cfg, s, op))
  {
    match op
    case Tick(_) =>
    case Login(subject) => IssuedKeepsIds(cfg, s, subject, s.core.nextJti);
    case Rotate(token) =>
      if token.RefreshToken? && token.jti in s.login && Rotated(cfg, s.core, token).Ok? {
        var marked := s.(core := Blacklisted(cfg, s.core, token).value, revoked := s.revoked + {token});
        IssuedKeepsIds(cfg, marked, token.subject, s.login[token.jti]);
      }
    case Logout(_, _) =>
    case Cleanup =>
  }

  lemma ApplyKeepsOneUnrevoked(cfg: Config, s: State, op: Op)
    requires StaysRevoked(cfg, s) && FreshIds(s) && OneUnrevoked(s)
    ensures OneUnrevoked(Apply(cfg, s, op))
  {
  }

  lemma ApplyKeepsRotatedOnce(cfg: Config, s: State, op: Op)
    requires StaysRevoked(cfg, s) && RotatedOnce(s)
    ensures RotatedOnce(Apply(cfg, s, op))
  {
  }

  lemma {:induction false} RunIsSafe(cfg: Config, start: int, ops: seq<Op>)
    requires RowsOutliveTokens(cfg)
    ensures var s := Run(cfg, Start(start), ops);
      StaysRevoked(cfg, s) && FreshIds(s) && OneUnrevoked(s) && RotatedOnce(s)
  {
    if ops != [] {
      var before := ops[..|ops| - 1];
      RunIsSafe(cfg, start, before);
      var s := Run(cfg, Start(start), before);
      ApplyKeepsRevoked(cfg, s, Last(ops));
      ApplyKeepsIds(cfg, s, Last(ops));
      ApplyKeepsOneUnrevoked(cfg, s, Last(ops));
      ApplyKeepsRotatedOnce(cfg, s, Last(ops));
    }
  }

  /** If rows outlive tokens, a token once blacklisted never verifies again, whatever cleanups come in between. */
  lemma RevokedNeverVerifies(cfg: Config, start: int, ops: seq<Op>, t: Token, refresh: bool)
    requires RowsOutliveTokens(cfg) && t in Run(cfg, Start(start), ops).revoked
    ensures !Verifies(cfg, Run(cfg, Start(start), ops).core, t, refresh)
  {
    RunIsSafe(cfg, start, ops);
  }

  /** No refresh token is ever rotated twice, and a login never has two refresh tokens that verify. */
  lemma RotationChainIsLinear(cfg: Config, start: int, ops: seq<Op>, t: Token, u: Token)
    requires RowsOutliveTokens(cfg)
    ensures var s := Run(cfg, Start(start), ops);
      forall i, j :: 0 <= i < j < |s.rotations| ==> s.rotations[i] != s.rotations[j]
    ensures var s := Run(cfg, Start(start), ops);
      Verifies(cfg, s.core, t, true) && Verifies(cfg, s.core, u, true) ==>
        t.jti in s.login && u.jti in s.login && (s.login[t.jti] == s.login[u.jti] ==> t == u)
  {
    RunIsSafe(cfg, start, ops);
  }

  // ---- What each operation brings about ----

  predicate Good(cfg: Config, s: Core, t: Token) {
    t in s.signed && s.now < t.exp + cfg.leeway && t !in s.blacklist
  }

  lemma RunSnoc(cfg: Config, s: State, ops: seq<Op>, op: Op)
    ensures Run(cfg, s, ops + [op]) == Apply(cfg, Run(cfg, s, ops), op)
  {
    assert (ops + [op])[..|ops|] == ops;
  }

  /** Login issues a pair that expires after the configured lifetimes; the refresh token, which is new, is good until
      then, and never as an access token. */
  lemma LoginIssues(cfg: Config, start: int, ops: seq<Op>, subject: string)
    requires RowsOutliveTokens(cfg)
    ensures var s := Run(cfg, Start(start), ops).core; var t := Run(cfg, Start(start), ops + [Login(subject)]).core;
      var access, refresh := AccessToken(subject, s.now + cfg.accessTtl), RefreshToken(s.nextJti, subject, s.now + cfg.refreshTtl);
      && t.now == s.now && t.blacklist == s.blacklist && t.signed == s.signed + {access, refresh} && refresh !in s.signed
      && (Verifies(cfg, t, refresh, true) <==> cfg.refreshTtl + cfg.leeway > 0)
      && (Verifies(cfg, t, access, false) <==> cfg.accessTtl + cfg.leeway > 0 && access !in s.blacklist)
      && !Verifies(cfg, t, refresh, false) && !Verifies(cfg, t, access, true)
  {
    RunIsSafe(cfg, start, ops);
    RunSnoc(cfg, Start(start), ops, Login(subject));
  }

  /** The token is spent, and the one in its place, new and for the same subject and login, is good until it expires. */
  ghost predicate Replaced(cfg: Config, s: State, u: State, t: Token)
    requires t.RefreshToken?
  {
    var next := RefreshToken(s.core.nextJti, t.subject, s.core.now + cfg.refreshTtl);
    && u.rotations == s.rotations + [t] && !Verifies(cfg, u.core, t, true) && next !in s.core.signed
    && (Verifies(cfg, u.core, next, true) <==> cfg.refreshTtl + cfg.leeway > 0)
    && t.jti in s.login && next.jti in u.login && u.login[next.jti] == s.login[t.jti]
  }

  lemma RotateReplaces(cfg: Config, s: State, t: Token)
    requires StaysRevoked(cfg, s) && FreshIds(s) && Verifies(cfg, s.core, t, true)
    ensures Replaced(cfg, s, Apply(cfg, s, Rotate(t)), t)
  {
    assert Blacklisted(cfg, s.core, t) == Ok(s.core.(blacklist := s.core.blacklist[t := t.exp + cfg.utcOffset]));
  }

  /** Any refresh token that verifies, at any time, can be rotated. */
  lemma RotationReplaces(cfg: Config, start: int, ops: seq<Op>, t: Token)
    requires RowsOutliveTokens(cfg) && Verifies(cfg, Run(cfg, Start(start), ops).core, t, true)
    ensures Replaced(cfg, Run(cfg, Start(start), ops), Run(cfg, Start(start), ops + [Rotate(t)]), t)
  {
    RunIsSafe(cfg, start, ops);
    RotateReplaces(cfg, Run(cfg, Start(start), ops), t);
    RunSnoc(cfg, Start(start), ops, Rotate(t));
  }

  /** A refresh token that does not verify is not rotated, and nothing happens. */
  lemma OnlyGoodTokensRotate(cfg: Config, s: State, t: Token)
    requires !Good(cfg, s.core, t)
    ensures Apply(cfg, s, Rotate(t)) == s
  {
  }

  /** Logout succeeds exactly for two different good tokens, and lists both; a bad access token stops it before the refresh
      token, a bad refresh token after the access token. */
  lemma LogoutIff(cfg: Config, s: Core, access: Token, refresh: Token)
    ensures var (after, error) := LoggedOut(cfg, s, access, refresh);
      && (error == None <==> Good(cfg, s, access) && Good(cfg, s, refresh) && access != refresh)
      && after.blacklist.Keys == s.blacklist.Keys
         + (if Good(cfg, s, access) then {access} else {})
         + (if Good(cfg, s, access) && Good(cfg, s, refresh) then {refresh} else {})
      && after.now == s.now && after.signed == s.signed
  {
  }

  lemma {:induction false} RevokedStays(cfg: Config, s: State, more: seq<Op>)
    ensures s.revoked <= Run(cfg, s, more).revoked
  {
    if more != [] {
      RevokedStays(cfg, s, more[..|more| - 1]);
    }
  }

  lemma {:induction false} RunConcat(cfg: Config, s: State, ops: seq<Op>, more: seq<Op>)
    ensures Run(cfg, s, ops + more) == Run(cfg, Run(cfg, s, ops), more)
  {
    if more == [] {
      assert ops + more == ops;
    } else {
      RunConcat(cfg, s, ops, more[..|more| - 1]);
      assert (ops + more)[..|ops + more| - 1] == ops + more[..|more| - 1];
    }
  }

  /** After a logout that succeeded, neither token ever verifies again, as either type, whatever comes after. */
  lemma LoggedOutForGood(cfg: Config, start: int, ops: seq<Op>, access: Token, refresh: Token, more: seq<Op>, asRefresh: bool)
    requires RowsOutliveTokens(cfg)
    requires var s := Run(cfg, Start(start), ops).core; Good(cfg, s, access) && Good(cfg, s, refresh) && access != refresh
    ensures var t := Run(cfg, Start(start), ops + [Logout(access, refresh)] + more).core;
      !Verifies(cfg, t, access, asRefresh) && !Verifies(cfg, t, refresh, asRefresh)
  {
    var s := Run(cfg, Start(start), ops);
    var u := Run(cfg, Start(start), ops + [Logout(access, refresh)]);
    RunSnoc(cfg, Start(start), ops, Logout(access, refresh));
    LogoutIff(cfg, s.core, access, refresh);
    assert access in u.revoked && refresh in u.revoked;
    RunConcat(cfg, Start(start), ops + [Logout(access, refresh)], more);
    RevokedStays(cfg, u, more);
    RevokedNeverVerifies(cfg, start, ops + [Logout(access, refresh)] + more, access, asRefresh);
    RevokedNeverVerifies(cfg, start, ops + [Logout(access, refresh)] + more, refresh, asRefresh);
  }

  /** Otherwise the row is taken for expired too soon: under every such configuration, some run rotates one refresh
      token twice. */
  lemma EarlyCleanupRotatesTwice(cfg: Config, subject: string) returns (ops: seq<Op>)
    requires !RowsOutliveTokens(cfg) && cfg.refreshTtl > 0
    ensures var s := Run(cfg, Start(0), ops); |s.rotations| == 2 && s.rotations[0] == s.rotations[1]
  {
    var t := RefreshToken(0, subject, cfg.refreshTtl);
    var expiry := cfg.refreshTtl + cfg.utcOffset;
    var later := if expiry < 0 then 0 else expiry + 1;
    ops := [Login(subject), Rotate(t), Tick(later), Cleanup, Rotate(t)];
    var s0 := Start(0);
    var s1 := Apply(cfg, s0, Login(subject));
    var s2 := Apply(cfg, s1, Rotate(t));
    var s3 := Apply(cfg, s2, Tick(later));
    var s4 := Apply(cfg, s3, Cleanup);
    var s5 := Apply(cfg, s4, Rotate(t));
    assert s2.rotations == [t] && s2.core.blacklist == map[t := expiry];
    assert s4.core.blacklist == map[];
    assert s5.rotations == [t, t];
    FollowStates(cfg, [s0, s1, s2, s3, s4, s5], ops);
  }

  /** So how long rows are kept decides it. */
  lemma RotatedOnceIff(cfg: Config)
    requires cfg.refreshTtl > 0
    ensures RowsOutliveTokens(cfg) <==> forall ops :: RotatedOnce(Run(cfg, Start(0), ops))
  {
    if RowsOutliveTokens(cfg) {
      forall ops ensures RotatedOnce(Run(cfg, Start(0), ops)) {
        RunIsSafe(cfg, 0, ops);
      }
    } else {
      var ops := EarlyCleanupRotatesTwice(cfg, "user");
      assert !RotatedOnce(Run(cfg, Start(0), ops));
    }
  }

  lemma {:induction false} FollowStates(cfg: Config, states: seq<State>, ops: seq<Op>)
    requires |states| == |ops| + 1
    requires forall i :: 0 <= i < |ops| ==> states[i + 1] == Apply(cfg, states[i], ops[i])
    ensures Run(cfg, states[0], ops) == Last(states)
  {
    if ops != [] {
      FollowStates(cfg, states[..|ops|], ops[..|ops| - 1]);
    }
  }
}
