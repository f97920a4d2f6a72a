/** Minting and checking access tokens (common/jwt_utils.py). */
module JwtUtils {
  import opened Options
  import opened Settings
  import opened Reasons
  import opened TokenStore

  datatype Claims = Claims(
    sub: string,
    role: string,
    deviceId: string,
    trust: int,
    attested: bool,
    iat: int,
    authTime: int,
    amr: seq<string>,
    exp: int,
    jti: string,
    cnf: Option<string>)

  // What a caller presents: no bearer header, text that is no token, or a token with these claims.
  datatype Bearer = NoBearer | Malformed | Token(claims: Claims)

  datatype TokenCheck = Verified(claims: Claims) | TokenError(reason: Reason)

  function MintClaims(cfg: Config, username: string, role: string, deviceId: string, trust: int,
                      attested: bool, cnf: Option<string>, authTime: Option<int>, amr: seq<string>, now: real, jti: string): Claims
  {
    Claims(username, role, deviceId, trust, attested, now.Floor, if authTime.Some? then authTime.value else now.Floor,
           if amr != [] then amr else ["pwd", "otp"],
           now.Floor + cfg.tokenTtl, jti,
           if cnf.Some? && cnf.value != "" then cnf else None)
  }

  // Signatures are unforgeable: exactly the minted tokens verify, strictly before their expiry.
  function Check(minted: seq<Claims>, bearer: Bearer, now: real): TokenCheck {
    match bearer
    case NoBearer => TokenError(MissingBearerToken)
    case Malformed => TokenError(TokenMalformed)
    case Token(claims) =>
      if claims !in minted then TokenError(TokenSignatureInvalid)
      else if claims.exp as real <= now then TokenError(TokenExpired)
      else Verified(claims)
  }

  class Issuer {
    const cfg: Config
    const store: IssuedTokens
    var minted: seq<Claims>

    constructor (cfg: Config, store: IssuedTokens)
      ensures this.cfg == cfg && this.store == store && minted == []
    {
      this.cfg, this.store := cfg, store;
      minted := [];
    }

    // `jti` stands for uuid4().hex; `now` and `recordedAt` for the two clock readings.
    method IssueToken(username: string, role: string, deviceId: string, trust: int, attested: bool,
                      cnf: Option<string>, authTime: Option<int>, amr: seq<string>, jti: string, now: real, recordedAt: real)
      returns (claims: Claims)
      modifies this`minted, store
      ensures claims == MintClaims(cfg, username, role, deviceId, trust, attested, cnf, authTime, amr, now, jti)
      ensures claims.sub == username && claims.role == role && claims.deviceId == deviceId && claims.jti == jti
      ensures claims.trust == trust && claims.attested == attested
      ensures claims.iat as real <= now < claims.iat as real + 1.0 && claims.exp == claims.iat + cfg.tokenTtl
      ensures Some(claims.authTime) == if authTime == None then Some(claims.iat) else authTime
      ensures amr != [] ==> claims.amr == amr
      ensures amr == [] ==> claims.amr == ["pwd", "otp"]
      ensures claims.cnf == if cnf == Some("") then None else cnf
      ensures minted == old(minted) + [claims]
      ensures store.records == Recorded(old(store.records), jti, username, claims.exp, deviceId, recordedAt)
    {
      var iat := now.Floor;
      var exp := iat + cfg.tokenTtl;
      claims := Claims(username, role, deviceId, trust, attested, iat, if authTime == None then iat else authTime.value,
                       if amr == [] then ["pwd", "otp"] else amr, exp, jti, None);
      if cnf.Some? && cnf.value != "" {
        claims := claims.(cnf := cnf);
      }
      minted := minted + [claims];
      store.RecordIssued(jti, username, exp, deviceId, recordedAt);
    }

    // jwt.decode: the signature first, then the expiry.
    method VerifyToken(bearer: Bearer, now: real) returns (r: TokenCheck)
      ensures r == Check(minted, bearer, now)
      ensures r.Verified? <==> bearer.Token? && bearer.claims in minted && now < bearer.claims.exp as real
      ensures r.Verified? ==> r.claims == bearer.claims
      ensures r == TokenError(TokenExpired) <==> bearer.Token? && bearer.claims in minted && now >= bearer.claims.exp as real
    {
      if bearer == NoBearer {
        return TokenError(MissingBearerToken);
      }
      if bearer == Malformed {
        return TokenError(TokenMalformed);
      }
      if bearer.claims !in minted {
        return TokenError(TokenSignatureInvalid);
      }
      if bearer.claims.exp as real <= now {
        return TokenError(TokenExpired);
      }
      return Verified(bearer.claims);
    }
  }
}

/** The pruned index of live tokens (common/token_store.py). */
module TokenStore {
  datatype Issued = Issued(jti: string, username: string, exp: int, issuedAt: real, deviceId: string)

  function Live(records: seq<Issued>, now: real): seq<Issued> {
    if records == [] then []
    else (if records[0].exp as real > now then [records[0]] else []) + Live(records[1..], now)
  }

  function Recorded(records: seq<Issued>, jti: string, username: string, exp: int, deviceId: string, now: real): seq<Issued> {
    Live(records, now) + [Issued(jti, username, exp, now, deviceId)]
  }

  function JtisOfUser(records: seq<Issued>, username: string): seq<string> {
    if records == [] then []
    else (if records[0].username == username then [records[0].jti] else []) + JtisOfUser(records[1..], username)
  }

  // Pruning drops exactly the expired records.
  lemma {:induction false} LiveIsExact(records: seq<Issued>, now: real, r: Issued)
    ensures r in Live(records, now) <==> r in records && r.exp as real > now
  {
    if records != [] {
      LiveIsExact(records[1..], now, r);
      assert records == [records[0]] + records[1..];
    }
  }

  lemma {:induction false} JtisOfUserIsExact(records: seq<Issued>, username: string, jti: string)
    ensures jti in JtisOfUser(records, username)
            <==> exists r :: r in records && r.username == username && r.jti == jti
  {
    if records != [] {
      JtisOfUserIsExact(records[1..], username, jti);
      assert records == [records[0]] + records[1..];
    }
  }

  class IssuedTokens {
    var records: seq<Issued>

    constructor ()
      ensures records == []
    {
      records := [];
    }

    method RecordIssued(jti: string, username: string, exp: int, deviceId: string, now: real)
      modifies this
      ensures records == Recorded(old(records), jti, username, exp, deviceId, now)
    {
      var kept := Live(records, now);
      records := kept + [Issued(jti, username, exp, now, deviceId)];
    }

    method ActiveJtisForUser(username: string, now: real) returns (jtis: seq<string>)
      ensures jtis == JtisOfUser(Live(records, now), username)
      ensures forall jti :: jti in jtis <==>
                exists r :: r in records && r.username == username && r.exp as real > now && r.jti == jti
    {
      var live := LoadAll(now);
      jtis := JtisOfUser(live, username);
      forall jti {
        JtisOfUserIsExact(live, username, jti);
      }
    }

    method LoadAll(now: real) returns (live: seq<Issued>)
      ensures live == Live(records, now)
      ensures forall r :: r in live <==> r in records && r.exp as real > now
    {
      live := Live(records, now);
      forall r {
        LiveIsExact(records, now, r);
      }
    }
  }
}

/** The revocation list (common/revocation.py). */
module Revocation {
  import opened Options
  import opened Settings

  datatype Entry = Entry(revokedAt: real, expiresAt: real, reason: string)

  type Table = map<string, Entry>

  function Revoked(table: Table, jti: string, exp: Option<int>, reason: string, now: real): Table {
    table[jti := Entry(now, if exp.Some? then exp.value as real else now + DEFAULT_REVOCATION_TTL, reason)]
  }

  function Cleaned(table: Table, now: real): Table {
    map jti | jti in table && table[jti].expiresAt > now :: table[jti]
  }

  predicate IsRevoked(table: Table, jti: string) {
    jti != "" && jti in table
  }

  lemma {:induction false} CardinalityOfSubset<T>(a: set<T>, b: set<T>)
    requires a <= b
    ensures |a| <= |b|
  {
    assert b == a + (b - a);
  }

  class RevocationList {
    var table: Table

    constructor ()
      ensures table == map[]
    {
      table := map[];
    }

    method Revoke(jti: string, exp: Option<int>, reason: string, now: real)
      modifies this
      ensures table == Revoked(old(table), jti, exp, reason, now)
    {
      var expiresAt := now + DEFAULT_REVOCATION_TTL;
      if exp.Some? {
        expiresAt := exp.value as real;
      }
      table := table[jti := Entry(now, expiresAt, reason)];
    }

    method CleanupExpired(now: real) returns (removed: nat)
      modifies this
      ensures table == Cleaned(old(table), now)
      ensures removed == |old(table)| - |table|
    {
      var kept := map jti | jti in table && table[jti].expiresAt > now :: table[jti];
      assert kept.Keys <= table.Keys;
      CardinalityOfSubset(kept.Keys, table.Keys);
      removed := |table| - |kept|;
      table := kept;
    }
  }
}
