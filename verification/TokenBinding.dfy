/** Proof of possession for bound tokens, with the Gateway's replay cache (common/token_binding.py). */
module TokenBinding {
  import opened Options
  import opened Settings
  import opened Reasons
  import opened Crypto
  import opened DeviceRegistry
  import opened JwtUtils
  import opened ProofPayload
  import opened Text

  // nonce -> moment until which it is remembered
  type Nonces = map<string, real>

  // The two proof headers: at least one empty, not decodable, or decoded.
  datatype ProofHeaders = NoProof | Undecodable | Proof(data: string, signature: string)

  datatype ProofResult = Accepted | ProofError(reason: Reason)

  function Retention(cfg: Config): real {
    cfg.proofMaxAge as real + NONCE_GRACE
  }

  function Pruned(nonces: Nonces, now: real): Nonces {
    map n | n in nonces && nonces[n] >= now :: nonces[n]
  }

  function Remembered(cfg: Config, nonces: Nonces, nonce: string, now: real): Nonces {
    if nonce in Pruned(nonces, now) then Pruned(nonces, now)
    else Pruned(nonces, now)[nonce := now + Retention(cfg)]
  }

  predicate TokenRequiresProof(cfg: Config, claims: Claims) {
    cfg.bindingEnabled && claims.cnf.Some? && claims.cnf.value != ""
  }

  // The checks made before the replay cache is consulted.
  function Screen(cfg: Config, claims: Claims, verb: string, path: string, proof: ProofHeaders, now: real): ProofResult {
    if claims.cnf.None? || claims.cnf.value == "" then ProofError(TokenNotBound)
    else match proof
      case NoProof => ProofError(DeviceProofMissing)
      case Undecodable => ProofError(DeviceProofMalformed)
      case Proof(data, _) =>
        var parts := Split(SEP, data);
        if |parts| != 5 then ProofError(DeviceProofMalformed)
        else if parts[0] != claims.jti then ProofError(DeviceProofWrongToken)
        else if parts[1] != verb || parts[2] != path then ProofError(DeviceProofWrongRequest)
        else match ParseInt(parts[3])
          case None => ProofError(DeviceProofMalformed)
          case Some(timestamp) =>
            var age := now - timestamp as real;
            if age > cfg.proofMaxAge as real || age < -(cfg.proofMaxAge as real) then ProofError(DeviceProofStale)
            else if |parts[4]| < 8 then ProofError(DeviceProofNonceWeak)
            else Accepted
  }

  function NonceOf(data: string): string
    requires |Split(SEP, data)| == 5
  {
    Split(SEP, data)[4]
  }

  function TimestampOf(data: string): int
    requires |Split(SEP, data)| == 5 && ParseInt(Split(SEP, data)[3]).Some?
  {
    ParseInt(Split(SEP, data)[3]).value
  }

  // The message the signature is checked against: rebuilt from the parsed fields.
  function Rebuilt(data: string): string
    requires |Split(SEP, data)| == 5 && ParseInt(Split(SEP, data)[3]).Some?
  {
    var p := Split(SEP, data);
    BuildProofPayload(p[0], p[1], p[2], TimestampOf(data), p[4])
  }

  function ActualThumbprint(c: Primitives, record: Device): string {
    if record.thumbprint != "" then record.thumbprint
    else match KeyThumbprint(c, record.pem) { case Some(t) => t case None => "" }
  }

  // The checks made after the nonce has been spent.
  function CheckKey(c: Primitives, devices: Devices, claims: Claims, message: string, signature: string): ProofResult {
    if claims.deviceId == "" || claims.deviceId !in devices then ProofError(DeviceProofUnknownDevice)
    else
      var record := devices[claims.deviceId];
      if record.status != Approved then ProofError(DeviceProofDeviceNotApproved)
      else if Some(ActualThumbprint(c, record)) != claims.cnf then ProofError(DeviceProofKeyMismatch)
      else if !VerifySignature(c, record.pem, signature, message) then ProofError(DeviceProofSignatureInvalid)
      else Accepted
  }

  function VerifyProof(cfg: Config, c: Primitives, nonces: Nonces, devices: Devices, claims: Claims,
                       verb: string, path: string, proof: ProofHeaders, now: real): (Nonces, ProofResult)
  {
    var screened := Screen(cfg, claims, verb, path, proof, now);
    if screened != Accepted then (nonces, screened)
    else
      var nonce := NonceOf(proof.data);
      var spent := Remembered(cfg, nonces, nonce, now);
      if nonce in Pruned(nonces, now) then (spent, ProofError(DeviceProofReplayed))
      else (spent, CheckKey(c, devices, claims, Rebuilt(proof.data), proof.signature))
  }

  class ProofVerifier {
    const cfg: Config
    const primitives: Primitives
    const registry: Registry
    var seenNonces: Nonces

    constructor (cfg: Config, primitives: Primitives, registry: Registry)
      ensures this.cfg == cfg && this.primitives == primitives && this.registry == registry
      ensures seenNonces == map[]
    {
      this.cfg, this.primitives, this.registry := cfg, primitives, registry;
      seenNonces := map[];
    }

    method PruneNonces(now: real)
      modifies this
      ensures seenNonces == Pruned(old(seenNonces), now)
    {
      var stale := set n | n in seenNonces && seenNonces[n] < now;
      while stale != {}
        invariant stale <= seenNonces.Keys
        invariant forall n | n in seenNonces :: n in old(seenNonces) && seenNonces[n] == old(seenNonces)[n]
        invariant forall n | n in old(seenNonces) :: n !in seenNonces ==> old(seenNonces)[n] < now
        invariant forall n | n in seenNonces :: n in stale <==> seenNonces[n] < now
        decreases stale
      {
        var n :| n in stale;
        seenNonces := seenNonces - {n};
        stale := stale - {n};
      }
    }

    method RememberNonce(nonce: string, now: real) returns (unused: bool)
      modifies this
      ensures seenNonces == Remembered(cfg, old(seenNonces), nonce, now)
      ensures unused <==> nonce !in Pruned(old(seenNonces), now)
    {
      PruneNonces(now);
      if nonce in seenNonces {
        return false;
      }
      seenNonces := seenNonces[nonce := now + cfg.proofMaxAge as real + NONCE_GRACE];
      return true;
    }

    method Verify(claims: Claims, verb: string, path: string, proof: ProofHeaders, now: real)
      returns (result: ProofResult)
      modifies this
      ensures (seenNonces, result)
           == VerifyProof(cfg, primitives, old(seenNonces), registry.devices, claims, verb, path, proof, now)
    {
      if claims.cnf.None? || claims.cnf.value == "" {
        return ProofError(TokenNotBound);
      }
      match proof {
        case NoProof => return ProofError(DeviceProofMissing);
        case Undecodable => return ProofError(DeviceProofMalformed);
        case Proof(data, signature) =>
          var parts := Split(SEP, data);
          if |parts| != 5 {
            return ProofError(DeviceProofMalformed);
          }
          var jti, proofVerb, proofPath, rawTimestamp, nonce := parts[0], parts[1], parts[2], parts[3], parts[4];
          if jti != claims.jti {
            return ProofError(DeviceProofWrongToken);
          }
          if proofVerb != verb || proofPath != path {
            return ProofError(DeviceProofWrongRequest);
          }
          var timestamp := ParseInt(rawTimestamp);
          if timestamp == None {
            return ProofError(DeviceProofMalformed);
          }
          var age := now - timestamp.value as real;
          if age > cfg.proofMaxAge as real || age < -(cfg.proofMaxAge as real) {
            return ProofError(DeviceProofStale);
          }
          if nonce == "" || |nonce| < 8 {
            return ProofError(DeviceProofNonceWeak);
          }
          var unused := RememberNonce(nonce, now);
          if !unused {
            return ProofError(DeviceProofReplayed);
          }
          var deviceId := claims.deviceId;
          if deviceId == "" || deviceId !in registry.devices {
            return ProofError(DeviceProofUnknownDevice);
          }
          var record := registry.devices[deviceId];
          if record.status != Approved {
            return ProofError(DeviceProofDeviceNotApproved);
          }
          var actual := record.thumbprint;
          if actual == "" {
            actual := ActualThumbprint(primitives, record);
          }
          if claims.cnf != Some(actual) {
            return ProofError(DeviceProofKeyMismatch);
          }
          var payload := BuildProofPayload(jti, proofVerb, proofPath, timestamp.value, nonce);
          if !VerifySignature(primitives, record.pem, signature, payload) {
            return ProofError(DeviceProofSignatureInvalid);
          }
          return Accepted;
      }
    }
  }

  // ---- What a verdict means ----

  // A well-formed proof for this token and request, fresh at `now`, with a nonce of at least eight
  // characters.
  ghost predicate FitsRequest(cfg: Config, claims: Claims, verb: string, path: string, proof: ProofHeaders, now: real) {
    && claims.cnf.Some? && claims.cnf.value != "" && proof.Proof?
    && var fields := Split(SEP, proof.data);
    && |fields| == 5 && fields[0] == claims.jti && fields[1] == verb && fields[2] == path
    && ParseInt(fields[3]).Some?
    && now - cfg.proofMaxAge as real <= ParseInt(fields[3]).value as real <= now + cfg.proofMaxAge as real
    && |fields[4]| >= 8
  }

  // The claimed device is approved, its key is the pinned one, and it signed the payload.
  ghost predicate SignedByPinnedKey(c: Primitives, devices: Devices, claims: Claims, signature: string, message: string) {
    && claims.deviceId != "" && claims.deviceId in devices
    && var record := devices[claims.deviceId];
    && record.status == Approved
    && (record.thumbprint != "" ==> claims.cnf == Some(record.thumbprint))
    && (record.thumbprint == "" ==> claims.cnf == KeyThumbprint(c, record.pem))
    && c.loadPem(record.pem).Some? && c.verify(c.loadPem(record.pem).value, signature, message)
  }

  // The nonce is held by the cache, and its time has not passed.
  ghost predicate StillHeld(nonces: Nonces, nonce: string, now: real) {
    nonce in nonces && nonces[nonce] >= now
  }

  // A proof is accepted exactly when it is well formed, its nonce is not held, and the pinned key
  // signed it.
  lemma AcceptedIff(cfg: Config, c: Primitives, nonces: Nonces, devices: Devices, claims: Claims,
                    verb: string, path: string, proof: ProofHeaders, now: real)
    ensures VerifyProof(cfg, c, nonces, devices, claims, verb, path, proof, now).1 == Accepted <==>
              && FitsRequest(cfg, claims, verb, path, proof, now)
              && var f := Split(SEP, proof.data);
              && !StillHeld(nonces, f[4], now)
              && SignedByPinnedKey(c, devices, claims, proof.signature, BuildProofPayload(f[0], f[1], f[2], ParseInt(f[3]).value, f[4]))
  {
    if FitsRequest(cfg, claims, verb, path, proof, now) {
      var f := Split(SEP, proof.data);
      assert Rebuilt(proof.data) == BuildProofPayload(f[0], f[1], f[2], ParseInt(f[3]).value, f[4]);
      hide Split, ParseInt, BuildProofPayload;
    } else {
      hide Split, ParseInt;
    }
  }

  // A proof that is not well formed leaves the replay cache as it was. A well-formed one sweeps out
  // the nonces whose time has passed, and keeps its own for the window and five seconds more,
  // unless it was held already.
  lemma CacheAfterProof(cfg: Config, c: Primitives, nonces: Nonces, devices: Devices, claims: Claims,
                        verb: string, path: string, proof: ProofHeaders, now: real, nonce: string)
    ensures var after := VerifyProof(cfg, c, nonces, devices, claims, verb, path, proof, now).0;
            if FitsRequest(cfg, claims, verb, path, proof, now) then
              if !StillHeld(nonces, nonce, now) && nonce == Split(SEP, proof.data)[4]
              then nonce in after && after[nonce] == now + cfg.proofMaxAge as real + 5.0
              else (nonce in after <==> StillHeld(nonces, nonce, now)) && (nonce in after ==> after[nonce] == nonces[nonce])
            else after == nonces
  {
    hide Split, ParseInt;
  }

  // A refusal names a test that the proof fails.
  lemma RefusalsAreTrue(cfg: Config, c: Primitives, nonces: Nonces, devices: Devices, claims: Claims,
                        verb: string, path: string, proof: ProofHeaders, now: real)
    ensures var result := VerifyProof(cfg, c, nonces, devices, claims, verb, path, proof, now).1;
            result.ProofError? ==>
              match result.reason
              case TokenNotBound => claims.cnf.None? || claims.cnf.value == ""
              case DeviceProofMissing => proof == NoProof
              case DeviceProofMalformed =>
                proof == Undecodable || (proof.Proof? && (|Split(SEP, proof.data)| != 5 || ParseInt(Split(SEP, proof.data)[3]).None?))
              case DeviceProofWrongToken => proof.Proof? && |Split(SEP, proof.data)| == 5 && Split(SEP, proof.data)[0] != claims.jti
              case DeviceProofWrongRequest =>
                proof.Proof? && |Split(SEP, proof.data)| == 5 && (Split(SEP, proof.data)[1] != verb || Split(SEP, proof.data)[2] != path)
              case DeviceProofStale =>
                && proof.Proof? && |Split(SEP, proof.data)| == 5 && ParseInt(Split(SEP, proof.data)[3]).Some?
                && var timestamp := ParseInt(Split(SEP, proof.data)[3]).value as real;
                   timestamp < now - cfg.proofMaxAge as real || timestamp > now + cfg.proofMaxAge as real
              case DeviceProofNonceWeak => proof.Proof? && |Split(SEP, proof.data)| == 5 && |Split(SEP, proof.data)[4]| < 8
              case DeviceProofReplayed => proof.Proof? && |Split(SEP, proof.data)| == 5 && StillHeld(nonces, Split(SEP, proof.data)[4], now)
              case DeviceProofUnknownDevice => claims.deviceId == "" || claims.deviceId !in devices
              case DeviceProofDeviceNotApproved => claims.deviceId in devices && devices[claims.deviceId].status != Approved
              case DeviceProofKeyMismatch =>
                claims.deviceId in devices && (devices[claims.deviceId].thumbprint != "" ==> claims.cnf != Some(devices[claims.deviceId].thumbprint))
              case DeviceProofSignatureInvalid =>
                && claims.deviceId in devices && FitsRequest(cfg, claims, verb, path, proof, now)
                && var f := Split(SEP, proof.data);
                   !SignedByPinnedKey(c, devices, claims, proof.signature, BuildProofPayload(f[0], f[1], f[2], ParseInt(f[3]).value, f[4]))
              case _ => false
  {
    AcceptedIff(cfg, c, nonces, devices, claims, verb, path, proof, now);
    hide Split, ParseInt, SignedByPinnedKey;
  }

  // Any proof that reaches the replay cache spends its nonce, accepted or not.
  lemma NonceIsSpent(cfg: Config, c: Primitives, nonces: Nonces, devices: Devices, claims: Claims,
                     verb: string, path: string, proof: ProofHeaders, now: real)
    requires Screen(cfg, claims, verb, path, proof, now) == Accepted && cfg.proofMaxAge >= 0
    ensures var after := VerifyProof(cfg, c, nonces, devices, claims, verb, path, proof, now).0;
            NonceOf(proof.data) in after && after[NonceOf(proof.data)] >= now
  {
  }

  // The skew bound is exact. With the registry unchanged and no other request in between, an
  // accepted proof can be accepted a second time at some later moment if and only if its
  // timestamp was more than five seconds ahead of the Gateway clock.
  lemma ReplayableIffAheadOfClock(cfg: Config, c: Primitives, nonces: Nonces, devices: Devices, claims: Claims,
                                  verb: string, path: string, proof: ProofHeaders, now: real)
    requires VerifyProof(cfg, c, nonces, devices, claims, verb, path, proof, now).1 == Accepted
    ensures var after := VerifyProof(cfg, c, nonces, devices, claims, verb, path, proof, now).0;
            (exists later :: later >= now
               && VerifyProof(cfg, c, after, devices, claims, verb, path, proof, later).1 == Accepted)
            <==> TimestampOf(proof.data) as real > now + 5.0
  {
    var after := VerifyProof(cfg, c, nonces, devices, claims, verb, path, proof, now).0;
    var nonce := NonceOf(proof.data);
    var lastFresh := TimestampOf(proof.data) as real + cfg.proofMaxAge as real;
    assert after[nonce] == now + Retention(cfg);
    assert VerifyProof(cfg, c, after, devices, claims, verb, path, proof, lastFresh).1 == Accepted
           <==> nonce !in Pruned(after, lastFresh);
  }
}
