/** Values shared by every module: optional values, JSON values, deployment settings, and the
    cryptographic primitives the program calls but does not implement. */
module Options {
  datatype Option<+T> = None | Some(value: T)
}

/** The JSON values that appear in policies and in audit events. */
module Json {
  import opened Options

  datatype JVal =
    | JNull
    | JBool(flag: bool)
    | JNum(num: real)
    | JStr(text: string)
    | JList(items: seq<string>)

  // A JSON object. K enumerates the keys the program looks up and lumps the others together.
  type JObj<K> = map<K, JVal>

  function Get<K>(o: JObj<K>, key: K): Option<JVal> {
    if key in o then Some(o[key]) else None
  }

  // Python truthiness of `o.get(key)`.
  predicate Truthy<K>(o: JObj<K>, key: K) {
    key in o &&
    match o[key]
    case JNull => false
    case JBool(b) => b
    case JNum(n) => n != 0.0
    case JStr(s) => s != ""
    case JList(l) => l != []
  }

  // Python's bool is a number; strings, lists and null are not.
  function Number(v: JVal): Option<real> {
    match v
    case JNum(n) => Some(n)
    case JBool(b) => Some(if b then 1.0 else 0.0)
    case _ => None
  }
}

/** Deployment settings (common/config.py). All of them come from the environment, so the model
    keeps them as parameters. */
module Settings {
  datatype Config = Config(
    tokenTtl: int,
    proofMaxAge: int,
    bindingEnabled: bool,
    requireApproval: bool,
    maxAttempts: int,
    window: int,
    lockout: int,
    stepUpEnabled: bool,
    roleLevels: map<string, int>)

  // Lifetime of a login challenge and of a revocation entry that names no expiry.
  const CHALLENGE_TTL: real := 30.0
  const DEFAULT_REVOCATION_TTL: real := 86400.0
  // How long a proof nonce outlives the freshness window.
  const NONCE_GRACE: real := 5.0
}

/** Public-key operations. A PEM text is loaded to the DER encoding of its key; two PEM texts may
    carry the same key. Loading fails on malformed text. */
module Crypto {
  import opened Options

  datatype Primitives = Primitives(
    loadPem: string -> Option<string>,
    thumbprint: string -> string,
    verify: (string, string, string) -> bool)

  // The thumbprints of these keys are not empty, and no two of the keys share one.
  ghost predicate Sound(c: Primitives, keys: set<string>) {
    && (forall k | k in keys :: c.thumbprint(k) != "")
    && (forall j, k | j in keys && k in keys && c.thumbprint(j) == c.thumbprint(k) :: j == k)
  }

  function KeyThumbprint(c: Primitives, pem: string): Option<string> {
    match c.loadPem(pem)
    case Some(key) => Some(c.thumbprint(key))
    case None => None
  }

  // verify_signature: a key that does not load verifies nothing.
  predicate VerifySignature(c: Primitives, pem: string, signature: string, message: string) {
    match c.loadPem(pem)
    case Some(key) => c.verify(key, signature, message)
    case None => false
  }
}

/** The machine-readable reasons that appear in responses and audit events, one constructor for
    each reason string of the source. */
module Reasons {
  datatype Reason =
    // gateway/gateway_server.py and common/jwt_utils.py
    | MissingBearerToken | TokenMalformed | TokenSignatureInvalid | TokenExpired | TokenRevoked
    // common/token_binding.py
    | TokenNotBound | DeviceProofMissing | DeviceProofMalformed | DeviceProofWrongToken
    | DeviceProofWrongRequest | DeviceProofStale | DeviceProofNonceWeak | DeviceProofReplayed
    | DeviceProofUnknownDevice | DeviceProofDeviceNotApproved | DeviceProofKeyMismatch
    | DeviceProofSignatureInvalid
    // pdp/policy_engine.py
    | UnknownResource | InsufficientRole | InsufficientDeviceTrust | AttestationRequired
    | StepUpRequired | InsufficientAuthMethod | OutsideBusinessHours | PolicyMatch
    // idp/idp_server.py
    | AccountLocked | InvalidCredentials | InvalidOtp | MissingDevicePosture | MfaOk
    | InvalidPublicKey | EnrolledPending | EnrolledApproved | EnrolledRevoked
    | BackendUnreachable
}
