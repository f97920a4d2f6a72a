# PyZTNA, verified

A Dafny model of PyZTNA's access protocol and of the stores it rests on, with proofs of what the
protocol promises over every run.

PyZTNA spreads one protocol over several pieces of shared state: the device registry with its
one-shot login challenges, the issued-token index and the revocation list, the Gateway's replay
cache, the login limiter, the policy cache, and a hash-chained audit log. No single function
carries the guarantees; they hold because the handlers fit together. The project therefore has
three layers.

- **Objects.** Each store, handler and command-line tool is a class whose methods change its
  fields in the order the source does. Each method is proved equal to a function of the old state
  (`Apply`, `Failed`, `Recorded`, `Revoked`, `VerifyProof`, `Evaluate`, `Logged`, `Backed`,
  `Restored`, `HandleLogin`, `HandleAccess`, ...).
- **Runs.** `AccessProtocol` puts those functions together as one `State`, a `Step` for every
  request and administrator command, and `Exec`, the state after any sequence of steps. `Legal`
  says only that the clock never goes back, that token ids are not reused, and that the Gateway's
  handler gets the resource its path names. Restarts of the
  IdP and of the Gateway, policy reloads and stray lines in the log are steps too.
- **Theorems.** Everything in `Attestation`, `CutOff`, `ReplayAndGuessing`, `FaithfulTrace` and
  `EndToEnd` is about every legal run, with any clients, in any order.

| file | models |
|---|---|
| Foundations.dfy | JSON values, settings, public-key primitives, machine-readable reasons |
| Text.dfy, ProofPayload.dfy, TokenBinding.dfy | common/token_binding.py, and the path matcher of common/http_utils.py |
| RateLimiter.dfy | common/rate_limiter.py |
| DeviceRegistry.dfy | idp/device_registry.py |
| Tokens.dfy | common/jwt_utils.py, common/token_store.py, common/revocation.py |
| PolicyEngine.dfy | pdp/policy_engine.py |
| AuditLog.dfy, AuditBackup.dfy | common/audit_log.py, tools/backup_audit_log.py |
| AuditRecords.dfy | the fields of the log_event calls in idp/idp_server.py and gateway/gateway_server.py |
| AccessProtocol.dfy, Services.dfy | idp/idp_server.py, gateway/gateway_server.py, tools/manage_devices.py, tools/revoke_token.py |
| Answers.dfy | what the answers of idp/idp_server.py and gateway/gateway_server.py mean, over the request and the stores alone |
| Runs.dfy, Attestation.dfy, CutOff.dfy, ReplayAndGuessing.dfy, FaithfulTrace.dfy, EndToEnd.dfy | properties of whole runs |
| GracefulDrain.dfy | the drain protocol of common/http_utils.py |
| Storage.dfy | common/storage.py |

## Premises

- The clock is a real number that never decreases. A handler reads it several times; each reading
  is a parameter of its step.
- Every handler and command is one step, except that the approval command is two, before and after
  its prompt; a confirmation may come at any time. Every read-modify-write of a file is atomic and
  succeeds. (The drain protocol and the atomic write have their own, finer models.)
- A token verifies if and only if it was minted, and strictly before `exp`: signatures are
  unforgeable. Token ids are fresh and not empty.
- `SoundRun`: thumbprints are not empty and do not collide on the keys enrolled in the run. A key
  that does not load verifies nothing. PEM loading and signature verification are otherwise arbitrary.
- SHA-256 is only assumed not to collide on the texts of the logs being compared, and not to map
  one of them to the genesis value. Assuming injectivity on all texts would contradict the fixed
  length of digests, for thumbprints as for the log.
- `json.loads` undoes `json.dumps`. Audit lines carry the fields the handlers write, one by one
  (`AuditRecords.Fields`); the detail after a reason's code and the correlation id are arbitrary
  text.
- The file system tells file names apart up to a folding of letters that is a parameter: none on
  POSIX, letter case on Windows.
- Password, one-time code, posture probe, prompts, and the outcome of each system call are inputs.
- Device approval and token binding are switched on where a theorem says so. All other settings
  are arbitrary.

## What the proofs found

- **A proof can be replayed exactly when its timestamp is more than 5 seconds ahead of the Gateway
  clock**, it is still fresh, and its token is still live, but for the time one request takes, when
  the nonce is forgotten (`ReplayableRunIff`, over every continuation of every run). It is never
  accepted a third time (`NoThirdAcceptance`). The replay cache keeps a nonce for
  `PROOF_MAX_AGE_SECONDS + 5`, but a proof dated t seconds ahead stays fresh for
  `PROOF_MAX_AGE_SECONDS + t`. The documentation at common/token_binding.py:37-39 says that a proof
  cannot be replayed even within its window; beyond 5 s of skew the code does not bear that out.
  `NoReplay` proves the bound over every run when the skew is at most 5 s.
- **Revoking a device is final unless the token is later revoked by hand with an entry that lapses
  before the token** (`RevocationCutOff`). A manual revocation (`tools/revoke_token.py`) overwrites
  the entry the device sweep wrote with one that lapses after 86400 seconds, and clean-up then
  revives a longer-lived token. So the cut-off holds over all runs exactly when
  `TOKEN_TTL_SECONDS` is at most 86400 (`CutOffIffLifetimeWithinADay`). The default of 45 is far
  below.
- **Anyone can spoil an attested login.** `/challenge` asks for no credentials, and a second
  challenge replaces the first (`AnotherChallengeSpoilsTheLogin`): the login then succeeds without
  attestation. `AttestedIffBacked` gives the exact condition.
- **An administrator may approve a key that was never shown.** The approval command shows the
  thumbprint, waits at a prompt, and then approves whatever key is stored. `/enroll` asks for no
  credentials, so another key may be enrolled meanwhile (`SwapDuringPromptIsApproved`). The approved
  key is the one shown exactly when no other key was the last to be enrolled in between
  (`ApprovedKeyIsTheOneShown`).
- **A caller that supplies a field named `hash` breaks the audit chain, and nothing else does**
  (`AppendKeepsChain`). `log_event` hashes that field, and the verifier drops it. No caller in the
  repository does this.
- **The signature is checked against a rebuilt payload**, which is the text the client sent exactly
  when the timestamp is written the way `str()` writes it (`RebuiltIsSigned`). A client that sends
  `+17` or ` 17` must have signed the text with `17`.
- **Two namespaces share a file exactly when they agree after dropping the characters the file
  name cannot hold and folding letters** (`SharedFile`). Only then can the file backend and the
  memory backend disagree (`BackendRefinement`). On Windows, names that differ in case share a file.
- **Two forced restores within one second lose evidence** (`SameSecondLosesEvidence`): the second
  overwrites the copy the first set aside. With distinct stamps nothing is ever lost
  (`EvidenceIsConserved`). Restoring the file that the same restore sets the log aside to does not
  bring the backup back, and still reports success when the current log is intact
  (`RestoreBringsBack`).
- **Step-up can fire although `TOKEN_TTL_SECONDS <= max_auth_age_seconds`.** The Gateway reads the
  clock once to check expiry and again for policy, and the token may expire in between
  (`StepUpRun`). With at most d seconds between the two readings, step-up can fire on a token that
  verified exactly when the limit is below the token lifetime plus d
  (`StepUpFiresIffLimitIsShorter`); `StepUpAtTheGateway` gives the condition for one request.
- **A shutdown forced by the grace period may close the listener while a handler runs**
  (`ForcedStopMayAbandon`); a drained one cannot (`DrainIsSafe`).
- `tools/manage_devices.py --revoke` sweeps tokens only of a device that is enrolled; the cut-off
  theorem carries that condition.

## Model

| member | source | states |
|---|---|---|
| EndToEnd.EndToEndSoundness | gateway/gateway_server.py:81-164 | Over every run: a request that reaches the backend of an attestation-gated resource carries a minted, unexpired, unrevoked token that meets policy; its login spent a challenge issued to the same device at most 30 s before; the key that signed it is the one pinned in `cnf`, signed this request with a path that names this resource, and is still the device's approved key, by an approval standing in the run |
| EndToEnd.ProofOpensOneResource | common/token_binding.py:29-35 | Two requests accepted with the same proof data carry the same token id and reach the same resource |
| Routing.ResourceIsFound | common/http_utils.py:185-204 | The path matcher finds a resource name again in its path |
| Routing.RouteMatchesIff | common/http_utils.py:185-204 | A path yields a resource if and only if it is the route with that non-empty, slash-free name in it, with any slashes around |
| EndToEnd.ReachedIffCleared | gateway/gateway_server.py:86-157 | A request reaches a backend if and only if its token is minted, unexpired and unrevoked, its proof is accepted, policy allows it, and the resource has a backend |
| Answers.ReachedByTheValues | gateway/gateway_server.py:81-157 | The whole access decision over the raw values: a request reaches a backend if and only if its token is minted, unexpired and unrevoked; if it is bound, the proof has five fields for this token, verb and path, a fresh timestamp, an unused nonce of at least 8 characters, and the signature of the approved pinned key; and the token's claims meet every JSON value of the policy |
| Answers.AccessAnswers | gateway/gateway_server.py:112-164 | With a live token: 401 with the proof's reason if the proof does not hold, else what policy says of exactly the token's claims: 401 for step-up, 403 for any other denial, an exception for a malformed policy, and the backend otherwise |
| Answers.BearerAnswers | gateway/gateway_server.py:86-105 | Before that, 401 with the reason of the first bearer test that fails: header, text, signature, expiry, revocation |
| Answers.AccessTouches | gateway/gateway_server.py:81-164 | An access changes the replay cache, the log and the backend calls only, and calls the named backend once if and only if it reaches it |
| Answers.AccessTouchesCache | gateway/gateway_server.py:107-126 | The replay cache changes by the check of a live bound token's proof, and not otherwise |
| Answers.StepsKeepToTheirStores | gateway/gateway_server.py:81-164 | Which stores each request, command and restart may change, and that it changes no other |
| Answers.PoliciesInForce | pdp/policy_engine.py:32-61 | Over every run, each field of each policy in force is the one in the policy file as it was last read, unless its name begins with an underscore, and otherwise the built-in one; a missing or unreadable file leaves the built-in policies |
| EndToEnd.AcceptedProof | common/token_binding.py:129-188 | An accepted proof for a bound token means the pinned key is the device's approved key and signed the token id, verb, path, a fresh timestamp and the nonce |
| EndToEnd.HonestProofIsAccepted | common/token_binding.py:117-188 | A fresh proof built and signed by the pinned, approved key is accepted |
| EndToEnd.HonestLogin | idp/idp_server.py:149-177 | A login with valid factors and a signature over a held, unexpired challenge yields an attested token pinned to the approved key |
| EndToEnd.HonestLoginIsAttested | idp/device_registry.py:200-277 | The same over every run: whatever other clients did since, as long as the challenge was neither replaced nor spent and the IdP did not restart |
| EndToEnd.HonestUse | gateway/gateway_server.py:93-157 | An honest request with an unexpired bound token, attested or not, that meets policy reaches the backend if and only if the token is not revoked and its device is still approved with the key it is pinned to |
| EndToEnd.SparingStepsKeepTokensUsable | tools/manage_devices.py:120-149 | Of all steps by anyone, exactly these end that: revoking the device, enrolling another key for it, revoking the token, or revoking its user while it lives |
| EndToEnd.ServedIffSpared | gateway/gateway_server.py:81-164 | Over every run: after a login from an approved device, sparing steps, and one more step, an honest request is served if and only if that step spares the token |
| EndToEnd.HonestClientIsServed | idp/idp_server.py:103-185 | Over every run: the token of a login from an approved device serves its honest client after any later steps of any clients that spare it |
| EndToEnd.StepUpAtTheGateway | gateway/gateway_server.py:130-152 | A request with a live token and an accepted proof is told to step up if and only if it passes the earlier checks and its authentication is older than the limit when policy is read |
| EndToEnd.StepUpRun | gateway/gateway_server.py:93-152 | A legal run in which a token that verified is told to step up although the limit equals the token lifetime |
| CutOff.RevocationCutOff | tools/manage_devices.py:120-149 | Once a device has been revoked, no token issued to it before reaches a backend again, for any token lifetime and under any later logins, re-enrolments, approvals, revocations, clean-ups and restarts, as long as no later manual revocation of the token lapses before it expires |
| CutOff.ShortLivedTokensAreNeverShortened | common/revocation.py:49-60 | With lifetimes of at most a day no manual revocation lapses before its token |
| CutOff.CutOffIffLifetimeWithinADay | common/revocation.py:49-60 | The cut-off holds over every run if and only if `TOKEN_TTL_SECONDS` is at most 86400 |
| CutOff.TokenComesBack | common/revocation.py:49-80 | For a longer lifetime, a run in which a token of the revoked device reaches the backend |
| CutOff.RevocationKills | tools/manage_devices.py:126-140 | The revoke command leaves every token of the device expired or covered by an entry that outlives it |
| CutOff.DeadForGood | common/revocation.py:49-80 | A token so covered stays covered until it expires, whatever happens later except such a manual revocation |
| CutOff.OneStepKeepsDead | common/revocation.py:49-80 | No single step, clean-up included, uncovers a dead token, except a manual revocation that lapses before it expires |
| CutOff.LiveTokensAreListed | common/token_store.py:42-49 | The pruned index always contains every token that can still be used, with its device and expiry |
| CutOff.ListedTokensWereMinted | common/token_store.py:42-49 | Nothing but minted tokens is in the index |
| CutOff.ExpiryIsBounded | common/jwt_utils.py:49-51 | No token in existence expires later than one lifetime from now |
| CutOff.SweepRevokes | tools/manage_devices.py:136-140 | After the sweep exactly the listed tokens of the device have a new entry, and it runs to the token's own expiry |
| CutOff.RevokedAllEntries | tools/revoke_token.py:39-45 | Revoking a user writes exactly the user's tokens, for a day each |
| CutOff.EntryAfterStep | common/revocation.py:49-80 | The revocation entry of a token id after any step: a manual revocation replaces it for a day, the sweep of its device replaces it until the token's expiry, a clean-up drops it if and only if it has lapsed, and nothing else changes it |
| ProofReplay.NoReplay | common/token_binding.py:99-106 | Over every run of one Gateway process, a proof payload whose timestamp was at most 5 s ahead of the clock when first accepted is never accepted again |
| ProofReplay.AcceptancesAreSpaced | common/token_binding.py:157-170 | Two acceptances of one nonce are more than `PROOF_MAX_AGE_SECONDS` + 5 s apart, whatever their timestamps |
| ProofReplay.ReplayableRunIff | common/token_binding.py:93-170 | After a Gateway process has accepted a proof, some legal continuation of the run has the same process accept it again, in a request with at most d seconds between its expiry and proof checks, if and only if the timestamp was more than 5 s ahead of the clock, token and proof are still good when the first request is over, and the token lives until d seconds before the nonce is forgotten |
| ProofReplay.NoThirdAcceptance | common/token_binding.py:93-170 | Whatever the skew, no proof payload is accepted three times by one Gateway process |
| ProofReplay.NonceIsHeld | common/token_binding.py:93-106 | A remembered nonce stays in the cache, with its deadline, until that deadline passes |
| ProofReplay.AccessNonces | gateway/gateway_server.py:93-126 | An access touches the replay cache only through the proof check, and only for a live, unrevoked token |
| TokenBinding.ReplayableIffAheadOfClock | common/token_binding.py:99-170 | Of the proof check alone, with the registry unchanged: an accepted proof passes it again at some later moment if and only if its timestamp was more than 5 s ahead of the clock |
| TokenBinding.NonceIsSpent | common/token_binding.py:164-188 | A proof that reaches the replay cache spends its nonce, whether or not it is then accepted |
| TokenBinding.AcceptedIff | common/token_binding.py:117-188 | Accepted if and only if the token is bound, the data has five fields for this token, verb and path, a fresh timestamp and a nonce of at least 8 characters that is not held, and the approved device's pinned key signed the payload |
| TokenBinding.CacheAfterProof | common/token_binding.py:93-170 | A proof that is not well formed -- a short nonce included -- leaves the replay cache as it was; any other keeps its nonce for the window and 5 s, drops exactly the lapsed ones, and extends none |
| TokenBinding.RefusalsAreTrue | common/token_binding.py:129-188 | The reason of a refusal is true of the proof, the token, the device or the cache |
| TokenBinding.ProofVerifier.PruneNonces | common/token_binding.py:93-96 | Removes exactly the nonces whose deadline has passed |
| TokenBinding.ProofVerifier.RememberNonce | common/token_binding.py:99-106 | Fresh if and only if not remembered after pruning; a fresh nonce is kept for the freshness window and 5 s, an old one keeps its deadline |
| TokenBinding.ProofVerifier.Verify | common/token_binding.py:117-188 | The ordered checks, with the nonce spent before the device and key are looked at |
| ProofPayload.PayloadRoundTrip | common/token_binding.py:83-90 | Splitting and parsing a built payload gives the five fields back if and only if no text field contains the separator; any integer timestamp survives |
| ProofPayload.PayloadInjective | common/token_binding.py:83-90 | No two different requests share a payload |
| ProofPayload.RebuiltIsSigned | common/token_binding.py:142-186 | The payload rebuilt for signature verification is the one sent if and only if the timestamp is written as `str()` writes it |
| Text.JoinSplit | common/token_binding.py:142-145 | Joining what a split produced gives the text back, for every text |
| Text.SplitJoin | common/token_binding.py:90-145 | Splitting what a join produced gives the fields back |
| ProofPayload.ParseFormatInt | common/token_binding.py:152-155 | Reading an integer back from its decimal text |
| ProofPayload.ParseIntIff | common/token_binding.py:152-155 | `int()` gives v if and only if the text is, within white space, an optional sign and digits with single underscores that are the decimal form of v up to leading zeros |
| GuessRate.GuessRateBound | common/rate_limiter.py:35-57 | Over every run, any k * LOGIN_MAX_ATTEMPTS + 1 failures of a user with no success and no IdP restart among them last at least k times the shorter of window and lockout |
| GuessRate.StepKeepsTrack | common/rate_limiter.py:31-67 | Every step by anyone keeps the limiter's entry in step with the failures recorded so far |
| GuessRate.LimiterTracks | idp/idp_server.py:112-144 | Over every run, the limiter's entry is the recent suffix of the failures recorded since the last success or restart, a pending lockout dates from the last of them, and they are spaced |
| GuessRate.LoginEntry | idp/idp_server.py:115-144 | What each outcome of a login does to the user's entry: only a wrong factor past the lockout check counts as a failure |
| RateLimiting.FailureKeepsSpacing | common/rate_limiter.py:50-57 | A failure recorded while no lockout is pending comes at least min(window, lockout) after the one LOGIN_MAX_ATTEMPTS before it |
| RateLimiting.FailureKeepsTrack | common/rate_limiter.py:50-57 | Recording a failure keeps the entry a suffix of the recorded failures |
| RateLimiting.CheckKeepsTrack | common/rate_limiter.py:35-47 | Wiping an elapsed lockout forgets only failures older than min(window, lockout) |
| RateLimiting.RecentIsSuffix | common/rate_limiter.py:54 | Filtering an ordered list by age keeps exactly a suffix of it |
| RateLimiting.SpacingAddsUp | common/rate_limiter.py:50-57 | Spacing over one block of attempts adds up over k blocks |
| RateLimiting.FailureLocksExactly | common/rate_limiter.py:50-57 | A failure locks the account if and only if with it the failures inside the window reach the limit; the entry remembers exactly those |
| RateLimiting.LockoutEndsOnTime | common/rate_limiter.py:35-47 | A lockout is in force strictly until its time, and the next check after that forgets everything |
| RateLimiting.RateLimiter.IsLockedOut | common/rate_limiter.py:35-47 | Locked if and only if a lockout is pending, with the exact time left; an elapsed lockout clears the entry |
| RateLimiting.RateLimiter.RecordFailure | common/rate_limiter.py:50-57 | Drops failures outside the window, appends this one, locks at the limit |
| RateLimiting.RateLimiter.RecordSuccess | common/rate_limiter.py:60-67 | Clears the entry and touches no other user's |
| DeviceRegistry.KeyLineage | idp/device_registry.py:97-197 | Over every sequence of operations, a device is approved with a key if and only if an approval ran while that key was stored, with no key change and no revocation since |
| DeviceRegistry.RecordsCarryTheirKey | idp/device_registry.py:82-142 | Every record carries the thumbprint of its own PEM, and its key is the last well-formed one enrolled, if the enrolled keys have different thumbprints |
| DeviceRegistry.SwapEndsApproval | idp/device_registry.py:97-142 | Enrolling another key ends the approval, and enrolling the old one again does not restore it |
| DeviceRegistry.StatusIsTheLastWord | idp/device_registry.py:97-197 | Over every sequence of operations, a device's status is that of the last operation with a word on it: an approval, a revocation, or an enrolment of another key; re-enrolling the stored key never changes it |
| DeviceRegistry.RecordsTellTheirHistory | idp/device_registry.py:97-197 | Every other field too: first and last enrolment time, previous thumbprint, who approved when, who revoked when and why |
| DeviceRegistry.Registry.RegisterDevice | idp/device_registry.py:97-142 | Same key: only the enrolment time changes; other or first key: a fresh record that remembers the old thumbprint; malformed key: nothing changes |
| DeviceRegistry.Registry.ApproveDevice | idp/device_registry.py:162-173 | Approves exactly the named record, and reports whether there was one |
| DeviceRegistry.Registry.RevokeDevice | idp/device_registry.py:176-197 | Revokes exactly the named record, and reports whether there was one |
| DeviceRegistry.Registry.IssueChallenge | idp/device_registry.py:200-204 | One outstanding challenge per device, valid for 30 s |
| DeviceRegistry.Registry.VerifyAndConsume | idp/device_registry.py:227-277 | True if and only if the challenge is outstanding and unexpired, the device is approved, and its key signed the nonce; the challenge is gone in every case |
| Attestation.RegistryLineage | idp/device_registry.py:97-197 | The same two facts for the registry of every protocol run, with collisions ruled out only among the keys enrolled in it |
| Attestation.DevicesReplay | idp/idp_server.py:54-92 | The registry of a run is the replay of the enrolments, approvals and revocations that took effect in it |
| Attestation.ChallengeOrigin | idp/device_registry.py:200-247 | Every challenge held was issued in the run to that device, and neither reissued nor spent since, with no IdP restart |
| Attestation.ChallengeEffect | idp/device_registry.py:200-247 | A challenge request sets the device's challenge, a signed login past the factors removes it whether or not it verifies, an IdP restart drops it, and every other step leaves it alone |
| Attestation.AttestedIffBacked | idp/idp_server.py:149-152 | A login is attested if and only if it is backed by a challenge issued to the same device at most 30 s before, neither replaced nor spent since, signed with the device's approved key, with no IdP restart in between |
| Attestation.OutstandingIsHeld | idp/device_registry.py:200-247 | A challenge that was issued and neither replaced nor spent since is held until the IdP restarts |
| Attestation.AnotherChallengeSpoilsTheLogin | idp/idp_server.py:94-101 | After anyone's challenge for the same device, a login whose signature the device's key does not verify over the new nonce comes out unattested |
| Attestation.ApprovedKeyIsTheOneShown | tools/manage_devices.py:92-117 | The key a confirmed approval approves is the one the operator was shown if and only if the last well-formed enrolment of the device in between, if any, was of that key |
| Attestation.SwapDuringPromptIsApproved | tools/manage_devices.py:105-115 | Another key enrolled while the operator looks at the prompt is approved |
| Attestation.ChallengeBacksOneLogin | idp/device_registry.py:235-247 | No challenge backs two logins, even if they present the same signature |
| Attestation.AttestedImpliesBound | idp/idp_server.py:149-177 | Every token ever minted as attested is pinned to the key that signed its challenge, so the Gateway demands a proof for it |
| Runs.MintOrigin | common/jwt_utils.py:49-72 | Every minted token comes from a login of the run |
| Runs.JtiIdentifiesToken | common/jwt_utils.py:50-62 | No two minted tokens share a token id |
| Runs.LoginOutcome | idp/idp_server.py:115-185 | A login succeeds if and only if there is no lockout and every factor passes; then it mints and records one token and spends the challenge, else it touches none of the three |
| Answers.LoginAnswers | idp/idp_server.py:112-144 | The answer names the first test that fails: lockout, user and password, one-time code, posture |
| Answers.TokenOfLogin | idp/idp_server.py:146-177 | What a successful login mints: the user and the user's role; the device named, else the user's own, else a stand-in; the posture score truncated toward zero; `iat` and `auth_time` the whole seconds of the minting time and `exp` one lifetime later; attested if and only if the approved device's stored key signed the held, unexpired challenge; `amr` to match; pinned to the approved device's thumbprint if binding is on |
| Answers.FailedLoginCounts | common/rate_limiter.py:35-57 | A wrong password and a wrong code count alike, on top of exactly the remembered failures inside the window, and lock the account if and only if that reaches the limit; a lockout changes nothing; a missing posture counts nothing |
| Answers.LoginTouches | idp/idp_server.py:103-185 | A login changes its own user's limiter entry, the challenge of its device, the token stores and the log, and nothing else; the index keeps exactly the unexpired records and the new one |
| Answers.EnrolmentAnswers | idp/idp_server.py:54-92 | A request without id or key and a key that does not load change nothing; otherwise the answer is the stored record, and no other device is touched |
| Answers.ChallengeAnswers | idp/idp_server.py:94-101 | The nonce in the answer is the one stored, good for 30 s; an unknown device gets none |
| JwtUtils.Issuer.IssueToken | common/jwt_utils.py:26-72 | The minted claims and their times, recorded in the index with the same id, user, expiry and device |
| JwtUtils.Issuer.VerifyToken | common/jwt_utils.py:79-95 | Accepts a token if and only if it was minted and the clock is strictly before its expiry, and calls it expired if and only if it was minted and the clock is not |
| TokenStore.LiveIsExact | common/token_store.py:46 | Pruning drops exactly the expired records |
| TokenStore.JtisOfUserIsExact | common/token_store.py:52-56 | A user's active ids are exactly those of the user's records |
| TokenStore.IssuedTokens.RecordIssued | common/token_store.py:42-49 | Prunes the expired records and appends the new one |
| TokenStore.IssuedTokens.LoadAll | common/token_store.py:74-79 | A record is returned if and only if it is stored and its expiry is later than now |
| TokenStore.IssuedTokens.ActiveJtisForUser | common/token_store.py:52-56 | An id is returned if and only if a stored, unexpired record of the user has it |
| Revocation.RevocationList.Revoke | common/revocation.py:49-60 | Writes the entry of one token, until its expiry or for a day |
| Revocation.RevocationList.CleanupExpired | common/revocation.py:71-80 | Keeps exactly the entries that have not lapsed, and counts the others |
| PolicyEngine.AllowsExactlyWhatItDemands | pdp/policy_engine.py:86-146 | A policy with usable values never raises, and allows a subject if and only if it meets the policy in every dimension |
| PolicyEngine.AllowsByTheValues | pdp/policy_engine.py:75-146 | Over the JSON values themselves: a policy with numeric thresholds and iterable methods allows a subject if and only if its role's level (0 when unlisted) and trust score reach the thresholds, and each further value that is present and not empty is met: attestation, age limit, every method asked for, the hour |
| PolicyEngine.DenialsNameTheFirstFailure | pdp/policy_engine.py:86-146 | A denial names a dimension the subject fails, and the dimensions before it are passed |
| PolicyEngine.StepsUpByTheValues | pdp/policy_engine.py:121-131 | Step-up is asked of exactly the subjects that pass role, trust and attestation with an authentication older than a non-empty limit |
| PolicyEngine.UnusableValuesNeverAllow | pdp/policy_engine.py:86-146 | A missing or non-numeric threshold, a non-numeric age limit, and methods that cannot be iterated over never lead to an allow |
| PolicyEngine.EvaluateIsMonotone | pdp/policy_engine.py:75-146 | Stronger claims never turn an allow into a deny, and neither does a looser policy; a zero or absent age limit is the loosest |
| PolicyEngine.AttestationIsEnforced | pdp/policy_engine.py:104-105 | A resource whose `require_attestation` is JSON true, or any other value that is not empty, is never allowed to an unattested subject, even when its policy is malformed elsewhere |
| PolicyEngine.StepUpFiresIffLimitIsShorter | pdp/policy_engine.py:121-131 | If policy is read at most d seconds after the token was checked, step-up can fire on a token that verified if and only if the limit is below the token lifetime plus d |
| PolicyEngine.MergedLookup | pdp/policy_engine.py:36-45 | Override, else built-in value, field by field; comment fields never enter |
| PolicyEngine.LoadedLookup | pdp/policy_engine.py:32-61 | What loading leaves in force, field by field, and the business hours (0 to 24 by default) |
| PolicyEngine.PolicyDecisionPoint.Overlay | pdp/policy_engine.py:43-45 | The loop over the file's resources computes the merge, in whatever order it visits them |
| PolicyEngine.PolicyDecisionPoint.ReloadPolicies | pdp/policy_engine.py:32-61 | A missing or unreadable file leaves the built-in policies; a readable one overlays them |
| PolicyEngine.PolicyDecisionPoint.Decide | pdp/policy_engine.py:75-146 | The first failing dimension gives the reason, and an unusable value raises where the source would |
| AuditLog.TamperEvidence | common/audit_log.py:94-111 | Two logs that verify and end in the same hash are equal in length and in every field |
| AuditLog.BreakIsLocal | common/audit_log.py:100-111 | If one event other than the last of a verified log is changed in any fields, its hash included, the reported line is that event's or the next |
| AuditLog.VerifyEventsChain | common/audit_log.py:94-111 | Accepts if and only if every event names its predecessor's hash and carries its own; otherwise `break_line` is the length of the shortest failing prefix |
| AuditLog.AppendKeepsChain | common/audit_log.py:64-75 | Appending to an intact file keeps it intact if and only if the caller supplies no `hash` field |
| AuditLog.AppendExtendsChain | common/audit_log.py:64-75 | Appending without such a field keeps the chain, with no assumption about the hash |
| AuditLog.WriterAgreesWithReader | common/audit_log.py:47-91 | On a file that verifies, the writer chains onto exactly the hash the verifier expects, whatever blank or undecodable lines lie between |
| AuditLog.AppendedLine | common/audit_log.py:39-75 | The appended line names the hash before it (64 zeros in an empty file), carries the SHA-256 of its own other fields followed by that hash, and shows the caller's fields, which take precedence over the two time stamps, and nothing else |
| AuditLog.LastHashIs | common/audit_log.py:47-61 | Also in a file that does not verify, the writer chains onto the last stored hash, lines without one skipped |
| AuditLog.Log.ReadLastHash | common/audit_log.py:47-61 | The hash of the last decodable line that has one, or genesis |
| AuditLog.Log.LogEvent | common/audit_log.py:64-75 | Appends one sealed line and changes no other |
| AuditLog.ReadEvents | common/audit_log.py:78-91 | The decodable lines, in order |
| FaithfulTrace.TraceIsFaithful | gateway/gateway_server.py:86-162 | Over every run, whatever stray lines appear in it, the log verifies as a chain and has one line, in order, for every answer to an access, a login or an enrolment (two for a backend that could not be reached), which tells exactly that answer: kind, decision, reason, address, resource, and of the caller or token what the handler knows by then |
| FaithfulTrace.TraceTellsOneHistory | idp/idp_server.py:64-183 | Records that the log of a run tells are the records of that run, up to the cut-off part of a thumbprint |
| FaithfulTrace.CallsFollowAllowLines | gateway/gateway_server.py:130-157 | Every backend call is made when its own allow line is the last line of the log, and no two calls share one |
| FaithfulTrace.AccessLog | gateway/gateway_server.py:81-164 | Whatever its outcome, one access adds exactly its own records to what the log tells: nobody before the token is verified, user and device until policy is asked, role and trust score from then on |
| AuditRecords.RecordIsReadBack | gateway/gateway_server.py:86-162 | A line as the handlers write it, stamped and sealed, tells exactly its record, field by field -- and no field more -- whatever free text it carries, and brings no `hash` field |
| AuditRecords.TellsOneRecord | idp/idp_server.py:67-183 | No line tells two different records, up to the cut-off part of a thumbprint |
| AuditRecords.ReasonIsReadBack | pdp/policy_engine.py:86-146 | The reason is found again in its text, whatever detail follows its code |
| AuditRecords.CodesDiffer | common/token_binding.py:129-188 | No reason code begins another one |
| AuditBackup.EvidenceIsConserved | tools/backup_audit_log.py:91-249 | Over any run of appends, backups and restores with distinct stamps, forced or not, every line once in some file stays in some file, and no archived file ever changes |
| AuditBackup.LoggedLinesSurvive | tools/backup_audit_log.py:91-249 | In such a run every line `log_event` ever wrote is still in the log or in an archived file |
| AuditBackup.BackupKeepsEvidence | tools/backup_audit_log.py:91-129 | A faithful backup loses no line if and only if it is refused or the file it overwrites is expendable |
| AuditBackup.RestoreKeepsEvidence | tools/backup_audit_log.py:212-243 | A restore loses no line if and only if it is refused, there is no log to set aside, or the file it sets the log aside to is expendable |
| AuditBackup.SameSecondLosesEvidence | tools/backup_audit_log.py:236-243 | Two forced restores with one stamp lose a line |
| AuditBackup.BackupIsRecoverable | tools/backup_audit_log.py:91-249 | After any later run with distinct stamps, a forced restore of a kept backup leaves exactly the log it was taken of |
| AuditBackup.UnforcedRestoreIsSafe | tools/backup_audit_log.py:218-249 | A restore that succeeds without force leaves an intact chain no shorter than the log it replaced |
| AuditBackup.RestoreBringsBack | tools/backup_audit_log.py:236-249 | A restore that gets through puts the backup's lines in the log, except when the backup is the file this restore overwrites with a log that differs; its exit code is 0 if and only if the log it leaves is intact |
| AuditBackup.VerifiedBackupIsExact | tools/backup_audit_log.py:122-138 | Exit code 0 and the log's head hash mean the copy holds exactly the log's events, whatever the copying did |
| AuditBackup.BackupExits | tools/backup_audit_log.py:91-152 | Without a log, or with a broken one and no consent, nothing changes and the exit code is 1; otherwise the code is 1, with no file left at the destination, if and only if the copy holds another number of events, and 0 if and only if the number agrees and the copy is intact |
| AuditBackup.RestoreExits | tools/backup_audit_log.py:212-249 | A restore is refused, with code 1 and no change, if and only if the source is missing or, without force, broken or shorter than the log; otherwise it sets the log aside, copies the source over it, touches no other file, and its code is 0 if and only if the log it leaves is intact; restoring the log onto itself raises |
| AuditBackup.Archive.CmdBackup | tools/backup_audit_log.py:91-152 | The guarded exits of a backup, and the files after each |
| AuditBackup.Archive.CmdRestore | tools/backup_audit_log.py:212-249 | The guarded exits of a restore, and the files after each |
| AuditBackup.ChainHolds | common/audit_log.py:94-111 | The verifier's verdict is positive if and only if the chain is intact |
| GracefulDrain.DrainIsSafe | common/http_utils.py:232-264 | For any number of workers and any interleaving: once the drainer takes the drained branch no handler is running, and none ever starts afterwards |
| GracefulDrain.InflightIsExact | common/http_utils.py:51-57 | `inflight` is always the number of workers between enter and exit, and the clamp at 0 never fires |
| GracefulDrain.DrainedIffQuiet | common/http_utils.py:353-358 | The drained branch is taken if and only if no worker is between enter and exit at that moment |
| GracefulDrain.ForcedStopMayAbandon | common/http_utils.py:349-361 | A run in which the forced branch stops the server while a handler runs |
| GracefulDrain.NotReadyWhileDraining | common/http_utils.py:342-361 | From the first signal on, after any further steps, the draining flag is up, `ready` falls with the next step of the drainer, and the server is live until the drain is over |
| GracefulDrain.PollLeavesIff | common/http_utils.py:350-351 | In every run, a test ends the wait if and only if the deadline has passed or no worker is between enter and exit |
| GracefulDrain.ForcedNeedsAReason | common/http_utils.py:349-361 | A forced stop needs a test past the deadline, or a worker that entered after the last test |
| GracefulDrain.AnsweredOutright | common/http_utils.py:217-244 | A probe at any time, a request without a route, and any other request that looks at the flag after the first signal are answered without ever getting to a handler |
| GracefulDrain.HandledBeforeTheSignal | common/http_utils.py:217-252 | Before the first signal a request that has a route gets to its handler |
| GracefulDrain.InvStep | common/http_utils.py:206-264 | Every atomic step of every worker and of the drainer keeps the count exact and the drained state quiet |
| GracefulDrain.ServiceState.EnterRequest | common/http_utils.py:51-53 | Counts one in |
| GracefulDrain.ServiceState.ExitRequest | common/http_utils.py:55-57 | Counts one out, clamped at 0 |
| GracefulDrain.ServiceState.Readiness | common/http_utils.py:59-76 | Ready if and only if serving, not draining, and the state store is healthy |
| GracefulDrain.Server.EnterDispatch | common/http_utils.py:206-214 | A worker counts itself in before it looks at anything |
| GracefulDrain.Server.Route | common/http_utils.py:217-234 | Operational paths are answered even while draining; other requests are refused once the flag is up |
| GracefulDrain.Server.MatchRoute | common/http_utils.py:236-244 | An admitted worker enters its handler or leaves |
| GracefulDrain.Server.LeaveDispatch | common/http_utils.py:262-264 | The worker counts itself out, whatever happened |
| GracefulDrain.Server.Signal | common/http_utils.py:333-344 | The first signal raises the flag and a later one does nothing |
| GracefulDrain.Server.AdvanceDrain | common/http_utils.py:344-361 | Clear ready, poll until quiet or late, decide once more, stop |
| Storage.AtomicWriteJson | common/storage.py:52-93 | For every sequence of rename outcomes: returns if and only if some attempt succeeds after transient locks only, with the target new, and otherwise raises with the target unchanged; the temporary file is gone unless removing it failed; every state a crash could leave has the old or the new target; at most 6 attempts; total sleep exactly 0.02 * (2^k - 1) s for the k transient locks met, at most 1.26 s |
| Storage.BackendRefinement | common/storage.py:121-228 | Every sequence of calls on a set of namespaces, restarts and failed writes included, is answered by the file backend as by the memory backend, if and only if no two of them share a file |
| Storage.KeptNamesRefine | common/storage.py:164-228 | In particular for namespaces made only of kept characters that stay distinct when letters are folded |
| Storage.NamespacesAreDictionaries | common/storage.py:121-143 | Each namespace is a dictionary of its own: a read finds what was last set there, a delete takes away one key, a replacement all of them, and no call touches another namespace |
| Storage.RaisesIff | common/storage.py:184-228 | A call raises if and only if it writes and its write fails; reads and the delete of an absent key never do; a call that raises changes nothing |
| Storage.OneCallAgrees | common/storage.py:121-228 | One call gives the same answer and keeps the two backends in agreement; a failed write raises and changes nothing |
| Storage.UseFileBackend | common/storage.py:149-228 | The backend object, called again and again, with restarts under new process ids and with whatever failed writes leave on the disk, gives the answers that refinement is about |
| Storage.FileBackend.Perform | common/storage.py:205-228 | Any one call acts on the files of namespaces as specified |
| Storage.SharedFile | common/storage.py:164-166 | Two namespaces share a file if and only if they agree on their kept characters after folding letters |
| Storage.OtherCharactersAreDropped | common/storage.py:164-166 | A character that is not alphanumeric, hyphen or underscore makes no difference to the file, wherever it stands |
| Storage.TemporaryIsNoNamespace | common/storage.py:64 | A temporary file is never the file of a namespace |
| Storage.FileBackend.SaveNamespace | common/storage.py:184-203 | Replaces the namespace's file, or raises and leaves every namespace as it was |
| Storage.FileBackend.LoadNamespace | common/storage.py:168-182 | The stored object; a missing or unparsable file reads as empty |
| Storage.FileBackend.Get | common/storage.py:205-207 | Looks the key up in the namespace's file |
| Storage.FileBackend.Set | common/storage.py:209-213 | Sets one key of the namespace's file, or raises without change |
| Storage.FileBackend.Delete | common/storage.py:215-220 | Removes the key, and writes only if it was there |
| Storage.FileBackend.All | common/storage.py:222-224 | The whole namespace |
| Storage.FileBackend.ReplaceNamespace | common/storage.py:226-228 | Replaces the namespace, or raises without change |
| Storage.MemoryBackend.Get | common/storage.py:125-127 | The value, or the default |
| Storage.MemoryBackend.Set | common/storage.py:129-131 | Sets one key of one namespace |
| Storage.MemoryBackend.Delete | common/storage.py:133-135 | Removes one key; an absent namespace stays absent |
| Storage.MemoryBackend.All | common/storage.py:137-139 | A copy of the namespace |
| Storage.MemoryBackend.ReplaceNamespace | common/storage.py:141-143 | Replaces one namespace |
| Services.IdPHandler.HandleEnroll | idp/idp_server.py:54-92 | Does to the stores exactly what the enrolment step does, with the same answer |
| Services.IdPHandler.HandleChallenge | idp/idp_server.py:94-101 | Does exactly what the challenge step does |
| Services.IdPHandler.HandleLogin | idp/idp_server.py:103-185 | Does exactly what the login step does: limiter, challenge, token, index and log |
| Services.IdPHandler.CompleteLogin | idp/idp_server.py:146-185 | Attestation, binding, minting and logging after the factors have passed |
| Services.IdPHandler.Attest | idp/idp_server.py:149-152 | Attested exactly when the protocol says so; a signature that is presented spends the challenge |
| Services.IdPHandler.PinnedKey | idp/idp_server.py:159-163 | The thumbprint of an approved device, when binding is on |
| Services.GatewayHandler.HandleAccess | gateway/gateway_server.py:81-164 | Does exactly what the access step does: replay cache, log, backend call and answer |
| Services.GatewayHandler.UseToken | gateway/gateway_server.py:107-164 | Proof of possession before policy |
| Services.GatewayHandler.Decide | gateway/gateway_server.py:130-164 | Policy, then the audit line, then the backend |
| Services.AdminTools.CmdApproveShow | tools/manage_devices.py:92-108 | Shows the stored record of a device that is not approved, and otherwise ends with exit code 0 if and only if the device exists |
| Services.AdminTools.CmdApproveConfirm | tools/manage_devices.py:109-117 | Approves whatever is stored if and only if the operator confirms |
| Services.AdminTools.CmdRevoke | tools/manage_devices.py:120-149 | Revokes the device, then each of its live tokens until its expiry, and counts them |
| Services.AdminTools.RevokeUser | tools/revoke_token.py:39-45 | Revokes every active token of the user |

## Left out

- Public-key cryptography, X.509, JWT encoding, bcrypt, one-time codes, LDAP, TPM and posture probes: abstract functions or inputs.
- HTTP parsing, TLS, routes other than the Gateway's resource route, response bodies, correlation ids, operational logging and the dashboard.
- `active_jtis_for_device` in the token index: the revoke command filters `load_all` instead, and that is what is modelled.
- Races between processes on the shared JSON and log files, several Gateways behind one balancer, and an interleaving inside one handler (the login reads the registry twice, at idp/idp_server.py:152 and 161): one step per handler.
- A failing write inside the token sweep of `cmd_revoke`, which the source reports as a warning, and a failing write anywhere else in the protocol steps; `Storage` covers what the write itself guarantees.
- Services.AdminTools.CmdRevoke: one clock reading stands for the readings of the sweep, because the entries it writes do not depend on them except for `revoked_at`.
- Revocation.RevocationList.Revoke: one clock reading stands for the two the source makes, which differ by at most the time between two lines.
- ProofPayload.ParseFormatInt: `int()` is modelled for ASCII digits, signs, underscores and white space only; Unicode digits and spaces are not.
- AuditLog.VerifyEventsChain: a `hash` field that is not a string, and a decodable line that is not an object, are outside the model.
- AuditLog.Log.LogEvent: the last line of the file is complete; a torn line without its line break is not modelled.
- How the detail after a reason's code and the correlation id of an event come about: they are inputs of the line.
- PolicyEngine.PolicyDecisionPoint.ReloadPolicies: a policy file whose JSON has the wrong shape (a resource that is not an object, hours that are not numbers) raises in the source and is not modelled.
- JwtUtils.Issuer.VerifyToken: PyJWT failures other than expiry, bad signature and malformed text are not told apart.
- Services.GatewayHandler.Decide: a backend failure other than an OSError is answered with a 500 by the dispatcher; only the OSError branch is modelled.
- Posture scores that are not finite numbers, and rounding of floating-point times: times and scores are real numbers.
- AuditBackup.Archive.CmdRestore: the two copies are faithful and paths are told apart by name; links and different spellings of one path are not modelled.
- AuditBackup.Archive.CmdBackup: the manifest, the SHA-256 of the file, and the list and verify commands are left out, since they read and print.
- Storage.MemoryBackend.Get: values are immutable here, so a caller that changes a returned record in place is not modelled.
- Storage.SharedFile: letters are folded one by one, so foldings that change the length of a name are not modelled.
- Storage.AtomicWriteJson: creating the directory is not modelled; a write of the temporary file that fails leaves it partial.
- Threads that die without running `finally`, a signal delivered while the flag is being set, and the second signal's default behaviour.
- Key rotation, certificate provisioning, preflight checks, the secret scanner and installation scripts: file plumbing with one-branch facts.
