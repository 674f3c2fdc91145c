# Registration Authority of the ACME certificate issuer, in Dafny

This project models the Registration Authority (RA) of a certificate
authority that speaks an ACME-like protocol. The RA is the gatekeeper: it
decides which domain names may be authorized, builds pending
authorizations with their challenges, records a client's challenge
response and hands it to the Validation Authority, finalizes an
authorization when validation reports back, and lets the Certificate
Authority sign a request only when every name in it is covered by a
valid, unexpired authorization for the same account key.

Files and modules:

- `strings.dfy` (`Strings`): first and last occurrence of a character.
- `core.dfy` (`Core`): the values the RA works on. The identifier,
  challenge, authorization, registration, certificate request and
  certificate come from the `core` package. The CSR stands for x509's
  certificate request and the account key for jose's JSON Web Key. The
  file also holds the status values, the error kinds and `Result`.
- `policy.dfy` (`Policy`): `forbiddenIdentifier`, with Go's
  `strings.SplitN` written out, a reference definition of the admitted
  names over the full split, and the proof that the two agree.
- `urlpaths.dfy` (`UrlPaths`): `lastPathSegment`, the regular-expression
  replacement written out (the match stops at the first newline, since `.`
  does not match one).
- `collaborators.dfy` (`Collaborators`): the Storage, Validation and
  Certificate Authorities as classes with state (stored registrations and
  authorizations, the queue of dispatched authorizations, the signing
  requests received). What they answer that the RA cannot predict (an
  allocated ID, a failure, a signed certificate) is a parameter.
- `ra.dfy` (`RA`): the class `RegistrationAuthority` with the six
  operations and the revocation stub. A ghost field `calls` logs every
  collaborator call in order, so contracts can say which calls happen, in
  which order, and which do not. Beside the class are the specification
  functions of issuance (`AuthorizedDomains`, `CertificateNames`) and of
  finalization (`Finalized`), and the lemmas about them.

Behaviour of the code that the model keeps:

- Only a leading hyphen is checked, so `evil-.com` is admitted
  (`Policy.AdmitsTrailingHyphen`).
- The `xn--` prefix is compared case-sensitively, so `XN--abc.com` is
  admitted (`Policy.AdmitsUpperCaseAcePrefix`).
- The whole-name `^[0-9.]*$` check never decides anything the final-label
  check would not (`Policy.WholeNameCheckIsRedundant`).
- An authorization whose expiry equals the request time still counts,
  because the test is "expiry not before now".
- The two challenge URIs are distinct exactly when their two random
  suffixes differ; nothing else keeps them apart
  (`RA.ChallengeURIsDistinctIff`).
- Finalization does not reset the incoming status, so an authorization
  that arrives already `valid` stays valid and gets a fresh expiry.
- Finalization does not treat `invalid` as terminal: an invalid
  authorization with a valid challenge comes out valid
  (`RA.FinalizeRevivesInvalid`).
- A CSR with no DNS names and an empty common name claims no name, so
  NewCertificate sends it to the CA without any authorization
  (`RA.NamelessCSRNeedsNoAuthorization`).
- Storage and dispatch failures in UpdateAuthorization, and the storage
  failure in OnValidationUpdate, are discarded.

## Model

| member | source | states |
|---|---|---|
| `Strings.IndexOf` | ra/registration-authority.go:41 | the index of the first dot (or newline) or the length; no earlier position holds it |
| `Strings.LastIndexOf` | ra/registration-authority.go:83-86 | the index of the last slash or -1; no later position holds it |
| `Policy.SplitNAgreesWithSplit` | ra/registration-authority.go:40-44 | `SplitN(id, 11)` equals the full split when there are at most 11 labels and has exactly 11 entries otherwise |
| `Policy.SplitNJoin` | ra/registration-authority.go:41 | joining the `SplitN` labels with dots gives back the identifier |
| `Policy.SplitJoin` | ra/registration-authority.go:41 | joining the full split with dots gives back the identifier |
| `Policy.SplitNKeepsDigitsAndDots` | ra/registration-authority.go:70-78 | a name matching `^[0-9.]*$` splits into labels that match it too |
| `Policy.AnyForbiddenLabelIff` | ra/registration-authority.go:46-68 | the label loop rejects exactly when some label fails a label check |
| `Policy.WholeNameCheckIsRedundant` | ra/registration-authority.go:70-78 | the outcome is the same with or without the whole-name numeric check |
| `Policy.AllowedIff` | ra/registration-authority.go:37-81 | a name is admitted iff it has 2 to 10 labels, each of length 1..63 over `[A-Za-z0-9-]`, not starting with `-` or `xn--`, and the last label is not all digits |
| `Policy.LabelCountForbidden` | ra/registration-authority.go:40-44 | fewer than 2 or more than 10 labels is forbidden |
| `Policy.AdmittedLabelsAreWellFormed` | ra/registration-authority.go:46-68 | every label of an admitted name passes every label check |
| `Policy.NumericFinalLabelForbidden` | ra/registration-authority.go:75-78 | an all-digit final label is forbidden |
| `Policy.NumericNameForbidden` | ra/registration-authority.go:70-73 | a name of digits and dots only is forbidden |
| `Policy.SplitOneDot` | ra/registration-authority.go:41 | a name with one dot splits into the two sides of it |
| `Policy.AdmitsTwoLabels` | ra/registration-authority.go:37-81 | two allowed labels, the second not all digits, make an admitted name |
| `Policy.AdmitsPlainName` | ra/registration-authority.go:37-81 | `foo.com` is admitted |
| `Policy.ForbidsSingleLabel` | ra/registration-authority.go:42-44 | `foo` is forbidden |
| `Policy.ForbidsAddressLiteral` | ra/registration-authority.go:70-73 | `192.168.1.1` is forbidden |
| `Policy.ForbidsAcePrefix` | ra/registration-authority.go:63-67 | `xn--abc.com` is forbidden |
| `Policy.ForbidsLeadingHyphen` | ra/registration-authority.go:58-61 | `-foo.com` is forbidden |
| `Policy.ForbidsNumericFinalLabel` | ra/registration-authority.go:75-78 | `foo.123` is forbidden |
| `Policy.AdmitsTrailingHyphen` | ra/registration-authority.go:58-61 | `evil-.com` is admitted: only a leading hyphen is checked |
| `Policy.AdmitsUpperCaseAcePrefix` | ra/registration-authority.go:63-67 | `XN--abc.com` is admitted: the prefix check is case-sensitive |
| `UrlPaths.PrefixMatchLength` | ra/registration-authority.go:83-86 | the greedy match of `^.*/` ends in a slash, holds no newline, and no slash follows it before the first newline: it ends at the last slash of the first line |
| `UrlPaths.LastPathSegmentIsLastSegment` | ra/registration-authority.go:83-87 | the segment is a suffix of the path; without a newline it holds no slash and is the whole path or follows a slash |
| `UrlPaths.SegmentFollowsLastSlash` | ra/registration-authority.go:83-87 | without a newline the segment is exactly what follows the last slash |
| `UrlPaths.SegmentOfBuiltPath` | ra/registration-authority.go:85-87 | a prefix ending in a slash plus a slash-free ID gives the ID back |
| `UrlPaths.NewlineStopsTheMatch` | ra/registration-authority.go:83-86 | slashes after the first newline are not matched |
| `Collaborators.StorageAuthority.UpdateRegistration` | ra/registration-authority.go:103 | stores the registration under its ID unless storage fails, and reports the outcome |
| `Collaborators.StorageAuthority.UpdatePendingAuthorization` | ra/registration-authority.go:149 | stores the authorization under its ID unless storage fails, and reports the outcome |
| `Collaborators.StorageAuthority.FinalizeAuthorization` | ra/registration-authority.go:250 | stores the finalized authorization under its ID unless storage fails |
| `Collaborators.ValidationAuthority.UpdateValidations` | ra/registration-authority.go:220 | queues the authorization for probing unless dispatch fails |
| `Collaborators.CertificateAuthority.IssueCertificate` | ra/registration-authority.go:196 | records the signing request and answers the signer's outcome |
| `RA.ChallengeURIHasPrefix` | ra/registration-authority.go:131-132 | each challenge URI starts with the base URL, the authorization ID and `?` |
| `RA.ChallengeURIsDistinctIff` | ra/registration-authority.go:131-132 | the two challenge URIs differ exactly when the random suffixes differ |
| `RA.PendingAuthorization` | ra/registration-authority.go:124-146 | the new authorization has the allocated ID, the request's identifier, the caller's key, status pending, the zero expiry and exactly two challenges, simpleHTTPS first and DVSNI second, with their URIs set |
| `RA.ContributionIff` | ra/registration-authority.go:166-180 | a reference contributes a name iff its ID is stored with an acceptable authorization for that name |
| `RA.PrefixStep` | ra/registration-authority.go:166-181 | one more reference adds its contribution and one lookup |
| `RA.AuthorizedDomainsGathered` | ra/registration-authority.go:163-181 | the gathered set is the union of the references' contributions |
| `RA.AuthorizedDomainsIff` | ra/registration-authority.go:163-181 | a name is authorized iff some reference names a stored authorization with the caller's key, status valid, expiry not before now, DNS type and that name |
| `RA.AuthorizedDomainsMonotonic` | ra/registration-authority.go:169-177 | adding references never removes an authorized name: rejected ones are skipped |
| `RA.ReferencedValidAuthorizationCounts` | ra/registration-authority.go:168-180 | a referenced acceptable authorization always authorizes its name, also when its expiry equals now |
| `RA.CertificateNames` | ra/registration-authority.go:184-187 | the names checked are the DNS names, then the common name if it is not empty |
| `RA.NamelessCSRNeedsNoAuthorization` | ra/registration-authority.go:183-193 | a CSR with no DNS names and an empty common name claims no name, so every name it claims is covered whatever is authorized |
| `RA.FindUncovered` | ra/registration-authority.go:188-193 | none iff every name is authorized; otherwise the first unauthorized name in list order |
| `RA.RecordResponse` | ra/registration-authority.go:209-214 | only the chosen challenge changes; ID, identifier, key, status, expiry and the other challenges stay |
| `RA.Finalized` | ra/registration-authority.go:230-247 | the status becomes terminal: valid iff some challenge is valid or it was valid, with expiry now + 365 days; otherwise invalid with the expiry untouched; ID, identifier, key and challenges stay |
| `RA.FinalizeRevivesInvalid` | ra/registration-authority.go:233-247 | an invalid authorization with a valid challenge is finalized as valid with a fresh 365-day expiry |
| `RA.FinalizeIsStable` | ra/registration-authority.go:230-247 | finalizing a finalized authorization gives the same status |
| `RA.FinalizedValidAcceptedUntilExpiry` | ra/registration-authority.go:172 | a finalized valid authorization is accepted for issuance up to and including 365 days after finalization |
| `RA.PendingNeverAccepted` | ra/registration-authority.go:171 | a pending authorization never counts for issuance |
| `RA.RegistrationAuthority.constructor` | ra/registration-authority.go:22-28 | the RA with all of its fields populated: its three collaborators and the authorization base URL; no call made yet |
| `RA.RegistrationAuthority.NewRegistration` | ra/registration-authority.go:89-105 | an ID failure is returned with no store; otherwise the registration seeded with ID, key and recovery token, merged with the client's fields, is stored and returned, or the store error is returned |
| `RA.RegistrationAuthority.NewAuthorization` | ra/registration-authority.go:107-151 | empty value gives MalformedRequest, else non-DNS gives NotSupported, else forbidden gives Unauthorized, each with no collaborator call; an ID failure is returned with nothing stored; otherwise the pending authorization is stored and returned, or the store error is returned; a returned authorization names an admitted name |
| `RA.RegistrationAuthority.NewCertificate` | ra/registration-authority.go:153-198 | a CSR that fails verification gives Unauthorized with no call; otherwise every reference is looked up in order, and the CA is called, its answer returned unchanged, iff every claimed name is authorized; else Unauthorized names the first uncovered name and the CA is not called |
| `RA.RegistrationAuthority.GatherAuthorizedDomains` | ra/registration-authority.go:163-181 | the loop collects exactly the authorized domains and makes one lookup per reference, in order |
| `RA.RegistrationAuthority.UpdateRegistration` | ra/registration-authority.go:200-205 | the merged registration is stored and returned, or the store error is returned |
| `RA.RegistrationAuthority.UpdateAuthorization` | ra/registration-authority.go:207-223 | an index past the end gives MalformedRequest with no call; otherwise only that challenge is merged with the response, the result is stored, then dispatched to the VA, and returned with no error whatever storage or dispatch report |
| `RA.RegistrationAuthority.RevokeCertificate` | ra/registration-authority.go:225-228 | does nothing and reports success |
| `RA.RegistrationAuthority.OnValidationUpdate` | ra/registration-authority.go:230-251 | the loop with its early exit computes the finalized authorization, which is handed to storage exactly once; a storage failure is discarded |

## Left out

- `cmd/ocsp-updater/main.go`: database transactions, SQL, AMQP client
  setup and reconnection, statsd and syslog; I/O and concurrency with no
  protocol logic.
- The `core` package is not part of this model. `core.VerifyCSR`,
  `Registration.MergeUpdate` and `Challenge.MergeResponse` are function
  fields of the RA whose behaviour is left open, so which fields a merge
  copies is not modelled, and neither is the idempotence of
  UpdateRegistration for a repeated update, which rests on MergeUpdate
  alone. The status values are the ACME ones (unknown, pending,
  processing, valid, invalid, revoked).
- `core.SimpleHTTPSChallenge` and `core.DvsniChallenge` build the two
  challenge offers; they are parameters of NewAuthorization. The model
  proves the RA puts them in that order and sets only their URIs.
- Randomness: `core.NewToken` and `core.RandomString(4)` are parameters
  (the recovery token and the two URI suffixes), so nothing is assumed
  about their length or distinctness.
- `url.Parse`: challenge URIs are the strings the RA concatenates, and an
  authorization reference is its path component (`AcmeURL.path`).
  NewAuthorization discards the two parse errors and then dereferences the
  results, so a challenge URI that does not parse makes it panic; the model
  always succeeds there.
- `NewRegistrationAuthorityImpl` returns an RA with no collaborators and an
  empty authorization base, which panics on first use. The model has only
  the fully populated RA (`RA.RegistrationAuthority.constructor`); the
  empty one is not modelled.
- `jwk.Equals` in NewCertificate is modelled as equality of `JsonWebKey`
  values; how jose compares keys is not modelled.
- `time.Now()` is the parameter `now`; instants are nanoseconds on Go's
  time axis with 0 for the zero `time.Time`. `time.Time.Add` overflow is
  not modelled.
- Go returns a value together with an error; the model returns a `Result`
  and so drops the partly built value Go returns beside an error
  (NewRegistration and NewAuthorization after a failed store,
  UpdateAuthorization with a bad index, which returns `base`).
- RA.RegistrationAuthority.UpdateAuthorization: requires
  `challengeIndex >= 0`, because `UpdateAuthorization` does not check a negative
  index and would panic on it.
- RA.RegistrationAuthority.UpdateAuthorization: works on values, so the
  caller's `base.Challenges` array, which `UpdateAuthorization` also overwrites
  through slice aliasing, is not modelled.
- `StorageAuthority.GetAuthorization` fails only for an unknown ID; other
  storage failures during lookup are not modelled (they are skipped the
  same way).
- Label lengths are counted in characters, not UTF-8 bytes; a label with
  a non-ASCII character is forbidden either way (by length or by the
  character check), so the outcome is the same.
- Concurrent calls, concurrent finalization of one authorization and the
  asynchronous delivery of the VA's callback are the collaborators'
  concern and are not modelled; OnValidationUpdate is one call.
- Error message texts: errors are kinds; only NewCertificate's
  Unauthorized carries the offending name.
