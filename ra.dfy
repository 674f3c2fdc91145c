/**
 * The Registration Authority: the gatekeeper that checks authorization
 * requests, builds pending authorizations with their challenges, records
 * challenge responses, finalizes authorizations from validation results
 * and decides whether a certificate may be issued.
 */
module RA {
  import opened Core
  import opened Policy
  import opened UrlPaths
  import opened Collaborators

  /** How long a finalized valid authorization lasts: 365 days. */
  const ValidityPeriod: int := 365 * 24 * Hour

  /** One call the RA makes on a collaborator, in the order it makes them. */
  datatype Call =
    | SANewRegistration
    | SAUpdateRegistration(reg: Registration)
    | SANewPendingAuthorization
    | SAUpdatePendingAuthorization(authz: Authorization)
    | SAGetAuthorization(id: string)
    | SAFinalizeAuthorization(authz: Authorization)
    | VAUpdateValidations(authz: Authorization)
    | CAIssueCertificate(csr: CSR)

  // ---------------------------------------------------------------------
  // NewAuthorization

  /** The identifier checks NewAuthorization makes, all passed. */
  predicate AdmissibleIdentifier(identifier: AcmeIdentifier) {
    && |identifier.value| > 0
    && identifier.typ == IdentifierDNS
    && !ForbiddenIdentifier(identifier.value)
  }

  /** The text of a challenge URI: the authorization base, the ID, then a random suffix. */
  function ChallengeURI(authzBase: string, authID: string, suffix: string): (uri: string) {
    authzBase + authID + "?" + suffix
  }

  lemma ChallengeURIHasPrefix(authzBase: string, authID: string, suffix: string)
    ensures var prefix := authzBase + authID + "?";
      |prefix| <= |ChallengeURI(authzBase, authID, suffix)|
      && ChallengeURI(authzBase, authID, suffix)[..|prefix|] == prefix
  {
  }

  /**
   * The two challenge URIs of one authorization are distinct exactly when
   * their random suffixes differ; nothing else keeps them apart.
   */
  lemma ChallengeURIsDistinctIff(authzBase: string, authID: string, suffix1: string, suffix2: string)
    ensures ChallengeURI(authzBase, authID, suffix1) == ChallengeURI(authzBase, authID, suffix2)
      <==> suffix1 == suffix2
  {
    var prefix := authzBase + authID + "?";
    var u1 := ChallengeURI(authzBase, authID, suffix1);
    var u2 := ChallengeURI(authzBase, authID, suffix2);
    assert u1 == prefix + suffix1 && u2 == prefix + suffix2;
    if u1 == u2 {
      assert suffix1 == u1[|prefix|..] == u2[|prefix|..] == suffix2;
    }
  }

  /** The authorization NewAuthorization builds from the allocated ID. */
  function PendingAuthorization(authzBase: string, authID: string, identifier: AcmeIdentifier,
                                key: JsonWebKey, simpleHttps: Challenge, dvsni: Challenge,
                                suffix1: string, suffix2: string): (authz: Authorization)
    ensures authz.id == authID && authz.identifier == identifier && authz.key == key
    ensures authz.status == Pending && authz.expires == ZeroTime
    ensures |authz.challenges| == 2
    ensures authz.challenges[0] == simpleHttps.(uri := ChallengeURI(authzBase, authID, suffix1))
    ensures authz.challenges[1] == dvsni.(uri := ChallengeURI(authzBase, authID, suffix2))
  {
    Authorization(authID, identifier, key, Pending, ZeroTime,
      [simpleHttps.(uri := ChallengeURI(authzBase, authID, suffix1)),
       dvsni.(uri := ChallengeURI(authzBase, authID, suffix2))])
  }

  // ---------------------------------------------------------------------
  // NewCertificate

  /** The checks a referenced authorization must pass to contribute its name. */
  predicate Acceptable(authz: Authorization, key: JsonWebKey, now: Time) {
    && authz.key == key
    && authz.status == Valid
    && !(authz.expires < now)
    && authz.identifier.typ == IdentifierDNS
  }

  /** The domain that one authorization reference contributes, if any. */
  function Contribution(store: map<string, Authorization>, ref: AcmeURL, key: JsonWebKey, now: Time): (names: set<string>) {
    var got := Lookup(store, LastPathSegment(ref.path));
    if got.Success? && Acceptable(got.value, key, now) then {got.value.identifier.value} else {}
  }

  /** The domains the referenced authorizations grant, gathered in order. */
  function AuthorizedDomains(store: map<string, Authorization>, refs: seq<AcmeURL>, key: JsonWebKey, now: Time): (names: set<string>)
    decreases |refs|
  {
    if refs == [] then {}
    else AuthorizedDomains(store, refs[..|refs| - 1], key, now) + Contribution(store, refs[|refs| - 1], key, now)
  }

  /** Reference `ref` names a stored, acceptable authorization for `name`. */
  predicate Grants(store: map<string, Authorization>, ref: AcmeURL, key: JsonWebKey, now: Time, name: string) {
    var id := LastPathSegment(ref.path);
    id in store && Acceptable(store[id], key, now) && store[id].identifier.value == name
  }

  /** The lookups NewCertificate makes, one per reference. */
  function LookupCalls(refs: seq<AcmeURL>): (lookups: seq<Call>)
    decreases |refs|
  {
    if refs == [] then []
    else LookupCalls(refs[..|refs| - 1]) + [SAGetAuthorization(LastPathSegment(refs[|refs| - 1].path))]
  }

  /** The names a CSR claims: its DNS names, then its common name when it has one. */
  function CertificateNames(csr: CSR): (names: seq<string>)
    ensures |csr.commonName| == 0 ==> names == csr.dnsNames
    ensures |csr.commonName| > 0 ==> names == csr.dnsNames + [csr.commonName]
  {
    if |csr.commonName| > 0 then csr.dnsNames + [csr.commonName] else csr.dnsNames
  }

  predicate Covered(names: seq<string>, authorized: set<string>) {
    forall i :: 0 <= i < |names| ==> names[i] in authorized
  }

  /**
   * A CSR with no DNS names and an empty common name claims nothing, so
   * NewCertificate passes it to the CA without any authorization.
   */
  lemma NamelessCSRNeedsNoAuthorization(csr: CSR, authorized: set<string>)
    requires csr.dnsNames == [] && csr.commonName == ""
    ensures CertificateNames(csr) == []
    ensures Covered(CertificateNames(csr), authorized)
  {
  }

  /** `names[k]` is the first name, in list order, that is not authorized. */
  predicate FirstUncoveredAt(names: seq<string>, authorized: set<string>, k: int) {
    && 0 <= k < |names|
    && names[k] !in authorized
    && forall j :: 0 <= j < k ==> names[j] in authorized
  }

  /** The scan of NewCertificate over the claimed names: the first one not authorized, if any. */
  method FindUncovered(names: seq<string>, authorized: set<string>) returns (found: Option<string>)
    ensures found.None? <==> Covered(names, authorized)
    ensures found.Some? ==> exists k :: FirstUncoveredAt(names, authorized, k) && found.value == names[k]
  {
    var k := 0;
    while k < |names|
      invariant 0 <= k <= |names|
      invariant forall j :: 0 <= j < k ==> names[j] in authorized
    {
      if names[k] !in authorized {
        assert FirstUncoveredAt(names, authorized, k);
        return Some(names[k]);
      }
      k := k + 1;
    }
    found := None;
  }

  lemma ContributionIff(store: map<string, Authorization>, ref: AcmeURL, key: JsonWebKey, now: Time, name: string)
    ensures name in Contribution(store, ref, key, now) <==> Grants(store, ref, key, now, name)
  {
  }

  /** Taking one more reference adds its contribution and its lookup. */
  lemma PrefixStep(store: map<string, Authorization>, refs: seq<AcmeURL>, key: JsonWebKey, now: Time, i: int)
    requires 0 <= i < |refs|
    ensures AuthorizedDomains(store, refs[..i + 1], key, now)
      == AuthorizedDomains(store, refs[..i], key, now) + Contribution(store, refs[i], key, now)
    ensures LookupCalls(refs[..i + 1]) == LookupCalls(refs[..i]) + [SAGetAuthorization(LastPathSegment(refs[i].path))]
  {
    assert refs[..i + 1][..i] == refs[..i];
  }

  /** A domain is gathered exactly when some reference contributes it. */
  lemma {:induction false} AuthorizedDomainsGathered(store: map<string, Authorization>, refs: seq<AcmeURL>,
                                                      key: JsonWebKey, now: Time, name: string)
    ensures name in AuthorizedDomains(store, refs, key, now)
      <==> exists i :: 0 <= i < |refs| && name in Contribution(store, refs[i], key, now)
    decreases |refs|
  {
    if refs != [] {
      var n := |refs| - 1;
      var init := refs[..n];
      var last := Contribution(store, refs[n], key, now);
      AuthorizedDomainsGathered(store, init, key, now, name);
      assert name in AuthorizedDomains(store, refs, key, now)
        <==> name in AuthorizedDomains(store, init, key, now) || name in last;
      if name in AuthorizedDomains(store, init, key, now) {
        var i :| 0 <= i < |init| && name in Contribution(store, init[i], key, now);
        assert init[i] == refs[i];
      }
      if exists i :: 0 <= i < |refs| && name in Contribution(store, refs[i], key, now) {
        var i :| 0 <= i < |refs| && name in Contribution(store, refs[i], key, now);
        if i < n {
          assert init[i] == refs[i];
        } else {
          assert i == n;
        }
      }
    }
  }

  /** A domain is authorized exactly when some reference grants it. */
  lemma AuthorizedDomainsIff(store: map<string, Authorization>, refs: seq<AcmeURL>,
                             key: JsonWebKey, now: Time, name: string)
    ensures name in AuthorizedDomains(store, refs, key, now)
      <==> exists i :: 0 <= i < |refs| && Grants(store, refs[i], key, now, name)
  {
    AuthorizedDomainsGathered(store, refs, key, now, name);
    forall i | 0 <= i < |refs|
      ensures name in Contribution(store, refs[i], key, now) <==> Grants(store, refs[i], key, now, name)
    {
      ContributionIff(store, refs[i], key, now, name);
    }
  }

  /**
   * Referencing more authorizations never removes an authorized domain:
   * rejected references are skipped, they do not abort the request.
   */
  lemma AuthorizedDomainsMonotonic(store: map<string, Authorization>, refs: seq<AcmeURL>, more: seq<AcmeURL>,
                                   key: JsonWebKey, now: Time)
    requires forall r :: r in refs ==> r in more
    ensures AuthorizedDomains(store, refs, key, now) <= AuthorizedDomains(store, more, key, now)
  {
    forall name | name in AuthorizedDomains(store, refs, key, now)
      ensures name in AuthorizedDomains(store, more, key, now)
    {
      AuthorizedDomainsIff(store, refs, key, now, name);
      var i :| 0 <= i < |refs| && Grants(store, refs[i], key, now, name);
      assert refs[i] in more;
      var j :| 0 <= j < |more| && more[j] == refs[i];
      AuthorizedDomainsIff(store, more, key, now, name);
    }
  }

  /**
   * An authorization stored as valid, unexpired, for the caller's key and a
   * DNS identifier, and referenced by its ID, authorizes its domain; an
   * expiry equal to `now` still counts.
   */
  lemma ReferencedValidAuthorizationCounts(store: map<string, Authorization>, refs: seq<AcmeURL>,
                                           key: JsonWebKey, now: Time, i: int)
    requires 0 <= i < |refs|
    requires LastPathSegment(refs[i].path) in store
    requires Acceptable(store[LastPathSegment(refs[i].path)], key, now)
    ensures store[LastPathSegment(refs[i].path)].identifier.value in AuthorizedDomains(store, refs, key, now)
  {
    AuthorizedDomainsIff(store, refs, key, now, store[LastPathSegment(refs[i].path)].identifier.value);
  }

  // ---------------------------------------------------------------------
  // UpdateAuthorization

  /** `authz` with challenge `i` replaced by `merged`, nothing else changed. */
  function RecordResponse(authz: Authorization, i: nat, merged: Challenge): (r: Authorization)
    requires i < |authz.challenges|
    ensures r.id == authz.id && r.identifier == authz.identifier && r.key == authz.key
    ensures r.status == authz.status && r.expires == authz.expires
    ensures |r.challenges| == |authz.challenges| && r.challenges[i] == merged
    ensures forall j :: 0 <= j < |authz.challenges| && j != i ==> r.challenges[j] == authz.challenges[j]
  {
    authz.(challenges := authz.challenges[i := merged])
  }

  // ---------------------------------------------------------------------
  // OnValidationUpdate

  predicate HasValidChallenge(challenges: seq<Challenge>) {
    exists i :: 0 <= i < |challenges| && challenges[i].status == Valid
  }

  /**
   * The finalized authorization: valid with a fresh 365-day expiry when
   * some challenge is valid (or it already was valid), otherwise invalid
   * with its expiry untouched.
   */
  function Finalized(authz: Authorization, now: Time): (r: Authorization)
    ensures r.status == Valid || r.status == Invalid
    ensures r.id == authz.id && r.identifier == authz.identifier && r.key == authz.key
    ensures r.challenges == authz.challenges
    ensures r.status == Valid <==> authz.status == Valid || HasValidChallenge(authz.challenges)
    ensures r.status == Valid ==> r.expires == now + ValidityPeriod
    ensures r.status == Invalid ==> r.expires == authz.expires
  {
    if authz.status == Valid || HasValidChallenge(authz.challenges) then
      authz.(status := Valid, expires := now + ValidityPeriod)
    else
      authz.(status := Invalid)
  }

  /**
   * Finalization does not treat `invalid` as terminal: an invalid
   * authorization with a valid challenge comes out valid.
   */
  lemma FinalizeRevivesInvalid(authz: Authorization, now: Time)
    requires authz.status == Invalid && HasValidChallenge(authz.challenges)
    ensures Finalized(authz, now).status == Valid
    ensures Finalized(authz, now).expires == now + ValidityPeriod
  {
  }

  /** Finalizing again never changes the outcome. */
  lemma FinalizeIsStable(authz: Authorization, now: Time, later: Time)
    ensures Finalized(Finalized(authz, now), later).status == Finalized(authz, now).status
  {
  }

  /**
   * A finalized valid authorization for the caller's key and a DNS name is
   * accepted by NewCertificate up to and including its expiry instant.
   */
  lemma FinalizedValidAcceptedUntilExpiry(authz: Authorization, finalizedAt: Time, key: JsonWebKey, now: Time)
    requires Finalized(authz, finalizedAt).status == Valid
    requires authz.key == key && authz.identifier.typ == IdentifierDNS
    ensures Acceptable(Finalized(authz, finalizedAt), key, now) <==> now <= finalizedAt + ValidityPeriod
  {
  }

  /** A pending authorization is never accepted by NewCertificate. */
  lemma PendingNeverAccepted(authz: Authorization, key: JsonWebKey, now: Time)
    requires authz.status == Pending
    ensures !Acceptable(authz, key, now)
  {
  }

  // ---------------------------------------------------------------------

  class RegistrationAuthority {
    const sa: StorageAuthority
    const ca: CertificateAuthority
    const va: ValidationAuthority
    const authzBase: string
    /** `core.VerifyCSR` succeeding; its body is not part of this model. */
    const verifyCSR: CSR -> bool
    /** `Registration.MergeUpdate`; its body is not part of this model. */
    const mergeUpdate: (Registration, Registration) -> Registration
    /** `Challenge.MergeResponse`; its body is not part of this model. */
    const mergeResponse: (Challenge, Challenge) -> Challenge
    /** Every collaborator call made so far, in order. */
    ghost var calls: seq<Call>

    constructor(sa: StorageAuthority, ca: CertificateAuthority, va: ValidationAuthority, authzBase: string,
                verifyCSR: CSR -> bool,
                mergeUpdate: (Registration, Registration) -> Registration,
                mergeResponse: (Challenge, Challenge) -> Challenge)
      ensures this.sa == sa && this.ca == ca && this.va == va && this.authzBase == authzBase
      ensures this.verifyCSR == verifyCSR && this.mergeUpdate == mergeUpdate && this.mergeResponse == mergeResponse
      ensures calls == []
    {
      this.sa := sa;
      this.ca := ca;
      this.va := va;
      this.authzBase := authzBase;
      this.verifyCSR := verifyCSR;
      this.mergeUpdate := mergeUpdate;
      this.mergeResponse := mergeResponse;
      calls := [];
    }

    /**
     * `newId` is the Storage Authority's answer to NewRegistration, `token`
     * the fresh recovery token, `storeFault` the outcome of storing.
     */
    method NewRegistration(init: Registration, key: JsonWebKey, newId: Result<string>, token: string,
                           storeFault: Option<Error>) returns (r: Result<Registration>)
      modifies this, sa
      ensures newId.Failure? ==>
        && r == Failure(newId.error)
        && calls == old(calls) + [SANewRegistration]
        && sa.registrations == old(sa.registrations)
      ensures newId.Success? ==>
        var reg := mergeUpdate(Registration(newId.value, key, token, [], ""), init);
        && calls == old(calls) + [SANewRegistration, SAUpdateRegistration(reg)]
        && sa.registrations == (if storeFault.None? then old(sa.registrations)[reg.id := reg] else old(sa.registrations))
        && r == (if storeFault.None? then Success(reg) else Failure(storeFault.value))
      ensures sa.authorizations == old(sa.authorizations)
    {
      calls := calls + [SANewRegistration];
      if newId.Failure? {
        r := Failure(newId.error);
        return;
      }
      var reg := Registration(newId.value, key, token, [], "");
      reg := mergeUpdate(reg, init);
      calls := calls + [SAUpdateRegistration(reg)];
      var err := sa.UpdateRegistration(reg, storeFault);
      r := if err.None? then Success(reg) else Failure(err.value);
    }

    /**
     * `simpleHttps` and `dvsni` are the challenge offers the core package
     * builds, `newId` the Storage Authority's answer to
     * NewPendingAuthorization, `suffix1` and `suffix2` the random URI
     * suffixes, `storeFault` the outcome of storing.
     */
    method NewAuthorization(request: Authorization, key: JsonWebKey, simpleHttps: Challenge, dvsni: Challenge,
                            newId: Result<string>, suffix1: string, suffix2: string,
                            storeFault: Option<Error>) returns (r: Result<Authorization>)
      modifies this, sa
      ensures var identifier := request.identifier;
        |identifier.value| == 0 ==>
          r == Failure(MalformedRequest) && calls == old(calls) && unchanged(sa)
      ensures var identifier := request.identifier;
        |identifier.value| > 0 && identifier.typ != IdentifierDNS ==>
          r == Failure(NotSupported) && calls == old(calls) && unchanged(sa)
      ensures var identifier := request.identifier;
        |identifier.value| > 0 && identifier.typ == IdentifierDNS && ForbiddenIdentifier(identifier.value) ==>
          r == Failure(Unauthorized(None)) && calls == old(calls) && unchanged(sa)
      ensures AdmissibleIdentifier(request.identifier) && newId.Failure? ==>
        r == Failure(newId.error) && calls == old(calls) + [SANewPendingAuthorization] && unchanged(sa)
      ensures AdmissibleIdentifier(request.identifier) && newId.Success? ==>
        var authz := PendingAuthorization(authzBase, newId.value, request.identifier, key, simpleHttps, dvsni,
                                          suffix1, suffix2);
        && calls == old(calls) + [SANewPendingAuthorization, SAUpdatePendingAuthorization(authz)]
        && sa.authorizations == (if storeFault.None? then old(sa.authorizations)[authz.id := authz] else old(sa.authorizations))
        && sa.registrations == old(sa.registrations)
        && r == (if storeFault.None? then Success(authz) else Failure(storeFault.value))
      ensures r.Success? ==> AllowedName(r.value.identifier.value)
    {
      var identifier := request.identifier;
      if |identifier.value| == 0 {
        r := Failure(MalformedRequest);
        return;
      } else if identifier.typ != IdentifierDNS {
        r := Failure(NotSupported);
        return;
      } else if ForbiddenIdentifier(identifier.value) {
        r := Failure(Unauthorized(None));
        return;
      }
      AllowedIff(identifier.value);

      calls := calls + [SANewPendingAuthorization];
      if newId.Failure? {
        r := Failure(newId.error);
        return;
      }
      var authID := newId.value;
      var authz := Authorization(authID, identifier, key, Pending, ZeroTime,
        [simpleHttps.(uri := ChallengeURI(authzBase, authID, suffix1)),
         dvsni.(uri := ChallengeURI(authzBase, authID, suffix2))]);

      calls := calls + [SAUpdatePendingAuthorization(authz)];
      var err := sa.UpdatePendingAuthorization(authz, storeFault);
      r := if err.None? then Success(authz) else Failure(err.value);
    }

    /**
     * `now` is the time of the request, `issued` the Certificate
     * Authority's answer should it be asked to sign.
     */
    method NewCertificate(req: CertificateRequest, jwk: JsonWebKey, now: Time, issued: Result<Certificate>)
      returns (r: Result<Certificate>)
      modifies this, ca
      ensures !verifyCSR(req.csr) ==>
        r == Failure(Unauthorized(None)) && calls == old(calls) && ca.requests == old(ca.requests)
      ensures verifyCSR(req.csr) ==>
        var authorized := AuthorizedDomains(sa.authorizations, req.authorizations, jwk, now);
        var names := CertificateNames(req.csr);
        && (Covered(names, authorized) ==>
              && r == issued
              && calls == old(calls) + LookupCalls(req.authorizations) + [CAIssueCertificate(req.csr)]
              && ca.requests == old(ca.requests) + [req.csr])
        && (!Covered(names, authorized) ==>
              && calls == old(calls) + LookupCalls(req.authorizations)
              && ca.requests == old(ca.requests)
              && exists k :: FirstUncoveredAt(names, authorized, k) && r == Failure(Unauthorized(Some(names[k]))))
    {
      var csr := req.csr;
      if !verifyCSR(csr) {
        r := Failure(Unauthorized(None));
        return;
      }

      var authorized := GatherAuthorizedDomains(req.authorizations, jwk, now);
      var uncovered := FindUncovered(CertificateNames(csr), authorized);
      if uncovered.Some? {
        r := Failure(Unauthorized(uncovered));
        return;
      }

      calls := calls + [CAIssueCertificate(csr)];
      r := ca.IssueCertificate(csr, issued);
    }

    /** The loop of NewCertificate that looks up every referenced authorization. */
    method GatherAuthorizedDomains(refs: seq<AcmeURL>, jwk: JsonWebKey, now: Time) returns (authorized: set<string>)
      modifies this
      ensures authorized == AuthorizedDomains(sa.authorizations, refs, jwk, now)
      ensures calls == old(calls) + LookupCalls(refs)
    {
      authorized := {};
      var i := 0;
      while i < |refs|
        invariant 0 <= i <= |refs|
        invariant authorized == AuthorizedDomains(sa.authorizations, refs[..i], jwk, now)
        invariant calls == old(calls) + LookupCalls(refs[..i])
      {
        PrefixStep(sa.authorizations, refs, jwk, now, i);
        ghost var before := authorized;
        var id := LastPathSegment(refs[i].path);
        calls := calls + [SAGetAuthorization(id)];
        var got := sa.GetAuthorization(id);
        if got.Success? && Acceptable(got.value, jwk, now) {
          authorized := authorized + {got.value.identifier.value};
        }
        assert authorized == before + Contribution(sa.authorizations, refs[i], jwk, now);
        i := i + 1;
      }
      assert refs[..i] == refs;
    }

    /** `storeFault` is the outcome of storing the merged registration. */
    method UpdateRegistration(base: Registration, update: Registration, storeFault: Option<Error>)
      returns (r: Result<Registration>)
      modifies this, sa
      ensures var reg := mergeUpdate(base, update);
        && calls == old(calls) + [SAUpdateRegistration(reg)]
        && sa.registrations == (if storeFault.None? then old(sa.registrations)[reg.id := reg] else old(sa.registrations))
        && r == (if storeFault.None? then Success(reg) else Failure(storeFault.value))
      ensures sa.authorizations == old(sa.authorizations)
    {
      var reg := mergeUpdate(base, update);
      calls := calls + [SAUpdateRegistration(reg)];
      var err := sa.UpdateRegistration(reg, storeFault);
      r := if err.None? then Success(reg) else Failure(err.value);
    }

    /**
     * `storeFault` and `vaFault` are the outcomes of storing and of
     * dispatching; both are discarded. A negative index is excluded:
     * `UpdateAuthorization` checks only the upper bound and would panic on it.
     */
    method UpdateAuthorization(base: Authorization, challengeIndex: int, response: Challenge,
                               storeFault: Option<Error>, vaFault: Option<Error>)
      returns (r: Result<Authorization>)
      requires challengeIndex >= 0
      modifies this, sa, va
      ensures challengeIndex >= |base.challenges| ==>
        r == Failure(MalformedRequest) && calls == old(calls) && unchanged(sa) && unchanged(va)
      ensures challengeIndex < |base.challenges| ==>
        var updated := RecordResponse(base, challengeIndex, mergeResponse(base.challenges[challengeIndex], response));
        && r == Success(updated)
        && calls == old(calls) + [SAUpdatePendingAuthorization(updated), VAUpdateValidations(updated)]
        && sa.authorizations == (if storeFault.None? then old(sa.authorizations)[updated.id := updated] else old(sa.authorizations))
        && sa.registrations == old(sa.registrations)
        && va.dispatched == (if vaFault.None? then old(va.dispatched) + [updated] else old(va.dispatched))
    {
      var authz := base;
      if challengeIndex >= |authz.challenges| {
        r := Failure(MalformedRequest);
        return;
      }
      var merged := mergeResponse(authz.challenges[challengeIndex], response);
      authz := authz.(challenges := authz.challenges[challengeIndex := merged]);

      calls := calls + [SAUpdatePendingAuthorization(authz)];
      var _ := sa.UpdatePendingAuthorization(authz, storeFault);

      calls := calls + [VAUpdateValidations(authz)];
      var _ := va.UpdateValidations(authz, vaFault);

      r := Success(authz);
    }

    /** The certificate revocation stub: it does nothing and reports success. */
    method RevokeCertificate(cert: Certificate) returns (err: Option<Error>)
      ensures err == None
    {
      err := None;
    }

    /**
     * `now` is the time of the callback, `finalizeFault` the outcome of
     * storing, which is discarded.
     */
    method OnValidationUpdate(authz: Authorization, now: Time, finalizeFault: Option<Error>)
      modifies this, sa
      ensures calls == old(calls) + [SAFinalizeAuthorization(Finalized(authz, now))]
      ensures sa.authorizations == if finalizeFault.None? then old(sa.authorizations)[authz.id := Finalized(authz, now)]
                                   else old(sa.authorizations)
      ensures sa.registrations == old(sa.registrations)
    {
      var result := authz;
      var i := 0;
      while i < |result.challenges|
        invariant 0 <= i <= |authz.challenges|
        invariant result == authz
        invariant forall j :: 0 <= j < i ==> authz.challenges[j].status != Valid
      {
        if result.challenges[i].status == Valid {
          result := result.(status := Valid);
          break;
        }
        i := i + 1;
      }

      if result.status != Valid {
        result := result.(status := Invalid);
      } else {
        result := result.(expires := now + ValidityPeriod);
      }

      calls := calls + [SAFinalizeAuthorization(result)];
      var _ := sa.FinalizeAuthorization(result, finalizeFault);
    }
  }
}
