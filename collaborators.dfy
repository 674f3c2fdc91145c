/**
 * The three services the Registration Authority talks to. What a service
 * answers that the RA cannot see (an allocated ID, a storage or dispatch
 * failure, a signed certificate) is chosen by the environment and passed
 * in as a parameter; what the services keep is their state.
 */
module Collaborators {
  import opened Core

  /** `GetAuthorization` on a store: the stored value, or NotFound. */
  function Lookup(store: map<string, Authorization>, id: string): (r: Result<Authorization>) {
    if id in store then Success(store[id]) else Failure(NotFound)
  }

  /** The Storage Authority: registrations and authorizations by ID. */
  class StorageAuthority {
    var registrations: map<string, Registration>
    var authorizations: map<string, Authorization>

    constructor()
      ensures registrations == map[] && authorizations == map[]
    {
      registrations := map[];
      authorizations := map[];
    }

    function GetAuthorization(id: string): Result<Authorization>
      reads this
    {
      Lookup(authorizations, id)
    }

    /** Stores `reg` under its ID unless the store reports `fault`. */
    method UpdateRegistration(reg: Registration, fault: Option<Error>) returns (err: Option<Error>)
      modifies this
      ensures err == fault
      ensures registrations == if fault.None? then old(registrations)[reg.id := reg] else old(registrations)
      ensures authorizations == old(authorizations)
    {
      err := fault;
      if fault.None? {
        registrations := registrations[reg.id := reg];
      }
    }

    /** Stores a pending `authz` under its ID unless the store reports `fault`. */
    method UpdatePendingAuthorization(authz: Authorization, fault: Option<Error>) returns (err: Option<Error>)
      modifies this
      ensures err == fault
      ensures authorizations == if fault.None? then old(authorizations)[authz.id := authz] else old(authorizations)
      ensures registrations == old(registrations)
    {
      err := fault;
      if fault.None? {
        authorizations := authorizations[authz.id := authz];
      }
    }

    /** Stores a finalized `authz` under its ID unless the store reports `fault`. */
    method FinalizeAuthorization(authz: Authorization, fault: Option<Error>) returns (err: Option<Error>)
      modifies this
      ensures err == fault
      ensures authorizations == if fault.None? then old(authorizations)[authz.id := authz] else old(authorizations)
      ensures registrations == old(registrations)
    {
      err := fault;
      if fault.None? {
        authorizations := authorizations[authz.id := authz];
      }
    }
  }

  /** The Validation Authority: a queue of authorizations waiting to be probed. */
  class ValidationAuthority {
    var dispatched: seq<Authorization>

    constructor()
      ensures dispatched == []
    {
      dispatched := [];
    }

    /** Queues `authz` for probing (fire and forget) unless dispatch reports `fault`. */
    method UpdateValidations(authz: Authorization, fault: Option<Error>) returns (err: Option<Error>)
      modifies this
      ensures err == fault
      ensures dispatched == if fault.None? then old(dispatched) + [authz] else old(dispatched)
    {
      err := fault;
      if fault.None? {
        dispatched := dispatched + [authz];
      }
    }
  }

  /** The Certificate Authority: the signing requests it has received. */
  class CertificateAuthority {
    var requests: seq<CSR>

    constructor()
      ensures requests == []
    {
      requests := [];
    }

    /** Receives `csr` and answers `reply`, the signer's outcome. */
    method IssueCertificate(csr: CSR, reply: Result<Certificate>) returns (cert: Result<Certificate>)
      modifies this
      ensures requests == old(requests) + [csr]
      ensures cert == reply
    {
      requests := requests + [csr];
      cert := reply;
    }
  }
}
