/**
 * The value types of the `core` package that the Registration Authority
 * works on: identifiers, challenges, authorizations, registrations,
 * certificate requests and certificates, and the error kinds it reports.
 */
module Core {

  datatype Option<T> = None | Some(value: T)

  /**
   * Error kinds. `Unauthorized` carries the name it concerns when there is
   * one (only NewCertificate names a domain); the message texts are not
   * modelled. `NotFound` and `Internal` stand for collaborator failures,
   * which the RA passes on unchanged.
   */
  datatype Error =
    | MalformedRequest
    | NotSupported
    | Unauthorized(name: Option<string>)
    | NotFound
    | Internal(detail: string)

  datatype Result<T> = Success(value: T) | Failure(error: Error)

  /** Instants in nanoseconds on Go's time axis; 0 is the zero `time.Time`. */
  type Time = int
  const ZeroTime: Time := 0
  const Hour: int := 3_600_000_000_000

  /** `core.IdentifierDNS`, the only identifier type the RA supports. */
  const IdentifierDNS: string := "dns"

  datatype AcmeIdentifier = AcmeIdentifier(typ: string, value: string)

  datatype Status = Unknown | Pending | Processing | Valid | Invalid | Revoked

  /** An account key; `jose.JsonWebKey.Equals` is equality of these values. */
  datatype JsonWebKey = JsonWebKey(material: string)

  /**
   * One domain-control challenge. `validation` stands for the
   * type-specific fields (token, path, nonce, ...) that `MergeResponse`
   * works on; `uri` is the text the RA builds for it.
   */
  datatype Challenge = Challenge(typ: string, status: Status, uri: string, validation: string)

  datatype Authorization = Authorization(
    id: string,
    identifier: AcmeIdentifier,
    key: JsonWebKey,
    status: Status,
    expires: Time,
    challenges: seq<Challenge>)

  datatype Registration = Registration(
    id: string,
    key: JsonWebKey,
    recoveryToken: string,
    contact: seq<string>,
    agreement: string)

  /** A certificate signing request: the names it claims and the rest, opaque. */
  datatype CSR = CSR(dnsNames: seq<string>, commonName: string, der: string)

  /** A URL as far as the RA looks into it: its path component. */
  datatype AcmeURL = AcmeURL(path: string)

  datatype CertificateRequest = CertificateRequest(csr: CSR, authorizations: seq<AcmeURL>)

  datatype Certificate = Certificate(der: string)
}
