/** Certificates as ParseCertInfo gives them (internal/pki/pki.go). */
module PKI {
  import opened Common

  datatype CertInfo = CertInfo(
    der: Bytes,
    subject: string,
    issuer: string,
    subjectName: Bytes,
    issuerName: Bytes,
    ski: string,
    aki: string,
    isCA: bool,
    selfSigned: bool,
    keyUsage: bv32,
    notBefore: int,
    notAfter: int,
    aiaURLs: seq<string>,
    cdpURLs: seq<string>,
    ocspURLs: seq<string>)

  const NO_KEY_USAGE: bv32 := 0xFFFF_FFFF
  const CRL_SIGN: bv32 := 0x0002

  /** A CA whose key usage, when present, includes cRLSign. */
  predicate CanSignCRL(c: CertInfo) {
    c.isCA && (c.keyUsage == NO_KEY_USAGE || c.keyUsage & CRL_SIGN != 0)
  }
}
