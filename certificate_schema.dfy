/**
 * The Mongoose `Certificate` schema: required trimmed name, issuer and date,
 * a status enum defaulting to `active`, priority 0 and visible by default.
 */
module CertificateSchema {
  import opened Wrappers
  import opened Text
  import opened Models
  import opened SchemaTypes

  const Statuses: set<string> := {"active", "inactive", "expired"}

  /** What every certificate saved through the schema satisfies. */
  predicate Valid(c: Certificate) {
    && RequiredText(c.name) && RequiredText(c.issuer) && RequiredText(c.date)
    && TrimmedOpt(c.description) && TrimmedOpt(c.credentialId) && TrimmedOpt(c.verifyUrl)
    && TrimmedOpt(c.imageUrl) && TrimmedOpt(c.category)
    && c.status in Statuses
  }

  /** The request bodies `new Certificate(body).save()` accepts. */
  predicate Acceptable(body: CertificateUpdate) {
    && RequiredPresent(body.name) && RequiredPresent(body.issuer) && RequiredPresent(body.date)
    && body.status.GetOr(DefaultCertificateStatus) in Statuses
  }

  /** `new Certificate(body)` with a fresh uuid, then `save()`'s validation. */
  function Create(body: CertificateUpdate, id: string, now: int): (r: Result<Certificate, ValidationError>)
    ensures r.Ok? <==> Acceptable(body)
    ensures r.Ok? ==> Valid(r.value) && r.value.id == id && r.value.createdAt == now
    ensures r.Ok? && body.status.None? ==> r.value.status == "active"
    ensures r.Ok? && body.priority.None? ==> r.value.priority == 0
    ensures r.Ok? && body.visible.None? ==> r.value.visible
  {
    if !RequiredPresent(body.name) then Err(ValidationError("name"))
    else if !RequiredPresent(body.issuer) then Err(ValidationError("issuer"))
    else if !RequiredPresent(body.date) then Err(ValidationError("date"))
    else if body.status.GetOr(DefaultCertificateStatus) !in Statuses then Err(ValidationError("status"))
    else
      Ok(Certificate(id, Trim(body.name.value), Trim(body.issuer.value), Trim(body.date.value),
                     TrimOpt(body.description), TrimOpt(body.credentialId), TrimOpt(body.verifyUrl),
                     TrimOpt(body.imageUrl), body.status.GetOr(DefaultCertificateStatus),
                     TrimOpt(body.category), body.priority.GetOr(0), body.visible.GetOr(true), now))
  }

  /** The paths of an update that `runValidators` accepts. */
  predicate UpdateAcceptable(u: CertificateUpdate) {
    && RequiredIfPresent(u.name) && RequiredIfPresent(u.issuer) && RequiredIfPresent(u.date)
    && (u.status.Some? ==> u.status.value in Statuses)
  }

  /** Casting an update: trim setters, then the update validators. */
  function CastUpdate(u: CertificateUpdate): (r: Result<CertificateUpdate, ValidationError>)
    ensures r.Ok? <==> UpdateAcceptable(u)
  {
    if !UpdateAcceptable(u) then Err(ValidationError("update"))
    else
      Ok(u.(name := TrimOpt(u.name), issuer := TrimOpt(u.issuer), date := TrimOpt(u.date),
            description := TrimOpt(u.description), credentialId := TrimOpt(u.credentialId),
            verifyUrl := TrimOpt(u.verifyUrl), imageUrl := TrimOpt(u.imageUrl),
            category := TrimOpt(u.category)))
  }

  /** An accepted update keeps a valid certificate valid. */
  lemma UpdateKeepsValid(c: Certificate, u: CertificateUpdate)
    requires Valid(c) && UpdateAcceptable(u)
    ensures Valid(ApplyCertificateUpdate(c, CastUpdate(u).value))
  {
  }
}
