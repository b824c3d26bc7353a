/**
 * The Mongoose `Message` schema: required trimmed name and message, a
 * required email stored trimmed and lower-cased, a status enum defaulting to
 * `unread`, and optional `ip` and `userAgent`.
 */
module MessageSchema {
  import opened Wrappers
  import opened Text
  import opened Models
  import opened SchemaTypes

  const Statuses: set<string> := {"unread", "read", "archived"}

  /** What every message saved through the schema satisfies. */
  predicate Valid(m: Message) {
    && RequiredText(m.name) && NormalEmail(m.email) && RequiredText(m.message)
    && TrimmedOpt(m.subject) && m.status in Statuses
  }

  /** The contact form fields as they arrive; any may be missing. */
  datatype ContactBody = ContactBody(name: Option<string>, email: Option<string>,
                                     subject: Option<string>, message: Option<string>)

  predicate Acceptable(body: ContactBody) {
    RequiredPresent(body.name) && RequiredPresent(body.email) && RequiredPresent(body.message)
  }

  /** `new Message({name, email, subject, message, status: 'unread', ip,
      userAgent})` with a fresh uuid, then `save()`'s validation. */
  function Create(body: ContactBody, id: string, now: int, ip: Option<string>, userAgent: Option<string>)
    : (r: Result<Message, ValidationError>)
    ensures r.Ok? <==> Acceptable(body)
    ensures r.Ok? ==> Valid(r.value) && r.value.status == "unread"
    ensures r.Ok? ==> r.value.id == id && r.value.createdAt == now && r.value.ip == ip && r.value.userAgent == userAgent
    ensures r.Ok? ==> r.value.email == NormalizeEmail(body.email.value)
  {
    if !RequiredPresent(body.name) then Err(ValidationError("name"))
    else if !RequiredPresent(body.email) then Err(ValidationError("email"))
    else if !RequiredPresent(body.message) then Err(ValidationError("message"))
    else
      NormalizeEmailSpec(body.email.value);
      Ok(Message(id, Trim(body.name.value), NormalizeEmail(body.email.value), TrimOpt(body.subject), Trim(body.message.value),
                 UnreadStatus, now, ip, userAgent))
  }
}
