/**
 * The HTTP surface both servers share: the identity the guard attaches to a
 * request, the JSON bodies the handlers send, and the Express request and
 * response objects the handlers update in place.
 */
module Http {
  import opened Wrappers
  import opened Models

  /** `req.user`: the stored admin's username and role. */
  datatype Identity = Identity(username: string, role: string)

  /** The dashboard statistics object. */
  datatype Stats = Stats(totalProjects: nat, totalSkills: nat, totalCertificates: nat,
                         unreadMessages: nat, totalMessages: nat)

  /** The JSON bodies the handlers send. */
  datatype Body =
    | Empty
    | ErrorBody(error: string)
    | DetailBody(detail: string)
    | Notice(notice: string)
    | LoginBody(access_token: string, username: string, role: string)
    | TokenBody(token: Token)
    | VerifyBody(valid: bool, user: Identity)
    | ProjectList(projects: seq<Project>)
    | ProjectBody(project: Project)
    | SkillList(skills: seq<Skill>)
    | SkillBody(skill: Skill)
    | CertificateList(certificates: seq<Certificate>)
    | CertificateBody(certificate: Certificate)
    | MessageList(messages: seq<Message>)
    | MessageBody(msg: Message)
    | StatsBody(stats: Stats)

  /** A header value by its lower-case name, as Node stores `req.headers`. */
  function HeaderValue(headers: map<string, string>, name: string): (v: Option<string>)
    ensures v.Some? <==> name in headers
    ensures v.Some? ==> v.value == headers[name]
  {
    if name in headers then Some(headers[name]) else None
  }

  /** An Express request: its headers, and `req.user` once the guard has run. */
  class Request {
    var headers: map<string, string>
    var user: Option<Identity>

    constructor (headers: map<string, string>)
      ensures this.headers == headers && user.None?
    {
      this.headers := headers;
      user := None;
    }
  }

  /** An Express response: `res.status(code).json(body)`. */
  class Response {
    var statusCode: int
    var body: Body

    constructor ()
      ensures statusCode == 200 && body == Empty
    {
      statusCode := 200;
      body := Empty;
    }

    /** `res.status(code).json(body)`; `res.json(body)` is `Send(200, body)`. */
    method Send(code: int, b: Body)
      modifies this
      ensures statusCode == code && body == b
    {
      statusCode := code;
      body := b;
    }
  }
}
