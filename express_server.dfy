/**
 * The Express API server: public read routes and the contact form, admin
 * login and token verification, the admin CRUD routes for projects, skills,
 * certificates and messages, and the dashboard statistics. Each handler works
 * on the database and the request and response objects in place; every admin
 * route runs `authenticateToken` first and stops there on a rejection.
 */
module ExpressServer {
  import opened Wrappers
  import opened Text
  import opened Models
  import opened Oracles
  import opened Collections
  import opened SchemaTypes
  import opened AdminUserModel
  import opened Http
  import opened Store
  import opened AuthMiddleware
  import ProjectSchema
  import SkillSchema
  import CertificateSchema
  import MessageSchema

  /** What the server is wired with: the JWT configuration and the two
      libraries. */
  datatype Deps = Deps(cfg: JwtConfig, jwt: Jwt, bcrypt: Bcrypt)

  const IncorrectCredentials := "Incorrect username or password"

  /** `authenticateToken` lets this request through. */
  ghost predicate Admitted(deps: Deps, db: Database, req: Request, now: int)
    reads db`admins, req`headers
  {
    Guard(deps.cfg, deps.jwt, db.admins, AuthorizationHeader(req), now).Pass?
  }

  // ---------------------------------------------------------------------------
  // Public routes
  // ---------------------------------------------------------------------------

  /** GET /api/projects: the visible projects, newest first. */
  method GetProjects(db: Database, res: Response)
    modifies res
    ensures res.statusCode == 200
    ensures res.body == ProjectList(SortBy(Filter(db.projects, ProjectVisible), NewestProjectFirst))
  {
    var visible := Filter(db.projects, ProjectVisible);
    res.Send(200, ProjectList(SortBy(visible, NewestProjectFirst)));
  }

  /** GET /api/projects/:id: a visible project with that id, else 404; a
      hidden project is as absent as a missing one. */
  method GetProject(db: Database, id: string, res: Response)
    modifies res
    ensures res.statusCode == 200 || res.statusCode == 404
    ensures res.statusCode == 200 ==>
              res.body.ProjectBody? && res.body.project in db.projects
              && res.body.project.id == id && res.body.project.visible
    ensures res.statusCode == 404 <==> forall p :: p in db.projects && p.id == id ==> !p.visible
    ensures res.statusCode == 404 ==> res.body == ErrorBody("Project not found")
  {
    var found := FindWhere(db.projects, (p: Project) => p.id == id && p.visible);
    if found.None? {
      res.Send(404, ErrorBody("Project not found"));
      return;
    }
    res.Send(200, ProjectBody(found.value));
  }

  /** GET /api/skills: the visible skills in ascending `order`. */
  method GetSkills(db: Database, res: Response)
    modifies res
    ensures res.statusCode == 200
    ensures res.body == SkillList(SortBy(Filter(db.skills, SkillVisible), SkillOrder))
  {
    var visible := Filter(db.skills, SkillVisible);
    res.Send(200, SkillList(SortBy(visible, SkillOrder)));
  }

  /** GET /api/certificates: the visible certificates in ascending `priority`. */
  method GetCertificates(db: Database, res: Response)
    modifies res
    ensures res.statusCode == 200
    ensures res.body == CertificateList(SortBy(Filter(db.certificates, CertificateVisible), CertificatePriority))
  {
    var visible := Filter(db.certificates, CertificateVisible);
    res.Send(200, CertificateList(SortBy(visible, CertificatePriority)));
  }

  /** POST /api/contact: a new `unread` message, or 500 when the body fails
      the schema or the fresh id collides with the unique index. */
  method SubmitContact(db: Database, body: MessageSchema.ContactBody, ip: Option<string>,
                       userAgent: Option<string>, freshId: string, now: int, res: Response)
    requires db.Valid()
    modifies db`messages, res
    ensures db.Valid()
    ensures var r := MessageSchema.Create(body, freshId, now, ip, userAgent);
      if r.Ok? && freshId !in Ids(old(db.messages), MessageId) then
        && db.messages == old(db.messages) + [r.value]
        && r.value.status == "unread"
        && res.statusCode == 201 && res.body == MessageBody(r.value)
      else
        db.messages == old(db.messages) && res.statusCode == 500
        && res.body == ErrorBody("Failed to send message")
  {
    var r := MessageSchema.Create(body, freshId, now, ip, userAgent);
    if r.Err? || freshId in Ids(db.messages, MessageId) {
      res.Send(500, ErrorBody("Failed to send message"));
      return;
    }
    db.InsertMessage(r.value);
    res.Send(201, MessageBody(r.value));
  }

  // ---------------------------------------------------------------------------
  // Admin authentication
  // ---------------------------------------------------------------------------

  /** POST /api/admin/auth/login. An unknown username and a wrong password
      give the same 401 and leave the record alone. Otherwise `lastLogin` is
      set and saved (the hash is not touched, since the password path is not
      modified), and the token carries the stored username and role; if
      signing then fails the answer is 500 although the save happened. */
  method Login(deps: Deps, db: Database, username: string, password: string, now: int, nonce: nat,
               res: Response)
    requires db.Valid()
    modifies db`admins, res
    ensures db.Valid()
    ensures var found := QueryAdmin(old(db.admins), username);
      if found.None? || !deps.bcrypt.compare(password, found.value.passwordHash) then
        && db.admins == old(db.admins)
        && res.statusCode == 401 && res.body == DetailBody(IncorrectCredentials)
      else
        var a := found.value;
        && db.admins == UpdateById(old(db.admins), AdminId, a.id, WithLastLogin(now))
        && (match GenerateToken(deps.cfg, deps.jwt, Claims(a.username, a.role), now)
            case Some(t) => res.statusCode == 200 && res.body == LoginBody(t, a.username, a.role)
            case None => res.statusCode == 500 && res.body == DetailBody("Login failed"))
  {
    var found := QueryAdmin(db.admins, username);
    if found.None? {
      res.Send(401, DetailBody(IncorrectCredentials));
      return;
    }
    var doc := new AdminUserDoc.Load(found.value);
    var isValidPassword := doc.ComparePassword(deps.bcrypt, password);
    if !isValidPassword {
      res.Send(401, DetailBody(IncorrectCredentials));
      return;
    }
    doc.SetLastLogin(now);
    ValidPassesValidators(doc.Record());
    var saved := doc.Save(deps.bcrypt, nonce);
    assert saved.Ok? && saved.value == WithLastLogin(now)(found.value);
    var a := found.value;
    db.UpdateAdmin(a.id, WithLastLogin(now));
    var token := GenerateToken(deps.cfg, deps.jwt, Claims(a.username, a.role), now);
    if token.None? {
      res.Send(500, DetailBody("Login failed"));
      return;
    }
    res.Send(200, LoginBody(token.value, a.username, a.role));
  }

  /** GET /api/admin/auth/verify: `{valid: true, user}` for an admitted
      request. */
  method VerifyToken(deps: Deps, db: Database, req: Request, res: Response, now: int)
    modifies req`user, res
    ensures var v := Guard(deps.cfg, deps.jwt, db.admins, AuthorizationHeader(req), now);
      if v.Pass? then res.statusCode == 200 && res.body == VerifyBody(true, v.user)
      else res.statusCode == 401 && res.body == ErrorBody(v.error)
  {
    var next := AuthenticateToken(deps.cfg, deps.jwt, db, req, res, now);
    if !next {
      return;
    }
    res.Send(200, VerifyBody(true, req.user.value));
  }

  // ---------------------------------------------------------------------------
  // Admin projects
  // ---------------------------------------------------------------------------

  /** GET /api/admin/projects: every project, hidden ones too, newest first. */
  method AdminGetProjects(deps: Deps, db: Database, req: Request, res: Response, now: int)
    modifies req`user, res
    ensures !old(Admitted(deps, db, req, now)) ==> res.statusCode == 401
    ensures old(Admitted(deps, db, req, now)) ==>
              res.statusCode == 200 && res.body == ProjectList(SortBy(db.projects, NewestProjectFirst))
  {
    var next := AuthenticateToken(deps.cfg, deps.jwt, db, req, res, now);
    if !next {
      return;
    }
    res.Send(200, ProjectList(SortBy(db.projects, NewestProjectFirst)));
  }

  /** POST /api/admin/projects: `new Project(body).save()`. */
  method AdminCreateProject(deps: Deps, db: Database, req: Request, res: Response,
                            body: ProjectUpdate, freshId: string, now: int)
    requires db.Valid() && db.SchemasHold()
    modifies req`user, res, db`projects
    ensures db.Valid() && db.SchemasHold()
    ensures !old(Admitted(deps, db, req, now)) ==> db.projects == old(db.projects) && res.statusCode == 401
    ensures old(Admitted(deps, db, req, now)) ==>
      var r := ProjectSchema.Create(body, freshId, now);
      if r.Ok? && freshId !in Ids(old(db.projects), ProjectId) then
        db.projects == old(db.projects) + [r.value] && res.statusCode == 201 && res.body == ProjectBody(r.value)
      else
        db.projects == old(db.projects) && res.statusCode == 500 && res.body == ErrorBody("Failed to create project")
  {
    var next := AuthenticateToken(deps.cfg, deps.jwt, db, req, res, now);
    if !next {
      return;
    }
    var r := ProjectSchema.Create(body, freshId, now);
    if r.Err? || freshId in Ids(db.projects, ProjectId) {
      res.Send(500, ErrorBody("Failed to create project"));
      return;
    }
    db.InsertProject(r.value);
    res.Send(201, ProjectBody(r.value));
  }

  /** What PUT /api/admin/projects/:id does once admitted: a body the
      validators refuse gives 500 and an unknown id 404, neither changing
      anything; otherwise the project with that id is rewritten through
      `ProjectChange` and the updated document is sent back. */
  ghost predicate ProjectUpdated(before: seq<Project>, after: seq<Project>, status: int, reply: Body,
                                 id: string, body: ProjectUpdate, now: int)
  {
    var c := ProjectSchema.CastUpdate(body);
    if c.Err? then
      after == before && status == 500 && reply == ErrorBody("Failed to update project")
    else if id !in Ids(before, ProjectId) then
      after == before && status == 404 && reply == ErrorBody("Project not found")
    else
      && after == UpdateById(before, ProjectId, id, ProjectChange(c.value, now))
      && status == 200
      && reply == ProjectBody(ProjectChange(c.value, now)(FindById(before, ProjectId, id).value))
  }

  /** PUT /api/admin/projects/:id: `findOneAndUpdate` with `runValidators`
      and an explicit `updatedAt`. */
  method AdminUpdateProject(deps: Deps, db: Database, req: Request, res: Response,
                            id: string, body: ProjectUpdate, now: int)
    requires db.Valid() && db.SchemasHold()
    modifies req`user, res, db`projects
    ensures db.Valid() && db.SchemasHold()
    ensures !old(Admitted(deps, db, req, now)) ==> db.projects == old(db.projects) && res.statusCode == 401
    ensures old(Admitted(deps, db, req, now)) ==>
              ProjectUpdated(old(db.projects), db.projects, res.statusCode, res.body, id, body, now)
  {
    var next := AuthenticateToken(deps.cfg, deps.jwt, db, req, res, now);
    if next {
      UpdateProjectAdmitted(db, res, id, body, now);
    }
  }

  /** The body of the update route once the token has been accepted. */
  method UpdateProjectAdmitted(db: Database, res: Response, id: string, body: ProjectUpdate, now: int)
    requires db.Valid() && db.SchemasHold()
    modifies res, db`projects
    ensures db.Valid() && db.SchemasHold()
    ensures ProjectUpdated(old(db.projects), db.projects, res.statusCode, res.body, id, body, now)
  {
    var c := ProjectSchema.CastUpdate(body);
    if c.Err? {
      res.Send(500, ErrorBody("Failed to update project"));
      return;
    }
    if id !in Ids(db.projects, ProjectId) {
      res.Send(404, ErrorBody("Project not found"));
      return;
    }
    var change := ProjectChange(c.value, now);
    var before := FindById(db.projects, ProjectId, id).value;
    ProjectChangeKeepsValid(before, body, now);
    db.UpdateProject(id, change);
    res.Send(200, ProjectBody(change(before)));
  }

  /** DELETE /api/admin/projects/:id: removes exactly that project, or 404. */
  method AdminDeleteProject(deps: Deps, db: Database, req: Request, res: Response, id: string, now: int)
    requires db.Valid() && db.SchemasHold()
    modifies req`user, res, db`projects
    ensures db.Valid() && db.SchemasHold()
    ensures !old(Admitted(deps, db, req, now)) ==> db.projects == old(db.projects) && res.statusCode == 401
    ensures old(Admitted(deps, db, req, now)) ==>
      if id !in Ids(old(db.projects), ProjectId) then
        db.projects == old(db.projects) && res.statusCode == 404 && res.body == ErrorBody("Project not found")
      else
        db.projects == DeleteById(old(db.projects), ProjectId, id)
        && res.statusCode == 200 && res.body == Notice("Project deleted successfully")
  {
    var next := AuthenticateToken(deps.cfg, deps.jwt, db, req, res, now);
    if !next {
      return;
    }
    if id !in Ids(db.projects, ProjectId) {
      res.Send(404, ErrorBody("Project not found"));
      return;
    }
    db.DeleteProject(id);
    res.Send(200, Notice("Project deleted successfully"));
  }

  // ---------------------------------------------------------------------------
  // Admin skills
  // ---------------------------------------------------------------------------

  /** GET /api/admin/skills: every skill in ascending `order`. */
  method AdminGetSkills(deps: Deps, db: Database, req: Request, res: Response, now: int)
    modifies req`user, res
    ensures !old(Admitted(deps, db, req, now)) ==> res.statusCode == 401
    ensures old(Admitted(deps, db, req, now)) ==>
              res.statusCode == 200 && res.body == SkillList(SortBy(db.skills, SkillOrder))
  {
    var next := AuthenticateToken(deps.cfg, deps.jwt, db, req, res, now);
    if !next {
      return;
    }
    res.Send(200, SkillList(SortBy(db.skills, SkillOrder)));
  }

  /** POST /api/admin/skills: `new Skill(body).save()`. */
  method AdminCreateSkill(deps: Deps, db: Database, req: Request, res: Response,
                          body: SkillUpdate, freshId: string, now: int)
    requires db.Valid() && db.SchemasHold()
    modifies req`user, res, db`skills
    ensures db.Valid() && db.SchemasHold()
    ensures !old(Admitted(deps, db, req, now)) ==> db.skills == old(db.skills) && res.statusCode == 401
    ensures old(Admitted(deps, db, req, now)) ==>
      var r := SkillSchema.Create(body, freshId, now);
      if r.Ok? && freshId !in Ids(old(db.skills), SkillId) then
        db.skills == old(db.skills) + [r.value] && res.statusCode == 201 && res.body == SkillBody(r.value)
      else
        db.skills == old(db.skills) && res.statusCode == 500 && res.body == ErrorBody("Failed to create skill")
  {
    var next := AuthenticateToken(deps.cfg, deps.jwt, db, req, res, now);
    if !next {
      return;
    }
    var r := SkillSchema.Create(body, freshId, now);
    if r.Err? || freshId in Ids(db.skills, SkillId) {
      res.Send(500, ErrorBody("Failed to create skill"));
      return;
    }
    db.InsertSkill(r.value);
    res.Send(201, SkillBody(r.value));
  }

  /** PUT /api/admin/skills/:id: `findOneAndUpdate` with `runValidators`. */
  method AdminUpdateSkill(deps: Deps, db: Database, req: Request, res: Response,
                          id: string, body: SkillUpdate, now: int)
    requires db.Valid() && db.SchemasHold()
    modifies req`user, res, db`skills
    ensures db.Valid() && db.SchemasHold()
    ensures !old(Admitted(deps, db, req, now)) ==> db.skills == old(db.skills) && res.statusCode == 401
    ensures old(Admitted(deps, db, req, now)) ==>
      var c := SkillSchema.CastUpdate(body);
      if c.Err? then
        db.skills == old(db.skills) && res.statusCode == 500 && res.body == ErrorBody("Failed to update skill")
      else if id !in Ids(old(db.skills), SkillId) then
        db.skills == old(db.skills) && res.statusCode == 404 && res.body == ErrorBody("Skill not found")
      else
        && db.skills == UpdateById(old(db.skills), SkillId, id, SkillChange(c.value))
        && res.statusCode == 200
        && res.body == SkillBody(SkillChange(c.value)(FindById(old(db.skills), SkillId, id).value))
  {
    var next := AuthenticateToken(deps.cfg, deps.jwt, db, req, res, now);
    if !next {
      return;
    }
    var c := SkillSchema.CastUpdate(body);
    if c.Err? {
      res.Send(500, ErrorBody("Failed to update skill"));
      return;
    }
    if id !in Ids(db.skills, SkillId) {
      res.Send(404, ErrorBody("Skill not found"));
      return;
    }
    var change := SkillChange(c.value);
    var before := FindById(db.skills, SkillId, id).value;
    SkillSchema.UpdateKeepsValid(before, body);
    db.UpdateSkill(id, change);
    res.Send(200, SkillBody(change(before)));
  }

  /** DELETE /api/admin/skills/:id */
  method AdminDeleteSkill(deps: Deps, db: Database, req: Request, res: Response, id: string, now: int)
    requires db.Valid() && db.SchemasHold()
    modifies req`user, res, db`skills
    ensures db.Valid() && db.SchemasHold()
    ensures !old(Admitted(deps, db, req, now)) ==> db.skills == old(db.skills) && res.statusCode == 401
    ensures old(Admitted(deps, db, req, now)) ==>
      if id !in Ids(old(db.skills), SkillId) then
        db.skills == old(db.skills) && res.statusCode == 404 && res.body == ErrorBody("Skill not found")
      else
        db.skills == DeleteById(old(db.skills), SkillId, id)
        && res.statusCode == 200 && res.body == Notice("Skill deleted successfully")
  {
    var next := AuthenticateToken(deps.cfg, deps.jwt, db, req, res, now);
    if !next {
      return;
    }
    if id !in Ids(db.skills, SkillId) {
      res.Send(404, ErrorBody("Skill not found"));
      return;
    }
    db.DeleteSkill(id);
    res.Send(200, Notice("Skill deleted successfully"));
  }

  // ---------------------------------------------------------------------------
  // Admin certificates
  // ---------------------------------------------------------------------------

  /** GET /api/admin/certificates: every certificate in ascending `priority`. */
  method AdminGetCertificates(deps: Deps, db: Database, req: Request, res: Response, now: int)
    modifies req`user, res
    ensures !old(Admitted(deps, db, req, now)) ==> res.statusCode == 401
    ensures old(Admitted(deps, db, req, now)) ==>
              res.statusCode == 200 && res.body == CertificateList(SortBy(db.certificates, CertificatePriority))
  {
    var next := AuthenticateToken(deps.cfg, deps.jwt, db, req, res, now);
    if !next {
      return;
    }
    res.Send(200, CertificateList(SortBy(db.certificates, CertificatePriority)));
  }

  /** POST /api/admin/certificates: `new Certificate(body).save()`. */
  method AdminCreateCertificate(deps: Deps, db: Database, req: Request, res: Response,
                                body: CertificateUpdate, freshId: string, now: int)
    requires db.Valid() && db.SchemasHold()
    modifies req`user, res, db`certificates
    ensures db.Valid() && db.SchemasHold()
    ensures !old(Admitted(deps, db, req, now)) ==> db.certificates == old(db.certificates) && res.statusCode == 401
    ensures old(Admitted(deps, db, req, now)) ==>
      var r := CertificateSchema.Create(body, freshId, now);
      if r.Ok? && freshId !in Ids(old(db.certificates), CertificateId) then
        db.certificates == old(db.certificates) + [r.value]
        && res.statusCode == 201 && res.body == CertificateBody(r.value)
      else
        db.certificates == old(db.certificates)
        && res.statusCode == 500 && res.body == ErrorBody("Failed to create certificate")
  {
    var next := AuthenticateToken(deps.cfg, deps.jwt, db, req, res, now);
    if !next {
      return;
    }
    var r := CertificateSchema.Create(body, freshId, now);
    if r.Err? || freshId in Ids(db.certificates, CertificateId) {
      res.Send(500, ErrorBody("Failed to create certificate"));
      return;
    }
    db.InsertCertificate(r.value);
    res.Send(201, CertificateBody(r.value));
  }

  /** PUT /api/admin/certificates/:id: `findOneAndUpdate` with `runValidators`. */
  method AdminUpdateCertificate(deps: Deps, db: Database, req: Request, res: Response,
                                id: string, body: CertificateUpdate, now: int)
    requires db.Valid() && db.SchemasHold()
    modifies req`user, res, db`certificates
    ensures db.Valid() && db.SchemasHold()
    ensures !old(Admitted(deps, db, req, now)) ==> db.certificates == old(db.certificates) && res.statusCode == 401
    ensures old(Admitted(deps, db, req, now)) ==>
      var c := CertificateSchema.CastUpdate(body);
      if c.Err? then
        db.certificates == old(db.certificates)
        && res.statusCode == 500 && res.body == ErrorBody("Failed to update certificate")
      else if id !in Ids(old(db.certificates), CertificateId) then
        db.certificates == old(db.certificates)
        && res.statusCode == 404 && res.body == ErrorBody("Certificate not found")
      else
        && db.certificates == UpdateById(old(db.certificates), CertificateId, id, CertificateChange(c.value))
        && res.statusCode == 200
        && res.body == CertificateBody(CertificateChange(c.value)(FindById(old(db.certificates), CertificateId, id).value))
  {
    var next := AuthenticateToken(deps.cfg, deps.jwt, db, req, res, now);
    if !next {
      return;
    }
    var c := CertificateSchema.CastUpdate(body);
    if c.Err? {
      res.Send(500, ErrorBody("Failed to update certificate"));
      return;
    }
    if id !in Ids(db.certificates, CertificateId) {
      res.Send(404, ErrorBody("Certificate not found"));
      return;
    }
    var change := CertificateChange(c.value);
    var before := FindById(db.certificates, CertificateId, id).value;
    CertificateSchema.UpdateKeepsValid(before, body);
    db.UpdateCertificate(id, change);
    res.Send(200, CertificateBody(change(before)));
  }

  /** DELETE /api/admin/certificates/:id */
  method AdminDeleteCertificate(deps: Deps, db: Database, req: Request, res: Response, id: string, now: int)
    requires db.Valid() && db.SchemasHold()
    modifies req`user, res, db`certificates
    ensures db.Valid() && db.SchemasHold()
    ensures !old(Admitted(deps, db, req, now)) ==> db.certificates == old(db.certificates) && res.statusCode == 401
    ensures old(Admitted(deps, db, req, now)) ==>
      if id !in Ids(old(db.certificates), CertificateId) then
        db.certificates == old(db.certificates)
        && res.statusCode == 404 && res.body == ErrorBody("Certificate not found")
      else
        db.certificates == DeleteById(old(db.certificates), CertificateId, id)
        && res.statusCode == 200 && res.body == Notice("Certificate deleted successfully")
  {
    var next := AuthenticateToken(deps.cfg, deps.jwt, db, req, res, now);
    if !next {
      return;
    }
    if id !in Ids(db.certificates, CertificateId) {
      res.Send(404, ErrorBody("Certificate not found"));
      return;
    }
    db.DeleteCertificate(id);
    res.Send(200, Notice("Certificate deleted successfully"));
  }

  // ---------------------------------------------------------------------------
  // Admin messages and dashboard
  // ---------------------------------------------------------------------------

  /** GET /api/admin/messages: every message, newest first. */
  method AdminGetMessages(deps: Deps, db: Database, req: Request, res: Response, now: int)
    modifies req`user, res
    ensures !old(Admitted(deps, db, req, now)) ==> res.statusCode == 401
    ensures old(Admitted(deps, db, req, now)) ==>
              res.statusCode == 200 && res.body == MessageList(SortBy(db.messages, NewestMessageFirst))
  {
    var next := AuthenticateToken(deps.cfg, deps.jwt, db, req, res, now);
    if !next {
      return;
    }
    res.Send(200, MessageList(SortBy(db.messages, NewestMessageFirst)));
  }

  /** PUT /api/admin/messages/:id/status?status=...: the update runs without
      validators, so any status string is stored; with no `status` in the
      query the stored message is left as it is. An unknown id gives 404. */
  method AdminUpdateMessageStatus(deps: Deps, db: Database, req: Request, res: Response,
                                  id: string, status: Option<string>, now: int)
    requires db.Valid()
    modifies req`user, res, db`messages
    ensures db.Valid()
    ensures !old(Admitted(deps, db, req, now)) ==> db.messages == old(db.messages) && res.statusCode == 401
    ensures old(Admitted(deps, db, req, now)) ==>
      if id !in Ids(old(db.messages), MessageId) then
        db.messages == old(db.messages) && res.statusCode == 404 && res.body == ErrorBody("Message not found")
      else
        && db.messages == (if status.Some? then UpdateById(old(db.messages), MessageId, id, WithStatus(status.value))
                           else old(db.messages))
        && res.statusCode == 200 && res.body == Notice("Status updated successfully")
  {
    var next := AuthenticateToken(deps.cfg, deps.jwt, db, req, res, now);
    if !next {
      return;
    }
    if id !in Ids(db.messages, MessageId) {
      res.Send(404, ErrorBody("Message not found"));
      return;
    }
    if status.Some? {
      db.UpdateMessage(id, WithStatus(status.value));
    }
    res.Send(200, Notice("Status updated successfully"));
  }

  /** DELETE /api/admin/messages/:id */
  method AdminDeleteMessage(deps: Deps, db: Database, req: Request, res: Response, id: string, now: int)
    requires db.Valid()
    modifies req`user, res, db`messages
    ensures db.Valid()
    ensures !old(Admitted(deps, db, req, now)) ==> db.messages == old(db.messages) && res.statusCode == 401
    ensures old(Admitted(deps, db, req, now)) ==>
      if id !in Ids(old(db.messages), MessageId) then
        db.messages == old(db.messages) && res.statusCode == 404 && res.body == ErrorBody("Message not found")
      else
        db.messages == DeleteById(old(db.messages), MessageId, id)
        && res.statusCode == 200 && res.body == Notice("Message deleted successfully")
  {
    var next := AuthenticateToken(deps.cfg, deps.jwt, db, req, res, now);
    if !next {
      return;
    }
    if id !in Ids(db.messages, MessageId) {
      res.Send(404, ErrorBody("Message not found"));
      return;
    }
    db.DeleteMessage(id);
    res.Send(200, Notice("Message deleted successfully"));
  }

  /** GET /api/admin/dashboard/stats: the five counts, taken one after the
      other; unread never exceeds total. */
  method AdminDashboardStats(deps: Deps, db: Database, req: Request, res: Response, now: int)
    modifies req`user, res
    ensures !old(Admitted(deps, db, req, now)) ==> res.statusCode == 401
    ensures old(Admitted(deps, db, req, now)) ==>
      && res.statusCode == 200
      && res.body == StatsBody(DashboardStats(db.projects, db.skills, db.certificates, db.messages))
      && res.body.stats.unreadMessages <= res.body.stats.totalMessages
  {
    var next := AuthenticateToken(deps.cfg, deps.jwt, db, req, res, now);
    if !next {
      return;
    }
    res.Send(200, StatsBody(DashboardStats(db.projects, db.skills, db.certificates, db.messages)));
  }

  // ---------------------------------------------------------------------------
  // The route table
  // ---------------------------------------------------------------------------

  /** A registered route: its verb, its path, and whether `authenticateToken`
      runs before the handler. */
  datatype Route = Route(verb: string, path: string, guarded: bool)

  /** Every admin path starts here. */
  const AdminPrefix := "/api/admin/"

  /** The one admin path that is not guarded. */
  const LoginPath := AdminPrefix + "auth/login"

  const Routes: seq<Route> := [
    Route("GET", "/", false),
    Route("GET", "/api/", false),
    Route("GET", "/api/projects", false),
    Route("GET", "/api/projects/:id", false),
    Route("GET", "/api/skills", false),
    Route("GET", "/api/certificates", false),
    Route("POST", "/api/contact", false),
    Route("POST", LoginPath, false),
    Route("GET", AdminPrefix + "auth/verify", true),
    Route("GET", AdminPrefix + "projects", true),
    Route("POST", AdminPrefix + "projects", true),
    Route("PUT", AdminPrefix + "projects/:id", true),
    Route("DELETE", AdminPrefix + "projects/:id", true),
    Route("GET", AdminPrefix + "skills", true),
    Route("POST", AdminPrefix + "skills", true),
    Route("PUT", AdminPrefix + "skills/:id", true),
    Route("DELETE", AdminPrefix + "skills/:id", true),
    Route("GET", AdminPrefix + "certificates", true),
    Route("POST", AdminPrefix + "certificates", true),
    Route("PUT", AdminPrefix + "certificates/:id", true),
    Route("DELETE", AdminPrefix + "certificates/:id", true),
    Route("GET", AdminPrefix + "messages", true),
    Route("PUT", AdminPrefix + "messages/:id/status", true),
    Route("DELETE", AdminPrefix + "messages/:id", true),
    Route("GET", AdminPrefix + "dashboard/stats", true)
  ]

  /** A path that the guard must protect: under `/api/admin/`, except the
      login route itself. */
  predicate NeedsGuard(path: string) {
    StartsWith(path, AdminPrefix) && path != LoginPath
  }

  predicate GuardedCorrectly(r: Route) {
    r.guarded <==> NeedsGuard(r.path)
  }

  /** The public routes and login come first, and none of them is guarded. */
  lemma PublicRoutesUnguarded()
    ensures forall i :: 0 <= i < 8 ==> GuardedCorrectly(Routes[i])
  {
    forall i | 0 <= i < 7 ensures GuardedCorrectly(Routes[i]) {
      var p := Routes[i].path;
      if |p| >= |AdminPrefix| {
        assert p[..|AdminPrefix|][5] == p[5] != AdminPrefix[5];
      }
    }
  }

  /** Every route after login is an admin path other than login, and guarded. */
  lemma AdminRoutesUnderGuard()
    ensures forall i :: 8 <= i < |Routes| ==> GuardedCorrectly(Routes[i])
  {
    forall i | 8 <= i < |Routes| ensures GuardedCorrectly(Routes[i]) {
      var p := Routes[i].path;
      var rest := p[|AdminPrefix|..];
      assert p == AdminPrefix + rest;
      assert StartsWith(p, AdminPrefix);
    }
  }

  /** The single choke point: every admin route except login is guarded, and
      no public route is. This is a statement about the registration table;
      that a guarded route's handler really answers 401 without touching the
      database when the guard rejects is stated by each handler method's own
      `!old(Admitted(..))` postcondition, not derived from this table. */
  lemma AdminRoutesGuarded()
    ensures forall i :: 0 <= i < |Routes| ==> GuardedCorrectly(Routes[i])
  {
    PublicRoutesUnguarded();
    AdminRoutesUnderGuard();
  }
}
