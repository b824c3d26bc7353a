/**
 * The FastAPI server: the same routes as the Express server, answered from
 * the pydantic models instead of the Mongoose schemas. Handlers read and
 * write the collections and return a status code and a JSON body; an
 * `HTTPException` becomes its status code and `{detail}`. Lists are capped
 * by `to_list(100)`. The admin routes depend on `get_current_admin`, whose
 * source is not part of this model: its outcome is a parameter.
 */
module PyServer {
  import opened Wrappers
  import opened Models
  import opened Oracles
  import opened Collections
  import opened AdminUserModel
  import opened Http
  import opened Store

  /** The length `to_list` is given on every list route. */
  const PageLimit: nat := 100

  const IncorrectCredentials := "Incorrect username or password"

  /** What the `get_current_admin` dependency resolved to: the admin, or the
      `HTTPException` it raised. */
  datatype CurrentAdmin = Authorized(user: Identity) | Denied(status: int, detail: string)

  /** The response of a route whose dependency refused the request. */
  predicate Refused(auth: CurrentAdmin, status: int, body: Body)
    requires auth.Denied?
  {
    status == auth.status && body == DetailBody(auth.detail)
  }

  // ---------------------------------------------------------------------------
  // Public routes
  // ---------------------------------------------------------------------------

  /** GET /api/projects: visible projects in stored order, at most 100. */
  method GetProjects(db: Database) returns (status: int, body: Body)
    ensures status == 200 && body.ProjectList?
    ensures body.projects == Take(Filter(db.projects, ProjectVisible), PageLimit)
    ensures |body.projects| <= PageLimit
    ensures forall p :: p in body.projects ==> p in db.projects && p.visible
    ensures |Filter(db.projects, ProjectVisible)| <= PageLimit ==>
              body.projects == Filter(db.projects, ProjectVisible)
  {
    var visible := Filter(db.projects, ProjectVisible);
    var page := Take(visible, PageLimit);
    forall p | p in page ensures p in db.projects && p.visible {
      assert p in multiset(visible);
    }
    return 200, ProjectList(page);
  }

  /** GET /api/projects/{id}: a visible project with that id, else 404. */
  method GetProject(db: Database, id: string) returns (status: int, body: Body)
    ensures status == 200 || status == 404
    ensures status == 200 ==>
              body.ProjectBody? && body.project in db.projects && body.project.id == id && body.project.visible
    ensures status == 404 <==> forall p :: p in db.projects && p.id == id ==> !p.visible
    ensures status == 404 ==> body == DetailBody("Project not found")
  {
    var found := FindWhere(db.projects, (p: Project) => p.id == id && p.visible);
    if found.None? {
      return 404, DetailBody("Project not found");
    }
    return 200, ProjectBody(found.value);
  }

  /** GET /api/skills: visible skills in ascending `order`, at most 100. */
  method GetSkills(db: Database) returns (status: int, body: Body)
    ensures status == 200 && body.SkillList?
    ensures body.skills == SortedPage(db.skills, SkillVisible, SkillOrder, PageLimit)
    ensures |body.skills| <= PageLimit && SortedBy(body.skills, SkillOrder)
    ensures forall s :: s in body.skills ==> s in db.skills && s.visible
    ensures Count(db.skills, SkillVisible) <= PageLimit ==>
              multiset(body.skills) == multiset(Filter(db.skills, SkillVisible))
  {
    SortedPageSpec(db.skills, SkillVisible, SkillOrder, PageLimit);
    return 200, SkillList(SortedPage(db.skills, SkillVisible, SkillOrder, PageLimit));
  }

  /** GET /api/certificates: visible certificates in ascending `priority`, at
      most 100. */
  method GetCertificates(db: Database) returns (status: int, body: Body)
    ensures status == 200 && body.CertificateList?
    ensures body.certificates == SortedPage(db.certificates, CertificateVisible, CertificatePriority, PageLimit)
    ensures |body.certificates| <= PageLimit && SortedBy(body.certificates, CertificatePriority)
    ensures forall c :: c in body.certificates ==> c in db.certificates && c.visible
    ensures Count(db.certificates, CertificateVisible) <= PageLimit ==>
              multiset(body.certificates) == multiset(Filter(db.certificates, CertificateVisible))
  {
    SortedPageSpec(db.certificates, CertificateVisible, CertificatePriority, PageLimit);
    return 200, CertificateList(SortedPage(db.certificates, CertificateVisible, CertificatePriority, PageLimit));
  }

  /** POST /api/contact: the message as sent, `unread`, with the client's
      address and user agent, appended to the collection. */
  method SubmitContact(db: Database, data: MessageCreate, ip: Option<string>, userAgent: Option<string>,
                       freshId: string, now: int) returns (status: int, body: Body)
    requires db.Valid() && freshId !in Ids(db.messages, MessageId)
    modifies db`messages
    ensures db.Valid()
    ensures db.messages == old(db.messages) + [NewMessage(data, freshId, now, ip, userAgent)]
    ensures status == 200 && body == MessageBody(NewMessage(data, freshId, now, ip, userAgent))
    ensures body.msg.status == UnreadStatus
  {
    var message := NewMessage(data, freshId, now, ip, userAgent);
    db.InsertMessage(message);
    return 200, MessageBody(message);
  }

  // ---------------------------------------------------------------------------
  // Admin authentication
  // ---------------------------------------------------------------------------

  /** POST /api/admin/auth/login. The username is matched exactly. An unknown
      username and a wrong password raise the same 401 and write nothing;
      otherwise `lastLogin` is set on that admin only and the token carries
      the stored username as `sub` and the stored role. */
  method Login(auth: PyAuth, db: Database, username: string, password: string, now: int)
    returns (status: int, body: Body)
    modifies db`admins
    ensures old(db.Valid()) ==> db.Valid()
    ensures var found := FindAdmin(old(db.admins), username);
      if found.None? || !auth.verifyPassword(password, found.value.passwordHash) then
        && db.admins == old(db.admins)
        && status == 401 && body == DetailBody(IncorrectCredentials)
      else
        var a := found.value;
        && db.admins == UpdateById(old(db.admins), AdminId, a.id, WithLastLogin(now))
        && status == 200
        && body == TokenBody(NewToken(auth.createAccessToken(PyClaims(a.username, a.role), now),
                                      a.username, a.role))
  {
    var admin := FindAdmin(db.admins, username);
    if admin.None? || !auth.verifyPassword(password, admin.value.passwordHash) {
      return 401, DetailBody(IncorrectCredentials);
    }
    var a := admin.value;
    if db.Valid() {
      FindAdminUnique(db.admins, a);
      assert AdminUserModel.Valid(FindById(db.admins, AdminId, a.id).value);
    }
    db.UpdateAdmin(a.id, WithLastLogin(now));
    var accessToken := auth.createAccessToken(PyClaims(a.username, a.role), now);
    return 200, TokenBody(NewToken(accessToken, a.username, a.role));
  }

  /** A successful login changes the matched admin's `lastLogin` and nothing
      else: every other admin record, and every other field, stays. */
  lemma LoginTouchesOnlyLastLogin(admins: seq<AdminUser>, username: string, now: int)
    requires UniqueIds(admins, AdminId) && FindAdmin(admins, username).Some?
    ensures var a := FindAdmin(admins, username).value;
      var after := UpdateById(admins, AdminId, a.id, WithLastLogin(now));
      && Ids(after, AdminId) == Ids(admins, AdminId)
      && (forall x :: x in admins && x.id != a.id ==> x in after)
      && (forall x :: x in after && x.id != a.id ==> x in admins)
      && FindById(after, AdminId, a.id) == Some(a.(lastLogin := Some(now)))
  {
    var a := FindAdmin(admins, username).value;
    UpdateByIdSpec(admins, AdminId, a.id, WithLastLogin(now));
    assert FindById(admins, AdminId, a.id) == Some(a);
  }

  /** GET /api/admin/auth/verify: `{valid: true, user}`. */
  method VerifyAdmin(auth: CurrentAdmin) returns (status: int, body: Body)
    ensures auth.Denied? ==> Refused(auth, status, body)
    ensures auth.Authorized? ==> status == 200 && body == VerifyBody(true, auth.user)
  {
    if auth.Denied? {
      return auth.status, DetailBody(auth.detail);
    }
    return 200, VerifyBody(true, auth.user);
  }

  // ---------------------------------------------------------------------------
  // Admin projects
  // ---------------------------------------------------------------------------

  /** GET /api/admin/projects: hidden ones too, newest first, at most 100. */
  method AdminGetProjects(auth: CurrentAdmin, db: Database) returns (status: int, body: Body)
    ensures auth.Denied? ==> Refused(auth, status, body)
    ensures auth.Authorized? ==>
      && status == 200 && body == ProjectList(Take(SortBy(db.projects, NewestProjectFirst), PageLimit))
      && |body.projects| <= PageLimit && SortedBy(body.projects, NewestProjectFirst)
      && multiset(body.projects) <= multiset(db.projects)
      && (|db.projects| <= PageLimit ==> multiset(body.projects) == multiset(db.projects))
  {
    if auth.Denied? {
      return auth.status, DetailBody(auth.detail);
    }
    TakeSorted(SortBy(db.projects, NewestProjectFirst), PageLimit, NewestProjectFirst);
    return 200, ProjectList(Take(SortBy(db.projects, NewestProjectFirst), PageLimit));
  }

  /** POST /api/admin/projects: the pydantic defaults, a fresh uuid and the
      current time. */
  method AdminCreateProject(auth: CurrentAdmin, db: Database, data: ProjectCreate, freshId: string, now: int)
    returns (status: int, body: Body)
    requires db.Valid() && freshId !in Ids(db.projects, ProjectId)
    modifies db`projects
    ensures db.Valid()
    ensures auth.Denied? ==> db.projects == old(db.projects) && Refused(auth, status, body)
    ensures auth.Authorized? ==>
      && db.projects == old(db.projects) + [NewProject(data, freshId, now)]
      && status == 200 && body == ProjectBody(NewProject(data, freshId, now))
  {
    if auth.Denied? {
      return auth.status, DetailBody(auth.detail);
    }
    var project := NewProject(data, freshId, now);
    db.InsertProject(project);
    return 200, ProjectBody(project);
  }

  /** PUT /api/admin/projects/{id}: 404 before any write when the id is
      unknown; otherwise the present fields and `updatedAt` are set, and the
      record is read back. */
  method AdminUpdateProject(auth: CurrentAdmin, db: Database, id: string, data: ProjectUpdate, now: int)
    returns (status: int, body: Body)
    requires db.Valid()
    modifies db`projects
    ensures db.Valid()
    ensures auth.Denied? ==> db.projects == old(db.projects) && Refused(auth, status, body)
    ensures auth.Authorized? ==>
      if id !in Ids(old(db.projects), ProjectId) then
        db.projects == old(db.projects) && status == 404 && body == DetailBody("Project not found")
      else
        && db.projects == UpdateById(old(db.projects), ProjectId, id, ProjectChange(data, now))
        && status == 200
        && body == ProjectBody(ProjectChange(data, now)(FindById(old(db.projects), ProjectId, id).value))
  {
    if auth.Denied? {
      return auth.status, DetailBody(auth.detail);
    }
    var existing := FindById(db.projects, ProjectId, id);
    if existing.None? {
      return 404, DetailBody("Project not found");
    }
    UpdateByIdSpec(db.projects, ProjectId, id, ProjectChange(data, now));
    db.UpdateProject(id, ProjectChange(data, now));
    var updated := FindById(db.projects, ProjectId, id);
    return 200, ProjectBody(updated.value);
  }

  /** DELETE /api/admin/projects/{id}: 404 when nothing was deleted. */
  method AdminDeleteProject(auth: CurrentAdmin, db: Database, id: string) returns (status: int, body: Body)
    requires db.Valid()
    modifies db`projects
    ensures db.Valid()
    ensures auth.Denied? ==> db.projects == old(db.projects) && Refused(auth, status, body)
    ensures auth.Authorized? ==>
      && db.projects == DeleteById(old(db.projects), ProjectId, id)
      && Ids(db.projects, ProjectId) == Ids(old(db.projects), ProjectId) - {id}
      && if id in Ids(old(db.projects), ProjectId) then
           status == 200 && body == Notice("Project deleted successfully")
         else
           db.projects == old(db.projects) && status == 404 && body == DetailBody("Project not found")
  {
    if auth.Denied? {
      return auth.status, DetailBody(auth.detail);
    }
    var before := |db.projects|;
    db.DeleteProject(id);
    var deletedCount := before - |db.projects|;
    if deletedCount == 0 {
      return 404, DetailBody("Project not found");
    }
    return 200, Notice("Project deleted successfully");
  }

  // ---------------------------------------------------------------------------
  // Admin skills
  // ---------------------------------------------------------------------------

  /** GET /api/admin/skills: hidden ones too, ascending `order`, at most 100. */
  method AdminGetSkills(auth: CurrentAdmin, db: Database) returns (status: int, body: Body)
    ensures auth.Denied? ==> Refused(auth, status, body)
    ensures auth.Authorized? ==>
      && status == 200 && body == SkillList(Take(SortBy(db.skills, SkillOrder), PageLimit))
      && |body.skills| <= PageLimit && SortedBy(body.skills, SkillOrder)
      && multiset(body.skills) <= multiset(db.skills)
      && (|db.skills| <= PageLimit ==> multiset(body.skills) == multiset(db.skills))
  {
    if auth.Denied? {
      return auth.status, DetailBody(auth.detail);
    }
    TakeSorted(SortBy(db.skills, SkillOrder), PageLimit, SkillOrder);
    return 200, SkillList(Take(SortBy(db.skills, SkillOrder), PageLimit));
  }

  /** POST /api/admin/skills: level 50, order 0 and visible unless given. */
  method AdminCreateSkill(auth: CurrentAdmin, db: Database, data: SkillCreate, freshId: string, now: int)
    returns (status: int, body: Body)
    requires db.Valid() && freshId !in Ids(db.skills, SkillId)
    modifies db`skills
    ensures db.Valid()
    ensures auth.Denied? ==> db.skills == old(db.skills) && Refused(auth, status, body)
    ensures auth.Authorized? ==>
      && db.skills == old(db.skills) + [NewSkill(data, freshId, now)]
      && status == 200 && body == SkillBody(NewSkill(data, freshId, now))
  {
    if auth.Denied? {
      return auth.status, DetailBody(auth.detail);
    }
    var skill := NewSkill(data, freshId, now);
    db.InsertSkill(skill);
    return 200, SkillBody(skill);
  }

  /** PUT /api/admin/skills/{id}: as for projects, without an `updatedAt`. */
  method AdminUpdateSkill(auth: CurrentAdmin, db: Database, id: string, data: SkillUpdate)
    returns (status: int, body: Body)
    requires db.Valid()
    modifies db`skills
    ensures db.Valid()
    ensures auth.Denied? ==> db.skills == old(db.skills) && Refused(auth, status, body)
    ensures auth.Authorized? ==>
      if id !in Ids(old(db.skills), SkillId) then
        db.skills == old(db.skills) && status == 404 && body == DetailBody("Skill not found")
      else
        && db.skills == UpdateById(old(db.skills), SkillId, id, SkillChange(data))
        && status == 200
        && body == SkillBody(SkillChange(data)(FindById(old(db.skills), SkillId, id).value))
  {
    if auth.Denied? {
      return auth.status, DetailBody(auth.detail);
    }
    var existing := FindById(db.skills, SkillId, id);
    if existing.None? {
      return 404, DetailBody("Skill not found");
    }
    UpdateByIdSpec(db.skills, SkillId, id, SkillChange(data));
    db.UpdateSkill(id, SkillChange(data));
    var updated := FindById(db.skills, SkillId, id);
    return 200, SkillBody(updated.value);
  }

  /** DELETE /api/admin/skills/{id} */
  method AdminDeleteSkill(auth: CurrentAdmin, db: Database, id: string) returns (status: int, body: Body)
    requires db.Valid()
    modifies db`skills
    ensures db.Valid()
    ensures auth.Denied? ==> db.skills == old(db.skills) && Refused(auth, status, body)
    ensures auth.Authorized? ==>
      && db.skills == DeleteById(old(db.skills), SkillId, id)
      && Ids(db.skills, SkillId) == Ids(old(db.skills), SkillId) - {id}
      && if id in Ids(old(db.skills), SkillId) then
           status == 200 && body == Notice("Skill deleted successfully")
         else
           db.skills == old(db.skills) && status == 404 && body == DetailBody("Skill not found")
  {
    if auth.Denied? {
      return auth.status, DetailBody(auth.detail);
    }
    var before := |db.skills|;
    db.DeleteSkill(id);
    var deletedCount := before - |db.skills|;
    if deletedCount == 0 {
      return 404, DetailBody("Skill not found");
    }
    return 200, Notice("Skill deleted successfully");
  }

  // ---------------------------------------------------------------------------
  // Admin certificates
  // ---------------------------------------------------------------------------

  /** GET /api/admin/certificates: hidden ones too, ascending `priority`, at
      most 100. */
  method AdminGetCertificates(auth: CurrentAdmin, db: Database) returns (status: int, body: Body)
    ensures auth.Denied? ==> Refused(auth, status, body)
    ensures auth.Authorized? ==>
      && status == 200 && body == CertificateList(Take(SortBy(db.certificates, CertificatePriority), PageLimit))
      && |body.certificates| <= PageLimit && SortedBy(body.certificates, CertificatePriority)
      && multiset(body.certificates) <= multiset(db.certificates)
      && (|db.certificates| <= PageLimit ==> multiset(body.certificates) == multiset(db.certificates))
  {
    if auth.Denied? {
      return auth.status, DetailBody(auth.detail);
    }
    TakeSorted(SortBy(db.certificates, CertificatePriority), PageLimit, CertificatePriority);
    return 200, CertificateList(Take(SortBy(db.certificates, CertificatePriority), PageLimit));
  }

  /** POST /api/admin/certificates: status active, priority 0 and visible
      unless given. */
  method AdminCreateCertificate(auth: CurrentAdmin, db: Database, data: CertificateCreate, freshId: string,
                                now: int) returns (status: int, body: Body)
    requires db.Valid() && freshId !in Ids(db.certificates, CertificateId)
    modifies db`certificates
    ensures db.Valid()
    ensures auth.Denied? ==> db.certificates == old(db.certificates) && Refused(auth, status, body)
    ensures auth.Authorized? ==>
      && db.certificates == old(db.certificates) + [NewCertificate(data, freshId, now)]
      && status == 200 && body == CertificateBody(NewCertificate(data, freshId, now))
  {
    if auth.Denied? {
      return auth.status, DetailBody(auth.detail);
    }
    var certificate := NewCertificate(data, freshId, now);
    db.InsertCertificate(certificate);
    return 200, CertificateBody(certificate);
  }

  /** PUT /api/admin/certificates/{id}: as for skills. */
  method AdminUpdateCertificate(auth: CurrentAdmin, db: Database, id: string, data: CertificateUpdate)
    returns (status: int, body: Body)
    requires db.Valid()
    modifies db`certificates
    ensures db.Valid()
    ensures auth.Denied? ==> db.certificates == old(db.certificates) && Refused(auth, status, body)
    ensures auth.Authorized? ==>
      if id !in Ids(old(db.certificates), CertificateId) then
        db.certificates == old(db.certificates) && status == 404 && body == DetailBody("Certificate not found")
      else
        && db.certificates == UpdateById(old(db.certificates), CertificateId, id, CertificateChange(data))
        && status == 200
        && body == CertificateBody(CertificateChange(data)(FindById(old(db.certificates), CertificateId, id).value))
  {
    if auth.Denied? {
      return auth.status, DetailBody(auth.detail);
    }
    var existing := FindById(db.certificates, CertificateId, id);
    if existing.None? {
      return 404, DetailBody("Certificate not found");
    }
    UpdateByIdSpec(db.certificates, CertificateId, id, CertificateChange(data));
    db.UpdateCertificate(id, CertificateChange(data));
    var updated := FindById(db.certificates, CertificateId, id);
    return 200, CertificateBody(updated.value);
  }

  /** DELETE /api/admin/certificates/{id} */
  method AdminDeleteCertificate(auth: CurrentAdmin, db: Database, id: string) returns (status: int, body: Body)
    requires db.Valid()
    modifies db`certificates
    ensures db.Valid()
    ensures auth.Denied? ==> db.certificates == old(db.certificates) && Refused(auth, status, body)
    ensures auth.Authorized? ==>
      && db.certificates == DeleteById(old(db.certificates), CertificateId, id)
      && Ids(db.certificates, CertificateId) == Ids(old(db.certificates), CertificateId) - {id}
      && if id in Ids(old(db.certificates), CertificateId) then
           status == 200 && body == Notice("Certificate deleted successfully")
         else
           db.certificates == old(db.certificates) && status == 404 && body == DetailBody("Certificate not found")
  {
    if auth.Denied? {
      return auth.status, DetailBody(auth.detail);
    }
    var before := |db.certificates|;
    db.DeleteCertificate(id);
    var deletedCount := before - |db.certificates|;
    if deletedCount == 0 {
      return 404, DetailBody("Certificate not found");
    }
    return 200, Notice("Certificate deleted successfully");
  }

  // ---------------------------------------------------------------------------
  // Admin messages and statistics
  // ---------------------------------------------------------------------------

  /** GET /api/admin/messages: newest first, at most 100. */
  method AdminGetMessages(auth: CurrentAdmin, db: Database) returns (status: int, body: Body)
    ensures auth.Denied? ==> Refused(auth, status, body)
    ensures auth.Authorized? ==>
      && status == 200 && body == MessageList(Take(SortBy(db.messages, NewestMessageFirst), PageLimit))
      && |body.messages| <= PageLimit && SortedBy(body.messages, NewestMessageFirst)
      && multiset(body.messages) <= multiset(db.messages)
      && (|db.messages| <= PageLimit ==> multiset(body.messages) == multiset(db.messages))
  {
    if auth.Denied? {
      return auth.status, DetailBody(auth.detail);
    }
    TakeSorted(SortBy(db.messages, NewestMessageFirst), PageLimit, NewestMessageFirst);
    return 200, MessageList(Take(SortBy(db.messages, NewestMessageFirst), PageLimit));
  }

  /** PUT /api/admin/messages/{id}/status?status=...: the string is stored as
      given, whatever it is; 404 when no message matched. */
  method AdminUpdateMessageStatus(auth: CurrentAdmin, db: Database, id: string, newStatus: string)
    returns (status: int, body: Body)
    requires db.Valid()
    modifies db`messages
    ensures db.Valid()
    ensures auth.Denied? ==> db.messages == old(db.messages) && Refused(auth, status, body)
    ensures auth.Authorized? ==>
      && db.messages == UpdateById(old(db.messages), MessageId, id, WithStatus(newStatus))
      && if id in Ids(old(db.messages), MessageId) then
           && FindById(db.messages, MessageId, id).Some?
           && FindById(db.messages, MessageId, id).value.status == newStatus
           && status == 200 && body == Notice("Status updated successfully")
         else
           db.messages == old(db.messages) && status == 404 && body == DetailBody("Message not found")
  {
    if auth.Denied? {
      return auth.status, DetailBody(auth.detail);
    }
    var matchedCount := if id in Ids(db.messages, MessageId) then 1 else 0;
    UpdateByIdSpec(db.messages, MessageId, id, WithStatus(newStatus));
    db.UpdateMessage(id, WithStatus(newStatus));
    if matchedCount == 0 {
      return 404, DetailBody("Message not found");
    }
    return 200, Notice("Status updated successfully");
  }

  /** DELETE /api/admin/messages/{id} */
  method AdminDeleteMessage(auth: CurrentAdmin, db: Database, id: string) returns (status: int, body: Body)
    requires db.Valid()
    modifies db`messages
    ensures db.Valid()
    ensures auth.Denied? ==> db.messages == old(db.messages) && Refused(auth, status, body)
    ensures auth.Authorized? ==>
      && db.messages == DeleteById(old(db.messages), MessageId, id)
      && Ids(db.messages, MessageId) == Ids(old(db.messages), MessageId) - {id}
      && if id in Ids(old(db.messages), MessageId) then
           status == 200 && body == Notice("Message deleted successfully")
         else
           db.messages == old(db.messages) && status == 404 && body == DetailBody("Message not found")
  {
    if auth.Denied? {
      return auth.status, DetailBody(auth.detail);
    }
    var before := |db.messages|;
    db.DeleteMessage(id);
    var deletedCount := before - |db.messages|;
    if deletedCount == 0 {
      return 404, DetailBody("Message not found");
    }
    return 200, Notice("Message deleted successfully");
  }

  /** GET /api/admin/dashboard/stats: the five counts, unread never above
      total. */
  method GetDashboardStats(auth: CurrentAdmin, db: Database) returns (status: int, body: Body)
    ensures auth.Denied? ==> Refused(auth, status, body)
    ensures auth.Authorized? ==>
      && status == 200 && body.StatsBody?
      && body.stats == DashboardStats(db.projects, db.skills, db.certificates, db.messages)
      && body.stats.totalMessages == |db.messages|
      && body.stats.unreadMessages == Count(db.messages, IsUnread)
      && body.stats.unreadMessages <= body.stats.totalMessages
  {
    if auth.Denied? {
      return auth.status, DetailBody(auth.detail);
    }
    var stats := DashboardStats(db.projects, db.skills, db.certificates, db.messages);
    return 200, StatsBody(stats);
  }
}
