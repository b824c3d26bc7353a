/**
 * The MongoDB database both servers use: one collection per entity, each a
 * sequence of documents in natural (insertion) order, updated in place by
 * the handlers.
 */
module Store {
  import opened Wrappers
  import opened Text
  import opened Models
  import opened Collections
  import opened Http
  import opened AdminUserModel
  import ProjectSchema
  import SkillSchema
  import CertificateSchema

  /** `findOne({username})` on the admin collection. */
  function FindAdmin(admins: seq<AdminUser>, username: string): (r: Option<AdminUser>)
    ensures r.Some? ==> r.value in admins && r.value.username == username
    ensures r.None? <==> username !in Ids(admins, AdminUsername)
  {
    FindWhere(admins, (a: AdminUser) => a.username == username)
  }

  /** With unique usernames, the lookup finds the one admin of that name. */
  lemma FindAdminUnique(admins: seq<AdminUser>, a: AdminUser)
    requires UniqueIds(admins, AdminUsername)
    requires a in admins
    ensures FindAdmin(admins, a.username) == Some(a)
  {
    var r := FindAdmin(admins, a.username);
    assert a.username in Ids(admins, AdminUsername);
    var i :| 0 <= i < |admins| && admins[i] == r.value;
    var j :| 0 <= j < |admins| && admins[j] == a;
    assert AdminUsername(admins[i]) == AdminUsername(admins[j]);
  }

  /** `AdminUser.findOne({username})` through Mongoose: the path's `trim`
      setter also casts the filter value. */
  function QueryAdmin(admins: seq<AdminUser>, username: string): (r: Option<AdminUser>)
    ensures r.Some? ==> r.value in admins && r.value.username == Trim(username)
    ensures r.None? <==> Trim(username) !in Ids(admins, AdminUsername)
  {
    FindAdmin(admins, Trim(username))
  }

  /** A stored (valid, hence trimmed) username finds its own record. */
  lemma QueryAdminStored(admins: seq<AdminUser>, a: AdminUser)
    requires UniqueIds(admins, AdminUsername)
    requires a in admins && AdminUserModel.Valid(a)
    ensures QueryAdmin(admins, a.username) == Some(a)
  {
    TrimOfTrimmed(a.username);
    FindAdminUnique(admins, a);
  }

  // ---------------------------------------------------------------------------
  // Query filters, sort keys and `$set` changes shared by both servers
  // ---------------------------------------------------------------------------

  /** `{visible: true}` */
  function ProjectVisible(p: Project): bool { p.visible }
  function SkillVisible(s: Skill): bool { s.visible }
  function CertificateVisible(c: Certificate): bool { c.visible }
  /** `{status: 'unread'}` */
  function IsUnread(m: Message): bool { m.status == UnreadStatus }

  /** `sort({createdAt: -1})`, as an ascending key. */
  function NewestProjectFirst(p: Project): int { -p.createdAt }
  function NewestMessageFirst(m: Message): int { -m.createdAt }
  /** `sort({order: 1})` and `sort({priority: 1})`. */
  function SkillOrder(s: Skill): int { s.order }
  function CertificatePriority(c: Certificate): int { c.priority }

  /** `{$set: {lastLogin: now}}` */
  function WithLastLogin(now: int): AdminUser -> AdminUser {
    (a: AdminUser) => a.(lastLogin := Some(now))
  }

  /** `{$set: {status}}` */
  function WithStatus(status: string): Message -> Message {
    (m: Message) => m.(status := status)
  }

  /** The `$set` of a project update: the present fields, and `updatedAt`. */
  function ProjectChange(c: ProjectUpdate, now: int): Project -> Project {
    (p: Project) => ApplyProjectUpdate(p, c).(updatedAt := now)
  }

  /** An update the validators accept, with its `updatedAt` stamp, keeps a
      valid project valid. */
  lemma ProjectChangeKeepsValid(p: Project, body: ProjectUpdate, now: int)
    requires ProjectSchema.Valid(p) && ProjectSchema.UpdateAcceptable(body)
    ensures ProjectSchema.Valid(ProjectChange(ProjectSchema.CastUpdate(body).value, now)(p))
  {
    ProjectSchema.UpdateKeepsValid(p, body);
  }

  /** The `$set` of a skill update: the present fields only. */
  function SkillChange(c: SkillUpdate): Skill -> Skill {
    (s: Skill) => ApplySkillUpdate(s, c)
  }

  /** The `$set` of a certificate update: the present fields only. */
  function CertificateChange(c: CertificateUpdate): Certificate -> Certificate {
    (x: Certificate) => ApplyCertificateUpdate(x, c)
  }

  /** The five dashboard counts. */
  function DashboardStats(projects: seq<Project>, skills: seq<Skill>, certificates: seq<Certificate>,
                          messages: seq<Message>): (s: Stats)
    ensures s.totalProjects == |projects| && s.totalSkills == |skills|
    ensures s.totalCertificates == |certificates| && s.totalMessages == |messages|
    ensures s.unreadMessages <= s.totalMessages
    ensures s.unreadMessages == s.totalMessages <==> forall m :: m in messages ==> m.status == "unread"
  {
    CountBounds(messages, IsUnread);
    Stats(|projects|, |skills|, |certificates|, Count(messages, IsUnread), |messages|)
  }

  /** The admin collection's indexes and schema. */
  ghost predicate AdminsValid(admins: seq<AdminUser>) {
    && UniqueIds(admins, AdminId) && UniqueIds(admins, AdminUsername)
    && (forall a :: a in admins ==> AdminUserModel.Valid(a))
  }

  /** The record a change rewrites, if any, still satisfies the admin schema. */
  ghost predicate ChangeKeepsAdminValid(admins: seq<AdminUser>, id: string, change: AdminUser -> AdminUser) {
    id in Ids(admins, AdminId) ==> AdminUserModel.Valid(change(FindById(admins, AdminId, id).value))
  }

  ghost predicate ProjectsValid(projects: seq<Project>) {
    forall p :: p in projects ==> ProjectSchema.Valid(p)
  }

  ghost predicate SkillsValid(skills: seq<Skill>) {
    forall s :: s in skills ==> SkillSchema.Valid(s)
  }

  ghost predicate CertificatesValid(certificates: seq<Certificate>) {
    forall c :: c in certificates ==> CertificateSchema.Valid(c)
  }

  class Database {
    var projects: seq<Project>
    var skills: seq<Skill>
    var certificates: seq<Certificate>
    var messages: seq<Message>
    var admins: seq<AdminUser>

    /** The unique indexes: `id` on every collection, and `username` on the
        admin collection, whose records satisfy the admin schema. */
    ghost predicate Valid()
      reads this
    {
      && UniqueIds(projects, ProjectId) && UniqueIds(skills, SkillId)
      && UniqueIds(certificates, CertificateId) && UniqueIds(messages, MessageId)
      && AdminsValid(admins)
    }

    /** Every stored project, skill and certificate satisfies its Mongoose
        schema; the Express handlers keep this. */
    ghost predicate SchemasHold()
      reads this
    {
      ProjectsValid(projects) && SkillsValid(skills) && CertificatesValid(certificates)
    }

    constructor (projects: seq<Project>, skills: seq<Skill>, certificates: seq<Certificate>,
                 messages: seq<Message>, admins: seq<AdminUser>)
      ensures this.projects == projects && this.skills == skills && this.certificates == certificates
      ensures this.messages == messages && this.admins == admins
    {
      this.projects, this.skills, this.certificates := projects, skills, certificates;
      this.messages, this.admins := messages, admins;
    }

    /** `insert_one` on the projects collection with an id not yet present. */
    method InsertProject(x: Project)
      requires Valid() && ProjectId(x) !in Ids(projects, ProjectId)
      modifies this`projects
      ensures projects == old(projects) + [x] && Valid()
      ensures Ids(projects, ProjectId) == Ids(old(projects), ProjectId) + {ProjectId(x)}
      ensures old(SchemasHold()) && ProjectSchema.Valid(x) ==> SchemasHold()
    {
      InsertFreshSpec(projects, ProjectId, x);
      projects := projects + [x];
    }

    /** `update_one({id}, {$set: ...})` on the projects collection. */
    method UpdateProject(id: string, change: Project -> Project)
      requires Valid() && forall x :: ProjectId(change(x)) == ProjectId(x)
      modifies this`projects
      ensures projects == UpdateById(old(projects), ProjectId, id, change) && Valid()
      ensures Ids(projects, ProjectId) == Ids(old(projects), ProjectId)
      ensures (old(SchemasHold()) && (id in Ids(old(projects), ProjectId) ==>
                ProjectSchema.Valid(change(FindById(old(projects), ProjectId, id).value)))) ==> SchemasHold()
    {
      UpdateByIdSpec(projects, ProjectId, id, change);
      if SchemasHold() && (id in Ids(projects, ProjectId) ==> ProjectSchema.Valid(change(FindById(projects, ProjectId, id).value))) {
        UpdateByIdKeeps(projects, ProjectId, id, change, ProjectSchema.Valid);
      }
      projects := UpdateById(projects, ProjectId, id, change);
    }

    /** `delete_one({id})` on the projects collection. */
    method DeleteProject(id: string)
      requires Valid()
      modifies this`projects
      ensures projects == DeleteById(old(projects), ProjectId, id) && Valid()
      ensures Ids(projects, ProjectId) == Ids(old(projects), ProjectId) - {id}
      ensures old(SchemasHold()) ==> SchemasHold()
    {
      DeleteByIdSpec(projects, ProjectId, id);
      projects := DeleteById(projects, ProjectId, id);
    }

    /** `insert_one` on the skills collection with an id not yet present. */
    method InsertSkill(x: Skill)
      requires Valid() && SkillId(x) !in Ids(skills, SkillId)
      modifies this`skills
      ensures skills == old(skills) + [x] && Valid()
      ensures Ids(skills, SkillId) == Ids(old(skills), SkillId) + {SkillId(x)}
      ensures old(SchemasHold()) && SkillSchema.Valid(x) ==> SchemasHold()
    {
      InsertFreshSpec(skills, SkillId, x);
      skills := skills + [x];
    }

    /** `update_one({id}, {$set: ...})` on the skills collection. */
    method UpdateSkill(id: string, change: Skill -> Skill)
      requires Valid() && forall x :: SkillId(change(x)) == SkillId(x)
      modifies this`skills
      ensures skills == UpdateById(old(skills), SkillId, id, change) && Valid()
      ensures Ids(skills, SkillId) == Ids(old(skills), SkillId)
      ensures (old(SchemasHold()) && (id in Ids(old(skills), SkillId) ==>
                SkillSchema.Valid(change(FindById(old(skills), SkillId, id).value)))) ==> SchemasHold()
    {
      UpdateByIdSpec(skills, SkillId, id, change);
      if SchemasHold() && (id in Ids(skills, SkillId) ==> SkillSchema.Valid(change(FindById(skills, SkillId, id).value))) {
        UpdateByIdKeeps(skills, SkillId, id, change, SkillSchema.Valid);
      }
      skills := UpdateById(skills, SkillId, id, change);
    }

    /** `delete_one({id})` on the skills collection. */
    method DeleteSkill(id: string)
      requires Valid()
      modifies this`skills
      ensures skills == DeleteById(old(skills), SkillId, id) && Valid()
      ensures Ids(skills, SkillId) == Ids(old(skills), SkillId) - {id}
      ensures old(SchemasHold()) ==> SchemasHold()
    {
      DeleteByIdSpec(skills, SkillId, id);
      skills := DeleteById(skills, SkillId, id);
    }

    /** `insert_one` on the certificates collection with an id not yet present. */
    method InsertCertificate(x: Certificate)
      requires Valid() && CertificateId(x) !in Ids(certificates, CertificateId)
      modifies this`certificates
      ensures certificates == old(certificates) + [x] && Valid()
      ensures Ids(certificates, CertificateId) == Ids(old(certificates), CertificateId) + {CertificateId(x)}
      ensures old(SchemasHold()) && CertificateSchema.Valid(x) ==> SchemasHold()
    {
      InsertFreshSpec(certificates, CertificateId, x);
      certificates := certificates + [x];
    }

    /** `update_one({id}, {$set: ...})` on the certificates collection. */
    method UpdateCertificate(id: string, change: Certificate -> Certificate)
      requires Valid() && forall x :: CertificateId(change(x)) == CertificateId(x)
      modifies this`certificates
      ensures certificates == UpdateById(old(certificates), CertificateId, id, change) && Valid()
      ensures Ids(certificates, CertificateId) == Ids(old(certificates), CertificateId)
      ensures (old(SchemasHold()) && (id in Ids(old(certificates), CertificateId) ==>
                CertificateSchema.Valid(change(FindById(old(certificates), CertificateId, id).value)))) ==> SchemasHold()
    {
      UpdateByIdSpec(certificates, CertificateId, id, change);
      if SchemasHold() && (id in Ids(certificates, CertificateId) ==> CertificateSchema.Valid(change(FindById(certificates, CertificateId, id).value))) {
        UpdateByIdKeeps(certificates, CertificateId, id, change, CertificateSchema.Valid);
      }
      certificates := UpdateById(certificates, CertificateId, id, change);
    }

    /** `delete_one({id})` on the certificates collection. */
    method DeleteCertificate(id: string)
      requires Valid()
      modifies this`certificates
      ensures certificates == DeleteById(old(certificates), CertificateId, id) && Valid()
      ensures Ids(certificates, CertificateId) == Ids(old(certificates), CertificateId) - {id}
      ensures old(SchemasHold()) ==> SchemasHold()
    {
      DeleteByIdSpec(certificates, CertificateId, id);
      certificates := DeleteById(certificates, CertificateId, id);
    }

    /** `insert_one` on the messages collection with an id not yet present. */
    method InsertMessage(x: Message)
      requires Valid() && MessageId(x) !in Ids(messages, MessageId)
      modifies this`messages
      ensures messages == old(messages) + [x] && Valid()
      ensures Ids(messages, MessageId) == Ids(old(messages), MessageId) + {MessageId(x)}
    {
      InsertFreshSpec(messages, MessageId, x);
      messages := messages + [x];
    }

    /** `update_one({id}, {$set: ...})` on the messages collection. */
    method UpdateMessage(id: string, change: Message -> Message)
      requires Valid() && forall x :: MessageId(change(x)) == MessageId(x)
      modifies this`messages
      ensures messages == UpdateById(old(messages), MessageId, id, change) && Valid()
      ensures Ids(messages, MessageId) == Ids(old(messages), MessageId)
    {
      UpdateByIdSpec(messages, MessageId, id, change);
      messages := UpdateById(messages, MessageId, id, change);
    }

    /** `delete_one({id})` on the messages collection. */
    method DeleteMessage(id: string)
      requires Valid()
      modifies this`messages
      ensures messages == DeleteById(old(messages), MessageId, id) && Valid()
      ensures Ids(messages, MessageId) == Ids(old(messages), MessageId) - {id}
    {
      DeleteByIdSpec(messages, MessageId, id);
      messages := DeleteById(messages, MessageId, id);
    }

    /** `update_one({id}, {$set: ...})` on the admin collection, through a
        change that keeps the id and the username. The indexes and the admin
        schema survive when they held before and the changed record still
        satisfies the schema. */
    method UpdateAdmin(id: string, change: AdminUser -> AdminUser)
      requires forall a :: AdminId(change(a)) == AdminId(a) && AdminUsername(change(a)) == AdminUsername(a)
      modifies this`admins
      ensures admins == UpdateById(old(admins), AdminId, id, change)
      ensures old(Valid()) && ChangeKeepsAdminValid(old(admins), id, change) ==> Valid()
    {
      if Valid() && ChangeKeepsAdminValid(admins, id, change) {
        UpdateByIdSpec(admins, AdminId, id, change);
        UpdateByIdKeepsKey(admins, AdminId, id, change, AdminUsername);
        UpdateByIdKeeps(admins, AdminId, id, change, AdminUserModel.Valid);
      }
      admins := UpdateById(admins, AdminId, id, change);
    }
  }
}
