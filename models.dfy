/**
 * The content records of the portfolio (projects, skills, certificates,
 * contact messages, admin users), their creation models with defaults, and
 * the all-optional update models with the partial update both backends apply.
 *
 * Timestamps are integers (seconds); uuid generation and the clock are
 * parameters (`id`, `now`) of the constructors.
 */
module Models {
  import opened Wrappers

  // ---------------------------------------------------------------------------
  // Stored records
  // ---------------------------------------------------------------------------

  datatype Project = Project(
    id: string,
    title: string,
    tagline: string,
    description: string,
    longDescription: Option<string>,
    tech: seq<string>,
    features: seq<string>,
    demoUrl: Option<string>,
    githubUrl: Option<string>,
    imageUrl: Option<string>,
    videoUrl: Option<string>,
    year: int,
    category: string,
    status: string,
    featured: bool,
    visible: bool,
    createdAt: int,
    updatedAt: int)

  datatype Skill = Skill(
    id: string,
    name: string,
    category: string,
    level: int,
    icon: Option<string>,
    yearsOfExperience: Option<real>,
    projects: seq<string>,
    order: int,
    visible: bool,
    createdAt: int)

  datatype Certificate = Certificate(
    id: string,
    name: string,
    issuer: string,
    date: string,
    description: Option<string>,
    credentialId: Option<string>,
    verifyUrl: Option<string>,
    imageUrl: Option<string>,
    status: string,
    category: Option<string>,
    priority: int,
    visible: bool,
    createdAt: int)

  datatype Message = Message(
    id: string,
    name: string,
    email: string,
    subject: Option<string>,
    message: string,
    status: string,
    createdAt: int,
    ip: Option<string>,
    userAgent: Option<string>)

  datatype AdminUser = AdminUser(
    id: string,
    username: string,
    email: string,
    passwordHash: string,
    role: string,
    lastLogin: Option<int>,
    createdAt: int)

  /** The login response model. */
  datatype Token = Token(access_token: string, token_type: string, username: string, role: string)

  /** Accessors used as query keys. */
  function ProjectId(p: Project): string { p.id }
  function SkillId(s: Skill): string { s.id }
  function CertificateId(c: Certificate): string { c.id }
  function MessageId(m: Message): string { m.id }
  function AdminId(a: AdminUser): string { a.id }

  // ---------------------------------------------------------------------------
  // Defaults
  // ---------------------------------------------------------------------------

  const DefaultProjectCategory := "web"
  const DefaultProjectStatus := "completed"
  const DefaultSkillLevel := 50
  const DefaultCertificateStatus := "active"
  const UnreadStatus := "unread"
  const DefaultRole := "admin"
  const BearerTokenType := "bearer"

  // ---------------------------------------------------------------------------
  // Creation models: a field left out of the request is `None` and takes the
  // model's default.
  // ---------------------------------------------------------------------------

  datatype ProjectCreate = ProjectCreate(
    title: string,
    tagline: string,
    description: string,
    longDescription: Option<string>,
    tech: Option<seq<string>>,
    features: Option<seq<string>>,
    demoUrl: Option<string>,
    githubUrl: Option<string>,
    imageUrl: Option<string>,
    videoUrl: Option<string>,
    year: int,
    category: Option<string>,
    status: Option<string>,
    featured: Option<bool>,
    visible: Option<bool>)

  datatype SkillCreate = SkillCreate(
    name: string,
    category: string,
    level: Option<int>,
    icon: Option<string>,
    yearsOfExperience: Option<real>,
    projects: Option<seq<string>>,
    order: Option<int>,
    visible: Option<bool>)

  datatype CertificateCreate = CertificateCreate(
    name: string,
    issuer: string,
    date: string,
    description: Option<string>,
    credentialId: Option<string>,
    verifyUrl: Option<string>,
    imageUrl: Option<string>,
    status: Option<string>,
    category: Option<string>,
    priority: Option<int>,
    visible: Option<bool>)

  datatype MessageCreate = MessageCreate(name: string, email: string, subject: Option<string>, message: string)

  /** `Project(**project_data.model_dump())` with a fresh id and clock reading. */
  function NewProject(c: ProjectCreate, id: string, now: int): (p: Project)
    ensures p.id == id && p.createdAt == now && p.updatedAt == now
    ensures p.title == c.title && p.tagline == c.tagline && p.description == c.description && p.year == c.year
    ensures c.category.None? ==> p.category == "web"
    ensures c.status.None? ==> p.status == "completed"
    ensures c.featured.None? ==> !p.featured
    ensures c.visible.None? ==> p.visible
    ensures c.tech.None? ==> p.tech == []
    ensures c.features.None? ==> p.features == []
  {
    Project(id, c.title, c.tagline, c.description, c.longDescription,
            c.tech.GetOr([]), c.features.GetOr([]),
            c.demoUrl, c.githubUrl, c.imageUrl, c.videoUrl, c.year,
            c.category.GetOr(DefaultProjectCategory), c.status.GetOr(DefaultProjectStatus),
            c.featured.GetOr(false), c.visible.GetOr(true), now, now)
  }

  /** `Skill(**skill_data.model_dump())`: no range check on `level` here. */
  function NewSkill(c: SkillCreate, id: string, now: int): (s: Skill)
    ensures s.id == id && s.createdAt == now && s.name == c.name && s.category == c.category
    ensures c.level.None? ==> s.level == 50
    ensures c.level.Some? ==> s.level == c.level.value
    ensures c.order.None? ==> s.order == 0
    ensures c.visible.None? ==> s.visible
    ensures c.projects.None? ==> s.projects == []
  {
    Skill(id, c.name, c.category, c.level.GetOr(DefaultSkillLevel), c.icon, c.yearsOfExperience,
          c.projects.GetOr([]), c.order.GetOr(0), c.visible.GetOr(true), now)
  }

  function NewCertificate(c: CertificateCreate, id: string, now: int): (r: Certificate)
    ensures r.id == id && r.createdAt == now && r.name == c.name && r.issuer == c.issuer && r.date == c.date
    ensures c.status.None? ==> r.status == "active"
    ensures c.priority.None? ==> r.priority == 0
    ensures c.visible.None? ==> r.visible
  {
    Certificate(id, c.name, c.issuer, c.date, c.description, c.credentialId, c.verifyUrl,
                c.imageUrl, c.status.GetOr(DefaultCertificateStatus), c.category,
                c.priority.GetOr(0), c.visible.GetOr(true), now)
  }

  /** `Message(**message_data.model_dump(), status="unread", ip=..., userAgent=...)`. */
  function NewMessage(c: MessageCreate, id: string, now: int, ip: Option<string>, userAgent: Option<string>): (m: Message)
    ensures m.id == id && m.status == "unread" && m.createdAt == now
    ensures m.name == c.name && m.email == c.email && m.subject == c.subject && m.message == c.message
    ensures m.ip == ip && m.userAgent == userAgent
  {
    Message(id, c.name, c.email, c.subject, c.message, UnreadStatus, now, ip, userAgent)
  }

  /** `AdminUser(...)` with the model defaults: role admin, never logged in. */
  function NewAdminUser(id: string, username: string, email: string, passwordHash: string,
                        role: Option<string>, now: int): (a: AdminUser)
    ensures a.id == id && a.username == username && a.passwordHash == passwordHash
    ensures role.None? ==> a.role == "admin"
    ensures a.lastLogin.None?
  {
    AdminUser(id, username, email, passwordHash, role.GetOr(DefaultRole), None, now)
  }

  /** `Token(access_token=..., username=..., role=...)`. */
  function NewToken(accessToken: string, username: string, role: string): (t: Token)
    ensures t.token_type == "bearer"
    ensures t.access_token == accessToken && t.username == username && t.role == role
  {
    Token(accessToken, BearerTokenType, username, role)
  }

  // ---------------------------------------------------------------------------
  // Update models: every field optional, `None` meaning "leave as is"
  // ---------------------------------------------------------------------------

  datatype ProjectUpdate = ProjectUpdate(
    title: Option<string>,
    tagline: Option<string>,
    description: Option<string>,
    longDescription: Option<string>,
    tech: Option<seq<string>>,
    features: Option<seq<string>>,
    demoUrl: Option<string>,
    githubUrl: Option<string>,
    imageUrl: Option<string>,
    videoUrl: Option<string>,
    year: Option<int>,
    category: Option<string>,
    status: Option<string>,
    featured: Option<bool>,
    visible: Option<bool>)

  datatype SkillUpdate = SkillUpdate(
    name: Option<string>,
    category: Option<string>,
    level: Option<int>,
    icon: Option<string>,
    yearsOfExperience: Option<real>,
    projects: Option<seq<string>>,
    order: Option<int>,
    visible: Option<bool>)

  datatype CertificateUpdate = CertificateUpdate(
    name: Option<string>,
    issuer: Option<string>,
    date: Option<string>,
    description: Option<string>,
    credentialId: Option<string>,
    verifyUrl: Option<string>,
    imageUrl: Option<string>,
    status: Option<string>,
    category: Option<string>,
    priority: Option<int>,
    visible: Option<bool>)

  /** The update in which every field is left at its default `None`. */
  const EmptyProjectUpdate := ProjectUpdate(None, None, None, None, None, None, None, None, None, None, None, None, None, None, None)
  const EmptySkillUpdate := SkillUpdate(None, None, None, None, None, None, None, None)
  const EmptyCertificateUpdate := CertificateUpdate(None, None, None, None, None, None, None, None, None, None, None)

  /** A `$set` of one optional-valued field: only a present value is written. */
  function SetIfPresent<T>(patch: Option<T>, current: Option<T>): Option<T> {
    if patch.Some? then patch else current
  }

  /** `{k: v for k, v in update.model_dump().items() if v is not None}` applied
      with `$set`: each present field overwrites, every other field is kept. */
  function ApplyProjectUpdate(p: Project, u: ProjectUpdate): Project {
    p.(title := u.title.GetOr(p.title),
       tagline := u.tagline.GetOr(p.tagline),
       description := u.description.GetOr(p.description),
       longDescription := SetIfPresent(u.longDescription, p.longDescription),
       tech := u.tech.GetOr(p.tech),
       features := u.features.GetOr(p.features),
       demoUrl := SetIfPresent(u.demoUrl, p.demoUrl),
       githubUrl := SetIfPresent(u.githubUrl, p.githubUrl),
       imageUrl := SetIfPresent(u.imageUrl, p.imageUrl),
       videoUrl := SetIfPresent(u.videoUrl, p.videoUrl),
       year := u.year.GetOr(p.year),
       category := u.category.GetOr(p.category),
       status := u.status.GetOr(p.status),
       featured := u.featured.GetOr(p.featured),
       visible := u.visible.GetOr(p.visible))
  }

  function ApplySkillUpdate(s: Skill, u: SkillUpdate): Skill {
    s.(name := u.name.GetOr(s.name),
       category := u.category.GetOr(s.category),
       level := u.level.GetOr(s.level),
       icon := SetIfPresent(u.icon, s.icon),
       yearsOfExperience := SetIfPresent(u.yearsOfExperience, s.yearsOfExperience),
       projects := u.projects.GetOr(s.projects),
       order := u.order.GetOr(s.order),
       visible := u.visible.GetOr(s.visible))
  }

  function ApplyCertificateUpdate(c: Certificate, u: CertificateUpdate): Certificate {
    c.(name := u.name.GetOr(c.name),
       issuer := u.issuer.GetOr(c.issuer),
       date := u.date.GetOr(c.date),
       description := SetIfPresent(u.description, c.description),
       credentialId := SetIfPresent(u.credentialId, c.credentialId),
       verifyUrl := SetIfPresent(u.verifyUrl, c.verifyUrl),
       imageUrl := SetIfPresent(u.imageUrl, c.imageUrl),
       status := u.status.GetOr(c.status),
       category := SetIfPresent(u.category, c.category),
       priority := u.priority.GetOr(c.priority),
       visible := u.visible.GetOr(c.visible))
  }

  /** A partial project update writes exactly the present fields: each present
      field takes the new value, each absent one keeps the stored value, and
      the id and timestamps are never touched by it. */
  lemma ProjectUpdateSpec(p: Project, u: ProjectUpdate)
    ensures var r := ApplyProjectUpdate(p, u);
      && r.id == p.id && r.createdAt == p.createdAt && r.updatedAt == p.updatedAt
      && (if u.title.Some? then r.title == u.title.value else r.title == p.title)
      && (if u.tagline.Some? then r.tagline == u.tagline.value else r.tagline == p.tagline)
      && (if u.description.Some? then r.description == u.description.value else r.description == p.description)
      && (if u.longDescription.Some? then r.longDescription == u.longDescription else r.longDescription == p.longDescription)
      && (if u.tech.Some? then r.tech == u.tech.value else r.tech == p.tech)
      && (if u.features.Some? then r.features == u.features.value else r.features == p.features)
      && (if u.demoUrl.Some? then r.demoUrl == u.demoUrl else r.demoUrl == p.demoUrl)
      && (if u.githubUrl.Some? then r.githubUrl == u.githubUrl else r.githubUrl == p.githubUrl)
      && (if u.imageUrl.Some? then r.imageUrl == u.imageUrl else r.imageUrl == p.imageUrl)
      && (if u.videoUrl.Some? then r.videoUrl == u.videoUrl else r.videoUrl == p.videoUrl)
      && (if u.year.Some? then r.year == u.year.value else r.year == p.year)
      && (if u.category.Some? then r.category == u.category.value else r.category == p.category)
      && (if u.status.Some? then r.status == u.status.value else r.status == p.status)
      && (if u.featured.Some? then r.featured == u.featured.value else r.featured == p.featured)
      && (if u.visible.Some? then r.visible == u.visible.value else r.visible == p.visible)
  {
  }

  /** A partial skill update writes exactly the present fields and keeps the
      id and creation time. */
  lemma SkillUpdateSpec(s: Skill, u: SkillUpdate)
    ensures var r := ApplySkillUpdate(s, u);
      && r.id == s.id && r.createdAt == s.createdAt
      && (if u.name.Some? then r.name == u.name.value else r.name == s.name)
      && (if u.category.Some? then r.category == u.category.value else r.category == s.category)
      && (if u.level.Some? then r.level == u.level.value else r.level == s.level)
      && (if u.icon.Some? then r.icon == u.icon else r.icon == s.icon)
      && (if u.yearsOfExperience.Some? then r.yearsOfExperience == u.yearsOfExperience
          else r.yearsOfExperience == s.yearsOfExperience)
      && (if u.projects.Some? then r.projects == u.projects.value else r.projects == s.projects)
      && (if u.order.Some? then r.order == u.order.value else r.order == s.order)
      && (if u.visible.Some? then r.visible == u.visible.value else r.visible == s.visible)
  {
  }

  /** A partial certificate update writes exactly the present fields and keeps
      the id and creation time. */
  lemma CertificateUpdateSpec(c: Certificate, u: CertificateUpdate)
    ensures var r := ApplyCertificateUpdate(c, u);
      && r.id == c.id && r.createdAt == c.createdAt
      && (if u.name.Some? then r.name == u.name.value else r.name == c.name)
      && (if u.issuer.Some? then r.issuer == u.issuer.value else r.issuer == c.issuer)
      && (if u.date.Some? then r.date == u.date.value else r.date == c.date)
      && (if u.description.Some? then r.description == u.description else r.description == c.description)
      && (if u.credentialId.Some? then r.credentialId == u.credentialId else r.credentialId == c.credentialId)
      && (if u.verifyUrl.Some? then r.verifyUrl == u.verifyUrl else r.verifyUrl == c.verifyUrl)
      && (if u.imageUrl.Some? then r.imageUrl == u.imageUrl else r.imageUrl == c.imageUrl)
      && (if u.status.Some? then r.status == u.status.value else r.status == c.status)
      && (if u.category.Some? then r.category == u.category else r.category == c.category)
      && (if u.priority.Some? then r.priority == u.priority.value else r.priority == c.priority)
      && (if u.visible.Some? then r.visible == u.visible.value else r.visible == c.visible)
  {
  }

  /** A project update is idempotent, and the all-`None` update changes
      nothing. */
  lemma ProjectUpdateIdempotent(p: Project, u: ProjectUpdate)
    ensures ApplyProjectUpdate(ApplyProjectUpdate(p, u), u) == ApplyProjectUpdate(p, u)
    ensures ApplyProjectUpdate(p, EmptyProjectUpdate) == p
  {
  }

  /** A skill update is idempotent, and the all-`None` update changes
      nothing. */
  lemma SkillUpdateIdempotent(s: Skill, u: SkillUpdate)
    ensures ApplySkillUpdate(ApplySkillUpdate(s, u), u) == ApplySkillUpdate(s, u)
    ensures ApplySkillUpdate(s, EmptySkillUpdate) == s
  {
  }

  /** A certificate update is idempotent, and the all-`None` update changes
      nothing. */
  lemma CertificateUpdateIdempotent(c: Certificate, u: CertificateUpdate)
    ensures ApplyCertificateUpdate(ApplyCertificateUpdate(c, u), u) == ApplyCertificateUpdate(c, u)
    ensures ApplyCertificateUpdate(c, EmptyCertificateUpdate) == c
  {
  }

  /** A later partial update wins over an earlier one field by field: applying
      `u1` then `u2` is applying their merge once. */
  function MergeSkillUpdates(u1: SkillUpdate, u2: SkillUpdate): SkillUpdate {
    SkillUpdate(SetIfPresent(u2.name, u1.name), SetIfPresent(u2.category, u1.category),
                SetIfPresent(u2.level, u1.level), SetIfPresent(u2.icon, u1.icon),
                SetIfPresent(u2.yearsOfExperience, u1.yearsOfExperience),
                SetIfPresent(u2.projects, u1.projects), SetIfPresent(u2.order, u1.order),
                SetIfPresent(u2.visible, u1.visible))
  }

  lemma SkillUpdatesCompose(s: Skill, u1: SkillUpdate, u2: SkillUpdate)
    ensures ApplySkillUpdate(ApplySkillUpdate(s, u1), u2) == ApplySkillUpdate(s, MergeSkillUpdates(u1, u2))
  {
  }
}
