/**
 * The Mongoose `Project` schema: required fields, the category and status
 * enums, defaults, trimmed strings, and the pre-save hook that stamps
 * `updatedAt`.
 */
module ProjectSchema {
  import opened Wrappers
  import opened Text
  import opened Models
  import opened SchemaTypes

  const Categories: set<string> := {"web", "mobile", "ai", "desktop", "other"}
  const Statuses: set<string> := {"completed", "in-progress", "planned"}

  /** What every project saved through the schema satisfies. */
  predicate Valid(p: Project) {
    && RequiredText(p.title) && RequiredText(p.tagline) && RequiredText(p.description)
    && TrimmedOpt(p.longDescription) && AllTrimmed(p.tech) && AllTrimmed(p.features)
    && TrimmedOpt(p.demoUrl) && TrimmedOpt(p.githubUrl)
    && TrimmedOpt(p.imageUrl) && TrimmedOpt(p.videoUrl)
    && p.category in Categories && p.status in Statuses
  }

  /** The request bodies `new Project(body).save()` accepts: the four required
      paths present (strings not blank once trimmed) and the enums respected
      after defaulting. Fields are as in `ProjectUpdate`: any may be absent. */
  predicate Acceptable(body: ProjectUpdate) {
    && RequiredPresent(body.title) && RequiredPresent(body.tagline)
    && RequiredPresent(body.description) && body.year.Some?
    && body.category.GetOr(DefaultProjectCategory) in Categories
    && body.status.GetOr(DefaultProjectStatus) in Statuses
  }

  /** The pre-save hook: every save stamps `updatedAt` with the current time. */
  function PreSave(p: Project, now: int): (r: Project)
    ensures r.updatedAt == now
    ensures r.(updatedAt := p.updatedAt) == p
  {
    p.(updatedAt := now)
  }

  /** `new Project(body)` with a fresh uuid, then `save()`: validation, then
      the pre-save hook. */
  function Create(body: ProjectUpdate, id: string, now: int): (r: Result<Project, ValidationError>)
    ensures r.Ok? <==> Acceptable(body)
    ensures r.Ok? ==> Valid(r.value)
    ensures r.Ok? ==> r.value.id == id && r.value.createdAt == now && r.value.updatedAt == now
  {
    if !RequiredPresent(body.title) then Err(ValidationError("title"))
    else if !RequiredPresent(body.tagline) then Err(ValidationError("tagline"))
    else if !RequiredPresent(body.description) then Err(ValidationError("description"))
    else if body.year.None? then Err(ValidationError("year"))
    else if body.category.GetOr(DefaultProjectCategory) !in Categories then Err(ValidationError("category"))
    else if body.status.GetOr(DefaultProjectStatus) !in Statuses then Err(ValidationError("status"))
    else
      var p := Project(id, Trim(body.title.value), Trim(body.tagline.value), Trim(body.description.value),
                       TrimOpt(body.longDescription), TrimAll(body.tech.GetOr([])), TrimAll(body.features.GetOr([])),
                       TrimOpt(body.demoUrl), TrimOpt(body.githubUrl), TrimOpt(body.imageUrl), TrimOpt(body.videoUrl),
                       body.year.value,
                       body.category.GetOr(DefaultProjectCategory), body.status.GetOr(DefaultProjectStatus),
                       body.featured.GetOr(false), body.visible.GetOr(true), now, now);
      Ok(PreSave(p, now))
  }

  /** A body that leaves the defaulted paths out gets category `web`, status
      `completed`, not featured, visible, and empty lists. */
  lemma CreateDefaults(body: ProjectUpdate, id: string, now: int)
    requires Acceptable(body)
    requires body.category.None? && body.status.None? && body.featured.None? && body.visible.None?
    requires body.tech.None? && body.features.None?
    ensures Create(body, id, now).Ok?
    ensures var p := Create(body, id, now).value;
      p.category == "web" && p.status == "completed" && !p.featured && p.visible
      && p.tech == [] && p.features == []
  {
  }

  /** The paths of an update that `runValidators` accepts: enums respected and
      required paths not blanked. Absent paths are not checked. */
  predicate UpdateAcceptable(u: ProjectUpdate) {
    && RequiredIfPresent(u.title) && RequiredIfPresent(u.tagline) && RequiredIfPresent(u.description)
    && (u.category.Some? ==> u.category.value in Categories)
    && (u.status.Some? ==> u.status.value in Statuses)
  }

  /** Casting an update through the schema: setters trim the present string
      paths, then the update validators run. */
  function CastUpdate(u: ProjectUpdate): (r: Result<ProjectUpdate, ValidationError>)
    ensures r.Ok? <==> UpdateAcceptable(u)
  {
    if !UpdateAcceptable(u) then Err(ValidationError("update"))
    else
      Ok(u.(title := TrimOpt(u.title), tagline := TrimOpt(u.tagline), description := TrimOpt(u.description),
            longDescription := TrimOpt(u.longDescription),
            tech := TrimAllOpt(u.tech), features := TrimAllOpt(u.features),
            demoUrl := TrimOpt(u.demoUrl), githubUrl := TrimOpt(u.githubUrl),
            imageUrl := TrimOpt(u.imageUrl), videoUrl := TrimOpt(u.videoUrl)))
  }

  /** An accepted update keeps a valid project valid. */
  lemma UpdateKeepsValid(p: Project, u: ProjectUpdate)
    requires Valid(p) && UpdateAcceptable(u)
    ensures Valid(ApplyProjectUpdate(p, CastUpdate(u).value))
  {
  }
}
