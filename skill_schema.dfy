/**
 * The Mongoose `Skill` schema: a required trimmed name, a required category
 * from a fixed list, a level bounded to 0..100 (default 50), a non-negative
 * years-of-experience when given, and defaults for order and visibility.
 */
module SkillSchema {
  import opened Wrappers
  import opened Text
  import opened Models
  import opened SchemaTypes

  const Categories: set<string> := {"Programming", "Frontend", "Backend", "Database", "Tools", "Other"}
  const MinLevel := 0
  const MaxLevel := 100

  predicate LevelInRange(level: int) {
    MinLevel <= level <= MaxLevel
  }

  predicate ExperienceOk(years: Option<real>) {
    years.Some? ==> years.value >= 0.0
  }

  /** What every skill saved through the schema satisfies. */
  predicate Valid(s: Skill) {
    && RequiredText(s.name) && s.category in Categories
    && LevelInRange(s.level) && ExperienceOk(s.yearsOfExperience)
    && TrimmedOpt(s.icon) && AllTrimmed(s.projects)
  }

  /** The request bodies `new Skill(body).save()` accepts. */
  predicate Acceptable(body: SkillUpdate) {
    && RequiredPresent(body.name)
    && body.category.Some? && body.category.value in Categories
    && LevelInRange(body.level.GetOr(DefaultSkillLevel))
    && ExperienceOk(body.yearsOfExperience)
  }

  /** `new Skill(body)` with a fresh uuid, then `save()`'s validation. */
  function Create(body: SkillUpdate, id: string, now: int): (r: Result<Skill, ValidationError>)
    ensures r.Ok? <==> Acceptable(body)
    ensures r.Ok? ==> Valid(r.value) && r.value.id == id && r.value.createdAt == now
    ensures r.Ok? && body.level.None? ==> r.value.level == 50
    ensures r.Ok? && body.order.None? ==> r.value.order == 0
    ensures r.Ok? && body.visible.None? ==> r.value.visible
  {
    if !RequiredPresent(body.name) then Err(ValidationError("name"))
    else if body.category.None? || body.category.value !in Categories then Err(ValidationError("category"))
    else if !LevelInRange(body.level.GetOr(DefaultSkillLevel)) then Err(ValidationError("level"))
    else if !ExperienceOk(body.yearsOfExperience) then Err(ValidationError("yearsOfExperience"))
    else
      Ok(Skill(id, Trim(body.name.value), body.category.value, body.level.GetOr(DefaultSkillLevel),
               TrimOpt(body.icon), body.yearsOfExperience, TrimAll(body.projects.GetOr([])),
               body.order.GetOr(0), body.visible.GetOr(true), now))
  }

  /** The paths of an update that `runValidators` accepts. */
  predicate UpdateAcceptable(u: SkillUpdate) {
    && RequiredIfPresent(u.name)
    && (u.category.Some? ==> u.category.value in Categories)
    && (u.level.Some? ==> LevelInRange(u.level.value))
    && ExperienceOk(u.yearsOfExperience)
  }

  /** Casting an update: trim setters, then the update validators. */
  function CastUpdate(u: SkillUpdate): (r: Result<SkillUpdate, ValidationError>)
    ensures r.Ok? <==> UpdateAcceptable(u)
  {
    if !UpdateAcceptable(u) then Err(ValidationError("update"))
    else Ok(u.(name := TrimOpt(u.name), icon := TrimOpt(u.icon), projects := TrimAllOpt(u.projects)))
  }

  /** An accepted update keeps a valid skill valid: in particular the level
      stays within 0..100. */
  lemma UpdateKeepsValid(s: Skill, u: SkillUpdate)
    requires Valid(s) && UpdateAcceptable(u)
    ensures Valid(ApplySkillUpdate(s, CastUpdate(u).value))
  {
  }
}
