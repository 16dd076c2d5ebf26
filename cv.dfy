/** The records a CV is made of. Optional properties are `Option`s; every
    other property is a plain string, a skill's level an integer. */
module Cv {
  import opened Wrappers

  datatype PersonalInfo = PersonalInfo(
    fullName: string,
    email: string,
    phone: string,
    address: string,
    linkedin: Option<string>,
    website: Option<string>,
    summary: string)

  datatype Education = Education(
    id: string,
    institution: string,
    degree: string,
    fieldOfStudy: string,
    startDate: string,
    endDate: string,
    description: string)

  datatype Experience = Experience(
    id: string,
    company: string,
    position: string,
    location: string,
    startDate: string,
    endDate: string,
    description: string)

  /** A skill; the editor offers levels 1 to 5. */
  datatype Skill = Skill(id: string, name: string, level: int)

  datatype CV = CV(
    id: string,
    title: string,
    lastModified: string,
    personalInfo: PersonalInfo,
    education: seq<Education>,
    experience: seq<Experience>,
    skills: seq<Skill>)

  function CvId(cv: CV): string { cv.id }
  function EducationId(e: Education): string { e.id }
  function ExperienceId(e: Experience): string { e.id }
  function SkillId(s: Skill): string { s.id }
}
