/** The résumé records the layout reads (src/resume.rs), as already-parsed values.
    Only the fields the layout uses are kept. */
module Resume {
  import opened Wrappers

  /** A calendar date as a day number: later dates are larger. */
  type Date = int

  datatype Location = Location(city: Option<string>, countryCode: Option<string>)

  datatype Profile = Profile(network: string, username: string, url: string)

  datatype Basics = Basics(
    name: string,
    headline: string,  // the source's `label`; `label` is a reserved word in Dafny
    picture: Option<string>,
    email: string,
    phone: Option<string>,
    website: Option<string>,
    location: Option<Location>,
    birthday: Option<Date>,
    profiles: seq<Profile>)

  datatype Work = Work(
    company: string,
    position: string,
    website: Option<string>,
    startDate: Date,
    endDate: Option<Date>,
    summary: string,
    highlights: seq<string>)

  datatype Education = Education(
    institution: string,
    area: string,
    studyType: string,
    startDate: Date,
    endDate: Option<Date>,
    gpa: Option<string>,
    courses: seq<string>)

  datatype Skill = Skill(name: string, level: Option<string>, keywords: seq<string>)

  datatype Language = Language(language: string, fluency: Option<string>)

  datatype Resume = Resume(
    basics: Basics,
    work: seq<Work>,
    education: seq<Education>,
    skills: seq<Skill>,
    languages: seq<Language>)
}
