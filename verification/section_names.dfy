/**
 * The section-name normaliser of src/resume_parser.py: a heading is matched
 * against families of terms in a fixed order, and the first family with a
 * hit gives the canonical name.
 */
module SectionNames {
  import opened Wrappers
  import opened Text

  // ---------------------------------------------------------------------
  // Section names
  // ---------------------------------------------------------------------

  /** The families of section headings `normalize_section_name` recognises. */
  datatype SectionKind =
    | Summary | Experience | Education | Skills | Projects
    | Certifications | Awards | Publications | Volunteer

  /** The order in which the families are tested: the first family with a hit decides. */
  const TestOrder: seq<SectionKind> :=
    [Summary, Experience, Education, Skills, Projects, Certifications, Awards, Publications, Volunteer]

  /** The lower-case terms whose occurrence puts a heading in the family. */
  function Terms(k: SectionKind): seq<string> {
    match k
    case Summary => ["summary", "profile", "objective", "about"]
    case Experience => ["experience", "employment", "work history"]
    case Education => ["education", "academic"]
    case Skills => ["skill", "competenc", "expertise", "proficien"]
    case Projects => ["project", "portfolio"]
    case Certifications => ["certif", "license", "credential"]
    case Awards => ["award", "honor", "achievement", "recognition"]
    case Publications => ["publication", "research", "paper"]
    case Volunteer => ["volunteer", "community"]
  }

  /** The heading a family is renamed to. */
  function CanonicalName(k: SectionKind): string {
    match k
    case Summary => "Professional Summary"
    case Experience => "Experience"
    case Education => "Education"
    case Skills => "Skills"
    case Projects => "Projects"
    case Certifications => "Certifications"
    case Awards => "Awards"
    case Publications => "Publications"
    case Volunteer => "Volunteer Experience"
  }

  /** The position in `kinds` of the first family with a term in `lowered`, if any. */
  function FirstHit(lowered: string, kinds: seq<SectionKind>): (r: Option<nat>)
    ensures r.Some? ==> r.value < |kinds| && ContainsAny(lowered, Terms(kinds[r.value]))
    ensures r.Some? ==> forall j :: 0 <= j < r.value ==> !ContainsAny(lowered, Terms(kinds[j]))
    ensures r.None? <==> forall j :: 0 <= j < |kinds| ==> !ContainsAny(lowered, Terms(kinds[j]))
    decreases |kinds|
  {
    if kinds == [] then None
    else if ContainsAny(lowered, Terms(kinds[0])) then Some(0)
    else
      match FirstHit(lowered, kinds[1..])
      case None => None
      case Some(i) => assert kinds[1..][i] == kinds[i + 1]; Some(i + 1)
  }

  /** `normalize_section_name`: the canonical name of the first family found in the lower-cased name, else `name.title()`. */
  function NormalizeSectionName(name: string): (r: string)
    ensures (exists k :: r == CanonicalName(k)) || r == Title(name)
  {
    match FirstHit(Lower(name), TestOrder)
    case Some(i) => CanonicalName(TestOrder[i])
    case None => Title(name)
  }

  /** The family at position i of the test order decides when it has a hit and no earlier family has one. */
  lemma FirstHitWins(name: string, i: nat)
    requires i < |TestOrder|
    requires ContainsAny(Lower(name), Terms(TestOrder[i]))
    requires forall j :: 0 <= j < i ==> !ContainsAny(Lower(name), Terms(TestOrder[j]))
    ensures NormalizeSectionName(name) == CanonicalName(TestOrder[i])
  {
    assert forall k :: k in TestOrder[..i] ==> exists j :: 0 <= j < i && k == TestOrder[j];
    FirstHitAt(Lower(name), TestOrder, i);
  }

  /** The same over any list of families, with the earlier families given as a prefix. */
  lemma FirstHitAt(lowered: string, kinds: seq<SectionKind>, i: nat)
    requires i < |kinds| && ContainsAny(lowered, Terms(kinds[i]))
    requires forall k :: k in kinds[..i] ==> !ContainsAny(lowered, Terms(k))
    ensures FirstHit(lowered, kinds) == Some(i)
  {
    assert forall j :: 0 <= j < i ==> kinds[j] in kinds[..i];
  }

  /** A name with no term of any family is only title-cased. */
  lemma NoHitIsTitled(name: string)
    requires forall k :: !ContainsAny(Lower(name), Terms(k))
    ensures NormalizeSectionName(name) == Title(name)
  {
  }

  /** Every canonical name normalises to itself, except that "Volunteer Experience" is caught by the experience test first. */
  lemma CanonicalNamesAreFixed()
    ensures forall k :: NormalizeSectionName(CanonicalName(k)) == CanonicalName(if k == Volunteer then Experience else k)
  {
    forall k
      ensures NormalizeSectionName(CanonicalName(k)) == CanonicalName(if k == Volunteer then Experience else k)
    {
      match k
      case Summary => ProfessionalSummaryNormalized(CanonicalName(k));
      case Experience => ExperienceNormalized(CanonicalName(k));
      case Education => EducationNormalized(CanonicalName(k));
      case Skills => SkillsNormalized(CanonicalName(k));
      case Projects => ProjectsNormalized(CanonicalName(k));
      case Certifications => CertificationsNormalized(CanonicalName(k));
      case Awards => AwardsNormalized(CanonicalName(k));
      case Publications => PublicationsNormalized(CanonicalName(k));
      case Volunteer => VolunteerExperienceNormalized(CanonicalName(k));
    }
  }

  /** "Professional Summary" has a term of Summary ("summary"). */
  lemma ProfessionalSummaryNormalized(name: string)
    requires name == "Professional Summary"
    ensures NormalizeSectionName(name) == CanonicalName(Summary)
  {
    ProfessionalSummaryLowered(name);
    var l := Lower(name);
    ProfessionalSummaryHitsSummary(l);
    ProfessionalSummaryFirstHit(l);
  }

  lemma ProfessionalSummaryLowered(name: string)
    requires name == "Professional Summary"
    ensures Lower(name) == "professional summary"
  {
  }

  lemma ProfessionalSummaryHitsSummary(l: string)
    requires l == "professional summary"
    ensures ContainsAny(l, Terms(Summary))
  {
    assert OccursFrom(l, "summary", 13);
    OccursEarlier(l, "summary", 0, 13);
    SomeOccurs(l, Terms(Summary), 0);
  }

  lemma ProfessionalSummaryFirstHit(lowered: string)
    requires ContainsAny(lowered, Terms(Summary))
    ensures FirstHit(lowered, TestOrder) == Some(0)
  {
    assert TestOrder[..0] == [];
    FirstHitAt(lowered, TestOrder, 0);
  }

  /** "Experience" has a term of Experience ("experience") and none of Summary. */
  lemma ExperienceNormalized(name: string)
    requires name == "Experience"
    ensures NormalizeSectionName(name) == CanonicalName(Experience)
  {
    ExperienceLowered(name);
    var l := Lower(name);
    ExperienceLacksSummary(l);
    ExperienceHitsExperience(l);
    ExperienceFirstHit(l);
  }

  lemma ExperienceLacksSummary(l: string)
    requires l == "experience"
    ensures !ContainsAny(l, Terms(Summary))
  {
    LacksAll(l, Terms(Summary), [0, 2, 0, 0]);
  }

  lemma ExperienceLowered(name: string)
    requires name == "Experience"
    ensures Lower(name) == "experience"
  {
  }

  lemma ExperienceHitsExperience(l: string)
    requires l == "experience"
    ensures ContainsAny(l, Terms(Experience))
  {
    assert OccursFrom(l, "experience", 0);
    SomeOccurs(l, Terms(Experience), 0);
  }

  lemma ExperienceFirstHit(lowered: string)
    requires !ContainsAny(lowered, Terms(Summary))
    requires ContainsAny(lowered, Terms(Experience))
    ensures FirstHit(lowered, TestOrder) == Some(1)
  {
    assert TestOrder[..1] == [Summary];
    FirstHitAt(lowered, TestOrder, 1);
  }

  /** "Education" has a term of Education ("education") and none of the 2 families tested before it. */
  lemma EducationNormalized(name: string)
    requires name == "Education"
    ensures NormalizeSectionName(name) == CanonicalName(Education)
  {
    EducationLowered(name);
    var l := Lower(name);
    EducationLacksSummary(l);
    EducationLacksExperience(l);
    EducationHitsEducation(l);
    EducationFirstHit(l);
  }

  lemma EducationLacksSummary(l: string)
    requires l == "education"
    ensures !ContainsAny(l, Terms(Summary))
  {
    LacksAll(l, Terms(Summary), [0, 0, 1, 1]);
  }

  lemma EducationLacksExperience(l: string)
    requires l == "education"
    ensures !ContainsAny(l, Terms(Experience))
  {
    LacksAll(l, Terms(Experience), [1, 1, 0]);
  }

  lemma EducationLowered(name: string)
    requires name == "Education"
    ensures Lower(name) == "education"
  {
  }

  lemma EducationHitsEducation(l: string)
    requires l == "education"
    ensures ContainsAny(l, Terms(Education))
  {
    assert OccursFrom(l, "education", 0);
    SomeOccurs(l, Terms(Education), 0);
  }

  lemma EducationFirstHit(lowered: string)
    requires !ContainsAny(lowered, Terms(Summary))
    requires !ContainsAny(lowered, Terms(Experience))
    requires ContainsAny(lowered, Terms(Education))
    ensures FirstHit(lowered, TestOrder) == Some(2)
  {
    assert TestOrder[..2] == [Summary, Experience];
    FirstHitAt(lowered, TestOrder, 2);
  }

  /** "Skills" has a term of Skills ("skill") and none of the 3 families tested before it. */
  lemma SkillsNormalized(name: string)
    requires name == "Skills"
    ensures NormalizeSectionName(name) == CanonicalName(Skills)
  {
    SkillsLowered(name);
    var l := Lower(name);
    SkillsLacksSummary(l);
    SkillsLacksExperience(l);
    SkillsLacksEducation(l);
    SkillsHitsSkills(l);
    SkillsFirstHit(l);
  }

  lemma SkillsLacksSummary(l: string)
    requires l == "skills"
    ensures !ContainsAny(l, Terms(Summary))
  {
    LacksAll(l, Terms(Summary), [1, 0, 0, 0]);
  }

  lemma SkillsLacksExperience(l: string)
    requires l == "skills"
    ensures !ContainsAny(l, Terms(Experience))
  {
    LacksAll(l, Terms(Experience), [0, 0, 0]);
  }

  lemma SkillsLacksEducation(l: string)
    requires l == "skills"
    ensures !ContainsAny(l, Terms(Education))
  {
    LacksAll(l, Terms(Education), [0, 0]);
  }

  lemma SkillsLowered(name: string)
    requires name == "Skills"
    ensures Lower(name) == "skills"
  {
  }

  lemma SkillsHitsSkills(l: string)
    requires l == "skills"
    ensures ContainsAny(l, Terms(Skills))
  {
    assert OccursFrom(l, "skill", 0);
    SomeOccurs(l, Terms(Skills), 0);
  }

  lemma SkillsFirstHit(lowered: string)
    requires !ContainsAny(lowered, Terms(Summary))
    requires !ContainsAny(lowered, Terms(Experience))
    requires !ContainsAny(lowered, Terms(Education))
    requires ContainsAny(lowered, Terms(Skills))
    ensures FirstHit(lowered, TestOrder) == Some(3)
  {
    assert TestOrder[..3] == [Summary, Experience, Education];
    FirstHitAt(lowered, TestOrder, 3);
  }

  /** "Projects" has a term of Projects ("project") and none of the 4 families tested before it. */
  lemma ProjectsNormalized(name: string)
    requires name == "Projects"
    ensures NormalizeSectionName(name) == CanonicalName(Projects)
  {
    ProjectsLowered(name);
    var l := Lower(name);
    ProjectsLacksSummary(l);
    ProjectsLacksExperience(l);
    ProjectsLacksEducation(l);
    ProjectsLacksSkills(l);
    ProjectsHitsProjects(l);
    ProjectsFirstHit(l);
  }

  lemma ProjectsLacksSummary(l: string)
    requires l == "projects"
    ensures !ContainsAny(l, Terms(Summary))
  {
    LacksAll(l, Terms(Summary), [1, 3, 1, 0]);
  }

  lemma ProjectsLacksExperience(l: string)
    requires l == "projects"
    ensures !ContainsAny(l, Terms(Experience))
  {
    LacksAll(l, Terms(Experience), [1, 1, 0]);
  }

  lemma ProjectsLacksEducation(l: string)
    requires l == "projects"
    ensures !ContainsAny(l, Terms(Education))
  {
    LacksAll(l, Terms(Education), [1, 0]);
  }

  lemma ProjectsLacksSkills(l: string)
    requires l == "projects"
    ensures !ContainsAny(l, Terms(Skills))
  {
    LacksAll(l, Terms(Skills), [1, 2, 1, 3]);
  }

  lemma ProjectsLowered(name: string)
    requires name == "Projects"
    ensures Lower(name) == "projects"
  {
  }

  lemma ProjectsHitsProjects(l: string)
    requires l == "projects"
    ensures ContainsAny(l, Terms(Projects))
  {
    assert OccursFrom(l, "project", 0);
    SomeOccurs(l, Terms(Projects), 0);
  }

  lemma ProjectsFirstHit(lowered: string)
    requires !ContainsAny(lowered, Terms(Summary))
    requires !ContainsAny(lowered, Terms(Experience))
    requires !ContainsAny(lowered, Terms(Education))
    requires !ContainsAny(lowered, Terms(Skills))
    requires ContainsAny(lowered, Terms(Projects))
    ensures FirstHit(lowered, TestOrder) == Some(4)
  {
    assert TestOrder[..4] == [Summary, Experience, Education, Skills];
    FirstHitAt(lowered, TestOrder, 4);
  }

  /** "Certifications" has a term of Certifications ("certif") and none of the 5 families tested before it. */
  lemma CertificationsNormalized(name: string)
    requires name == "Certifications"
    ensures NormalizeSectionName(name) == CanonicalName(Certifications)
  {
    CertificationsLowered(name);
    var l := Lower(name);
    CertificationsLacksSummary(l);
    CertificationsLacksExperience(l);
    CertificationsLacksEducation(l);
    CertificationsLacksSkills(l);
    CertificationsLacksProjects(l);
    CertificationsHitsCertifications(l);
    CertificationsFirstHit(l);
  }

  lemma CertificationsLacksSummary(l: string)
    requires l == "certifications"
    ensures !ContainsAny(l, Terms(Summary))
  {
    LacksAll(l, Terms(Summary), [1, 0, 1, 1]);
  }

  lemma CertificationsLacksExperience(l: string)
    requires l == "certifications"
    ensures !ContainsAny(l, Terms(Experience))
  {
    LacksAll(l, Terms(Experience), [1, 1, 0]);
  }

  lemma CertificationsLacksEducation(l: string)
    requires l == "certifications"
    ensures !ContainsAny(l, Terms(Education))
  {
    LacksAll(l, Terms(Education), [1, 3]);
  }

  lemma CertificationsLacksSkills(l: string)
    requires l == "certifications"
    ensures !ContainsAny(l, Terms(Skills))
  {
    LacksAll(l, Terms(Skills), [1, 2, 1, 0]);
  }

  lemma CertificationsLacksProjects(l: string)
    requires l == "certifications"
    ensures !ContainsAny(l, Terms(Projects))
  {
    LacksAll(l, Terms(Projects), [0, 0]);
  }

  lemma CertificationsLowered(name: string)
    requires name == "Certifications"
    ensures Lower(name) == "certifications"
  {
  }

  lemma CertificationsHitsCertifications(l: string)
    requires l == "certifications"
    ensures ContainsAny(l, Terms(Certifications))
  {
    assert OccursFrom(l, "certif", 0);
    SomeOccurs(l, Terms(Certifications), 0);
  }

  lemma CertificationsFirstHit(lowered: string)
    requires !ContainsAny(lowered, Terms(Summary))
    requires !ContainsAny(lowered, Terms(Experience))
    requires !ContainsAny(lowered, Terms(Education))
    requires !ContainsAny(lowered, Terms(Skills))
    requires !ContainsAny(lowered, Terms(Projects))
    requires ContainsAny(lowered, Terms(Certifications))
    ensures FirstHit(lowered, TestOrder) == Some(5)
  {
    assert TestOrder[..5] == [Summary, Experience, Education, Skills, Projects];
    FirstHitAt(lowered, TestOrder, 5);
  }

  /** "Awards" has a term of Awards ("award") and none of the 6 families tested before it. */
  lemma AwardsNormalized(name: string)
    requires name == "Awards"
    ensures NormalizeSectionName(name) == CanonicalName(Awards)
  {
    AwardsLowered(name);
    var l := Lower(name);
    AwardsLacksSummary(l);
    AwardsLacksExperience(l);
    AwardsLacksEducation(l);
    AwardsLacksSkills(l);
    AwardsLacksProjects(l);
    AwardsLacksCertifications(l);
    AwardsHitsAwards(l);
    AwardsFirstHit(l);
  }

  lemma AwardsLacksSummary(l: string)
    requires l == "awards"
    ensures !ContainsAny(l, Terms(Summary))
  {
    LacksAll(l, Terms(Summary), [1, 0, 0, 1]);
  }

  lemma AwardsLacksExperience(l: string)
    requires l == "awards"
    ensures !ContainsAny(l, Terms(Experience))
  {
    LacksAll(l, Terms(Experience), [0, 0, 1]);
  }

  lemma AwardsLacksEducation(l: string)
    requires l == "awards"
    ensures !ContainsAny(l, Terms(Education))
  {
    LacksAll(l, Terms(Education), [0, 1]);
  }

  lemma AwardsLacksSkills(l: string)
    requires l == "awards"
    ensures !ContainsAny(l, Terms(Skills))
  {
    LacksAll(l, Terms(Skills), [1, 0, 0, 0]);
  }

  lemma AwardsLacksProjects(l: string)
    requires l == "awards"
    ensures !ContainsAny(l, Terms(Projects))
  {
    LacksAll(l, Terms(Projects), [0, 0]);
  }

  lemma AwardsLacksCertifications(l: string)
    requires l == "awards"
    ensures !ContainsAny(l, Terms(Certifications))
  {
    LacksAll(l, Terms(Certifications), [0, 0, 0]);
  }

  lemma AwardsLowered(name: string)
    requires name == "Awards"
    ensures Lower(name) == "awards"
  {
  }

  lemma AwardsHitsAwards(l: string)
    requires l == "awards"
    ensures ContainsAny(l, Terms(Awards))
  {
    assert OccursFrom(l, "award", 0);
    SomeOccurs(l, Terms(Awards), 0);
  }

  lemma AwardsFirstHit(lowered: string)
    requires !ContainsAny(lowered, Terms(Summary))
    requires !ContainsAny(lowered, Terms(Experience))
    requires !ContainsAny(lowered, Terms(Education))
    requires !ContainsAny(lowered, Terms(Skills))
    requires !ContainsAny(lowered, Terms(Projects))
    requires !ContainsAny(lowered, Terms(Certifications))
    requires ContainsAny(lowered, Terms(Awards))
    ensures FirstHit(lowered, TestOrder) == Some(6)
  {
    assert TestOrder[..6] == [Summary, Experience, Education, Skills, Projects, Certifications];
    FirstHitAt(lowered, TestOrder, 6);
  }

  /** "Publications" has a term of Publications ("publication") and none of the 7 families tested before it. */
  lemma PublicationsNormalized(name: string)
    requires name == "Publications"
    ensures NormalizeSectionName(name) == CanonicalName(Publications)
  {
    PublicationsLowered(name);
    var l := Lower(name);
    PublicationsLacksSummary(l);
    PublicationsLacksExperience(l);
    PublicationsLacksEducation(l);
    PublicationsLacksSkills(l);
    PublicationsLacksProjects(l);
    PublicationsLacksCertifications(l);
    PublicationsLacksAwards(l);
    PublicationsHitsPublications(l);
    PublicationsFirstHit(l);
  }

  lemma PublicationsLacksSummary(l: string)
    requires l == "publications"
    ensures !ContainsAny(l, Terms(Summary))
  {
    LacksAll(l, ["summary", "profile", "objective"], [2, 1, 2]);
    PublicationsLacksAbout(l);
    assert Terms(Summary) == ["summary", "profile", "objective"] + ["about"];
    ContainsAnyConcat(l, ["summary", "profile", "objective"], ["about"]);
  }

  lemma PublicationsLacksExperience(l: string)
    requires l == "publications"
    ensures !ContainsAny(l, Terms(Experience))
  {
    LacksAll(l, Terms(Experience), [0, 0, 0]);
  }

  lemma PublicationsLacksEducation(l: string)
    requires l == "publications"
    ensures !ContainsAny(l, Terms(Education))
  {
    LacksAll(l, Terms(Education), [0, 3]);
  }

  lemma PublicationsLacksSkills(l: string)
    requires l == "publications"
    ensures !ContainsAny(l, Terms(Skills))
  {
    LacksAll(l, Terms(Skills), [1, 2, 0, 1]);
  }

  lemma PublicationsLacksProjects(l: string)
    requires l == "publications"
    ensures !ContainsAny(l, Terms(Projects))
  {
    LacksAll(l, Terms(Projects), [1, 2]);
  }

  lemma PublicationsLacksCertifications(l: string)
    requires l == "publications"
    ensures !ContainsAny(l, Terms(Certifications))
  {
    LacksAll(l, Terms(Certifications), [1, 3, 1]);
  }

  lemma PublicationsLacksAwards(l: string)
    requires l == "publications"
    ensures !ContainsAny(l, Terms(Awards))
  {
    LacksAll(l, Terms(Awards), [1, 0, 2, 0]);
  }

  lemma PublicationsLowered(name: string)
    requires name == "Publications"
    ensures Lower(name) == "publications"
  {
  }

  lemma PublicationsHitsPublications(l: string)
    requires l == "publications"
    ensures ContainsAny(l, Terms(Publications))
  {
    assert OccursFrom(l, "publication", 0);
    SomeOccurs(l, Terms(Publications), 0);
  }

  lemma PublicationsFirstHit(lowered: string)
    requires !ContainsAny(lowered, Terms(Summary))
    requires !ContainsAny(lowered, Terms(Experience))
    requires !ContainsAny(lowered, Terms(Education))
    requires !ContainsAny(lowered, Terms(Skills))
    requires !ContainsAny(lowered, Terms(Projects))
    requires !ContainsAny(lowered, Terms(Certifications))
    requires !ContainsAny(lowered, Terms(Awards))
    requires ContainsAny(lowered, Terms(Publications))
    ensures FirstHit(lowered, TestOrder) == Some(7)
  {
    assert TestOrder[..7] == [Summary, Experience, Education, Skills, Projects, Certifications, Awards];
    FirstHitAt(lowered, TestOrder, 7);
  }

  /** "Volunteer Experience" has a term of Experience ("experience") and none of Summary. */
  lemma VolunteerExperienceNormalized(name: string)
    requires name == "Volunteer Experience"
    ensures NormalizeSectionName(name) == CanonicalName(Experience)
  {
    VolunteerExperienceLowered(name);
    var l := Lower(name);
    VolunteerExperienceLacksSummary(l);
    VolunteerExperienceHitsExperience(l);
    VolunteerExperienceFirstHit(l);
  }

  lemma VolunteerExperienceLacksSummary(l: string)
    requires l == "volunteer experience"
    ensures !ContainsAny(l, Terms(Summary))
  {
    LacksAll(l, Terms(Summary), [0, 3, 1, 0]);
  }

  lemma VolunteerExperienceLowered(name: string)
    requires name == "Volunteer Experience"
    ensures Lower(name) == "volunteer experience"
  {
  }

  lemma VolunteerExperienceHitsExperience(l: string)
    requires l == "volunteer experience"
    ensures ContainsAny(l, Terms(Experience))
  {
    assert OccursFrom(l, "experience", 10);
    OccursEarlier(l, "experience", 0, 10);
    SomeOccurs(l, Terms(Experience), 0);
  }

  lemma VolunteerExperienceFirstHit(lowered: string)
    requires !ContainsAny(lowered, Terms(Summary))
    requires ContainsAny(lowered, Terms(Experience))
    ensures FirstHit(lowered, TestOrder) == Some(1)
  {
    assert TestOrder[..1] == [Summary];
    FirstHitAt(lowered, TestOrder, 1);
  }

  /** "about" does not occur in "publications", although each of its letters does. */
  lemma PublicationsLacksAbout(l: string)
    requires l == "publications"
    ensures !Contains(l, "about")
  {
    assert !OccursFrom(l, "about", 8);
    assert !OccursFrom(l, "about", 7);
    assert !OccursFrom(l, "about", 6);
    assert !OccursFrom(l, "about", 5);
    assert !OccursFrom(l, "about", 4);
    assert !OccursFrom(l, "about", 3);
    assert !OccursFrom(l, "about", 2);
    assert !OccursFrom(l, "about", 1);
    assert !OccursFrom(l, "about", 0);
    ContainsByScan(l, "about");
  }
}
