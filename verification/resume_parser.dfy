/**
 * Section assembly of src/resume_parser.py: the rule-based slicer that cuts
 * the text between header matches, the contact-information prepend, the
 * AI-to-rule-based fallback of `parse_resume`, and the metrics and summary of
 * the result. Regular-expression matches, the classifier and text cleaning
 * are parameters.
 */
module ResumeParser {
  import opened Wrappers
  import opened Text
  import opened OrderedMaps
  import opened SectionNames
  import opened AiDetection

  // ---------------------------------------------------------------------
  // Rule-based section detection
  // ---------------------------------------------------------------------

  /** One header match of the regular expression: where it starts and ends in the text, and its captured heading. */
  datatype HeaderMatch = HeaderMatch(start: nat, end: nat, name: string)

  const FullResumeKey: string := "Full Resume"
  const ContactKey: string := "Contact Information"

  /** The first header must start after this offset for the text above it to become contact details. */
  const ContactOffset: nat := 50

  /** The section a match opens: its heading stripped, title-cased and normalised. */
  function SectionName(m: HeaderMatch): string {
    NormalizeSectionName(Title(Strip(m.name)))
  }

  /** Where the section opened by match i ends: at the start of the next match, or at the end of the text. */
  function SectionEnd(text: string, ms: seq<HeaderMatch>, i: nat): nat
    requires i < |ms|
  {
    if i < |ms| - 1 then ms[i + 1].start else |text|
  }

  /** The stripped text between the end of match i and the end of its section. */
  function SectionContent(text: string, ms: seq<HeaderMatch>, i: nat): string
    requires i < |ms|
  {
    Strip(Slice(text, ms[i].end, SectionEnd(text, ms, i)))
  }

  /** For each match, the normalised name and the stripped content of the section it opens. */
  function Openings(text: string, ms: seq<HeaderMatch>): (os: seq<(string, string)>)
    ensures |os| == |ms|
    ensures forall i {:trigger os[i]} :: 0 <= i < |ms| ==> os[i] == (SectionName(ms[i]), SectionContent(text, ms, i))
  {
    seq(|ms|, i requires 0 <= i < |ms| => (SectionName(ms[i]), SectionContent(text, ms, i)))
  }

  /** `if section_content:` */
  predicate HasContent(p: (string, string)) {
    p.1 != []
  }

  /** The sections after the slicing loop has handled the first n matches: one assignment per non-empty section. */
  function Sliced(text: string, ms: seq<HeaderMatch>, n: nat): OMap<string, string>
    requires n <= |ms|
  {
    PutAll([], Filter(Openings(text, ms)[..n], HasContent))
  }

  /** One more match either assigns its non-empty content under its name or changes nothing. */
  lemma SlicedStep(text: string, ms: seq<HeaderMatch>, i: nat)
    requires i < |ms|
    ensures Sliced(text, ms, i + 1) ==
      if SectionContent(text, ms, i) != [] then Put(Sliced(text, ms, i), SectionName(ms[i]), SectionContent(text, ms, i))
      else Sliced(text, ms, i)
  {
    var os := Openings(text, ms);
    assert os[..i + 1][..i] == os[..i];
    if SectionContent(text, ms, i) != [] {
      PutAllSnoc([], Filter(os[..i], HasContent), os[i]);
    }
  }

  /** The stripped text above the first match. */
  function ContactHeader(text: string, ms: seq<HeaderMatch>): string
    requires ms != []
  {
    Strip(Prefix(text, ms[0].start))
  }

  /** The three conditions under which the text above the first match becomes a section. */
  predicate HasContact(text: string, ms: seq<HeaderMatch>) {
    ms != [] && ms[0].start > ContactOffset && ContactHeader(text, ms) != []
  }

  /** `{"Contact Information": header}` updated with the sliced sections, when the conditions hold. */
  function WithContact(text: string, ms: seq<HeaderMatch>, sections: OMap<string, string>): OMap<string, string> {
    if HasContact(text, ms) then PutAll([(ContactKey, ContactHeader(text, ms))], sections) else sections
  }

  /** The header matches, or the all-caps matches when there is no header match. */
  function ChosenMatches(headerMatches: seq<HeaderMatch>, capsMatches: seq<HeaderMatch>): seq<HeaderMatch> {
    if headerMatches != [] then headerMatches else capsMatches
  }

  /** What `rule_based_section_detection` returns for the matches the two regular expressions found in the text. */
  function RuleBasedSections(text: string, headerMatches: seq<HeaderMatch>, capsMatches: seq<HeaderMatch>): OMap<string, string> {
    var ms := ChosenMatches(headerMatches, capsMatches);
    if ms == [] then [(FullResumeKey, text)]
    else WithContact(text, ms, Sliced(text, ms, |ms|))
  }

  /** `rule_based_section_detection`, given the header matches and the all-caps matches of the text. */
  method RuleBasedSectionDetection(text: string, headerMatches: seq<HeaderMatch>, capsMatches: seq<HeaderMatch>)
    returns (sections: OMap<string, string>)
    ensures sections == RuleBasedSections(text, headerMatches, capsMatches)
  {
    var matches := headerMatches;
    if matches == [] {
      matches := capsMatches;
      if matches == [] {
        return [(FullResumeKey, text)];
      }
    }
    sections := [];
    for i := 0 to |matches|
      invariant sections == Sliced(text, matches, i)
    {
      var content := SectionContent(text, matches, i);
      SlicedStep(text, matches, i);
      if content != [] {
        sections := Put(sections, SectionName(matches[i]), content);
      }
    }
    if matches[0].start > ContactOffset {
      var header := ContactHeader(text, matches);
      if header != [] {
        sections := PutAll([(ContactKey, header)], sections);
      }
    }
  }

  /** With no header match and no all-caps match the whole text is one section. */
  lemma NoMatchesGiveFullResume(text: string, headerMatches: seq<HeaderMatch>, capsMatches: seq<HeaderMatch>)
    requires headerMatches == [] && capsMatches == []
    ensures RuleBasedSections(text, headerMatches, capsMatches) == [(FullResumeKey, text)]
  {
  }

  /**
   * The sliced sections hold one key per distinct name of a match with non-empty content, in order of
   * the first such match, and only non-empty contents.
   */
  lemma SlicedKeys(text: string, ms: seq<HeaderMatch>)
    ensures Keys(Sliced(text, ms, |ms|)) == Dedup(Keys(Filter(Openings(text, ms), HasContent)))
    ensures Distinct(Keys(Sliced(text, ms, |ms|)))
    ensures forall p :: p in Sliced(text, ms, |ms|) ==> p.1 != []
  {
    var os := Openings(text, ms);
    assert os[..|ms|] == os;
    var ps := Filter(os, HasContent);
    PutAllKeys([], ps);
    assert Keys<string, string>([]) + Keys(ps) == Keys(ps);
    DedupSpec(Keys(ps));
    FilterSpec(os, HasContent);
    PutAllMembers([], ps);
  }

  /** A name is a key of the sliced sections exactly when some match with non-empty content opens a section of that name. */
  lemma SlicedNames(text: string, ms: seq<HeaderMatch>, k: string)
    ensures k in Keys(Sliced(text, ms, |ms|)) <==>
      exists i :: 0 <= i < |ms| && Openings(text, ms)[i].1 != [] && Openings(text, ms)[i].0 == k
  {
    var os := Openings(text, ms);
    assert os[..|ms|] == os;
    var ps := Filter(os, HasContent);
    PutAllKeys([], ps);
    assert Keys<string, string>([]) + Keys(ps) == Keys(ps);
    DedupSpec(Keys(ps));
    KeptKeys(os, HasContent, k);
  }

  /** A repeated name keeps the content of its last non-empty section. */
  lemma LastSectionWins(text: string, ms: seq<HeaderMatch>, i: nat)
    requires i < |ms| && SectionContent(text, ms, i) != []
    requires forall j {:trigger SectionContent(text, ms, j)} :: i < j < |ms| && SectionContent(text, ms, j) != [] ==>
      SectionName(ms[j]) != SectionName(ms[i])
    ensures Get(Sliced(text, ms, |ms|), SectionName(ms[i])) == Some(SectionContent(text, ms, i))
  {
    var os := Openings(text, ms);
    assert os[..|ms|] == os;
    LastKept(os, HasContent, i);
    GetPutAll([], Filter(os, HasContent), os[i].0);
  }

  /**
   * When the three conditions hold, "Contact Information" is the first key and holds the text above the
   * first match, unless a section of that name overrides the value; otherwise the sections are unchanged.
   */
  lemma ContactPrepended(text: string, ms: seq<HeaderMatch>, sections: OMap<string, string>)
    requires Distinct(Keys(sections))
    ensures HasContact(text, ms) ==>
      && Keys(WithContact(text, ms, sections)) == Dedup([ContactKey] + Keys(sections))
      && Keys(WithContact(text, ms, sections))[0] == ContactKey
      && Get(WithContact(text, ms, sections), ContactKey)
         == if ContactKey in Keys(sections) then Get(sections, ContactKey) else Some(ContactHeader(text, ms))
    ensures !HasContact(text, ms) ==> WithContact(text, ms, sections) == sections
  {
    if HasContact(text, ms) {
      var m := [(ContactKey, ContactHeader(text, ms))];
      assert Keys(m) == [ContactKey];
      PutAllKeys(m, sections);
      DedupHead([ContactKey] + Keys(sections));
      GetPutAll(m, sections, ContactKey);
      LastValueOfDistinct(sections, ContactKey);
    }
  }

  /** Whatever the matches, the keys of the rule-based result are distinct. */
  lemma RuleBasedKeysDistinct(text: string, headerMatches: seq<HeaderMatch>, capsMatches: seq<HeaderMatch>)
    ensures Distinct(Keys(RuleBasedSections(text, headerMatches, capsMatches)))
  {
    var ms := ChosenMatches(headerMatches, capsMatches);
    if ms != [] {
      var sections := Sliced(text, ms, |ms|);
      SlicedKeys(text, ms);
      ContactPrepended(text, ms, sections);
      DedupSpec([ContactKey] + Keys(sections));
    }
  }

  /**
   * With matches, the rule-based result starts with "Contact Information" when the three conditions hold,
   * and is exactly the sliced sections when they do not.
   */
  lemma RuleBasedContact(text: string, headerMatches: seq<HeaderMatch>, capsMatches: seq<HeaderMatch>)
    requires ChosenMatches(headerMatches, capsMatches) != []
    ensures HasContact(text, ChosenMatches(headerMatches, capsMatches)) ==>
      RuleBasedSections(text, headerMatches, capsMatches) != [] &&
      RuleBasedSections(text, headerMatches, capsMatches)[0].0 == ContactKey
    ensures !HasContact(text, ChosenMatches(headerMatches, capsMatches)) ==>
      RuleBasedSections(text, headerMatches, capsMatches) ==
        Sliced(text, ChosenMatches(headerMatches, capsMatches), |ChosenMatches(headerMatches, capsMatches)|)
  {
    var ms := ChosenMatches(headerMatches, capsMatches);
    var sections := Sliced(text, ms, |ms|);
    SlicedKeys(text, ms);
    ContactPrepended(text, ms, sections);
    if HasContact(text, ms) {
      DedupHead([ContactKey] + Keys(sections));
    }
  }

  // ---------------------------------------------------------------------
  // parse_resume: AI first, rule-based as the fallback
  // ---------------------------------------------------------------------

  /** The detectors' view of a text: the regular-expression splits and matches, and the classifier. */
  datatype Detectors = Detectors(
    aiAvailable: bool,
    split: string -> seq<string>,
    classify: string -> Option<Classification>,
    headerMatches: string -> seq<HeaderMatch>,
    capsMatches: string -> seq<HeaderMatch>)

  /** The AI result when it has at least two sections, the rule-based one otherwise. */
  function ChooseSections(ai: Option<OMap<string, string>>, ruleBased: OMap<string, string>): (r: OMap<string, string>)
    ensures ai.Some? && |ai.value| >= 2 ==> r == ai.value
    ensures ai.None? || |ai.value| < 2 ==> r == ruleBased
  {
    if ai.None? || |ai.value| < 2 then ruleBased else ai.value
  }

  /** `parse_resume` on text already read from its source: the sections and the cleaned text. */
  function ParseResume(text: string, clean: string -> string, d: Detectors): (r: (OMap<string, string>, string))
    ensures r.1 == clean(text)
  {
    var cleaned := clean(text);
    var ai := AiSections(d.aiAvailable, d.split(cleaned), d.classify);
    var ruleBased := RuleBasedSections(cleaned, d.headerMatches(cleaned), d.capsMatches(cleaned));
    (ChooseSections(ai, ruleBased), cleaned)
  }

  /** The rule-based sections are used exactly when the model is missing, fails, keeps nothing or yields one section. */
  lemma ParseFallsBack(text: string, clean: string -> string, d: Detectors)
    ensures var cleaned := clean(text);
      var ai := AiSections(d.aiAvailable, d.split(cleaned), d.classify);
      && (!d.aiAvailable || ai.None? || |ai.value| < 2 ==>
           ParseResume(text, clean, d).0 == RuleBasedSections(cleaned, d.headerMatches(cleaned), d.capsMatches(cleaned)))
      && (d.aiAvailable && ai.Some? && |ai.value| >= 2 ==>
           ParseResume(text, clean, d).0 == ai.value && |ParseResume(text, clean, d).0| >= 2)
  {
  }

  /** Whichever detector wins, the parsed sections have distinct keys. */
  lemma ParseKeysDistinct(text: string, clean: string -> string, d: Detectors)
    ensures Distinct(Keys(ParseResume(text, clean, d).0))
  {
    var cleaned := clean(text);
    RuleBasedKeysDistinct(cleaned, d.headerMatches(cleaned), d.capsMatches(cleaned));
    var ai := AiSections(d.aiAvailable, d.split(cleaned), d.classify);
    if ai.Some? {
      FinalizedKeys(Kept(d.split(cleaned), d.classify, |d.split(cleaned)|).value);
    }
  }

  // ---------------------------------------------------------------------
  // Metrics and summary
  // ---------------------------------------------------------------------

  datatype Metrics = Metrics(
    totalSections: nat,
    hasSummary: bool,
    hasExperience: bool,
    hasEducation: bool,
    hasSkills: bool,
    hasQuantifiableAchievements: bool,
    wordCount: nat)

  /** `any(term in s.lower() for s in keys)` */
  predicate SomeKeyMentions(keys: seq<string>, term: string) {
    exists i :: 0 <= i < |keys| && Contains(Lower(keys[i]), term)
  }

  /**
   * `extract_key_metrics`; `hasFigures` stands for the search for quantified achievements
   * (percentages, amounts, "increased by" and the like) in the text.
   */
  function ExtractKeyMetrics(sections: OMap<string, string>, hasFigures: string -> bool): (m: Metrics)
    ensures m.totalSections == |sections|
    ensures m.wordCount == |Words(Join(Values(sections), " "))|
    ensures m.hasQuantifiableAchievements == hasFigures(Join(Values(sections), " "))
  {
    WordsOfSpaceJoinAll(Values(sections));
    var keys := Keys(sections);
    Metrics(
      |sections|,
      SomeKeyMentions(keys, "summary"),
      SomeKeyMentions(keys, "experience"),
      SomeKeyMentions(keys, "education"),
      SomeKeyMentions(keys, "skill"),
      hasFigures(Join(Values(sections), " ")),
      WordTotal(Values(sections)))
  }

  /** Sections under the canonical names raise the matching flags. */
  lemma MetricsSeeCanonicalNames(sections: OMap<string, string>, hasFigures: string -> bool)
    ensures CanonicalName(Summary) in Keys(sections) ==> ExtractKeyMetrics(sections, hasFigures).hasSummary
    ensures CanonicalName(Experience) in Keys(sections) ==> ExtractKeyMetrics(sections, hasFigures).hasExperience
    ensures CanonicalName(Volunteer) in Keys(sections) ==> ExtractKeyMetrics(sections, hasFigures).hasExperience
    ensures CanonicalName(Education) in Keys(sections) ==> ExtractKeyMetrics(sections, hasFigures).hasEducation
    ensures CanonicalName(Skills) in Keys(sections) ==> ExtractKeyMetrics(sections, hasFigures).hasSkills
  {
    SummaryMentioned();
    ExperienceMentioned();
    VolunteerMentioned();
    EducationMentioned();
    SkillsMentioned();
  }

  lemma SummaryMentioned()
    ensures Contains(Lower(CanonicalName(Summary)), "summary")
  {
    var l := Lower(CanonicalName(Summary));
    assert l[13..20] == "summary";
    ContainsAt(l, "summary", 13);
  }

  lemma ExperienceMentioned()
    ensures Contains(Lower(CanonicalName(Experience)), "experience")
  {
    var l := Lower(CanonicalName(Experience));
    assert l[0..10] == "experience";
    ContainsAt(l, "experience", 0);
  }

  lemma VolunteerMentioned()
    ensures Contains(Lower(CanonicalName(Volunteer)), "experience")
  {
    var l := Lower(CanonicalName(Volunteer));
    assert l[10..20] == "experience";
    ContainsAt(l, "experience", 10);
  }

  lemma EducationMentioned()
    ensures Contains(Lower(CanonicalName(Education)), "education")
  {
    var l := Lower(CanonicalName(Education));
    assert l[0..9] == "education";
    ContainsAt(l, "education", 0);
  }

  lemma SkillsMentioned()
    ensures Contains(Lower(CanonicalName(Skills)), "skill")
  {
    var l := Lower(CanonicalName(Skills));
    assert l[0..5] == "skill";
    ContainsAt(l, "skill", 0);
  }

  /** The first line of the summary. */
  const SummaryHeader: string := "\U{F0}\U{178}\U{201C}\U{160} Resume Analysis:"
  /** The bullet before each section's line. */
  const SummaryBullet: string := "\U{E2}\U{20AC}\U{A2}"

  /** The summary line of one section: its name, its word count and its character count. */
  function SummaryLine(name: string, content: string): string {
    "  " + SummaryBullet + " " + name + ": " + NatToString(|Words(content)|) + " words, " + NatToString(|content|) + " characters"
  }

  /** One summary line per section, in section order. */
  function SummaryLines(sections: OMap<string, string>): (ls: seq<string>)
    ensures |ls| == |sections|
    ensures forall i :: 0 <= i < |sections| ==> ls[i] == SummaryLine(sections[i].0, sections[i].1)
  {
    seq(|sections|, i requires 0 <= i < |sections| => SummaryLine(sections[i].0, sections[i].1))
  }

  /** `get_section_summary` */
  method GetSectionSummary(sections: OMap<string, string>) returns (summary: string)
    ensures summary == Join([SummaryHeader] + SummaryLines(sections), "\n")
  {
    var parts := [SummaryHeader];
    for i := 0 to |sections|
      invariant parts == [SummaryHeader] + SummaryLines(sections)[..i]
    {
      var wordCount := |Words(sections[i].1)|;
      var charCount := |sections[i].1|;
      parts := parts + ["  " + SummaryBullet + " " + sections[i].0 + ": " + NatToString(wordCount) + " words, " + NatToString(charCount) + " characters"];
    }
    assert SummaryLines(sections)[..|sections|] == SummaryLines(sections);
    summary := Join(parts, "\n");
  }

  /** The summary opens with the header and holds, for every section, its line. */
  lemma SummaryCoversSections(sections: OMap<string, string>)
    ensures StartsWith(Join([SummaryHeader] + SummaryLines(sections), "\n"), SummaryHeader)
    ensures forall i :: 0 <= i < |sections| ==>
      Contains(Join([SummaryHeader] + SummaryLines(sections), "\n"), SummaryLine(sections[i].0, sections[i].1))
  {
    JoinAfterHead(SummaryHeader, SummaryLines(sections), "\n");
  }
}
