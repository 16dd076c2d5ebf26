/**
 * The CV editor's state and handlers: adding, removing and updating
 * education, experience and skill entries, applying AI suggestions and
 * generated content by field key, and the AI-mode switch.  Each handler is
 * one atomic update of the state; `uuidv4()` is a fresh-id parameter and the
 * AI service's answer an input.
 */
module Editor {
  import opened Wrappers
  import opened Text
  import opened Lists
  import opened Cv
  import App

  /** The four tabs the editor renders. */
  const EditorTabs: set<string> := {"personal", "education", "experience", "skills"}

  const EducationWord := "education"
  const ExperienceWord := "experience"
  /** The key prefixes of entries, each a word and a hyphen. */
  const EducationPrefix := EducationWord + "-"
  const ExperiencePrefix := ExperienceWord + "-"

  // ---------------------------------------------------------------- fields

  datatype EducationField = Institution | Degree | FieldOfStudy | StartDate | EndDate | Description

  datatype ExperienceField = Company | Position | Location | StartDate | EndDate | Description

  /** The two properties the skills tab edits, with their values. */
  datatype SkillEdit = SetName(name: string) | SetLevel(level: int)

  function EducationFieldOf(e: Education, f: EducationField): string {
    match f
    case Institution => e.institution
    case Degree => e.degree
    case FieldOfStudy => e.fieldOfStudy
    case StartDate => e.startDate
    case EndDate => e.endDate
    case Description => e.description
  }

  function ExperienceFieldOf(e: Experience, f: ExperienceField): string {
    match f
    case Company => e.company
    case Position => e.position
    case Location => e.location
    case StartDate => e.startDate
    case EndDate => e.endDate
    case Description => e.description
  }

  /** `{ ...edu, [field]: value }`: the named field takes the value, the id and
      every other field keep theirs. */
  function WithEducationField(e: Education, f: EducationField, value: string): (r: Education)
    ensures r.id == e.id
    ensures forall g :: EducationFieldOf(r, g) == if g == f then value else EducationFieldOf(e, g)
  {
    match f
    case Institution => e.(institution := value)
    case Degree => e.(degree := value)
    case FieldOfStudy => e.(fieldOfStudy := value)
    case StartDate => e.(startDate := value)
    case EndDate => e.(endDate := value)
    case Description => e.(description := value)
  }

  /** `{ ...exp, [field]: value }`: the named field takes the value, the id and
      every other field keep theirs. */
  function WithExperienceField(e: Experience, f: ExperienceField, value: string): (r: Experience)
    ensures r.id == e.id
    ensures forall g :: ExperienceFieldOf(r, g) == if g == f then value else ExperienceFieldOf(e, g)
  {
    match f
    case Company => e.(company := value)
    case Position => e.(position := value)
    case Location => e.(location := value)
    case StartDate => e.(startDate := value)
    case EndDate => e.(endDate := value)
    case Description => e.(description := value)
  }

  /** `{ ...skill, [field]: value }` for the name or the level. */
  function WithSkillEdit(s: Skill, edit: SkillEdit): (r: Skill)
    ensures r.id == s.id
    ensures r.name == (if edit.SetName? then edit.name else s.name)
    ensures r.level == (if edit.SetLevel? then edit.level else s.level)
  {
    match edit
    case SetName(n) => s.(name := n)
    case SetLevel(l) => s.(level := l)
  }

  // ---------------------------------------------------------- list updates

  function BlankEducation(id: string): Education {
    Education(id, "", "", "", "", "", "")
  }

  function BlankExperience(id: string): Experience {
    Experience(id, "", "", "", "", "", "")
  }

  function BlankSkill(id: string): Skill {
    Skill(id, "", 3)
  }

  /** `updateEducation`: only entries with the id change, and only in the
      named field; length, order, ids and all other fields are kept; with no
      entry holding the id the list is unchanged. */
  function UpdatedEducation(list: seq<Education>, id: string, f: EducationField, value: string): (r: seq<Education>)
    ensures |r| == |list|
    ensures forall k :: 0 <= k < |list| ==> r[k].id == list[k].id
    ensures forall k :: 0 <= k < |list| && list[k].id != id ==> r[k] == list[k]
    ensures forall k, g :: 0 <= k < |list| && list[k].id == id ==>
      EducationFieldOf(r[k], g) == if g == f then value else EducationFieldOf(list[k], g)
    ensures (forall k :: 0 <= k < |list| ==> list[k].id != id) ==> r == list
  {
    UpdateWhereKey(list, id, EducationId, e => WithEducationField(e, f, value))
  }

  /** `updateExperience`: only entries with the id change, and only in the
      named field; length, order, ids and all other fields are kept; with no
      entry holding the id the list is unchanged. */
  function UpdatedExperience(list: seq<Experience>, id: string, f: ExperienceField, value: string): (r: seq<Experience>)
    ensures |r| == |list|
    ensures forall k :: 0 <= k < |list| ==> r[k].id == list[k].id
    ensures forall k :: 0 <= k < |list| && list[k].id != id ==> r[k] == list[k]
    ensures forall k, g :: 0 <= k < |list| && list[k].id == id ==>
      ExperienceFieldOf(r[k], g) == if g == f then value else ExperienceFieldOf(list[k], g)
    ensures (forall k :: 0 <= k < |list| ==> list[k].id != id) ==> r == list
  {
    UpdateWhereKey(list, id, ExperienceId, e => WithExperienceField(e, f, value))
  }

  /** `updateSkill`: only skills with the id change, and only in the edited
      property; length, order and ids are kept. */
  function UpdatedSkills(list: seq<Skill>, id: string, edit: SkillEdit): (r: seq<Skill>)
    ensures |r| == |list|
    ensures forall k :: 0 <= k < |list| ==> r[k].id == list[k].id
    ensures forall k :: 0 <= k < |list| && list[k].id != id ==> r[k] == list[k]
    ensures forall k :: 0 <= k < |list| && list[k].id == id ==> r[k] == WithSkillEdit(list[k], edit)
  {
    UpdateWhereKey(list, id, SkillId, s => WithSkillEdit(s, edit))
  }

  // ------------------------------------------------------------- field keys

  /** The length of the prefix a key naming an entry begins with. */
  function PrefixLength(key: string): nat {
    if StartsWith(key, EducationPrefix) then |EducationPrefix| else |ExperiencePrefix|
  }

  /** `key.split("-")[1]` for a key naming an entry: the text after the key's
      first `-` up to the next `-` or the end. */
  function EntryIdOfKey(key: string): (id: string)
    requires StartsWith(key, EducationPrefix) || StartsWith(key, ExperiencePrefix)
    ensures var n := PrefixLength(key);
      n + |id| <= |key| && key[n..n + |id|] == id && '-' !in id && (n + |id| == |key| || key[n + |id|] == '-')
  {
    KeyPieces(key);
    var n := PrefixLength(key);
    SplitCharHead(key[n..], '-');
    Split(key, "-")[1]
  }

  /** The second piece of a key naming an entry is the first piece of what
      follows its prefix. */
  lemma KeyPieces(key: string)
    requires StartsWith(key, EducationPrefix) || StartsWith(key, ExperiencePrefix)
    ensures PrefixLength(key) <= |key|
    ensures |Split(key, "-")| >= 2 && Split(key, "-")[1] == Split(key[PrefixLength(key)..], "-")[0]
  {
    var n := PrefixLength(key);
    var w := if StartsWith(key, EducationPrefix) then EducationWord else ExperienceWord;
    assert '-' !in EducationWord && '-' !in ExperienceWord;
    assert key == w + "-" + key[n..] by {
      assert key[..n] == w + "-";
      assert key == key[..n] + key[n..];
    }
    SplitAfterWord(w, '-', key[n..]);
  }

  /** How a field key is dispatched. */
  datatype FieldTarget = SummaryField | EducationEntry(id: string) | ExperienceEntry(id: string) | NoField

  /** The key `"summary"` names the summary, a key beginning `education-` or
      `experience-` names the entry whose id `EntryIdOfKey` extracts, and any
      other key names nothing. */
  function TargetOf(key: string): (t: FieldTarget)
    ensures t.SummaryField? <==> key == "summary"
    ensures t.EducationEntry? <==> StartsWith(key, EducationPrefix)
    ensures t.ExperienceEntry? <==> StartsWith(key, ExperiencePrefix)
    ensures t.EducationEntry? || t.ExperienceEntry? ==> t.id == EntryIdOfKey(key)
  {
    if key == "summary" then SummaryField
    else if StartsWith(key, EducationPrefix) then
      assert key[1] == 'd';
      EducationEntry(EntryIdOfKey(key))
    else if StartsWith(key, ExperiencePrefix) then ExperienceEntry(EntryIdOfKey(key))
    else NoField
  }

  /** The key built for an entry leads back to that entry exactly when its id
      has no `-`. */
  lemma EducationKeyRoundTrip(id: string)
    ensures StartsWith(EducationPrefix + id, EducationPrefix)
    ensures TargetOf(EducationPrefix + id) == EducationEntry(id) <==> '-' !in id
  {
    var key := EducationPrefix + id;
    assert key[..|EducationPrefix|] == EducationPrefix;
    assert forall k :: 0 <= k < |id| ==> key[|EducationPrefix| + k] == id[k];
  }

  /** The key built for an entry leads back to that entry exactly when its id
      has no `-`. */
  lemma ExperienceKeyRoundTrip(id: string)
    ensures StartsWith(ExperiencePrefix + id, ExperiencePrefix)
    ensures TargetOf(ExperiencePrefix + id) == ExperienceEntry(id) <==> '-' !in id
  {
    var key := ExperiencePrefix + id;
    assert key[..|ExperiencePrefix|] == ExperiencePrefix;
    assert forall k :: 0 <= k < |id| ==> key[|ExperiencePrefix| + k] == id[k];
  }

  /** With hyphenated ids (as `uuidv4` makes them), applying text through the
      key of an education entry updates no entry at all. */
  lemma HyphenatedEducationKeyMisses(list: seq<Education>, id: string, text: string)
    requires forall k :: 0 <= k < |list| ==> '-' in list[k].id
    ensures StartsWith(EducationPrefix + id, EducationPrefix)
    ensures UpdatedEducation(list, EntryIdOfKey(EducationPrefix + id), EducationField.Description, text) == list
  {
    EducationKeyRoundTrip(id);
  }

  /** With hyphenated ids, applying text through the key of an experience
      entry updates no entry at all. */
  lemma HyphenatedExperienceKeyMisses(list: seq<Experience>, id: string, text: string)
    requires forall k :: 0 <= k < |list| ==> '-' in list[k].id
    ensures StartsWith(ExperiencePrefix + id, ExperiencePrefix)
    ensures UpdatedExperience(list, EntryIdOfKey(ExperiencePrefix + id), ExperienceField.Description, text) == list
  {
    ExperienceKeyRoundTrip(id);
  }

  /** The texts a field key can write to. */
  datatype FormText = FormText(summary: string, education: seq<Education>, experience: seq<Experience>)

  /** Writing `text` to the field a key names. */
  function ApplyToKey(c: FormText, key: string, text: string): (r: FormText)
    ensures r.summary == if key == "summary" then text else c.summary
    ensures r.education == if StartsWith(key, EducationPrefix)
      then UpdatedEducation(c.education, EntryIdOfKey(key), EducationField.Description, text)
      else c.education
    ensures r.experience == if StartsWith(key, ExperiencePrefix)
      then UpdatedExperience(c.experience, EntryIdOfKey(key), ExperienceField.Description, text)
      else c.experience
  {
    match TargetOf(key)
    case SummaryField => c.(summary := text)
    case EducationEntry(id) => c.(education := UpdatedEducation(c.education, id, EducationField.Description, text))
    case ExperienceEntry(id) => c.(experience := UpdatedExperience(c.experience, id, ExperienceField.Description, text))
    case NoField => c
  }

  // ------------------------------------------------------- generated skills

  /** `content.split(",").map(s => s.trim())` turned into level-4 skills with
      the given fresh ids: one per comma-separated piece (so one more than the
      commas), in order, each name trimmed and free of commas. */
  function SkillsFromList(content: string, ids: seq<string>): (r: seq<Skill>)
    requires |ids| == |Split(content, ",")|
    ensures |r| == |ids|
    ensures |r| == multiset(content)[','] + 1
    ensures forall k :: 0 <= k < |r| ==> r[k] == Skill(ids[k], Trim(Split(content, ",")[k]), 4)
    ensures forall k :: 0 <= k < |r| ==> IsTrimmed(r[k].name) && ',' !in r[k].name
  {
    var pieces := Split(content, ",");
    SplitCount(content, ",");
    OccurrencesOfChar(content, ',');
    SplitCharPieces(content, ',');
    var r := seq(|ids|, k requires 0 <= k < |ids| => Skill(ids[k], Trim(pieces[k]), 4));
    assert forall k :: 0 <= k < |r| ==> ',' !in r[k].name by {
      forall k | 0 <= k < |r| ensures ',' !in r[k].name {
        if ',' in Trim(pieces[k]) { TrimChars(pieces[k], ','); }
      }
    }
    r
  }

  /** With unique ids, generated experience text rewrites the description of
      the first entry and nothing else. */
  lemma GeneratedExperienceOnlyFirst(list: seq<Experience>, content: string)
    requires |list| > 0
    requires forall a, b :: 0 <= a < b < |list| ==> list[a].id != list[b].id
    ensures var r := UpdatedExperience(list, list[0].id, ExperienceField.Description, content);
      && r[0].description == content
      && (forall g :: g != ExperienceField.Description ==> ExperienceFieldOf(r[0], g) == ExperienceFieldOf(list[0], g))
      && r[1..] == list[1..]
  {
    var r := UpdatedExperience(list, list[0].id, ExperienceField.Description, content);
    assert ExperienceFieldOf(r[0], ExperienceField.Description) == content;
    assert forall k :: 1 <= k < |list| ==> r[k] == list[k];
  }

  // ------------------------------------------------------------ the editor

  /** What `enhanceWithAI` shows: the field key with its original and enhanced text. */
  datatype Suggestion = Suggestion(field: string, original: string, enhanced: string)

  /** What `openAdvancedEnhancer` records. */
  datatype Enhancement = Enhancement(title: string, fieldKey: string, originalContent: string)

  datatype TargetSchool = TargetSchool(name: Option<string>, program: Option<string>, requirements: Option<string>)

  class EditorState {
    var activeSection: string
    /** The form's `personalInfo.summary`. */
    var summary: string
    var educationList: seq<Education>
    var experienceList: seq<Experience>
    var skillsList: seq<Skill>
    var aiShowFor: Option<Suggestion>
    var aiModeActive: bool
    var showSchoolTargetModal: bool
    var showSectionGuide: bool
    var targetSchool: Option<TargetSchool>
    var currentEnhancement: Option<Enhancement>

    function Form(): FormText
      reads this
    {
      FormText(summary, educationList, experienceList)
    }

    constructor ()
      ensures activeSection == "personal" && activeSection in EditorTabs
      ensures summary == "" && educationList == [] && experienceList == [] && skillsList == []
      ensures aiShowFor == None && currentEnhancement == None && targetSchool == None
      ensures !aiModeActive && !showSchoolTargetModal && !showSectionGuide
    {
      activeSection := "personal";
      summary := "";
      educationList, experienceList, skillsList := [], [], [];
      aiShowFor, currentEnhancement, targetSchool := None, None, None;
      aiModeActive, showSchoolTargetModal, showSectionGuide := false, false, false;
    }

    /** Editing a saved CV: when the route's id names one, its summary and
        entry lists are loaded; an empty or unknown id loads nothing. */
    method LoadExisting(saved: seq<CV>, id: string)
      modifies this`summary, this`educationList, this`experienceList, this`skillsList
      ensures id == "" || App.FindIndex(saved, id) == -1 ==>
        summary == old(summary) && educationList == old(educationList)
        && experienceList == old(experienceList) && skillsList == old(skillsList)
      ensures id != "" && App.FindIndex(saved, id) >= 0 ==>
        var cv := saved[App.FindIndex(saved, id)];
        summary == cv.personalInfo.summary && educationList == cv.education
        && experienceList == cv.experience && skillsList == cv.skills
    {
      if id != "" {
        var i := App.FindIndex(saved, id);
        if i >= 0 {
          var existing := saved[i];
          summary := existing.personalInfo.summary;
          educationList := existing.education;
          experienceList := existing.experience;
          skillsList := existing.skills;
        }
      }
    }

    method AddEducation(freshId: string)
      modifies this`educationList
      ensures educationList == old(educationList) + [BlankEducation(freshId)]
    {
      educationList := educationList + [BlankEducation(freshId)];
    }

    method RemoveEducation(id: string)
      modifies this`educationList
      ensures educationList == WithoutKey(old(educationList), id, EducationId)
    {
      educationList := WithoutKey(educationList, id, EducationId);
    }

    method AddExperience(freshId: string)
      modifies this`experienceList
      ensures experienceList == old(experienceList) + [BlankExperience(freshId)]
    {
      experienceList := experienceList + [BlankExperience(freshId)];
    }

    method RemoveExperience(id: string)
      modifies this`experienceList
      ensures experienceList == WithoutKey(old(experienceList), id, ExperienceId)
    {
      experienceList := WithoutKey(experienceList, id, ExperienceId);
    }

    method AddSkill(freshId: string)
      modifies this`skillsList
      ensures skillsList == old(skillsList) + [BlankSkill(freshId)]
    {
      skillsList := skillsList + [BlankSkill(freshId)];
    }

    method RemoveSkill(id: string)
      modifies this`skillsList
      ensures skillsList == WithoutKey(old(skillsList), id, SkillId)
    {
      skillsList := WithoutKey(skillsList, id, SkillId);
    }

    method UpdateEducation(id: string, f: EducationField, value: string)
      modifies this`educationList
      ensures educationList == UpdatedEducation(old(educationList), id, f, value)
    {
      educationList := UpdatedEducation(educationList, id, f, value);
    }

    method UpdateExperience(id: string, f: ExperienceField, value: string)
      modifies this`experienceList
      ensures experienceList == UpdatedExperience(old(experienceList), id, f, value)
    {
      experienceList := UpdatedExperience(experienceList, id, f, value);
    }

    method UpdateSkill(id: string, edit: SkillEdit)
      modifies this`skillsList
      ensures skillsList == UpdatedSkills(old(skillsList), id, edit)
    {
      skillsList := UpdatedSkills(skillsList, id, edit);
    }

    /** `enhanceWithAI` once the service has answered with `enhanced` (the
        helper answers `"Error generating content."` when its request fails):
        blank input shows nothing. */
    method EnhanceWithAI(field: string, text: string, enhanced: string)
      modifies this`aiShowFor
      ensures aiShowFor == if Trim(text) == [] then old(aiShowFor) else Some(Suggestion(field, text, enhanced))
    {
      if Trim(text) == [] {
        return;
      }
      aiShowFor := Some(Suggestion(field, text, enhanced));
    }

    method OpenAdvancedEnhancer(title: string, fieldKey: string, content: string)
      modifies this`currentEnhancement
      ensures currentEnhancement == Some(Enhancement(title, fieldKey, content))
    {
      currentEnhancement := Some(Enhancement(title, fieldKey, content));
    }

    /** Write `text` to the field the key names (the dispatch shared by both
        apply handlers). */
    method ApplyToField(key: string, text: string)
      modifies this`summary, this`educationList, this`experienceList
      ensures Form() == ApplyToKey(old(Form()), key, text)
    {
      match TargetOf(key)
      case SummaryField =>
        summary := text;
      case EducationEntry(eduId) =>
        UpdateEducation(eduId, EducationField.Description, text);
      case ExperienceEntry(expId) =>
        UpdateExperience(expId, ExperienceField.Description, text);
      case NoField =>
    }

    /** `applyAISuggestion`: with a suggestion showing, write the text to its
        field and close it; otherwise do nothing. */
    method ApplyAISuggestion(text: string)
      modifies this`summary, this`educationList, this`experienceList, this`aiShowFor
      ensures old(aiShowFor) == None ==> Form() == old(Form()) && aiShowFor == None
      ensures old(aiShowFor).Some? ==> Form() == ApplyToKey(old(Form()), old(aiShowFor).value.field, text) && aiShowFor == None
    {
      if aiShowFor == None {
        return;
      }
      ApplyToField(aiShowFor.value.field, text);
      aiShowFor := None;
    }

    /** `applyAdvancedEnhancement`: with an enhancement open, write the text to
        its field and close it; otherwise do nothing. */
    method ApplyAdvancedEnhancement(text: string)
      modifies this`summary, this`educationList, this`experienceList, this`currentEnhancement
      ensures old(currentEnhancement) == None ==> Form() == old(Form()) && currentEnhancement == None
      ensures old(currentEnhancement).Some? ==>
        Form() == ApplyToKey(old(Form()), old(currentEnhancement).value.fieldKey, text) && currentEnhancement == None
    {
      if currentEnhancement == None {
        return;
      }
      ApplyToField(currentEnhancement.value.fieldKey, text);
      currentEnhancement := None;
    }

    /** `applyGeneratedContent`: a summary replaces the summary, experience text
        becomes the description of the first entry's id (nothing with no
        entries), a skill list replaces all skills; any other kind does nothing. */
    method ApplyGeneratedContent(kind: string, content: string, freshIds: seq<string>)
      requires kind == "generate-skills" ==> |freshIds| == |Split(content, ",")|
      modifies this`summary, this`experienceList, this`skillsList
      ensures summary == if kind == "generate-summary" then content else old(summary)
      ensures experienceList ==
        if kind == "generate-experience" && |old(experienceList)| > 0
        then UpdatedExperience(old(experienceList), old(experienceList)[0].id, ExperienceField.Description, content)
        else old(experienceList)
      ensures skillsList == if kind == "generate-skills" then SkillsFromList(content, freshIds) else old(skillsList)
    {
      if kind == "generate-summary" {
        summary := content;
      } else if kind == "generate-experience" {
        if |experienceList| > 0 {
          var latestExp := experienceList[0];
          UpdateExperience(latestExp.id, ExperienceField.Description, content);
        }
      } else if kind == "generate-skills" {
        skillsList := SkillsFromList(content, freshIds);
      }
    }

    /** `toggleAIMode`: flip the mode; switching it on with no target school
        opens the target-school modal. */
    method ToggleAIMode()
      modifies this`aiModeActive, this`showSchoolTargetModal
      ensures aiModeActive == !old(aiModeActive)
      ensures showSchoolTargetModal == if !old(aiModeActive) && old(targetSchool) == None then true else old(showSchoolTargetModal)
    {
      var wasActive := aiModeActive;
      aiModeActive := !wasActive;
      if !wasActive && targetSchool == None {
        showSchoolTargetModal := true;
      }
    }

    method NavigateToSection(sectionName: string)
      modifies this`activeSection
      ensures activeSection == sectionName
    {
      activeSection := sectionName;
    }

    method OpenSectionGuide()
      modifies this`showSectionGuide
      ensures showSectionGuide
    {
      showSectionGuide := true;
    }

    method CloseSectionGuide()
      modifies this`showSectionGuide
      ensures !showSectionGuide
    {
      showSectionGuide := false;
    }
  }
}
