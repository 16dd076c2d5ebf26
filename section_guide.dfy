/**
 * The section guide: a list of CV sections of which at most one is
 * expanded, each with a button that switches the editor to the tab where
 * that section is written and closes the guide.
 */
module SectionGuide {
  import opened Wrappers
  import opened Editor

  /** The sections the guide explains, in display order. */
  const SectionIds: seq<string> := ["summary", "technical", "education", "research", "volunteering"]

  /** Clicking a section's header: the expanded section closes, any other
      one opens (closing the one that was open). */
  function Toggled(expanded: Option<string>, section: string): (r: Option<string>)
    ensures r == None <==> expanded == Some(section)
    ensures r.Some? ==> r.value == section
  {
    if expanded == Some(section) then None else Some(section)
  }

  /** Clicking the same header twice restores what was expanded before
      whenever that was nothing or a different section. */
  lemma ToggleTwice(expanded: Option<string>, section: string)
    ensures Toggled(Toggled(expanded, section), section) == (if expanded == Some(section) then Some(section) else None)
  {
  }

  /** The editor tab a section's "Go to Section" button opens. */
  function TargetTab(sectionId: string): (tab: string)
    ensures tab in EditorTabs
    ensures sectionId == "summary" <==> tab == "personal"
    ensures tab == "skills" <==> sectionId == "technical" || sectionId == "research"
    ensures tab == "education" <==> sectionId == "education"
    ensures tab == "experience" <==> sectionId !in {"summary", "technical", "research", "education"}
  {
    if sectionId == "summary" then "personal"
    else if sectionId == "technical" || sectionId == "research" then "skills"
    else if sectionId == "education" then "education"
    else "experience"
  }

  /** Every section of the guide leads to a tab, and every tab but
      `experience` is reached from exactly the sections named for it;
      volunteering work is written under experience. */
  lemma EveryTabReached()
    ensures forall t :: t in EditorTabs ==> exists k :: 0 <= k < |SectionIds| && TargetTab(SectionIds[k]) == t
  {
    assert TargetTab(SectionIds[0]) == "personal";
    assert TargetTab(SectionIds[1]) == "skills";
    assert TargetTab(SectionIds[2]) == "education";
    assert TargetTab(SectionIds[4]) == "experience";
  }

  class Guide {
    var expandedSection: Option<string>

    /** The guide opens with the summary section expanded. */
    constructor ()
      ensures expandedSection == Some("summary")
    {
      expandedSection := Some("summary");
    }

    method ToggleSection(section: string)
      modifies this
      ensures expandedSection == Toggled(old(expandedSection), section)
    {
      expandedSection := if expandedSection == Some(section) then None else Some(section);
    }
  }

  /** The "Go to Section" button: the editor shows the section's tab and the
      guide closes. */
  method GoToSection(editor: EditorState, sectionId: string)
    modifies editor`activeSection, editor`showSectionGuide
    ensures editor.activeSection == TargetTab(sectionId) && editor.activeSection in EditorTabs
    ensures !editor.showSectionGuide
  {
    editor.NavigateToSection(TargetTab(sectionId));
    editor.CloseSectionGuide();
  }
}
