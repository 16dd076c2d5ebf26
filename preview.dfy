/**
 * What the preview page derives from a CV before rendering it: the PDF file
 * name, the summary bullets, the description lines, the end-date label and
 * the skill-level label.
 */
module Preview {
  import opened Wrappers
  import opened Text
  import opened Lists
  import opened Cv
  import opened App

  // ------------------------------------------------------------ file name

  /** The PDF file name for the CV with the id: its full name with every
      whitespace character turned into `_`, then `_CV.pdf`; when no saved CV
      has the id, the optional chain yields `undefined` as the name. */
  function PdfFilename(saved: seq<CV>, id: string): (r: string)
    ensures EndsWith(r, "_CV.pdf") && NoSpace(r)
    ensures FindIndex(saved, id) == -1 ==> r == "undefined_CV.pdf"
    ensures FindIndex(saved, id) >= 0 ==>
      var name := saved[FindIndex(saved, id)].personalInfo.fullName;
      && |r| == |name| + |"_CV.pdf"|
      && (forall k :: 0 <= k < |name| && IsSpace(name[k]) ==> r[k] == '_')
      && (forall k :: 0 <= k < |name| && !IsSpace(name[k]) ==> r[k] == name[k])
  {
    var i := FindIndex(saved, id);
    var name := if i == -1 then "undefined" else ReplaceSpaces(saved[i].personalInfo.fullName, '_');
    var r := name + "_CV.pdf";
    SuffixAppended(name, "_CV.pdf");
    r
  }

  /** A whitespace-free suffix appended to a whitespace-free name. */
  lemma SuffixAppended(name: string, suffix: string)
    requires NoSpace(name) && NoSpace(suffix)
    ensures NoSpace(name + suffix) && EndsWith(name + suffix, suffix)
    ensures forall k :: 0 <= k < |name| ==> (name + suffix)[k] == name[k]
  {
    assert (name + suffix)[|name|..] == suffix;
  }

  // -------------------------------------------------------------- summary

  predicate NonBlank(s: string) {
    Trim(s) != []
  }

  /** One summary sentence as a bullet: trimmed, with a full stop added
      unless it already ends with one. */
  function Bullet(sentence: string): (r: string)
    requires NonBlank(sentence)
    ensures r != [] && IsTrimmed(r) && EndsWith(r, ".")
    ensures StartsWith(r, Trim(sentence)) && |r| <= |Trim(sentence)| + 1
    ensures EndsWith(Trim(sentence), ".") ==> r == Trim(sentence)
  {
    var t := Trim(sentence);
    if EndsWith(t, ".") then t
    else
      assert (t + ".")[..|t|] == t;
      t + "."
  }

  /** The pieces of `s` split at `sep` that are not blank: each non-blank
      piece as often as the split yields it, no blank one, in the order of the
      split. */
  function NonBlankPieces(s: string, sep: string): (kept: seq<string>)
    requires |sep| > 0
    ensures IsSubsequence(kept, Split(s, sep))
    ensures forall x :: multiset(kept)[x] == if NonBlank(x) then multiset(Split(s, sep))[x] else 0
    ensures |kept| <= Occurrences(s, sep) + 1
    ensures forall k :: 0 <= k < |kept| ==> NonBlank(kept[k])
    ensures AllSpace(s) ==> kept == []
  {
    SplitCount(s, sep);
    BlankPiecesDropped(s, sep);
    FilterExact(Split(s, sep), NonBlank);
    Filter(Split(s, sep), NonBlank)
  }

  lemma BlankPiecesDropped(s: string, sep: string)
    requires |sep| > 0
    ensures AllSpace(s) ==> Filter(Split(s, sep), NonBlank) == []
  {
    if AllSpace(s) {
      SplitOfSpaces(s, sep);
      FilterNone(Split(s, sep), NonBlank);
    }
  }

  /** No piece kept from splitting at a character holds that character. */
  lemma NonBlankPiecesFree(s: string, c: char)
    ensures forall k :: 0 <= k < |NonBlankPieces(s, [c])| ==> c !in NonBlankPieces(s, [c])[k]
  {
    var pieces := Split(s, [c]);
    SplitCharPieces(s, c);
    forall k | 0 <= k < |NonBlankPieces(s, [c])| ensures c !in NonBlankPieces(s, [c])[k] {
      assert NonBlankPieces(s, [c])[k] in pieces;
    }
  }

  /** The summary split at `". "`, blank sentences dropped, each remaining one
      a bullet, in the order of the summary: at most one bullet more than there
      are separators, every bullet non-empty, trimmed and ending in a full
      stop, and none for a blank summary. */
  function SummaryBullets(summary: string): (r: seq<string>)
    ensures |r| == |NonBlankPieces(summary, ". ")|
    ensures forall k :: 0 <= k < |r| ==> r[k] == Bullet(NonBlankPieces(summary, ". ")[k])
    ensures |r| <= Occurrences(summary, ". ") + 1
    ensures forall k :: 0 <= k < |r| ==> r[k] != [] && IsTrimmed(r[k]) && EndsWith(r[k], ".")
    ensures AllSpace(summary) ==> r == []
  {
    if summary == "" then []
    else
      var kept := NonBlankPieces(summary, ". ");
      seq(|kept|, k requires 0 <= k < |kept| => Bullet(kept[k]))
  }

  /** A summary that is one non-blank sentence gives that one bullet. */
  lemma OneSentenceSummary(summary: string)
    requires NonBlank(summary) && Occurrences(summary, ". ") == 0
    ensures SummaryBullets(summary) == [Bullet(summary)]
  {
    SplitWithoutSeparator(summary, ". ");
  }

  // --------------------------------------------------------- descriptions

  /** An entry's description split at line breaks, blank lines dropped, the
      rest trimmed, in the order of the description: at most one line more
      than there are line breaks, every line non-empty, trimmed and without a
      line break, and none for a blank description. */
  function DescriptionLines(description: string): (r: seq<string>)
    ensures |r| == |NonBlankPieces(description, "\n")|
    ensures forall k :: 0 <= k < |r| ==> r[k] == Trim(NonBlankPieces(description, "\n")[k])
    ensures |r| <= multiset(description)['\n'] + 1
    ensures forall k :: 0 <= k < |r| ==> r[k] != [] && IsTrimmed(r[k]) && '\n' !in r[k]
    ensures AllSpace(description) ==> r == []
  {
    if description == "" then []
    else
      var kept := NonBlankPieces(description, "\n");
      OccurrencesOfChar(description, '\n');
      NonBlankPiecesFree(description, '\n');
      var r := seq(|kept|, k requires 0 <= k < |kept| => Trim(kept[k]));
      assert forall k :: 0 <= k < |r| ==> '\n' !in r[k] by {
        forall k | 0 <= k < |r| ensures '\n' !in r[k] {
          TrimChars(kept[k], '\n');
        }
      }
      r
  }

  /** A non-blank description without a line break is shown as one line,
      trimmed. */
  lemma SingleLineDescription(description: string)
    requires NonBlank(description) && '\n' !in description
    ensures DescriptionLines(description) == [Trim(description)]
  {
    OccurrencesOfChar(description, '\n');
    SplitWithoutSeparator(description, "\n");
  }

  // ---------------------------------------------------------------- dates

  /** The end of a date range: a formatted date, or the word `Present`. */
  datatype DateLabel = Present | FormattedDate(raw: string)

  /** An empty end date reads `Present`; any other is formatted. */
  function EndLabel(endDate: string): (r: DateLabel)
    ensures r == Present <==> endDate == ""
    ensures r.FormattedDate? ==> r.raw == endDate
  {
    if endDate != "" then FormattedDate(endDate) else Present
  }

  // --------------------------------------------------------------- skills

  const LevelNames: seq<string> := ["Beginner", "Elementary", "Intermediate", "Advanced", "Expert"]

  /** The label of a skill level: levels 1 to 5 are named in order, any other
      level indexes past the list and shows nothing. */
  function SkillLevelLabel(level: int): (r: Option<string>)
    ensures r.Some? <==> 1 <= level <= 5
    ensures r.Some? ==> r.value == LevelNames[level - 1]
  {
    if 1 <= level <= |LevelNames| then Some(LevelNames[level - 1]) else None
  }

  /** Distinct levels get distinct labels: the label determines the level. */
  lemma SkillLevelLabelInjective(a: int, b: int)
    requires SkillLevelLabel(a).Some? && SkillLevelLabel(a) == SkillLevelLabel(b)
    ensures a == b
  {
  }
}
