/** The dashboard's search over the saved CVs. */
module Dashboard {
  import opened Text
  import opened Lists
  import opened Cv

  /** A CV matches when its title or its owner's full name contains the
      term, all three lower-cased. */
  predicate MatchesSearch(cv: CV, term: string): (r: bool)
    ensures term == "" ==> r
    ensures Includes(cv.title, term) || Includes(cv.personalInfo.fullName, term) ==> r
  {
    assert term == "" ==> Includes(Lower(cv.title), Lower(term)) by {
      if term == "" {
        assert Lower(term) == "";
        IncludesEmpty(Lower(cv.title));
      }
    }
    assert Includes(cv.title, term) || Includes(cv.personalInfo.fullName, term) ==>
      Includes(Lower(cv.title), Lower(term)) || Includes(Lower(cv.personalInfo.fullName), Lower(term)) by {
      if Includes(cv.title, term) {
        IncludesLower(cv.title, term);
      } else if Includes(cv.personalInfo.fullName, term) {
        IncludesLower(cv.personalInfo.fullName, term);
      }
    }
    Includes(Lower(cv.title), Lower(term)) || Includes(Lower(cv.personalInfo.fullName), Lower(term))
  }

  /** The CVs the dashboard lists for a search term: exactly the matching
      saved CVs, in their saved order, each as often as it is saved. */
  function FilterCVs(saved: seq<CV>, term: string): (r: seq<CV>)
    ensures |r| <= |saved|
    ensures forall cv :: cv in r <==> cv in saved && MatchesSearch(cv, term)
    ensures IsSubsequence(r, saved)
    ensures forall cv :: multiset(r)[cv] == if MatchesSearch(cv, term) then multiset(saved)[cv] else 0
  {
    FilterExact(saved, cv => MatchesSearch(cv, term));
    Filter(saved, cv => MatchesSearch(cv, term))
  }

  /** An empty search lists every saved CV. */
  lemma EmptySearchKeepsAll(saved: seq<CV>)
    ensures FilterCVs(saved, "") == saved
  {
    assert Lower("") == "";
    forall k | 0 <= k < |saved| ensures MatchesSearch(saved[k], "") {
      IncludesEmpty(Lower(saved[k].title));
    }
  }

  /** The search ignores the case of the term. */
  lemma SearchIgnoresCase(saved: seq<CV>, term: string)
    ensures FilterCVs(saved, Lower(term)) == FilterCVs(saved, term)
  {
    LowerIdempotent(term);
    FilterCongruent(saved, cv => MatchesSearch(cv, Lower(term)), cv => MatchesSearch(cv, term));
  }

  /** Lengthening the term around what was typed can only narrow the list:
      every CV found for the longer term is found for the shorter one. */
  lemma SearchNarrows(saved: seq<CV>, shorter: string, longer: string)
    requires Includes(longer, shorter)
    ensures forall cv :: cv in FilterCVs(saved, longer) ==> cv in FilterCVs(saved, shorter)
  {
    IncludesLower(longer, shorter);
    forall cv | MatchesSearch(cv, longer) ensures MatchesSearch(cv, shorter) {
      if Includes(Lower(cv.title), Lower(longer)) {
        IncludesTransitive(Lower(cv.title), Lower(longer), Lower(shorter));
      } else {
        IncludesTransitive(Lower(cv.personalInfo.fullName), Lower(longer), Lower(shorter));
      }
    }
  }

  /** Searching the search result again with the same term changes nothing. */
  lemma SearchIdempotent(saved: seq<CV>, term: string)
    ensures FilterCVs(FilterCVs(saved, term), term) == FilterCVs(saved, term)
  {
    FilterIdempotent(saved, cv => MatchesSearch(cv, term));
  }
}
