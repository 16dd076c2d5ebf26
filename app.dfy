/** The application's list of saved CVs and its two updates: save (insert or
    replace by id) and delete (by id). */
module App {
  import opened Cv
  import opened Lists

  /** Ids are pairwise distinct. */
  predicate UniqueIds(cvs: seq<CV>) {
    forall a, b :: 0 <= a < b < |cvs| ==> cvs[a].id != cvs[b].id
  }

  /** `cvs.findIndex(item => item.id === id)`: the first index holding `id`,
      or -1 when no CV has it. */
  function FindIndex(cvs: seq<CV>, id: string): (r: int)
    ensures -1 <= r < |cvs|
    ensures r >= 0 ==> cvs[r].id == id && forall k :: 0 <= k < r ==> cvs[k].id != id
    ensures r == -1 <==> forall k :: 0 <= k < |cvs| ==> cvs[k].id != id
    decreases |cvs|
  {
    if cvs == [] then -1
    else if cvs[0].id == id then 0
    else
      var r := FindIndex(cvs[1..], id);
      if r < 0 then -1 else r + 1
  }

  /** The list after saving `cv`: the CV at the first index holding its id is
      replaced and the length kept; when no CV has the id, `cv` is appended.
      Either way every other position is untouched and `cv` is in the list. */
  function Upserted(prev: seq<CV>, cv: CV): (r: seq<CV>)
    ensures var i := FindIndex(prev, cv.id);
      if i >= 0 then |r| == |prev| && r[i] == cv && forall k :: 0 <= k < |r| && k != i ==> r[k] == prev[k]
      else |r| == |prev| + 1 && r[..|prev|] == prev && r[|prev|] == cv
    ensures cv in r
  {
    var i := FindIndex(prev, cv.id);
    if i >= 0 then prev[i := cv] else prev + [cv]
  }

  /** Saving keeps ids unique. */
  lemma UpsertKeepsIdsUnique(prev: seq<CV>, cv: CV)
    requires UniqueIds(prev)
    ensures UniqueIds(Upserted(prev, cv))
  {
    var r := Upserted(prev, cv);
    var i := FindIndex(prev, cv.id);
    if i >= 0 {
      assert forall k :: 0 <= k < |r| ==> r[k].id == prev[k].id;
    } else {
      assert forall k :: 0 <= k < |prev| ==> r[k].id == prev[k].id;
    }
  }

  /** Saving the same CV twice is saving it once. */
  lemma UpsertIdempotent(prev: seq<CV>, cv: CV)
    ensures Upserted(Upserted(prev, cv), cv) == Upserted(prev, cv)
  {
    var r := Upserted(prev, cv);
    var i := FindIndex(prev, cv.id);
    if i < 0 {
      assert r[|prev|] == cv;
      assert FindIndex(r, cv.id) == |prev|;
    } else {
      assert FindIndex(r, cv.id) == i;
    }
  }

  /** The list after deleting `id`: exactly the CVs with another id, in their
      order, each as often as before; unchanged when no CV has the id. */
  function Deleted(prev: seq<CV>, id: string): (r: seq<CV>)
    ensures forall cv :: cv in r <==> cv in prev && cv.id != id
    ensures forall cv :: multiset(r)[cv] == if cv.id != id then multiset(prev)[cv] else 0
    ensures IsSubsequence(r, prev)
    ensures FindIndex(prev, id) == -1 ==> r == prev
  {
    WithoutKey(prev, id, CvId)
  }

  /** Deleting twice is deleting once. */
  lemma DeleteIdempotent(prev: seq<CV>, id: string)
    ensures Deleted(Deleted(prev, id), id) == Deleted(prev, id)
  {
    WithoutKeyIdempotent(prev, id, CvId);
  }

  /** Deleting a CV just saved removes it and everything that shared its id:
      the result is as if it had never been saved. */
  lemma DeleteAfterSave(prev: seq<CV>, cv: CV)
    ensures Deleted(Upserted(prev, cv), cv.id) == Deleted(prev, cv.id)
  {
    var i := FindIndex(prev, cv.id);
    if i >= 0 {
      WithoutKeyReplace(prev, i, cv, cv.id, CvId);
    } else {
      WithoutKeyAppend(prev, cv, cv.id, CvId);
    }
  }

  /** The state holding the saved CVs (the `savedCVs` state of the app). */
  class CvStore {
    var savedCVs: seq<CV>

    constructor (initial: seq<CV>)
      ensures savedCVs == initial
    {
      savedCVs := initial;
    }

    /** Add or update a CV. */
    method SaveCV(cv: CV)
      modifies this
      ensures savedCVs == Upserted(old(savedCVs), cv)
    {
      var existingIndex := FindIndex(savedCVs, cv.id);
      if existingIndex >= 0 {
        var updated := savedCVs;
        updated := updated[existingIndex := cv];
        savedCVs := updated;
      } else {
        savedCVs := savedCVs + [cv];
      }
    }

    /** Delete every CV with the given id. */
    method DeleteCV(id: string)
      modifies this
      ensures savedCVs == Deleted(old(savedCVs), id)
    {
      savedCVs := Deleted(savedCVs, id);
    }
  }
}
