/**
 * The selection logic of the `ApplicationEndPoint` page: the applicant's
 * loaded competence profiles and availability periods (by id), the ids
 * selected from each for the application, the click that selects or
 * deselects one id, and the guard in front of the submission request.
 */
module ApplicationForm {
  import opened Wrappers

  /** Every occurrence of `x` dropped from `s`; the other entries keep their order (`filter`). */
  function RemoveAll(s: seq<int>, x: int): (r: seq<int>)
    ensures x !in r
    ensures forall y :: y != x ==> multiset(r)[y] == multiset(s)[y]
  {
    if s == [] then []
    else
      assert s == [s[0]] + s[1..];
      if s[0] == x then RemoveAll(s[1..], x) else [s[0]] + RemoveAll(s[1..], x)
  }

  lemma {:induction false} RemoveAllAppend(a: seq<int>, b: seq<int>, x: int)
    ensures RemoveAll(a + b, x) == RemoveAll(a, x) + RemoveAll(b, x)
  {
    if a != [] {
      assert (a + b)[1..] == a[1..] + b;
      RemoveAllAppend(a[1..], b, x);
    } else {
      assert a + b == b;
    }
  }

  lemma {:induction false} RemoveAbsent(s: seq<int>, x: int)
    requires x !in s
    ensures RemoveAll(s, x) == s
  {
    if s != [] {
      RemoveAbsent(s[1..], x);
    }
  }

  /**
   * One click on the id `id`. An id not among the loaded ones changes
   * nothing. The presence test is `find`'s truthiness, so a selected 0 is not
   * seen: 0 is appended again rather than removed.
   */
  function Toggle(loaded: seq<int>, selected: seq<int>, id: int): (r: seq<int>)
    ensures id !in loaded ==> r == selected
    ensures id in loaded && (id == 0 || id !in selected) ==> r == selected + [id]
    ensures id in loaded && id != 0 && id in selected ==> id !in r
    ensures forall y :: y != id ==> multiset(r)[y] == multiset(selected)[y]
  {
    if id !in loaded then selected
    else if id != 0 && id in selected then RemoveAll(selected, id)
    else selected + [id]
  }

  /** Selecting an unselected id and then clicking it again restores the selection exactly. */
  lemma {:induction false} ToggleTwiceRestores(loaded: seq<int>, selected: seq<int>, id: int)
    requires id in loaded && id != 0 && id !in selected
    ensures Toggle(loaded, selected, id) == selected + [id]
    ensures Toggle(loaded, Toggle(loaded, selected, id), id) == selected
  {
    RemoveAllAppend(selected, [id], id);
    RemoveAbsent(selected, id);
    assert RemoveAll([id], id) == [];
  }

  /** Clicking a selected, non-zero id removes every occurrence of it and keeps every other id, with its count. */
  lemma DeselectRemovesAll(loaded: seq<int>, selected: seq<int>, id: int)
    requires id in loaded && id != 0 && id in selected
    ensures id !in Toggle(loaded, selected, id)
    ensures forall y :: y != id ==> multiset(Toggle(loaded, selected, id))[y] == multiset(selected)[y]
  {
  }

  /** The id 0 is never seen as selected: each click appends it once more. */
  lemma ZeroAppendedAgain(loaded: seq<int>, selected: seq<int>)
    requires 0 in loaded
    ensures Toggle(loaded, selected, 0) == selected + [0]
    ensures multiset(Toggle(loaded, Toggle(loaded, selected, 0), 0))[0] == multiset(selected)[0] + 2
  {
  }

  /** Only loaded ids can get selected, and no non-zero id is ever selected twice. */
  predicate SelectionInvariant(loaded: seq<int>, selected: seq<int>)
  {
    && (forall i :: 0 <= i < |selected| ==> selected[i] in loaded)
    && (forall i, j :: 0 <= i < j < |selected| && selected[i] != 0 ==> selected[i] != selected[j])
  }

  lemma {:induction false} ToggleKeepsInvariant(loaded: seq<int>, selected: seq<int>, id: int)
    requires SelectionInvariant(loaded, selected)
    ensures SelectionInvariant(loaded, Toggle(loaded, selected, id))
  {
    if id in loaded && !(id != 0 && id in selected) {
      var r := selected + [id];
      forall i, j | 0 <= i < j < |r| && r[i] != 0
        ensures r[i] != r[j]
      {
        if j == |selected| {
          assert r[i] == selected[i];
        }
      }
    } else if id in loaded {
      RemoveAllKeepsInvariant(loaded, selected, id);
    }
  }

  lemma {:induction false} RemoveAllKeepsInvariant(loaded: seq<int>, selected: seq<int>, id: int)
    requires SelectionInvariant(loaded, selected)
    ensures SelectionInvariant(loaded, RemoveAll(selected, id))
  {
    if selected != [] {
      var tail := selected[1..];
      assert SelectionInvariant(loaded, tail) by {
        assert forall i :: 0 <= i < |tail| ==> tail[i] == selected[i + 1];
      }
      RemoveAllKeepsInvariant(loaded, tail, id);
      if selected[0] != id {
        var r := [selected[0]] + RemoveAll(tail, id);
        assert selected[0] != 0 ==> selected[0] !in tail by {
          assert forall j :: 0 <= j < |tail| ==> tail[j] == selected[j + 1];
        }
        forall i, j | 0 <= i < j < |r| && r[i] != 0
          ensures r[i] != r[j]
        {
          if i == 0 {
            assert r[j] in multiset(RemoveAll(tail, id));
          }
        }
      }
    }
  }

  /** The JSON body of the submission request. */
  datatype RequestBody = RequestBody(personId: string, availabilityIds: seq<int>, competenceProfileIds: seq<int>)

  class ApplicationEndPoint {
    var personId: string
    /** Ids of the applicant's loaded competence profiles. */
    var competenceProfiles: seq<int>
    /** Ids of the applicant's loaded availability periods. */
    var availability: seq<int>
    var competenceProfileIds: seq<int>
    var availabilityIds: seq<int>

    predicate Valid()
      reads this
    {
      SelectionInvariant(competenceProfiles, competenceProfileIds) && SelectionInvariant(availability, availabilityIds)
    }

    /** The page's initial state: every list empty and no person id. */
    constructor ()
      ensures personId == "" && competenceProfiles == [] && availability == []
      ensures competenceProfileIds == [] && availabilityIds == []
      ensures Valid()
    {
      personId, competenceProfiles, availability := "", [], [];
      competenceProfileIds, availabilityIds := [], [];
    }

    /** `handleSelectCompetence`: toggles one profile id; nothing else changes. */
    method HandleSelectCompetence(selectedId: int)
      modifies this
      requires Valid()
      ensures competenceProfileIds == Toggle(competenceProfiles, old(competenceProfileIds), selectedId)
      ensures personId == old(personId) && competenceProfiles == old(competenceProfiles)
      ensures availability == old(availability) && availabilityIds == old(availabilityIds)
      ensures Valid()
    {
      ToggleKeepsInvariant(competenceProfiles, competenceProfileIds, selectedId);
      if selectedId in competenceProfiles {
        if selectedId != 0 && selectedId in competenceProfileIds {
          competenceProfileIds := RemoveAll(competenceProfileIds, selectedId);
        } else {
          competenceProfileIds := competenceProfileIds + [selectedId];
        }
      }
    }

    /** `handleSelectAvailability`: the same toggle over the availability ids. */
    method HandleSelectAvailability(selectedId: int)
      modifies this
      requires Valid()
      ensures availabilityIds == Toggle(availability, old(availabilityIds), selectedId)
      ensures personId == old(personId) && competenceProfiles == old(competenceProfiles)
      ensures availability == old(availability) && competenceProfileIds == old(competenceProfileIds)
      ensures Valid()
    {
      ToggleKeepsInvariant(availability, availabilityIds, selectedId);
      if selectedId in availability {
        if selectedId != 0 && selectedId in availabilityIds {
          availabilityIds := RemoveAll(availabilityIds, selectedId);
        } else {
          availabilityIds := availabilityIds + [selectedId];
        }
      }
    }

    /**
     * `submitApplication`'s guard and body: blocked when the person id is
     * empty or either loaded list is empty (the selections are not checked);
     * otherwise the body carries the person id and both selections as they are.
     */
    method SubmitApplication() returns (request: Option<RequestBody>)
      ensures request.None? <==> personId == "" || |availability| == 0 || |competenceProfiles| == 0
      ensures request.Some? ==> request.value == RequestBody(personId, availabilityIds, competenceProfileIds)
    {
      if personId == "" || |availability| == 0 || |competenceProfiles| == 0 {
        return None;
      }
      request := Some(RequestBody(personId, availabilityIds, competenceProfileIds));
    }
  }
}
