/** The preferences form: three state fields (season, pace and the selected
    interest ids), their setters, the interest toggle and the submission of
    the current values. */
module ItineraryForm {
  import opened Seqs
  import opened Types

  /** The ids of the interest buttons, in display order. */
  const InterestIds: seq<string> := ["history", "food", "anime", "nature", "shopping", "tech"]

  /** The filter callback `i => i !== id`. */
  function Except(id: string): string -> bool
  {
    x => x != id
  }

  /** `prev.includes(id) ? prev.filter(i => i !== id) : [...prev, id]` */
  function Toggle(prev: seq<string>, id: string): (next: seq<string>)
    ensures id in next <==> id !in prev
  {
    if id in prev then Filter(prev, Except(id)) else prev + [id]
  }

  /** An id that is not selected is appended after the existing selection,
      which is left as it was. */
  lemma {:induction false} ToggleAbsentAppends(prev: seq<string>, id: string)
    requires id !in prev
    ensures |Toggle(prev, id)| == |prev| + 1
    ensures Toggle(prev, id)[..|prev|] == prev && Toggle(prev, id)[|prev|] == id
  {
  }

  /** An id that is selected is removed, every occurrence of it, and all
      the other ids stay; the removal keeps their relative order, in that it
      acts on each part of the list separately. */
  lemma {:induction false} TogglePresentRemoves(prev: seq<string>, id: string)
    requires id in prev
    ensures forall i :: 0 <= i < |Toggle(prev, id)| ==> Toggle(prev, id)[i] in prev
    ensures forall i :: 0 <= i < |prev| && prev[i] != id ==> prev[i] in Toggle(prev, id)
    ensures |Toggle(prev, id)| == |prev| - Count(prev, x => x == id)
    ensures forall a, b :: a + b == prev ==> Toggle(prev, id) == Filter(a, Except(id)) + Filter(b, Except(id))
  {
    FilterLength(prev, Except(id));
    CountComplement(prev, id);
    forall a, b | a + b == prev
      ensures Toggle(prev, id) == Filter(a, Except(id)) + Filter(b, Except(id))
    {
      FilterConcat(a, b, Except(id));
    }
  }

  /** Elements kept plus elements equal to `id` account for the whole list. */
  lemma {:induction false} CountComplement(s: seq<string>, id: string)
    ensures Count(s, Except(id)) + Count(s, x => x == id) == |s|
  {
    if s != [] {
      CountComplement(s[1..], id);
    }
  }

  /** Toggling an id that is not selected twice gives the selection back. */
  lemma {:induction false} ToggleTwiceRestores(prev: seq<string>, id: string)
    requires id !in prev
    ensures Toggle(Toggle(prev, id), id) == prev
  {
    var once := prev + [id];
    assert id in once;
    FilterConcat(prev, [id], Except(id));
    FilterKeepsAll(prev, Except(id));
    assert Filter([id], Except(id)) == [];
  }

  /** Toggling a selected id twice does not restore the selection when it
      was not last: it moves to the end. */
  lemma ToggleTwiceMovesToEnd()
    ensures Toggle(Toggle(["food", "anime"], "food"), "food") == ["anime", "food"]
  {
    var once := Toggle(["food", "anime"], "food");
    assert once == ["anime"] by {
      assert "food" in ["food", "anime"];
      assert Filter(["food", "anime"], Except("food")) == ["anime"] by {
        assert ["food", "anime"][1..] == ["anime"];
        assert Filter(["anime"], Except("food")) == ["anime"] by {
          assert ["anime"][1..] == [];
        }
      }
    }
  }

  /** A selection without duplicates stays without duplicates. */
  lemma {:induction false} ToggleKeepsNoDup(prev: seq<string>, id: string)
    requires NoDup(prev)
    ensures NoDup(Toggle(prev, id))
  {
    if id in prev {
      FilterNoDup(prev, Except(id));
    }
  }

  /** Nothing limits the number of selected interests: four buttons pressed
      in turn select four ids, although the label asks for at most three. */
  lemma NoSelectionCap()
    ensures |Toggle(Toggle(Toggle(Toggle([], InterestIds[0]), InterestIds[1]), InterestIds[2]), InterestIds[3])| == 4
  {
    var s1 := Toggle([], InterestIds[0]);
    assert s1 == ["history"];
    var s2 := Toggle(s1, InterestIds[1]);
    assert s2 == ["history", "food"];
    var s3 := Toggle(s2, InterestIds[2]);
    assert s3 == ["history", "food", "anime"];
  }

  /** The form's state. */
  class FormState {
    var season: Season
    var pace: Pace
    var selectedInterests: seq<string>

    ghost predicate Valid()
      reads this
    {
      NoDup(selectedInterests)
    }

    /** Spring, Balanced and nothing selected. */
    constructor ()
      ensures Valid()
      ensures season == Spring && pace == Balanced && selectedInterests == []
    {
      season := Spring;
      pace := Balanced;
      selectedInterests := [];
    }

    method SetSeason(s: Season)
      requires Valid()
      modifies this
      ensures Valid()
      ensures season == s && pace == old(pace) && selectedInterests == old(selectedInterests)
    {
      season := s;
    }

    method SetPace(p: Pace)
      requires Valid()
      modifies this
      ensures Valid()
      ensures pace == p && season == old(season) && selectedInterests == old(selectedInterests)
    {
      pace := p;
    }

    method ToggleInterest(id: string)
      requires Valid()
      modifies this
      ensures Valid()
      ensures selectedInterests == Toggle(old(selectedInterests), id)
      ensures season == old(season) && pace == old(pace)
    {
      ToggleKeepsNoDup(selectedInterests, id);
      selectedInterests := Toggle(selectedInterests, id);
    }

    /** `handleSubmit`: what `onSubmit` receives; the form itself is unchanged. */
    method Submit() returns (prefs: UserPreferences)
      requires Valid()
      ensures prefs.season == season && prefs.pace == pace && prefs.interests == selectedInterests
      ensures NoDup(prefs.interests)
    {
      prefs := UserPreferences(season, pace, selectedInterests);
    }
  }
}
