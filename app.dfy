/** The top-level page: the loading flag, the current itinerary and the error
    message, the handlers that move between them, and which of the form, the
    spinner and the itinerary view the page shows. */
module App {
  import opened Wrappers
  import opened Types
  import opened GeminiService

  const FailureMessage := "Something went wrong while crafting your journey. Please check your API key and try again."

  /** The sections of `<main>`; the form carries the error banner's text when
      there is one. */
  datatype View = Form(banner: Option<string>) | Spinner | Display(data: GeneratedItinerary)

  /** The three conditional sections, in page order. */
  function Views(isLoading: bool, data: Option<GeneratedItinerary>, error: Option<string>): seq<View>
  {
    (if data.None? && !isLoading then [Form(error)] else [])
    + (if isLoading then [Spinner] else [])
    + (if data.Some? then [Display(data.value)] else [])
  }

  /** The page shows exactly one section unless it is loading while holding
      an itinerary; then it shows the spinner and the itinerary both. */
  lemma ExactlyOneView(isLoading: bool, data: Option<GeneratedItinerary>, error: Option<string>)
    ensures |Views(isLoading, data, error)| == 1 <==> !(isLoading && data.Some?)
    ensures |Views(isLoading, data, error)| >= 1
    ensures Form(error) in Views(isLoading, data, error) <==> data.None? && !isLoading
    ensures Spinner in Views(isLoading, data, error) <==> isLoading
    ensures (exists d :: Display(d) in Views(isLoading, data, error)) <==> data.Some?
    ensures forall v :: v in Views(isLoading, data, error) && v.Form? ==> v.banner == error
  {
    if data.Some? {
      assert Display(data.value) in Views(isLoading, data, error);
    }
  }

  /** The form and the itinerary view never appear together. */
  lemma FormAndDisplayExclusive(isLoading: bool, data: Option<GeneratedItinerary>, error: Option<string>, d: GeneratedItinerary)
    requires Display(d) in Views(isLoading, data, error)
    ensures forall v :: v in Views(isLoading, data, error) ==> !v.Form?
    ensures data == Some(d)
  {
  }

  class AppState {
    var isLoading: bool
    var itineraryData: Option<GeneratedItinerary>
    var error: Option<string>

    /** While loading there is neither an itinerary nor an error, and an
        itinerary on show comes without an error. */
    ghost predicate Valid()
      reads this
    {
      (isLoading ==> itineraryData.None? && error.None?)
      && (itineraryData.Some? ==> error.None?)
    }

    constructor ()
      ensures Valid()
      ensures !isLoading && itineraryData.None? && error.None?
    {
      isLoading := false;
      itineraryData := None;
      error := None;
    }

    /** The first three statements of `handleGenerate`. */
    method BeginGenerate()
      modifies this
      ensures Valid()
      ensures isLoading && error.None? && itineraryData.None?
    {
      isLoading := true;
      error := None;
      itineraryData := None;
    }

    /** The `try` branch followed by `finally`; it runs only after
        `BeginGenerate`, while loading. */
    method CompleteSuccess(data: GeneratedItinerary)
      requires Valid() && isLoading
      modifies this
      ensures Valid()
      ensures itineraryData == Some(data) && !isLoading && error.None?
    {
      itineraryData := Some(data);
      isLoading := false;
    }

    /** The `catch` branch followed by `finally`: whatever was thrown, the
        same message; it too runs only while loading. */
    method CompleteFailure()
      requires Valid() && isLoading
      modifies this
      ensures Valid()
      ensures error == Some(FailureMessage) && !isLoading && itineraryData.None?
    {
      error := Some(FailureMessage);
      isLoading := false;
    }

    /** `handleGenerate`, with the key and the client as parameters and each
        handler step taken whole. */
    method HandleGenerate(prefs: UserPreferences, apiKey: Option<string>, call: Request -> CallOutcome)
      modifies this
      ensures Valid() && !isLoading
      ensures GenerateItinerary(apiKey, prefs, call).Success? ==>
        itineraryData == Some(GenerateItinerary(apiKey, prefs, call).value) && error.None?
      ensures GenerateItinerary(apiKey, prefs, call).Failure? ==>
        itineraryData.None? && error == Some(FailureMessage)
    {
      BeginGenerate();
      var outcome := GenerateItinerary(apiKey, prefs, call);
      if outcome.Success? {
        CompleteSuccess(outcome.value);
      } else {
        CompleteFailure();
      }
    }

    /** `handleReset`: back to the form; loading is left as it was. */
    method HandleReset()
      requires Valid()
      modifies this
      ensures Valid()
      ensures itineraryData.None? && error.None? && isLoading == old(isLoading)
    {
      itineraryData := None;
      error := None;
    }

    /** What `<main>` shows in this state: one section. */
    method Render() returns (views: seq<View>)
      requires Valid()
      ensures views == Views(isLoading, itineraryData, error) && |views| == 1
    {
      ExactlyOneView(isLoading, itineraryData, error);
      views := Views(isLoading, itineraryData, error);
    }
  }

  /** A missing key ends on the form with the failure banner, whatever the
      client would have answered. */
  method MissingKeyShowsBanner(prefs: UserPreferences, call: Request -> CallOutcome) returns (views: seq<View>)
    ensures views == [Form(Some(FailureMessage))]
  {
    var app := new AppState();
    app.HandleGenerate(prefs, None, call);
    views := app.Render();
  }
}
