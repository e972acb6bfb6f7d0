/** The quick-access panel's `Content` component (src/index.tsx): three state
    slots and `logVerseOfTheDay`, which turns one HTTP request for the verse
    of the day into either a verse record or an error message, and always
    ends with the loading flag cleared.

    The request itself is an input: whether `serverAPI` is defined, and how
    `fetch` and `response.json()` turned out. */
module VersePanel {
  import opened Options
  import opened JsValues

  /** What `response.json()` produced: a rejection with its message, or the
      decoded value, `None` when that value is falsy (`null`, `false`, `0`,
      `""`). */
  datatype Body = MalformedJson(reason: string) | Parsed(data: Option<Message>)

  /** How the request turned out: `fetch` rejected with a message, or a
      response with its `ok` flag, `statusText` and body. */
  datatype Outcome =
    | FetchFailed(reason: string)
    | Response(ok: bool, statusText: string, body: Body)

  const NoServerApi := "serverAPI is not defined"
  const NoData := "No data received from the API."
  const InvalidStructure := "Invalid structure: Missing fields."
  const FetchFailure := "Failed to fetch the verse of the day: "

  /** The message the source builds when a decoded reply lacks a truthy
      citation or passage. */
  function InvalidStructureMessage(m: Message): (msg: string)
    ensures |msg| > |InvalidStructure| && msg[..|InvalidStructure|] == InvalidStructure
  {
    InvalidStructure + " Citation: " + Show(m.citation) + ", Passage: " + Show(m.passage)
  }

  class Panel {
    var verse: Option<Verse>
    var error: Option<string>
    var loading: bool

    /** A verse on display has a non-empty citation and passage, and an
        error, once set, is a non-empty string (so the view shows it). */
    ghost predicate Valid()
      reads this
    {
      (verse.Some? ==> verse.value.citation != "" && verse.value.passage != "") &&
      (error.Some? ==> error.value != "")
    }

    constructor ()
      ensures Valid()
      ensures verse == None && error == None && loading
    {
      verse := None;
      error := None;
      loading := true;
    }

    /** `logVerseOfTheDay`. `requested` tells whether a request was made. */
    method LogVerseOfTheDay(serverApi: bool, outcome: Outcome) returns (requested: bool)
      requires Valid()
      modifies this
      ensures Valid()
      ensures !loading
      ensures requested == serverApi
      ensures !serverApi ==> error == Some(NoServerApi) && verse == old(verse)
      ensures serverApi && outcome.FetchFailed? ==>
                error == Some(FetchFailure + outcome.reason) && verse == old(verse)
      ensures serverApi && outcome.Response? && !outcome.ok ==>
                error == Some("Error: " + outcome.statusText) && verse == old(verse)
      ensures serverApi && outcome.Response? && outcome.ok && outcome.body.MalformedJson? ==>
                error == Some(FetchFailure + outcome.body.reason) && verse == old(verse)
      ensures serverApi && outcome.Response? && outcome.ok && outcome.body == Parsed(None) ==>
                error == Some(NoData) && verse == old(verse)
      ensures serverApi && outcome.Response? && outcome.ok && outcome.body.Parsed? &&
              outcome.body.data.Some? ==>
                var m := outcome.body.data.value;
                if Truthy(m.citation) && Truthy(m.passage) then
                  verse == Some(Normalised(m.citation.value, m.passage.value, m)) &&
                  error == old(error)
                else
                  error == Some(InvalidStructureMessage(m)) && verse == old(verse)
    {
      if !serverApi {
        error := Some(NoServerApi);
        loading := false;
        return false;
      }
      requested := true;
      // try
      loading := true;
      match outcome {
        case FetchFailed(reason) =>
          error := Some(FetchFailure + reason);
        case Response(ok, statusText, body) =>
          if !ok {
            error := Some("Error: " + statusText);
            loading := false;
          } else {
            match body {
              case MalformedJson(reason) =>
                error := Some(FetchFailure + reason);
              case Parsed(data) =>
                if data == None {
                  error := Some(NoData);
                  loading := false;
                } else {
                  var m := data.value;
                  if Truthy(m.citation) && Truthy(m.passage) {
                    verse := Some(Normalised(m.citation.value, m.passage.value, m));
                  } else {
                    error := Some(InvalidStructureMessage(m));
                  }
                }
            }
          }
      }
      // finally
      loading := false;
    }
  }

  /** A request that fails with a non-ok status, followed by one that
      succeeds, leaves the first error in state beside the new verse: the
      success path never clears `error`. */
  method ErrorSurvivesSuccess(statusText: string, m: Message) returns (verse: Option<Verse>, error: Option<string>)
    requires Truthy(m.citation) && Truthy(m.passage)
    ensures error == Some("Error: " + statusText)
    ensures verse == Some(Normalised(m.citation.value, m.passage.value, m))
  {
    var panel := new Panel();
    var _ := panel.LogVerseOfTheDay(true, Response(false, statusText, Parsed(None)));
    var _ := panel.LogVerseOfTheDay(true, Response(true, "OK", Parsed(Some(m))));
    verse, error := panel.verse, panel.error;
  }
}
