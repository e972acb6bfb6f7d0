/** The `useVOTD` hook (src/getVOTD.tsx): four state slots and the handlers
    of the verse-of-the-day socket. Each handler call is one event; the raw
    frame is given already classified by what `JSON.parse` made of it. */
module VotdHook {
  import opened Options
  import opened JsValues

  const SocketError := "WebSocket error occurred."

  /** Whether the handler throws before its last statement: on a frame
      that does not parse, on `null`, and on a message whose citation is
      truthy and whose passage is missing or `null` (`passage.toString()`). */
  predicate Throws(f: Frame) {
    f.Unparseable? || f.JsonNull? ||
    (f.Decoded? && !Truthy(f.m.error) && Truthy(f.m.citation) && !f.m.passage.Value?)
  }

  class VotdState {
    var verseOfTheDay: Option<Verse>
    var error: Option<string>
    var loading: bool
    var updateAvailable: Option<bool>

    /** A verse held in state has a non-empty citation (its passage may be
        empty), and an error, once set, is a non-empty string. */
    ghost predicate Valid()
      reads this
    {
      (verseOfTheDay.Some? ==> verseOfTheDay.value.citation != "") &&
      (error.Some? ==> error.value != "")
    }

    constructor ()
      ensures Valid()
      ensures verseOfTheDay == None && error == None && loading && updateAvailable == None
    {
      verseOfTheDay := None;
      error := None;
      loading := true;
      updateAvailable := None;
    }

    /** The start of `fetchVerseOfTheDay`, before the socket is opened. */
    method FetchVerseOfTheDay()
      requires Valid()
      modifies this
      ensures Valid()
      ensures loading
      ensures verseOfTheDay == old(verseOfTheDay) && error == old(error)
      ensures updateAvailable == old(updateAvailable)
    {
      loading := true;
    }

    /** `socket.onmessage`. `threw` tells whether the handler threw. */
    method OnMessage(f: Frame) returns (threw: bool)
      requires Valid()
      modifies this
      ensures Valid()
      ensures threw == Throws(f)
      ensures threw ==>
                verseOfTheDay == old(verseOfTheDay) && error == old(error) &&
                loading == old(loading) && updateAvailable == old(updateAvailable)
      ensures !threw ==> !loading
      ensures !threw && f.Decoded? && f.m.status == Value("Up-to-date") ==> updateAvailable == Some(false)
      ensures !threw && f.Decoded? && f.m.status == Value("Update Available") ==> updateAvailable == Some(true)
      ensures (!threw && f.Decoded? && f.m.status != Value("Up-to-date") &&
               f.m.status != Value("Update Available")) ==> updateAvailable == old(updateAvailable)
      ensures !threw && f.Decoded? && Truthy(f.m.error) ==>
                error == Some(f.m.error.value) && verseOfTheDay == old(verseOfTheDay)
      ensures !threw && f.Decoded? && !Truthy(f.m.error) && Truthy(f.m.citation) ==>
                verseOfTheDay == Some(Normalised(f.m.citation.value, f.m.passage.value, f.m)) &&
                error == old(error)
      ensures !threw && f.Decoded? && !Truthy(f.m.error) && !Truthy(f.m.citation) ==>
                verseOfTheDay == old(verseOfTheDay) && error == old(error)
    {
      if f.Unparseable? || f.JsonNull? {
        return true;
      }
      var m := f.m;
      if Truthy(m.error) {
        error := Some(m.error.value);
      } else if Truthy(m.citation) {
        if !m.passage.Value? {
          return true;
        }
        verseOfTheDay := Some(Normalised(m.citation.value, m.passage.value, m));
      }
      if m.status == Value("Up-to-date") {
        updateAvailable := Some(false);
      } else if m.status == Value("Update Available") {
        updateAvailable := Some(true);
      }
      loading := false;
      threw := false;
    }

    /** `socket.onerror`. */
    method OnError()
      requires Valid()
      modifies this
      ensures Valid()
      ensures error == Some(SocketError) && !loading
      ensures verseOfTheDay == old(verseOfTheDay) && updateAvailable == old(updateAvailable)
    {
      error := Some(SocketError);
      loading := false;
    }
  }

  /** A fresh hook that receives one status-only message with the lower-case
      spelling "Update available" still does not know whether an update
      exists, although it has stopped loading. */
  method LowerCaseStatusIgnored(m: Message) returns (updateAvailable: Option<bool>, loading: bool)
    requires m.status == Value("Update available")
    requires !Truthy(m.error) && !Truthy(m.citation)
    ensures updateAvailable == None && !loading
  {
    var hook := new VotdState();
    hook.FetchVerseOfTheDay();
    var _ := hook.OnMessage(Decoded(m));
    updateAvailable, loading := hook.updateAvailable, hook.loading;
  }

  /** A first frame that makes the handler throw (it does not parse, it is
      `null`, or it has a citation and no passage) leaves a fresh hook
      loading, with no verse and no error to show. */
  method ThrowingFrameKeepsLoading(f: Frame) returns (verse: Option<Verse>, error: Option<string>, loading: bool)
    requires Throws(f)
    ensures loading && verse == None && error == None
  {
    var hook := new VotdState();
    hook.FetchVerseOfTheDay();
    var _ := hook.OnMessage(f);
    verse, error, loading := hook.verseOfTheDay, hook.error, hook.loading;
  }
}
