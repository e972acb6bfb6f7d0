/** The `useUpdateInfo` hook (src/getUpdate.tsx): three state slots and the
    handlers of the update-check socket. */
module UpdateHook {
  import opened Options
  import opened JsValues

  /** The update information kept in state, copied from the message as it
      is: nothing checks `status` against the values the interface names,
      and a missing property is kept as `undefined`. */
  datatype UpdateInfo = UpdateInfo(
    status: Nullish<string>,
    localVersion: Nullish<string>,
    githubVersion: Nullish<string>)

  const CheckSocketError := "WebSocket error occurred while checking for updates."

  class UpdateState {
    var updateInfo: Option<UpdateInfo>
    var error: Option<string>
    var loading: bool

    /** An error, once set, is a non-empty string. */
    ghost predicate Valid()
      reads this
    {
      error.Some? ==> error.value != ""
    }

    constructor ()
      ensures Valid()
      ensures updateInfo == None && error == None && loading
    {
      updateInfo := None;
      error := None;
      loading := true;
    }

    /** The start of `fetchUpdateInfo`, before the socket is opened. */
    method FetchUpdateInfo()
      requires Valid()
      modifies this
      ensures Valid()
      ensures loading
      ensures updateInfo == old(updateInfo) && error == old(error)
    {
      loading := true;
    }

    /** `socket.onmessage`. `threw` tells whether the handler threw, which
        only a frame that does not parse or the literal `null` makes it do. */
    method OnMessage(f: Frame) returns (threw: bool)
      requires Valid()
      modifies this
      ensures Valid()
      ensures threw == (f.Unparseable? || f.JsonNull?)
      ensures threw ==>
                updateInfo == old(updateInfo) && error == old(error) && loading == old(loading)
      ensures !threw ==> !loading
      ensures !threw && Truthy(f.m.error) ==>
                error == Some(f.m.error.value) && updateInfo == old(updateInfo)
      ensures !threw && !Truthy(f.m.error) ==>
                updateInfo == Some(UpdateInfo(f.m.status, f.m.localVersion, f.m.githubVersion)) &&
                error == old(error)
    {
      if f.Unparseable? || f.JsonNull? {
        return true;
      }
      var m := f.m;
      if Truthy(m.error) {
        error := Some(m.error.value);
      } else {
        updateInfo := Some(UpdateInfo(m.status, m.localVersion, m.githubVersion));
      }
      loading := false;
      threw := false;
    }

    /** `socket.onerror`. */
    method OnError()
      requires Valid()
      modifies this
      ensures Valid()
      ensures error == Some(CheckSocketError) && !loading
      ensures updateInfo == old(updateInfo)
    {
      error := Some(CheckSocketError);
      loading := false;
    }
  }

  /** A socket error followed by a successful message leaves the error in
      state beside the update information. */
  method ErrorSurvivesUpdate(m: Message) returns (info: Option<UpdateInfo>, error: Option<string>)
    requires !Truthy(m.error)
    ensures error == Some(CheckSocketError)
    ensures info == Some(UpdateInfo(m.status, m.localVersion, m.githubVersion))
  {
    var hook := new UpdateState();
    hook.FetchUpdateInfo();
    hook.OnError();
    var _ := hook.OnMessage(Decoded(m));
    info, error := hook.updateInfo, hook.error;
  }
}
