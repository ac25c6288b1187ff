/** The app-wide change counter that tells the server poller to replay its
    last response after app state changed. */
module RequestState {

  class RequestStateTracker {
    /** The state version; a Kotlin `Long` that starts at 0. */
    var version: int

    constructor()
      ensures version == 0
    {
      version := 0;
    }

    /** Records one change of app state. */
    method MarkChanged()
      modifies this
      ensures version == old(version) + 1
    {
      version := version + 1;
    }

    /** The `version` getter: reading the counter changes nothing. */
    method Version() returns (v: int)
      ensures v == version
    {
      v := version;
    }
  }
}
