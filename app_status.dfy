/** The high-level application status reported over the status endpoint and
    posted to a connected server whenever it changes. */
module AppStatus {

  const IDLE := "IDLE"
  const READY := "READY"
  const RUNNING := "RUNNING"
  const FINISHED := "FINISHED"
  const STOPPED := "STOPPED"
  const SILENCED := "SILENCED"
  const ERROR := "ERROR"

  /** The status `silenced(on)` asks for, given whether a scenario is current. */
  function SilencedStatus(on: bool, hasCurrent: bool): (s: string)
    ensures on ==> s == SILENCED
    ensures !on && hasCurrent ==> s == READY
    ensures !on && !hasCurrent ==> s == IDLE
  {
    if on then SILENCED else if hasCurrent then READY else IDLE
  }

  /** The notifications posted to the server: never the same status twice in a
      row, the first one never the initial IDLE, and the last one the current
      status. */
  ghost predicate Notifications(status: string, posted: seq<string>) {
    (|posted| == 0 ==> status == IDLE)
    && (|posted| > 0 ==> posted[0] != IDLE && posted[|posted| - 1] == status)
    && (forall i :: 0 <= i < |posted| - 1 ==> posted[i] != posted[i + 1])
  }

  class AppStatusManager {
    var status: string
    /** The values passed to `ServerConnectionManager.postStatus`, in order. */
    var posted: seq<string>

    ghost predicate Valid()
      reads this
    {
      Notifications(status, posted)
    }

    constructor()
      ensures Valid() && status == IDLE && posted == []
    {
      status := IDLE;
      posted := [];
    }

    /** `current` reads the last value stored and changes nothing. */
    method Current() returns (s: string)
      ensures s == status
    {
      s := status;
    }

    /** `set(value)`: a new value is stored and posted once; the same value is
        a no-op. */
    method Set(value: string)
      requires Valid()
      modifies this
      ensures Valid()
      ensures status == value
      ensures old(status) == value ==> posted == old(posted)
      ensures old(status) != value ==> posted == old(posted) + [value]
    {
      if status != value {
        status := value;
        posted := posted + [value];
      }
    }

    method ScenarioLoaded()
      requires Valid()
      modifies this
      ensures Valid() && status == READY
      ensures posted == old(posted) + (if old(status) == READY then [] else [READY])
    {
      Set(READY);
    }

    method ScenarioUnloaded()
      requires Valid()
      modifies this
      ensures Valid() && status == IDLE
      ensures posted == old(posted) + (if old(status) == IDLE then [] else [IDLE])
    {
      Set(IDLE);
    }

    method ScenarioRunning()
      requires Valid()
      modifies this
      ensures Valid() && status == RUNNING
      ensures posted == old(posted) + (if old(status) == RUNNING then [] else [RUNNING])
    {
      Set(RUNNING);
    }

    method ScenarioFinished()
      requires Valid()
      modifies this
      ensures Valid() && status == FINISHED
      ensures posted == old(posted) + (if old(status) == FINISHED then [] else [FINISHED])
    {
      Set(FINISHED);
    }

    method ScenarioStopped()
      requires Valid()
      modifies this
      ensures Valid() && status == STOPPED
      ensures posted == old(posted) + (if old(status) == STOPPED then [] else [STOPPED])
    {
      Set(STOPPED);
    }

    method SetError()
      requires Valid()
      modifies this
      ensures Valid() && status == ERROR
      ensures posted == old(posted) + (if old(status) == ERROR then [] else [ERROR])
    {
      Set(ERROR);
    }

    /** `silenced(on)`; `hasCurrent` is whether the scenario manager has a
        current scenario. */
    method Silenced(on: bool, hasCurrent: bool)
      requires Valid()
      modifies this
      ensures Valid() && status == SilencedStatus(on, hasCurrent)
      ensures posted == old(posted) + (if old(status) == status then [] else [status])
    {
      if on {
        Set(SILENCED);
      } else if hasCurrent {
        Set(READY);
      } else {
        Set(IDLE);
      }
    }
  }
}
