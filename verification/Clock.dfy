/** Virtual time: frozen, or tracking the wall clock at an offset, with a scoped override for jobs. */
module Clock {
  import opened Options

  /** What one process records of its clock for the next to carry on from. */
  datatype ClockState = ClockState(frozen: bool, now: int, offsetMs: int)

  /** The instant a record resumes at: a frozen one where it stopped, a flowing one with the time that has passed. */
  function ResumesAt(recorded: ClockState, wall: int): int {
    if recorded.frozen then recorded.now else wall + recorded.offsetMs
  }

  class VirtualClock {
    var frozen: bool
    var frozenAt: int
    var offsetMs: int
    var override: Option<int>

    /** Start where a record left off, or else at a given instant, or else at the wall clock's. */
    constructor (wall: int, startAt: Option<int>, resume: Option<ClockState>, frozen: bool)
      ensures Real(wall) == (if resume.Some? then ResumesAt(resume.value, wall)
                             else if startAt.Some? then startAt.value else wall)
      ensures forall later :: Real(later) == Real(wall) + (if frozen then 0 else later - wall)
      ensures this.frozen == frozen && override == None
    {
      var at := if resume.Some? then ResumesAt(resume.value, wall)
                else if startAt.Some? then startAt.value else wall;
      this.frozen := frozen;
      frozenAt := at;
      offsetMs := at - wall;
      override := None;
    }

    /** The clock's own instant, whatever job is in flight. */
    function Real(wall: int): int
      reads this
    {
      if frozen then frozenAt else wall + offsetMs
    }

    /** The instant everything else sees. */
    function Now(wall: int): int
      reads this
    {
      if override.Some? then override.value else Real(wall)
    }

    /** The record for a later process, which will show what this clock would have shown by then. */
    function State(wall: int): (recorded: ClockState)
      reads this
      ensures forall later :: ResumesAt(recorded, later) == Real(later)
    {
      ClockState(frozen, Real(wall), offsetMs)
    }

    /** Refused, with nothing changed, when the target is in the past. */
    method Freeze(wall: int, at: Option<int>) returns (ok: bool)
      modifies this`frozen, this`frozenAt
      ensures ok <==> at.None? || at.value >= old(Real(wall))
      ensures ok ==> frozen && Real(wall) == (if at.Some? then at.value else old(Real(wall)))
      ensures !ok ==> frozen == old(frozen) && frozenAt == old(frozenAt)
    {
      var target := if at.Some? then at.value else Real(wall);
      if target < Real(wall) { return false; }
      frozenAt := target;
      frozen := true;
      return true;
    }

    method Unfreeze(wall: int)
      modifies this`frozen, this`offsetMs
      ensures !frozen && Real(wall) == old(Real(wall))
    {
      if frozen {
        offsetMs := frozenAt - wall;
        frozen := false;
      }
    }

    method Advance(wall: int, ms: int) returns (ok: bool)
      modifies this`frozenAt, this`offsetMs
      ensures ok <==> ms >= 0
      ensures Real(wall) == old(Real(wall)) + (if ok then ms else 0)
    {
      if ms < 0 { return false; }
      if frozen {
        frozenAt := frozenAt + ms;
      } else {
        offsetMs := offsetMs + ms;
      }
      return true;
    }

    method Set(wall: int, at: int) returns (ok: bool)
      modifies this`frozenAt, this`offsetMs
      ensures ok <==> at >= old(Real(wall))
      ensures Real(wall) == (if ok then at else old(Real(wall)))
    {
      if at < Real(wall) { return false; }
      if frozen {
        frozenAt := at;
      } else {
        offsetMs := at - wall;
      }
      return true;
    }
  }
}
