/**
 How a run of a program ends early: a fuse that burns down with every write the
 outside world can see, and kills the run before one of them.
 */
module Interruption {

  /** A run completes, is killed, or refuses to go on. */
  datatype Outcome = Done | Killed | Refusal

  /** When a run is killed: never, or before its next visible write after this many. */
  datatype Fuse = Never | After(writes: nat) {

    /** The next write still happens. */
    predicate Alive() {
      this != After(0)
    }

    /** The fuse after one more write was reached. */
    function Burnt(): Fuse {
      match this
      case Never => Never
      case After(n) => After(if n == 0 then 0 else n - 1)
    }
  }

  /** The fuse of the current run, shared by everything the run writes to. */
  class Wick {
    var fuse: Fuse

    constructor ()
      ensures fuse == Never
    {
      fuse := Never;
    }

    /** Reached before every visible write: false if the run ends here. */
    method Survive() returns (alive: bool)
      modifies this
      ensures alive == old(fuse).Alive() && fuse == old(fuse).Burnt()
    {
      alive, fuse := fuse.Alive(), fuse.Burnt();
    }
  }
}
