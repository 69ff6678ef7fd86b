/** Positions in a recording.  TTD's own order on positions is lexicographic on
    (Major, Minor); that order is an assumption about the engine. */
module Positions {

  datatype Position = Position(major: nat, minor: nat)
  {
    predicate Less(other: Position) {
      major < other.major || (major == other.major && minor < other.minor)
    }

    predicate AtMost(other: Position) {
      !other.Less(this)
    }
  }

  // The debugger reads position {0, 0} as "no jump requested".
  const NO_JUMP := Position(0, 0)

  datatype Option<+T> = None | Some(value: T)
}
