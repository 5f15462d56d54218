/** Helpers shared by the two registries' specifications: an account log is a `seq`. */
module Logs {

  /** The accounts appearing in a log. */
  ghost function Elements<A>(log: seq<A>): set<A> {
    set i | 0 <= i < |log| :: log[i]
  }

}
