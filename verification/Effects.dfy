/** What every component shares: an optional value, and how one effect on the outside world may end. */
module Effects {

  datatype Option<+T> = None | Some(value: T) {
    function GetOr(other: T): T { if Some? then value else other }
  }

  /** A fault may or may not have taken effect; after a crash nothing more runs in this process. */
  datatype Exit = Fine | Fault | Crash

  /** An effect that leaves no state of the model behind. */
  method Attempt() returns (e: Exit)
  {
    var ok, crash := *, *;
    e := if crash then Crash else if ok then Fine else Fault;
  }
}
