/** Event watchers: the fields shared by every kind, and those of timers and of descriptor watchers. */
module Watchers {

  /** Number of priorities; a watcher's priority is counted from the lowest one. */
  const NUMPRI: nat := 5

  class Watcher {
    const priority: nat
    /** Zero when stopped; the heap index of a started timer. */
    var active: nat
    /** Zero when no event is pending, else the slot number in the pending queue plus one. */
    var pending: nat
    /** When a started timer expires. */
    var at: real
    /** Zero for a timer that fires once. */
    var repeat: real

    constructor (priority: nat, at: real, repeat: real)
      requires priority < NUMPRI
      ensures this.priority == priority && active == 0 && pending == 0
      ensures this.at == at && this.repeat == repeat
    {
      this.priority, active, pending, this.at, this.repeat := priority, 0, 0, at, repeat;
    }
  }
}
