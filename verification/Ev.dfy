/** The watcher structure shared by libev's timer heap and its pending queues. */
module Ev {

  /** Priorities are counted from 0 (the source's ABSPRI). */
  const NUMPRI: nat := 5

  /** The base fields of every libev watcher and those of a timer. */
  class Watcher {
    const priority: nat
    var active: nat
    var pending: nat
    var at: real
    var repeat: real

    constructor (priority: nat, after: real, repeat: real)
      ensures this.priority == priority && active == 0 && pending == 0 && at == after && this.repeat == repeat
    {
      this.priority, active, pending, at, this.repeat := priority, 0, 0, after, repeat;
    }
  }
}
