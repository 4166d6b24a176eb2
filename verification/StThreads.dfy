/** The thread of common.h: what the queues, the timeout heap and the calls
    keep in it. */
module StThreads {
  import opened Wrappers
  import opened Epoll

  datatype State = RUNNING | RUNNABLE | IO_WAIT | LOCK_WAIT | COND_WAIT | SLEEPING | ZOMBIE | SUSPENDED

  /** Where a thread continues when it is resumed. */
  datatype Point =
    | User                                   // in its own code
    | InPoll                                 // st_poll, request on the io queue
    | Polled(pds: seq<Pollfd>)               // st_poll, request taken off by dispatch
    | InSleep                                // st_usleep
    | InCond(c: nat)                         // st_cond_timedwait
    | InJoin(c: nat, target: nat)            // st_cond_timedwait called by st_thread_join
    | InLock(m: nat)                         // st_mutex_lock
    | InExit                                 // st_thread_exit, waiting to be joined
    | Done                                   // never resumed again

  class Thread {
    const id: nat
    var state: State
    var at: Point
    var onSleepQ: bool
    var interrupt: bool
    var timedOut: bool
    var due: nat
    var term: Option<nat>
    // the links of the timeout heap, and the position in it
    var left: Thread?
    var right: Thread?
    var heapIndex: nat

    constructor (id: nat, state: State, term: Option<nat>)
      ensures this.id == id && this.state == state && this.term == term && at == User
      ensures left == null && right == null && !onSleepQ && !interrupt && !timedOut && due == 0
    {
      this.id, this.state, this.term, at := id, state, term, User;
      onSleepQ, interrupt, timedOut, due, left, right, heapIndex := false, false, false, 0, null, null, 0;
    }
  }
}
