/** idlewatch/instance.go: the pair of fields behind the mutex, and each section that holds it. */
module IdleInstance {
  import opened Wrappers
  import opened IdleTimer

  /** wakingSince is None for the zero time; time.Now() is never the zero time. */
  datatype Shared = Shared(state: WakeState, wakingSince: Option<int>)

  const AT_REST := Shared(Asleep, None)

  function WithWakingBegun(s: Shared, now: int): Shared {
    if s.state != Asleep then s else Shared(Waking, Some(now))
  }

  class Instance {
    var state: WakeState
    var wakingSince: Option<int>

    function Fields(): Shared
      reads this
    {
      Shared(state, wakingSince)
    }

    constructor ()
      ensures Fields() == AT_REST
    {
      state := Asleep;
      wakingSince := None;
    }

    /** handleConn's first section. */
    method Snapshot() returns (s: WakeState, since: Option<int>)
      ensures Shared(s, since) == Fields()
    {
      s := state;
      since := wakingSince;
    }

    /** The section shared by handleConn's resync, a wake that gave up, and the watcher's end. */
    method FallAsleep()
      modifies this
      ensures Fields() == AT_REST
    {
      state := Asleep;
      wakingSince := None;
    }

    /** wake's first section: false when another wake, or an awake backend, was there first. */
    method TryBeginWaking(now: int) returns (won: bool)
      modifies this
      ensures won <==> old(state) == Asleep
      ensures Fields() == WithWakingBegun(old(Fields()), now)
    {
      if state != Asleep {
        return false;
      }
      state := Waking;
      wakingSince := Some(now);
      return true;
    }

    /** wake's last section. */
    method ComeUp()
      modifies this
      ensures Fields() == Shared(Awake, None)
    {
      state := Awake;
      wakingSince := None;
    }
  }
}
