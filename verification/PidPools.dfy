/** The pool of packet identifiers (src/state/pid.rs). */
module PidPools {
  import opened Mqtt

  const POOL_SIZE := 16
  const MAX_PID := 65535

  /** The largest number of identifiers that can be issued at a time. */
  const MOST_PIDS := 65534

  datatype Pool = Pool(free: seq<Pid>, next: Pid)

  const NEW_POOL := Pool([], 1)

  /** The identifier that next_pid hands out; `None` when it panics because
      the counter reached the largest 16-bit value. */
  function Issued(p: Pool): Option<Pid> {
    if p.free != [] then Some(p.free[0])
    else if p.next == MAX_PID then None
    else Some(p.next)
  }

  /** The pool after next_pid. */
  function Taken(p: Pool): Pool
    requires Issued(p).Some?
  {
    if p.free != [] then p.(free := p.free[1..]) else p.(next := p.next + 1)
  }

  /** The pool after free_pid: an identifier that finds no room is forgotten. */
  function Returned(p: Pool, pid: Pid): Pool {
    if |p.free| < POOL_SIZE then p.(free := p.free + [pid]) else p
  }

  class PidPool {
    var pool: seq<Pid>
    var nextNewPid: Pid

    ghost function View(): Pool
      reads this
    {
      Pool(pool, nextNewPid)
    }

    constructor ()
      ensures View() == NEW_POOL
    {
      pool := [];
      nextNewPid := 1;
    }

    method NextPid() returns (r: Outcome<Pid>)
      modifies this
      ensures match Issued(old(View()))
              case Some(pid) => r == Ok(pid) && View() == Taken(old(View()))
              case None => r == Panic && View() == old(View())
    {
      if pool != [] {
        r := Ok(pool[0]);
        pool := pool[1..];
      } else {
        r := Take();
      }
    }

    method Take() returns (r: Outcome<Pid>)
      modifies this`nextNewPid
      ensures if old(nextNewPid) == MAX_PID then r == Panic && nextNewPid == MAX_PID
              else r == Ok(old(nextNewPid)) && nextNewPid == old(nextNewPid) + 1
    {
      var pid := nextNewPid;
      if nextNewPid == MAX_PID {
        return Panic;
      }
      nextNewPid := nextNewPid + 1;
      r := Ok(pid);
    }

    method FreePid(pid: Pid)
      modifies this`pool
      ensures View() == Returned(old(View()), pid)
      ensures pool == if |old(pool)| < 16 then old(pool) + [pid] else old(pool)
    {
      if |pool| < POOL_SIZE {
        pool := pool + [pid];
      }
    }
  }
}
