/**
 Keys with a time to live, as Redis keeps them.  One clock, in seconds, orders all
 commands; a key is live exactly while the clock is before its deadline.
 */
module Redis {
  import opened Wrappers

  datatype Expiry = Never | At(deadline: real)

  datatype Cell<+T> = Gone | Held(value: T, expiry: Expiry) {
    predicate Live(now: real) {
      Held? && (expiry.At? ==> now < expiry.deadline)
    }

    function Get(now: real): Option<T> {
      if Live(now) then Some(value) else None
    }
  }

  function Lookup<T>(cells: map<string, Cell<T>>, key: string): Cell<T> {
    if key in cells then cells[key] else Gone
  }

  /** INCR: a live counter keeps its deadline, any other starts again at one. */
  function Incr(cell: Cell<int>, now: real): Cell<int> {
    if cell.Live(now) then Held(cell.value + 1, cell.expiry) else Held(1, Never)
  }

  /** EXPIRE on a key that was just written. */
  function Expire<T>(cell: Cell<T>, deadline: real): Cell<T> {
    if cell.Held? then Held(cell.value, At(deadline)) else Gone
  }

  /**
   The server, one map for each type of value.  The key prefixes in use keep the maps
   disjoint in the one key space of the original.
   */
  class Server {
    var texts: map<string, Cell<string>>
    var counters: map<string, Cell<int>>
    var reals: map<string, Cell<real>>

    constructor ()
      ensures texts == map[] && counters == map[] && reals == map[]
    {
      texts, counters, reals := map[], map[], map[];
    }
  }
}
