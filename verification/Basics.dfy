// Small shared types: optional values, results and the clock.
module Basics {
  datatype Option<+T> = None | Some(value: T)

  datatype Result<+T> = Ok(value: T) | Err(reason: string)

  // Ranging over a Go map visits its keys in an arbitrary order.
  method AnyOf<T(==)>(keys: set<T>) returns (key: T)
    requires keys != {}
    ensures key in keys
  {
    key :| key in keys;
  }

  lemma AppendAssociates<T>(a: seq<T>, b: seq<T>, c: seq<T>)
    ensures a + b + c == a + (b + c)
  {
  }

  // The wall clock. It never runs backwards; how far it moves between two
  // readings is arbitrary.
  class Clock {
    var now: int

    constructor (start: int)
      ensures now == start
    {
      now := start;
    }

    method Read() returns (t: int)
      modifies this
      ensures t == now && old(now) <= now
    {
      var later: int := *;
      if later > now {
        now := later;
      }
      t := now;
    }
  }
}
