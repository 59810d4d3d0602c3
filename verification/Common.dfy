/** What the sending and the receiving side of the server share. */
module Common {
  datatype Option<+T> = None | Some(value: T)

  /** ThreadStatus of a client (Server/server_internal.h). */
  datatype Status = Running | Stop | Stopped

  /** How often a place that holds at most one buffer holds `b`. */
  function Count<B(==)>(held: Option<B>, b: B): nat {
    if held == Some(b) then 1 else 0
  }

  /** Freeing what a place holds; freeing a null pointer does nothing. */
  function Free<B(==, !new)>(freed: multiset<B>, held: Option<B>): (r: multiset<B>)
    ensures forall b :: r[b] == freed[b] + Count(held, b)
  {
    if held.Some? then freed + multiset{held.value} else freed
  }
}
