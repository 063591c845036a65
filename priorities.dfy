/**
 * Upload requests and the order of the upload queue. A request carries a
 * payload (a chunk coordinate) and a priority; equality and ordering look
 * at the priority alone, so the queue is a max-priority queue in which
 * requests of equal priority come out in no particular order.
 */
module Priorities {
  import opened Wrappers

  datatype Ordering = Less | Equal | Greater
  {
    function Reverse(): Ordering {
      match this
      case Less => Greater
      case Equal => Equal
      case Greater => Less
    }
  }

  datatype PrioritizedItem<T> = PrioritizedItem(item: T, priority: int)

  /** `PartialEq`: equal priorities, whatever the payloads. */
  predicate Eq<T>(a: PrioritizedItem<T>, b: PrioritizedItem<T>) {
    a.priority == b.priority
  }

  /** `Ord::cmp`: the integer order of the priorities; it agrees with `Eq`. */
  function Cmp<T>(a: PrioritizedItem<T>, b: PrioritizedItem<T>): (o: Ordering)
    ensures o == Equal <==> Eq(a, b)
  {
    if a.priority < b.priority then Less
    else if a.priority == b.priority then Equal
    else Greater
  }

  /** `PartialOrd::partial_cmp`: always defined, and equal to `cmp`. */
  function PartialCmp<T>(a: PrioritizedItem<T>, b: PrioritizedItem<T>): (o: Option<Ordering>)
    ensures o.Some?
  {
    Some(Cmp(a, b))
  }

  /** Swapping the operands reverses the comparison. */
  lemma CmpAntisymmetric<T>(a: PrioritizedItem<T>, b: PrioritizedItem<T>)
    ensures Cmp(b, a) == Cmp(a, b).Reverse()
  {
  }

  /** "Not greater" is transitive, so `Cmp` is a total preorder. */
  lemma CmpTransitive<T>(a: PrioritizedItem<T>, b: PrioritizedItem<T>, c: PrioritizedItem<T>)
    requires Cmp(a, b) != Greater && Cmp(b, c) != Greater
    ensures Cmp(a, c) != Greater
  {
  }

  /** Replacing the payloads changes neither equality nor order. */
  lemma PayloadIgnored<T>(a: PrioritizedItem<T>, b: PrioritizedItem<T>, x: T, y: T)
    ensures Cmp(a.(item := x), b.(item := y)) == Cmp(a, b)
    ensures Eq(a.(item := x), b.(item := y)) == Eq(a, b)
  {
  }

  /** Position of a request of greatest priority in a non-empty queue. */
  method MaxIndex<T>(q: seq<PrioritizedItem<T>>) returns (m: int)
    requires q != []
    ensures 0 <= m < |q|
    ensures forall i | 0 <= i < |q| :: Cmp(q[i], q[m]) != Greater
  {
    m := 0;
    for i := 1 to |q|
      invariant 0 <= m < |q|
      invariant forall j | 0 <= j < i :: q[j].priority <= q[m].priority
    {
      if Cmp(q[i], q[m]) == Greater {
        m := i;
      }
    }
  }
}
