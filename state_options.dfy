/**
 * The FSMStateOptions bit flags taken by setState:options:.
 * Initial requests no hook, Enter asks for the state's enter block and
 * Cycle for its cycle block; the two bits are independent.
 */
module StateOptions {

  /** A C enum value: a machine word whose bits are read one by one. */
  type Options = bv32

  const Initial: Options := 0
  const Enter: Options := 1 << 0
  const Cycle: Options := 1 << 1

  /** Whether the options ask setState to run the enter block. */
  predicate RequestsEnter(o: Options) {
    o & Enter != 0
  }

  /** Whether the options ask setState to run the cycle block. */
  predicate RequestsCycle(o: Options) {
    o & Cycle != 0
  }

  /** The options value a caller writes to ask for the given hooks. */
  function Combine(enter: bool, cycle: bool): (o: Options)
    ensures RequestsEnter(o) == enter && RequestsCycle(o) == cycle
    ensures o == Initial <==> !enter && !cycle
  {
    (if enter then Enter else Initial) | (if cycle then Cycle else Initial)
  }

  /** Initial requests no hook; each named flag requests exactly its own hook. */
  lemma FlagMeanings()
    ensures !RequestsEnter(Initial) && !RequestsCycle(Initial)
    ensures RequestsEnter(Enter) && !RequestsCycle(Enter)
    ensures !RequestsEnter(Cycle) && RequestsCycle(Cycle)
    ensures RequestsEnter(Enter | Cycle) && RequestsCycle(Enter | Cycle)
  {
  }

  /** Adding one flag never changes whether the other is requested. */
  lemma FlagsIndependent(o: Options)
    ensures RequestsEnter(o | Cycle) == RequestsEnter(o) && RequestsCycle(o | Cycle)
    ensures RequestsCycle(o | Enter) == RequestsCycle(o) && RequestsEnter(o | Enter)
  {
  }
}
