/**
 * The persisted mistake ledger (`telkonlingoMistakes`): English text to the number
 * of misses recorded against it. An absent key counts as zero.
 */
module Ledger {

  type Ledger = map<string, nat>

  /** `mistakeWeights[key] || 0`. */
  function Count(l: Ledger, key: string): nat
  {
    if key in l then l[key] else 0
  }

  /** `mistakeWeights[key] = (mistakeWeights[key] || 0) + 1`. */
  function Bump(l: Ledger, key: string): (l': Ledger)
    ensures Count(l', key) == Count(l, key) + 1
    ensures forall other :: other != key ==> Count(l', other) == Count(l, other)
  {
    l[key := Count(l, key) + 1]
  }

  /** No count goes down from `before` to `after`. */
  ghost predicate Grows(before: Ledger, after: Ledger)
  {
    forall key :: Count(before, key) <= Count(after, key)
  }

  /** Recording a miss only ever raises a count. */
  lemma BumpGrows(l: Ledger, key: string)
    ensures Grows(l, Bump(l, key))
  {
  }
}
