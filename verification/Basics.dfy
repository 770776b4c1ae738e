/** What several modules share. */
module Basics {

  datatype Option<+T> = None | Some(value: T)

  /** The kinds of collection task. */
  datatype TaskKind = Probe | Sql | AgentDerived

  function Min(a: int, b: int): int { if a < b then a else b }

  lemma SubsetSize<T>(a: set<T>, b: set<T>)
    requires a <= b
    ensures |a| <= |b|
  {
    assert b == a + (b - a);
  }
}
