/** Vocabulary shared by the models of the relay. */
module Basics {
  datatype Option<+T> = None | Some(value: T)

  /** What a handler answers: nothing to report, or a relay error with its code and whether to retry. */
  datatype Outcome = Ok | Refused(code: int, retryable: bool)

  const UNEXPECTED_FRAME := 1002
  const LIMIT_EXCEEDED := 1004
  const INVALID_VALUE := 1005
  const TOKEN_EXPIRED := 1101
  const FORBIDDEN := 1200
  const NOT_ENROLLED := 1201
  const NOT_DECLARED := 1202
  const WRONG_DIRECTION := 1203
  const DUPLICATE_REQUEST := 1301
  const OWNERSHIP_COLLISION := 1302
  const STALE_EPOCH := 1303
  const GENERATION_REPLACED := 1305
  const UNAVAILABLE := 1400
  const NO_COORDINATOR := 1401
  const SLOW_CONSUMER := 1402
  const DEADLINE_EXCEEDED := 1403
  const OUTCOME_UNKNOWN := 1404
  const CANCELLED := 1405

  /** A read of a missing key yields the zero value. */
  function IdOf(ids: map<string, int>, name: string): int {
    if name in ids then ids[name] else 0
  }

  function NameOf(names: map<int, string>, id: int): string {
    if id in names then names[id] else ""
  }

  ghost predicate Injective<K, V>(m: map<K, V>) {
    forall a, b :: a in m && b in m && m[a] == m[b] ==> a == b
  }

  lemma SubsetSize<T>(small: set<T>, large: set<T>)
    requires small <= large
    ensures |small| <= |large|
  {
    assert large == small + (large - small);
  }

  lemma Element<T>(s: set<T>) returns (x: T)
    requires s != {}
    ensures x in s
  {
    x :| x in s;
  }

  lemma Inhabited(s: set<int>)
    requires s != {}
    ensures exists x: int :: x in s
  {
    var x := Element(s);
  }

  lemma UnionSize<T>(a: set<T>, b: set<T>)
    requires a !! b
    ensures |a + b| == |a| + |b|
  {
  }
}
