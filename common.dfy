/**
 * Values shared by every store: optional values, JavaScript's `undefined`,
 * and the tagged result an API wrapper resolves to.
 */
module Common {

  /** A value that may be absent (`undefined` for a `types.maybe`, `null` for a `types.maybeNull`). */
  datatype Option<T> = None | Some(value: T)

  /** A property of an incoming snapshot that may hold `undefined`. */
  datatype Field<T> = Undefined | Defined(value: T)

  /** The problem tags the stores and screens tell apart; every other tag is `OtherProblem`. */
  datatype ProblemKind = Unauthorized | BadData | OtherProblem(tag: string)

  /**
   * What an API wrapper resolves to: `{ kind: 'ok', ...payload }` or a problem.
   * A store action receives it as a parameter in place of its `yield`.
   */
  datatype Response<T> = Ok(payload: T) | Problem(problem: ProblemKind)

  /** The page size the paginated reads ask for. */
  const PageSize: nat := 10

  /** A paginated read: the parent's id, the `from` cursor (a creation time) and `take`. */
  datatype PageQuery = PageQuery(parentId: int, from: Option<int>, take: nat)
}
