/** Identifiers and the optional-value wrapper shared by every module. */
module Base {

  /** A value that may be absent (`undefined`/`null` in the source). */
  datatype Option<T> = None | Some(value: T)

  /** JavaScript truthiness of a string that may be undefined: present and non-empty. */
  predicate Truthy(v: Option<string>) {
    v.Some? && v.value != ""
  }

  /**
   * Document ids. The store draws every id, whatever the collection, from one counter, so ids
   * are unique across collections like MongoDB ObjectIds are.
   */
  type UserId = nat
  type PostId = nat
  type LikeId = nat
  type CommentId = nat
}
