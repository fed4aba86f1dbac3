/**
 The values the tag grouping step receives from the Feedbin API client:
 taggings, the two-armed cache response that wraps them, and the optional
 slot a hash map lookup hands back.
 */
module Feedbin {

  /** Rust's `u64`, the type of a Feedbin feed id. */
  newtype u64 = x: int | 0 <= x < 0x1_0000_0000_0000_0000

  /** One feed's membership in one tag, as the taggings endpoint lists it. */
  datatype Tagging = Tagging(name: string, feedId: u64)

  /**
   The result of a conditional fetch: either a fresh payload, or the signal
   that nothing changed since the cached copy (in which case no payload
   comes with it).
   */
  datatype CacheRequestResponse<T> = Modified(value: T) | NotModified

  datatype Option<T> = None | Some(value: T)

  /** A map lookup that may find nothing, the way `HashMap::get_mut` does. */
  function Lookup<K, V>(m: map<K, V>, k: K): Option<V>
  {
    if k in m then Some(m[k]) else None
  }
}
