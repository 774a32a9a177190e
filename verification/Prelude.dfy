/** Small value types shared by the components. */
module Prelude {
  datatype Option<+T> = None | Some(value: T)

  /** A service call either answers or raises one of the application's errors. */
  datatype Result<+T, +E> = Ok(value: T) | Err(error: E)

  /** A field of a partial update: left out of the request body, or set (possibly to null). */
  datatype Patch<+T> = Keep | To(value: T)

  /** A UUID stands for its numeric value; the canonical text form sorts in the same order. */
  type Uuid = nat

  /** Roles in a group; a role is stored as a string column. */
  datatype Role = Owner | Admin | PlainMember

  predicate Manages(role: Role) { role.Owner? || role.Admin? }

  function Lookup<K, V>(m: map<K, V>, k: K): Option<V> {
    if k in m then Some(m[k]) else None
  }

  /** The elements of a list, without order or multiplicity. */
  function Elements<T>(xs: seq<T>): (s: set<T>) {
    set x | x in xs
  }
}
