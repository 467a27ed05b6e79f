/** Optional values and fallible results shared by every module. */
module Wrappers {

  datatype Option<+T> = None | Some(value: T)

  datatype Result<+T, +E> = Ok(value: T) | Err(error: E)

  /** The octets of a buffer or a payload. */
  type Bytes = seq<bv8>

  function Remove<K, V>(m: map<K, V>, k: K): map<K, V> {
    map k' | k' in m && k' != k :: m[k']
  }

  /** How a request to a store or a broker ends; ReplyLost means it took effect but the caller saw an error. */
  datatype Fault = NoFault | NotApplied | ReplyLost
}
