// What several modules share: optional values, bytes, copying into a buffer, and taking locks.
module Wrappers {
  datatype Option<+T> = None | Some(value: T)

  type Byte = x: int | 0 <= x < 256

  // The buffer b with d copied in from position at on.
  function Overwrite<T>(b: seq<T>, at: nat, d: seq<T>): (r: seq<T>)
    requires at + |d| <= |b|
    ensures |r| == |b|
  {
    b[..at] + d + b[at + |d|..]
  }

  // Thread t needed the lock l before a step if had, and needs it after it if has; it takes it only
  // if it is free, and gives it back when it no longer needs it.
  predicate LockShape(had: bool, l: Option<nat>, t: nat, has: bool, l': Option<nat>) {
    if had == has then l' == l
    else if has then l == None && l' == Some(t)
    else l' == None
  }
}
