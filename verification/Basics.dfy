/** Small definitions that several components share. */
module Basics {

  datatype Option<+T> = None | Some(value: T)

  function Min(a: int, b: int): int { if a <= b then a else b }

  function Max(a: int, b: int): int { if a <= b then b else a }

  function Abs(a: int): int { if a < 0 then 0 - a else a }

  predicate IsHex(c: char) { '0' <= c <= '9' || 'a' <= c <= 'f' }

  /** A Mongo ObjectId in its 24-digit hexadecimal form. */
  predicate IsObjectId(s: string) { |s| == 24 && forall i :: 0 <= i < |s| ==> IsHex(s[i]) }
}
