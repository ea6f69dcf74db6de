/** The optional value used across the model, for Python's None and for C++ null pointers. */
module Wrappers {

  datatype Option<+T> = None | Some(value: T)

  /** A prefix one element longer is the shorter prefix followed by that element. */
  lemma TakeSnoc<T>(s: seq<T>, i: nat)
    requires i < |s|
    ensures s[..i + 1] == s[..i] + [s[i]]
  {
  }

  /** Concatenation is associative. */
  lemma AppendAssoc<T>(a: seq<T>, b: seq<T>, c: seq<T>)
    ensures (a + b) + c == a + (b + c)
  {
  }

  /** The two halves of a concatenation are found back by slicing at the seam. */
  lemma SliceAppend<T>(a: seq<T>, b: seq<T>)
    ensures (a + b)[..|a|] == a && (a + b)[|a|..] == b
  {
  }

  /** Dropping the head of a concatenation with a non-empty left part drops the head of that part. */
  lemma DropAppend<T>(a: seq<T>, b: seq<T>)
    requires a != []
    ensures (a + b)[0] == a[0] && (a + b)[1..] == a[1..] + b
  {
  }

  /** A prefix of a suffix of s is a slice of s, and what follows it is the rest of s. */
  lemma PrefixOfDrop<T>(s: seq<T>, n: nat, r: seq<T>)
    requires n <= |s| && r <= s[n..]
    ensures n + |r| <= |s| && r == s[n..n + |r|] && s[n..][|r|..] == s[n + |r|..]
  {
  }
}
