/** Searching byte strings: the first occurrence of a byte or of a byte pattern. */
module Bytes {
  import opened Wrappers
  import opened Numbers

  const NEWLINE: byte := 0x0A

  /** `pattern` occurs in `data` starting at index `i`. */
  predicate OccursAt(data: seq<byte>, pattern: seq<byte>, i: int)
  {
    0 <= i && i + |pattern| <= |data| && data[i..i + |pattern|] == pattern
  }

  /** The first index at or after `from` where `pattern` occurs, if any. */
  function FindFrom(data: seq<byte>, pattern: seq<byte>, from: nat): (r: Option<nat>)
    ensures r.Some? ==> from <= r.value && OccursAt(data, pattern, r.value)
    ensures r.Some? ==> forall j :: from <= j < r.value ==> !OccursAt(data, pattern, j)
    ensures r.None? ==> forall j :: from <= j ==> !OccursAt(data, pattern, j)
    decreases |data| - from
  {
    if from + |pattern| > |data| then None
    else if data[from..from + |pattern|] == pattern then Some(from)
    else FindFrom(data, pattern, from + 1)
  }

  /** The first index of `pattern` in `data`: least, and absent exactly when the pattern never occurs. */
  function Find(data: seq<byte>, pattern: seq<byte>): (r: Option<nat>)
    ensures r.Some? ==> OccursAt(data, pattern, r.value)
    ensures r.Some? ==> forall j :: 0 <= j < r.value ==> !OccursAt(data, pattern, j)
    ensures r.None? <==> forall j :: !OccursAt(data, pattern, j)
  {
    FindFrom(data, pattern, 0)
  }

  /** The first position of byte `b` in `data`, as Rust's `iter().position(|&x| x == b)`. */
  function Position(data: seq<byte>, b: byte): (r: Option<nat>)
    ensures r.Some? ==> r.value < |data| && data[r.value] == b && b !in data[..r.value]
    ensures r.None? <==> b !in data
  {
    var r := Find(data, [b]);
    if r.None? then
      assert forall j :: 0 <= j < |data| ==> (data[j] == b <==> OccursAt(data, [b], j)) by {
        forall j | 0 <= j < |data| ensures data[j] == b <==> OccursAt(data, [b], j) {
          assert data[j..j + 1] == [data[j]];
        }
      }
      r
    else
      assert forall j :: 0 <= j < r.value ==> (data[j] == b <==> OccursAt(data, [b], j)) by {
        forall j | 0 <= j < r.value ensures data[j] == b <==> OccursAt(data, [b], j) {
          assert data[j..j + 1] == [data[j]];
        }
      }
      assert data[r.value..r.value + 1] == [data[r.value]];
      r
  }

  /** An occurrence that ends before `n` is also an occurrence in `data[..n]`, and the other way round. */
  lemma PrefixOccurrence(data: seq<byte>, pattern: seq<byte>, n: nat, j: int)
    requires n <= |data| && j + |pattern| <= n
    ensures OccursAt(data[..n], pattern, j) <==> OccursAt(data, pattern, j)
  {
    if 0 <= j {
      assert data[..n][j..j + |pattern|] == data[j..j + |pattern|];
    }
  }

  /** Searching a prefix that still holds the first occurrence, or that holds none, finds the same. */
  lemma {:induction false} FindPrefix(data: seq<byte>, pattern: seq<byte>, n: nat)
    requires n <= |data|
    requires Find(data, pattern).Some? ==> Find(data, pattern).value + |pattern| <= n
    requires Find(data, pattern).None? ==> n == |data|
    ensures Find(data[..n], pattern) == Find(data, pattern)
  {
    var r := Find(data, pattern);
    if r.None? {
      assert data[..n] == data;
    } else {
      var i := r.value;
      PrefixOccurrence(data, pattern, n, i);
      forall j | 0 <= j < i ensures !OccursAt(data[..n], pattern, j) {
        PrefixOccurrence(data, pattern, n, j);
      }
    }
  }

  /** A growable byte buffer, Rust's `Vec<u8>` lent by `&mut`. */
  class ByteBuffer {
    var bytes: seq<byte>

    constructor ()
      ensures bytes == []
    {
      bytes := [];
    }

    method Clear()
      modifies this
      ensures bytes == []
    {
      bytes := [];
    }

    method Extend(more: seq<byte>)
      modifies this
      ensures bytes == old(bytes) + more
    {
      bytes := bytes + more;
    }

    /** Overwrites `|part|` bytes from `start` on, as `copy_from_slice` into a sub-slice. */
    method CopyInto(start: nat, part: seq<byte>)
      requires start + |part| <= |bytes|
      modifies this
      ensures bytes == old(bytes)[..start] + part + old(bytes)[start + |part|..]
    {
      bytes := bytes[..start] + part + bytes[start + |part|..];
    }
  }
}
