/**
 * Array.h: `ByteArray<T, S>`, a heap buffer of S one-byte elements with a
 * separate capacity and size, and `ByteArrayView`, a read-only window into
 * one. Plain indexing is unchecked (undefined beyond the allocation, so it
 * is a precondition here); `at` stops the process with exit(-1) when the
 * index is not below `size()`.
 */
module Array {
  import opened Types

  class ByteArray {
    /** `m_start`: always allocated with S elements. */
    const buf: array<byte>
    /** `m_capacity`: S for a default-constructed array, the list length for a list-constructed one. */
    const capacity: nat
    /** `m_size`. */
    var size: nat

    ghost predicate Valid()
      reads this
    {
      capacity <= buf.Length && size <= buf.Length
    }

    /** `ByteArray()`: S zero bytes, capacity S, size 0. */
    constructor (S: nat)
      ensures Valid() && fresh(buf)
      ensures buf.Length == S && capacity == S && size == 0
      ensures buf[..] == Zeros(S)
    {
      buf := new byte[S](_ => 0);
      capacity := S;
      size := 0;
    }

    /** `ByteArray{ list }`: capacity and size are the list length and the list fills the front of the S elements. */
    constructor FromList(S: nat, list: seq<byte>)
      requires |list| <= S
      ensures Valid() && fresh(buf)
      ensures buf.Length == S && capacity == |list| && size == |list|
      ensures buf[..|list|] == list
    {
      buf := new byte[S];
      capacity := |list|;
      size := |list|;
      new;
      forall i | 0 <= i < |list| {
        buf[i] := list[i];
      }
    }

    /** The elements `cbegin()..cend()` and `begin()..end()` visit: exactly `size()` of them. */
    function Elements(): (e: seq<byte>)
      reads this, buf
      requires Valid()
      ensures |e| == size
      ensures forall i :: 0 <= i < size ==> e[i] == buf[i]
    {
      buf[..size]
    }

    /** `at(index)`: exit(-1) when `index >= size()`, element `index` otherwise. */
    function At(index: nat): (r: Result<byte>)
      reads this, buf
      requires Valid()
      ensures r.Err? <==> index >= size
      ensures r.Err? ==> r.fault == OutOfRange
      ensures r.Ok? ==> r.value == Elements()[index]
    {
      if index >= size then Err(OutOfRange) else Ok(buf[index])
    }

    /** `operator[]` in a release build: no check against `size()`. */
    function Get(index: nat): byte
      reads buf
      requires index < buf.Length
    {
      buf[index]
    }

    /** Assignment through `operator[]`. */
    method Set(index: nat, v: byte)
      requires index < buf.Length
      modifies buf
      ensures buf[..] == old(buf[..])[index := v]
    {
      buf[index] := v;
    }

    /** `reset()`: zeroes the first `m_capacity` elements; `m_size` is untouched. */
    method Reset()
      requires Valid()
      modifies buf
      ensures buf[..capacity] == Zeros(capacity)
      ensures buf[capacity..] == old(buf[capacity..])
    {
      forall i | 0 <= i < capacity {
        buf[i] := 0;
      }
    }

    /** `fill(v)`: every element of the capacity becomes `v`; `m_size` is untouched. */
    method Fill(v: byte)
      requires Valid()
      modifies buf
      ensures buf[..capacity] == Repeat(v, capacity)
      ensures buf[capacity..] == old(buf[capacity..])
    {
      forall i | 0 <= i < capacity {
        buf[i] := v;
      }
    }

    /** `write(src, n)`: `memcpy` of `n` bytes to the start; neither bound nor size is checked or changed. */
    method Write(src: seq<byte>, n: nat)
      requires n <= |src| && n <= buf.Length
      modifies buf
      ensures buf[..] == src[..n] + old(buf[..])[n..]
    {
      WriteAt(src, n, 0);
    }

    /** `write_at(src, n, at)`: `memcpy` of `n` bytes to offset `at`. */
    method WriteAt(src: seq<byte>, n: nat, at: nat)
      requires n <= |src| && at + n <= buf.Length
      modifies buf
      ensures buf[..] == old(buf[..])[..at] + src[..n] + old(buf[..])[at + n..]
    {
      forall i | at <= i < at + n {
        buf[i] := src[i - at];
      }
      assert buf[..] == old(buf[..])[..at] + src[..n] + old(buf[..])[at + n..];
    }

    /** `from_file(fp)`: the file's bytes are passed in; `m_size` becomes their count. */
    method Load(contents: seq<byte>)
      requires |contents| <= buf.Length
      modifies this, buf
      ensures size == |contents|
      ensures buf[..] == contents + old(buf[..])[|contents|..]
    {
      size := |contents|;
      forall i | 0 <= i < |contents| {
        buf[i] := contents[i];
      }
      assert buf[..] == contents + old(buf[..])[|contents|..];
    }
  }

  /**
   * `ByteArrayView(arr)` and `ByteArrayView(arr, offset)`: a pointer into
   * `arr`'s buffer and a size, which is `arr.size()` in both cases.
   */
  datatype ByteArrayView = ByteArrayView(source: ByteArray, offset: nat, size: nat)
  {
    /** `at(index)`: exit(-1) when `index >= size`; reading past the allocation is undefined. */
    function At(index: nat): (r: Result<byte>)
      reads source.buf
      requires index < size ==> offset + index < source.buf.Length
      ensures r.Err? <==> index >= size
      ensures r.Ok? ==> r.value == source.buf[offset + index]
    {
      if index >= size then Err(OutOfRange) else Ok(source.buf[offset + index])
    }

    /** `operator[]`: unchecked. */
    function Get(index: nat): byte
      reads source.buf
      requires offset + index < source.buf.Length
    {
      source.buf[offset + index]
    }
  }

  function ViewOf(arr: ByteArray): (v: ByteArrayView)
    reads arr
    ensures v.source == arr && v.offset == 0 && v.size == arr.size
  {
    ByteArrayView(arr, 0, arr.size)
  }

  /** The offset view keeps the whole size of `arr`: its `at` bound is not reduced by `offset`. */
  function ViewFrom(arr: ByteArray, offset: nat): (v: ByteArrayView)
    reads arr
    ensures v.source == arr && v.offset == offset && v.size == arr.size
  {
    ByteArrayView(arr, offset, arr.size)
  }

  /**
   * Through an offset view, `at(i)` passes the size check for every i below
   * `arr.size()`, even where `offset + i` is at or beyond `arr.size()`.
   */
  lemma OffsetViewCheckIgnoresOffset(arr: ByteArray, offset: nat, i: nat)
    requires arr.Valid() && offset + i < arr.buf.Length
    ensures ViewFrom(arr, offset).At(i).Ok? <==> i < arr.size
    ensures i < arr.size ==> ViewFrom(arr, offset).At(i).value == arr.buf[offset + i]
  {
  }
}
