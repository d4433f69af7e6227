/**
 * MemoryFile.h: an in-memory file whose contents only ever grow, written to
 * disk by its destructor when keeping files is enabled. The byte-unit and
 * char-unit instantiations are both one byte per unit; `Unit` stands for it.
 */
module MemoryFile {
  import opened Types
  import Array

  class MemoryFile<Unit> {
    var meimeiKeep: bool
    var path: string
    var data: seq<Unit>

    /** `MemoryFile(path, keep = true)`: empty contents. */
    constructor (path: string, keep: bool := true)
      ensures this.path == path && meimeiKeep == keep && data == []
    {
      this.path := path;
      meimeiKeep := keep;
      data := [];
    }

    /**
     * The move constructor: takes `other`'s path and contents; `meimeiKeep`
     * keeps its default member initialiser (true), not `other`'s value. The
     * moved-from vector is left empty, its path unspecified.
     */
    constructor Moved(other: MemoryFile<Unit>)
      modifies other
      ensures path == old(other.path) && data == old(other.data) && meimeiKeep
      ensures other.data == []
    {
      path := other.path;
      data := other.data;
      meimeiKeep := true;
      new;
      other.data := [];
    }

    /** Move assignment: takes `other`'s path and contents and keeps this file's own `meimeiKeep`. */
    method MoveAssign(other: MemoryFile<Unit>)
      requires other != this
      modifies this, other
      ensures path == old(other.path) && data == old(other.data)
      ensures meimeiKeep == old(meimeiKeep)
      ensures other.data == []
    {
      path := other.path;
      data := other.data;
      other.data := [];
    }

    /** `insertByteData(d, n)`: appends `d[0..n)` one unit at a time. */
    method InsertByteData(d: seq<Unit>, n: nat)
      requires n <= |d|
      modifies this
      ensures data == old(data) + d[..n]
      ensures path == old(path) && meimeiKeep == old(meimeiKeep)
    {
      var i := 0;
      while i < n
        invariant i <= n
        invariant data == old(data) + d[..i]
        invariant path == old(path) && meimeiKeep == old(meimeiKeep)
      {
        data := data + [d[i]];
        assert d[..i + 1] == d[..i] + [d[i]];
        i := i + 1;
      }
    }

    /** The destructor's condition for writing the file out. */
    predicate WritesOnDestruction(globalKeepFlag: bool)
      reads this
    {
      globalKeepFlag && |path| > 0 && |data| > 0 && meimeiKeep
    }
  }

  /** `insertByteChar(d, n)` of a char file: appends `(char)d[i]` for every i < n. */
  method InsertByteChar(file: MemoryFile<char>, d: seq<byte>, n: nat)
    requires n <= |d|
    modifies file
    ensures |file.data| == |old(file.data)| + n
    ensures file.data[..|old(file.data)|] == old(file.data)
    ensures forall i :: 0 <= i < n ==> file.data[|old(file.data)| + i] == d[i] as char
    ensures file.path == old(file.path) && file.meimeiKeep == old(file.meimeiKeep)
  {
    var i := 0;
    while i < n
      invariant i <= n
      invariant |file.data| == |old(file.data)| + i
      invariant file.data[..|old(file.data)|] == old(file.data)
      invariant forall k :: 0 <= k < i ==> file.data[|old(file.data)| + k] == d[k] as char
      invariant file.path == old(file.path) && file.meimeiKeep == old(file.meimeiKeep)
    {
      file.data := file.data + [d[i] as char];
      i := i + 1;
    }
  }

  /** `write_all(data, file, size)`: appends the first `size` bytes of `data`'s buffer, whatever its `size()`. */
  method WriteAll(src: Array.ByteArray, file: MemoryFile<byte>, size: nat)
    requires size <= src.buf.Length
    modifies file
    ensures file.data == old(file.data) + src.buf[..size]
    ensures file.path == old(file.path) && file.meimeiKeep == old(file.meimeiKeep)
  {
    file.InsertByteData(src.buf[..], size);
  }
}
