/** A file as the bytes it holds and a position, and a buffered writer in front of one. */
module Files {
  import opened Bytes

  function Zeros(n: nat): (b: bytes)
    ensures |b| == n
  {
    seq(n, _ => 0)
  }

  /** Bytes `b` put at offset `at`; a gap in front of them reads as zeros. */
  function Overwrite(data: bytes, at: nat, b: bytes): bytes {
    (if at <= |data| then data[..at] else data + Zeros(at - |data|))
    + b + (if at + |b| <= |data| then data[at + |b|..] else [])
  }

  lemma OverwriteEnd(data: bytes, b: bytes)
    ensures Overwrite(data, |data|, b) == data + b
  {
  }

  class File {
    var data: bytes
    var pos: nat

    /** `os.Create`. */
    constructor ()
      ensures data == [] && pos == 0
    {
      data, pos := [], 0;
    }

    method Write(b: bytes)
      modifies this
      ensures data == Overwrite(old(data), old(pos), b) && pos == old(pos) + |b|
    {
      data := Overwrite(data, pos, b);
      pos := pos + |b|;
    }

    method WriteAt(b: bytes, at: nat)
      modifies this`data
      ensures data == Overwrite(old(data), at, b)
    {
      data := Overwrite(data, at, b);
    }

    method Truncate(size: nat)
      modifies this`data
      ensures data == if size <= |old(data)| then old(data)[..size] else old(data) + Zeros(size - |old(data)|)
    {
      data := if size <= |data| then data[..size] else data + Zeros(size - |data|);
    }

    method Seek(at: nat)
      modifies this`pos
      ensures pos == at
    {
      pos := at;
    }
  }

  /** A buffered writer: bytes wait in `pending` and reach the file at moments of its own choosing. */
  class Writer {
    const file: File
    var pending: bytes

    ghost predicate Appending()
      reads this, file
    {
      file.pos == |file.data|
    }

    /** The file once everything is flushed. */
    ghost function Written(): bytes
      reads this, file
    {
      file.data + pending
    }

    constructor (f: File)
      ensures file == f && pending == []
    {
      file, pending := f, [];
    }

    method Write(b: bytes)
      requires Appending()
      modifies this, file
      ensures Appending() && Written() == old(Written()) + b
      ensures old(file.data) <= file.data
    {
      pending := pending + b;
      var n :| 0 <= n <= |pending|;
      Drain(n);
    }

    method Drain(n: nat)
      requires Appending() && n <= |pending|
      modifies this, file
      ensures Appending() && Written() == old(Written()) && pending == old(pending)[n..]
      ensures old(file.data) <= file.data
    {
      OverwriteEnd(file.data, pending[..n]);
      file.Write(pending[..n]);
      pending := pending[n..];
    }

    method Flush()
      requires Appending()
      modifies this, file
      ensures Appending() && file.data == Written() == old(Written()) && pending == []
      ensures old(file.data) <= file.data
    {
      Drain(|pending|);
    }
  }
}
