/** A writer that lets at most n bytes through and then reports an error (err_writer.go). */
module ErrWriting {
  import opened Wrappers
  import opened Errors
  import opened Streams
  import opened ErrReading

  class ErrWriter {
    const w: Writer   // the wrapped writer
    const n: int      // at most this many bytes are written without error
    const err: Error  // the error returned once n bytes are written
    var off: int      // bytes written so far

    constructor (w: Writer, n: int, err: Option<Error>)
      ensures this.w == w && this.n == n && off == 0
      ensures n >= 0 ==> Valid()
      ensures err.None? ==> this.err == ErrTestError
      ensures err.Some? ==> this.err == err.value
    {
      this.w, this.n, off := w, n, 0;
      this.err := LimitError(err);
    }

    /** The writer is usable: the limit is not negative and has not been overrun. */
    ghost predicate Valid()
      reads this
    {
      0 <= off <= n
    }

    /**
     * Write p: only the part the limit still allows is passed to the wrapped
     * writer, `off` advances by what it accepted, its error is passed on as it
     * is, and reaching the limit reports `err`.
     */
    method Write(p: seq<Byte>) returns (count: nat, e: Option<Error>)
      requires Valid()
      modifies this`off, w`written, w`room
      ensures Valid() && off == old(off) + count
      ensures count == old(w.Accepts(Window(off, n, |p|))) && count <= |p|
      ensures w.written == old(w.written) + p[..count]
      ensures w.room == if old(w.room).None? then None else Some(old(w.room).value - count)
      ensures e == if count < Window(old(off), n, |p|) then Some(w.fault)
                   else if off >= n then Some(err)
                   else None
    {
      var q := p[..Window(off, n, |p|)];
      var put, werr := w.Write(q);
      off := off + put;
      if werr.Some? {
        return put, werr;
      }
      if off >= n {
        return put, Some(err);
      }
      return put, None;
    }
  }
}
