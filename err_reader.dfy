/** A reader that lets at most n bytes through and then reports an error (err_reader.go). */
module ErrReading {
  import opened Wrappers
  import opened Errors
  import opened Streams

  /** The error to report at the limit: a nil argument means ErrTestError. */
  function LimitError(err: Option<Error>): Error {
    err.GetOr(ErrTestError)
  }

  /**
   * How much of a len-byte buffer one call may pass on after `off` of `n`
   * bytes: the whole buffer, or the part left before the limit.
   */
  function Window(off: int, n: int, len: nat): (w: nat)
    requires off <= n
    ensures w <= len && off + w <= n
    ensures off + len <= n ==> w == len
  {
    if off + len > n then n - off else len
  }

  class ErrReader {
    const r: Reader   // the wrapped reader
    const n: int      // at most this many bytes are read without error
    const err: Error  // the error returned once n bytes are read
    var off: int      // bytes read so far

    constructor (r: Reader, n: int, err: Option<Error>)
      ensures this.r == r && this.n == n && off == 0
      ensures n >= 0 ==> Valid()
      ensures err.None? ==> this.err == ErrTestError
      ensures err.Some? ==> this.err == err.value
    {
      this.r, this.n, off := r, n, 0;
      this.err := LimitError(err);
    }

    /** The reader is usable: the limit is not negative and has not been overrun. */
    ghost predicate Valid()
      reads this
    {
      0 <= off <= n
    }

    /**
     * Read into p: the buffer is cut to what the limit still allows, `off`
     * advances by what the wrapped reader delivered, a wrapped-reader error
     * is passed on as it is, and reaching the limit reports `err`.
     */
    method Read(p: array<Byte>) returns (count: nat, e: Option<Error>)
      requires Valid()
      modifies this`off, r`pos, p
      ensures Valid() && off == old(off) + count
      ensures r.pos == old(r.pos) + count
      ensures count <= Window(old(off), n, p.Length) && count <= |old(r.Remaining())|
      ensures p[..count] == old(r.Remaining())[..count]
      ensures r.Remaining() == old(r.Remaining())[count..]
      ensures old(r.Remaining()) == [] ==> count == 0 && e == Some(r.EndErr())
      ensures old(r.Remaining()) != [] ==>
        && count == Min(Window(old(off), n, p.Length), |old(r.Remaining())|)
        && e == (if off >= n then Some(err) else None)
    {
      var len := Window(off, n, p.Length);
      var got, rerr := r.Read(p, len);
      off := off + got;
      if rerr.Some? {
        return got, rerr;
      }
      if off >= n {
        return got, Some(err);
      }
      return got, None;
    }
  }
}
