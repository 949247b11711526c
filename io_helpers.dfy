/** Reading helpers that fail the test instead of returning an error (io.go). */
module IoHelpers {
  import opened Wrappers
  import opened Errors
  import opened Testing
  import opened Streams

  /** Everything left in r; a read error is fatal and gives nil. */
  method ReadAll(t: TestLog, r: Reader) returns (bs: Option<seq<Byte>>)
    modifies t, r`pos
    ensures r.Remaining() == []
    ensures r.EndErr() == EOF ==> bs == Some(old(r.Remaining())) && unchanged(t)
    ensures r.EndErr() != EOF ==> bs == None && FatalLogged(t, Cause(r.EndErr()))
  {
    var got, err := ReadAllFrom(r);
    if err.Some? {
      t.Fatal(Cause(err.value));
      return None;
    }
    return Some(got);
  }

  /** ReadAll as a string. */
  method ReadAllString(t: TestLog, r: Reader) returns (s: seq<Byte>)
    modifies t, r`pos
    ensures r.Remaining() == []
    ensures r.EndErr() == EOF ==> s == old(r.Remaining()) && unchanged(t)
    ensures r.EndErr() != EOF ==> s == [] && FatalLogged(t, Cause(r.EndErr()))
  {
    var bs := ReadAll(t, r);
    s := StringOf(bs);
  }

  /**
   * The whole content of rs from offset 0, whatever its position; the
   * position is put back afterwards by a deferred seek, which also runs when
   * the read fails. A failed seek before the read is fatal and reads nothing.
   */
  method ReadAllFromStart(t: TestLog, rs: Reader) returns (bs: Option<seq<Byte>>)
    modifies t, rs`pos
    ensures rs.pos == old(rs.pos)
    ensures SeekCurrent in rs.seekErr ==>
      bs == None && FatalLogged(t, Cause(rs.seekErr[SeekCurrent]))
    ensures SeekCurrent !in rs.seekErr && SeekStart in rs.seekErr ==>
      bs == None && FatalLogged(t, Cause(rs.seekErr[SeekStart]))
    ensures SeekCurrent !in rs.seekErr && SeekStart !in rs.seekErr ==>
      if rs.EndErr() == EOF then bs == Some(rs.data) && unchanged(t)
      else bs == None && FatalLogged(t, Cause(rs.EndErr()))
  {
    var cur, err := rs.Seek(0, SeekCurrent);
    if err.Some? {
      t.Fatal(Cause(err.value));
      return None;
    }
    var _, err' := rs.Seek(0, SeekStart);
    if err'.Some? {
      t.Fatal(Cause(err'.value));
      return None;
    }
    var content, rerr := ReadAllFrom(rs);
    if rerr.Some? {
      t.Fatal(Cause(rerr.value));
      bs := None;
    } else {
      bs := Some(content);
    }
    // The deferred seek back to where rs was.
    var _, _ := rs.Seek(cur, SeekStart);
  }
}
