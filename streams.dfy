/**
 * In-memory stand-ins for the io interfaces the helpers are given: a seekable,
 * closable byte reader (bytes.Reader) whose end, seeks and close can be made to
 * fail, a growing byte buffer (bytes.Buffer) that can be given a bounded room,
 * and ioutil.ReadAll over the reader.
 */
module Streams {
  import opened Wrappers
  import opened Errors

  newtype Byte = b: int | 0 <= b < 256

  datatype Whence = SeekStart | SeekCurrent | SeekEnd

  /** Go's string conversion of a byte slice: a nil slice gives the empty string. */
  function StringOf(b: Option<seq<Byte>>): seq<Byte> {
    b.GetOr([])
  }

  class Reader {
    const data: seq<Byte>
    var pos: nat                       // the read offset; seeks may move it past the end
    const readErr: Option<Error>       // reported at the end of data instead of io.EOF
    const closeErr: Option<Error>      // returned by Close
    const seekErr: map<Whence, Error>  // seeks from these origins fail

    /** bytes.NewReader(data), behind ioutil.NopCloser when a closer is wanted. */
    constructor (data: seq<Byte>)
      ensures this.data == data && IsReplay()
    {
      this.data, pos := data, 0;
      readErr, closeErr, seekErr := None, None, map[];
    }

    /** A stream over `data` with the given faults. */
    constructor Faulty(data: seq<Byte>, readErr: Option<Error>, closeErr: Option<Error>, seekErr: map<Whence, Error>)
      ensures this.data == data && pos == 0
      ensures this.readErr == readErr && this.closeErr == closeErr && this.seekErr == seekErr
    {
      this.data, pos := data, 0;
      this.readErr, this.closeErr, this.seekErr := readErr, closeErr, seekErr;
    }

    /** A fresh reader over its bytes that can never fail. */
    ghost predicate IsReplay()
      reads this
    {
      pos == 0 && readErr == None && closeErr == None && seekErr == map[]
    }

    /** The bytes a reader would still deliver. */
    function Remaining(): seq<Byte>
      reads this
    {
      if pos < |data| then data[pos..] else []
    }

    /** The error a read at the end of data reports. */
    function EndErr(): Error
      reads this
    {
      readErr.GetOr(EOF)
    }

    /**
     * Read into p[..len] (the slice p[:len]): at the end of data, nothing and
     * the end error; otherwise as many bytes as fit, and no error.
     */
    method Read(p: array<Byte>, len: nat) returns (n: nat, err: Option<Error>)
      requires len <= p.Length
      modifies this`pos, p
      ensures old(Remaining()) == [] ==> n == 0 && err == Some(EndErr()) && pos == old(pos)
      ensures old(Remaining()) != [] ==> n == Min(len, |old(Remaining())|) && err == None && pos == old(pos) + n
      ensures n <= len && p[..n] == old(Remaining())[..n] && p[n..] == old(p[n..])
      ensures Remaining() == old(Remaining())[n..]
    {
      if pos >= |data| {
        return 0, Some(EndErr());
      }
      n := Min(len, |data| - pos);
      forall i | 0 <= i < n {
        p[i] := data[pos + i];
      }
      pos := pos + n;
      err := None;
    }

    /** Seek as bytes.Reader does, unless seeks from `whence` are set to fail. */
    method Seek(offset: int, whence: Whence) returns (abs: int, err: Option<Error>)
      modifies this`pos
      ensures whence in seekErr ==> abs == 0 && err == Some(seekErr[whence]) && pos == old(pos)
      ensures whence !in seekErr ==>
        var target := match whence
          case SeekStart => offset
          case SeekCurrent => old(pos) + offset
          case SeekEnd => |data| + offset;
        if target < 0 then abs == 0 && err.Some? && pos == old(pos)
        else abs == target && err == None && pos == target
    {
      if whence in seekErr {
        return 0, Some(seekErr[whence]);
      }
      abs := match whence
        case SeekStart => offset
        case SeekCurrent => pos + offset
        case SeekEnd => |data| + offset;
      if abs < 0 {
        return 0, Some(Failure("bytes.Reader.Seek: negative position"));
      }
      pos := abs;
      err := None;
    }

    method Close() returns (err: Option<Error>)
      ensures err == closeErr
    {
      err := closeErr;
    }
  }

  /**
   * ioutil.ReadAll: read until the reader reports an error; io.EOF counts as
   * success.
   */
  method ReadAllFrom(r: Reader) returns (bs: seq<Byte>, err: Option<Error>)
    modifies r`pos
    ensures bs == old(r.Remaining()) && r.Remaining() == []
    ensures err == if r.EndErr() == EOF then None else Some(r.EndErr())
  {
    bs := [];
    var p := new Byte[512];
    while true
      invariant old(r.Remaining()) == bs + r.Remaining()
      decreases |r.Remaining()|
    {
      var n;
      n, err := r.Read(p, p.Length);
      bs := bs + p[..n];
      if err.Some? {
        if err.value == EOF {
          err := None;
        }
        return;
      }
    }
  }

  /** A byte sink: bytes.Buffer when `room` is None, else a writer that accepts at most `room` more bytes. */
  class Writer {
    var written: seq<Byte>
    var room: Option<nat>
    const fault: Error   // reported with a short write

    /** An empty bytes.Buffer. */
    constructor ()
      ensures written == [] && room == None
    {
      written, room, fault := [], None, Failure("short write");
    }

    constructor Bounded(room: nat, fault: Error)
      ensures written == [] && this.room == Some(room) && this.fault == fault
    {
      written, this.room, this.fault := [], Some(room), fault;
    }

    /** How many of k offered bytes a write accepts. */
    function Accepts(k: nat): nat
      reads this
    {
      match room
      case None => k
      case Some(r) => Min(k, r)
    }

    /** Append the prefix of p that fits; a short write reports `fault`, as io.Writer requires. */
    method Write(p: seq<Byte>) returns (n: nat, err: Option<Error>)
      modifies this`written, this`room
      ensures n == old(Accepts(|p|)) && n <= |p|
      ensures written == old(written) + p[..n]
      ensures room == (if old(room).None? then None else Some(old(room).value - n))
      ensures err == if n < |p| then Some(fault) else None
    {
      n := Accepts(|p|);
      written := written + p[..n];
      if room.Some? {
        room := Some(room.value - n);
      }
      err := if n < |p| then Some(fault) else None;
    }
  }
}
