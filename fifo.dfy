/// Model of src/util/fifo.cpp: reading from and writing to the panel's FIFO
/// device. The operating system's ::read is a scripted source: each call
/// consumes the next reply of `replies` (an exhausted script answers 0, "no
/// data"). The count ::write reports is a parameter of Write.
module Fifo {

  /// `FIFO::ErrorCode` as far as this file uses it.
  datatype ErrorCode = EmptyBuffer | Error

  /// `tl::expected<T, FIFO::exception>`, keeping only the error code.
  datatype Result<T> = Success(value: T) | Failure(code: ErrorCode)

  /// What one ::read call reported: it transferred `data` (returning
  /// |data|), or it failed (returning -1).
  datatype OsReply = Transferred(data: seq<bv8>) | Failed

  function Count(reply: OsReply): int {
    match reply
    case Transferred(data) => |data|
    case Failed => -1
  }

  function NextReply(rs: seq<OsReply>): OsReply {
    if rs == [] then Transferred([]) else rs[0]
  }

  function Rest(rs: seq<OsReply>): seq<OsReply> {
    if rs == [] then [] else rs[1..]
  }

  /// `read(dest)`'s classification of the count ::read returned.
  function ReadStatus(count: int, size: nat): (r: Result<()>)
    ensures r.Success? <==> count == size && size != 0
    ensures r == Failure(EmptyBuffer) <==> count == 0
    ensures r.Failure? ==> r.code == EmptyBuffer || r.code == Error
  {
    if count == 0 then Failure(EmptyBuffer)
    else if count != size then Failure(Error)
    else Success(())
  }

  /// `write(data)`'s classification of the count ::write returned.
  function WriteStatus(count: int, size: nat): (r: Result<()>)
    ensures r.Success? <==> count == size
    ensures r.Failure? ==> r.code == Error
  {
    if count != size then Failure(Error) else Success(())
  }

  /// The buffer after ::read copied what it transferred into its front.
  function Delivered(buf: seq<bv8>, reply: OsReply): (r: seq<bv8>)
    ensures |r| == |buf|
  {
    match reply
    case Failed => buf
    case Transferred(data) =>
      if |data| <= |buf| then data + buf[|data|..] else data[..|buf|]
  }

  /// `read_single()` on a script: the byte read and the replies left.
  function ReadSingleOf(rs: seq<OsReply>): (r: (Result<bv8>, seq<OsReply>))
    ensures r.1 == Rest(rs)
    ensures r.0.Success? <==> rs != [] && rs[0].Transferred? && |rs[0].data| == 1
    ensures r.0.Success? ==> rs[0] == Transferred([r.0.value])
  {
    var reply := NextReply(rs);
    match ReadStatus(Count(reply), 1)
    case Success(_) => (Success(reply.data[0]), Rest(rs))
    case Failure(e) => (Failure(e), Rest(rs))
  }

  /// `read_line(delim)` on a script: read single bytes up to and including
  /// the first `delim`; the first failing read ends it with that error.
  function ReadLineOf(rs: seq<OsReply>, delim: bv8): (r: (Result<seq<bv8>>, seq<OsReply>))
    ensures |r.1| < |rs| || r.1 == rs == []
    decreases |rs|
  {
    var (c, rest) := ReadSingleOf(rs);
    match c
    case Failure(e) => (Failure(e), rest)
    case Success(b) =>
      if b == delim then (Success([b]), rest)
      else
        var (line, rest') := ReadLineOf(rest, delim);
        (if line.Success? then Success([b] + line.value) else line, rest')
  }

  /// A result that continues a line already holding `res`.
  function Continued(res: seq<bv8>, r: (Result<seq<bv8>>, seq<OsReply>)): (Result<seq<bv8>>, seq<OsReply>) {
    (if r.0.Success? then Success(res + r.0.value) else r.0, r.1)
  }

  lemma ContinuedNothing(r: (Result<seq<bv8>>, seq<OsReply>))
    ensures Continued([], r) == r
  {
    if r.0.Success? {
      assert [] + r.0.value == r.0.value;
    }
  }

  lemma ContinuedTwice(a: seq<bv8>, b: seq<bv8>, r: (Result<seq<bv8>>, seq<OsReply>))
    ensures Continued(a, Continued(b, r)) == Continued(a + b, r)
  {
    if r.0.Success? {
      assert a + (b + r.0.value) == (a + b) + r.0.value;
    }
  }

  /// A successful line ends with the delimiter, holds no earlier delimiter,
  /// and is never empty.
  lemma {:induction false} ReadLineShape(rs: seq<OsReply>, delim: bv8)
    ensures var line := ReadLineOf(rs, delim).0;
            line.Success? ==>
              && |line.value| > 0
              && line.value[|line.value| - 1] == delim
              && forall i :: 0 <= i < |line.value| - 1 ==> line.value[i] != delim
    decreases |rs|
  {
    var (c, rest) := ReadSingleOf(rs);
    if c.Success? && c.value != delim {
      ReadLineShape(rest, delim);
    }
  }

  /// A successful line consumed exactly one single-byte reply per byte, in
  /// order, and nothing more.
  lemma {:induction false} ReadLineConsumes(rs: seq<OsReply>, delim: bv8)
    ensures var (line, rest) := ReadLineOf(rs, delim);
            line.Success? ==>
              && |line.value| <= |rs|
              && rest == rs[|line.value|..]
              && forall i :: 0 <= i < |line.value| ==> rs[i] == Transferred([line.value[i]])
    decreases |rs|
  {
    var (c, rest) := ReadSingleOf(rs);
    if c.Success? && c.value != delim {
      ReadLineConsumes(rest, delim);
      var line := ReadLineOf(rest, delim).0;
      if line.Success? {
        var l := [c.value] + line.value;
        assert ReadLineOf(rs, delim).0 == Success(l);
        forall i | 0 <= i < |l|
          ensures rs[i] == Transferred([l[i]])
        {
          if i > 0 {
            assert rs[i] == rest[i - 1];
          }
        }
      }
    }
  }

  /// A failed line reports the error of the read_single that failed: the
  /// `k` reads before it each delivered one byte other than `delim`, and
  /// those bytes are dropped.
  lemma {:induction false} ReadLineFailure(rs: seq<OsReply>, delim: bv8)
    ensures var (line, rest) := ReadLineOf(rs, delim);
            line.Failure? ==>
              exists k ::
                && 0 <= k <= |rs|
                && (forall i :: 0 <= i < k ==> rs[i].Transferred? && |rs[i].data| == 1 && rs[i].data[0] != delim)
                && ReadSingleOf(rs[k..]) == (Failure(line.code), rest)
    decreases |rs|
  {
    var (c, rest) := ReadSingleOf(rs);
    var (line, rest') := ReadLineOf(rs, delim);
    if line.Failure? {
      if c.Failure? {
        assert rs[0..] == rs;
        assert ReadSingleOf(rs[0..]) == (Failure(line.code), rest');
      } else {
        ReadLineFailure(rest, delim);
        var k :| && 0 <= k <= |rest|
                 && (forall i :: 0 <= i < k ==> rest[i].Transferred? && |rest[i].data| == 1 && rest[i].data[0] != delim)
                 && ReadSingleOf(rest[k..]) == (Failure(line.code), rest');
        assert rest[k..] == rs[k + 1..];
        forall i | 0 <= i < k + 1
          ensures rs[i].Transferred? && |rs[i].data| == 1 && rs[i].data[0] != delim
        {
          if i > 0 {
            assert rs[i] == rest[i - 1];
          }
        }
      }
    }
  }

  /// `n` successive read_line calls: their results and the replies left.
  function ReadLinesOf(rs: seq<OsReply>, delim: bv8, n: nat): (r: (seq<Result<seq<bv8>>>, seq<OsReply>))
    ensures |r.0| == n
    decreases n
  {
    if n == 0 then ([], rs)
    else
      var (line, rest) := ReadLineOf(rs, delim);
      var (lines, rest') := ReadLinesOf(rest, delim, n - 1);
      ([line] + lines, rest')
  }

  predicate AllSucceeded<T>(results: seq<Result<T>>) {
    forall i :: 0 <= i < |results| ==> results[i].Success?
  }

  function Values(results: seq<Result<seq<bv8>>>): seq<bv8>
    requires AllSucceeded(results)
    decreases |results|
  {
    if results == [] then [] else results[0].value + Values(results[1..])
  }

  /// The bytes one reply delivered.
  function Data(reply: OsReply): seq<bv8> {
    match reply
    case Transferred(data) => data
    case Failed => []
  }

  /// The bytes a run of replies delivered.
  function Payload(rs: seq<OsReply>): seq<bv8>
    decreases |rs|
  {
    if rs == [] then [] else Data(rs[0]) + Payload(rs[1..])
  }

  lemma {:induction false} PayloadAppend(a: seq<OsReply>, b: seq<OsReply>)
    ensures Payload(a + b) == Payload(a) + Payload(b)
    decreases |a|
  {
    if a != [] {
      assert (a + b)[0] == a[0];
      assert (a + b)[1..] == a[1..] + b;
      assert Payload(a + b) == Data(a[0]) + Payload(a[1..] + b);
      PayloadAppend(a[1..], b);
      assert Data(a[0]) + (Payload(a[1..]) + Payload(b)) == (Data(a[0]) + Payload(a[1..])) + Payload(b);
    } else {
      assert a + b == b;
    }
  }

  lemma {:induction false} PayloadOfSingles(rs: seq<OsReply>, line: seq<bv8>)
    requires |line| == |rs|
    requires forall i :: 0 <= i < |line| ==> rs[i] == Transferred([line[i]])
    ensures Payload(rs) == line
    decreases |rs|
  {
    if rs != [] {
      PayloadOfSingles(rs[1..], line[1..]);
    }
  }

  /// One successful line is exactly what its consumed replies delivered.
  lemma LinePayload(rs: seq<OsReply>, delim: bv8)
    requires ReadLineOf(rs, delim).0.Success?
    ensures var n := |rs| - |ReadLineOf(rs, delim).1|;
            0 <= n <= |rs| && ReadLineOf(rs, delim).1 == rs[n..]
            && Payload(rs[..n]) == ReadLineOf(rs, delim).0.value
  {
    ReadLineConsumes(rs, delim);
    var line := ReadLineOf(rs, delim).0.value;
    PayloadOfSingles(rs[..|line|], line);
  }

  /// Successful lines, put end to end, are exactly the bytes the consumed
  /// replies delivered: no byte is lost or read twice.
  lemma {:induction false} ReadLinesReproduceStream(rs: seq<OsReply>, delim: bv8, n: nat)
    requires AllSucceeded(ReadLinesOf(rs, delim, n).0)
    ensures var m := |rs| - |ReadLinesOf(rs, delim, n).1|;
            0 <= m <= |rs| && ReadLinesOf(rs, delim, n).1 == rs[m..]
            && Values(ReadLinesOf(rs, delim, n).0) == Payload(rs[..m])
    decreases n
  {
    if n > 0 {
      var first := ReadLineOf(rs, delim);
      var others := ReadLinesOf(first.1, delim, n - 1);
      var all := ReadLinesOf(rs, delim, n).0;
      assert all == [first.0] + others.0 && ReadLinesOf(rs, delim, n).1 == others.1;
      assert all[0] == first.0 && all[1..] == others.0;
      assert AllSucceeded(others.0) by {
        forall i | 0 <= i < |others.0| ensures others.0[i].Success? {
          assert others.0[i] == all[i + 1];
        }
      }
      LinePayload(rs, delim);
      ReadLinesReproduceStream(first.1, delim, n - 1);
      var k := |rs| - |first.1|;
      var rest := first.1;
      var j := |rest| - |others.1|;
      assert rs[k..][j..] == rs[k + j..];
      assert rs[..k + j] == rs[..k] + rest[..j];
      PayloadAppend(rs[..k], rest[..j]);
    }
  }

  /// A script in which ::read delivers `bytes` one at a time.
  function Singles(bytes: seq<bv8>): (rs: seq<OsReply>)
    ensures |rs| == |bytes|
    ensures forall i :: 0 <= i < |bytes| ==> rs[i] == Transferred([bytes[i]])
    decreases |bytes|
  {
    if bytes == [] then [] else [Transferred([bytes[0]])] + Singles(bytes[1..])
  }

  /// The converse of ReadLineShape: a line that ends in the delimiter and
  /// holds no earlier one, delivered byte by byte, is read back whole and
  /// leaves the rest of the script alone.
  lemma {:induction false} ReadLineOfSingles(line: seq<bv8>, rest: seq<OsReply>, delim: bv8)
    requires |line| > 0 && line[|line| - 1] == delim
    requires forall i :: 0 <= i < |line| - 1 ==> line[i] != delim
    ensures ReadLineOf(Singles(line) + rest, delim) == (Success(line), rest)
    decreases |line|
  {
    var rs := Singles(line) + rest;
    assert rs[0] == Transferred([line[0]]);
    assert Rest(rs) == Singles(line[1..]) + rest;
    assert ReadSingleOf(rs) == (Success(line[0]), Singles(line[1..]) + rest);
    if |line| > 1 {
      ReadLineOfSingles(line[1..], rest, delim);
      assert [line[0]] + line[1..] == line;
    } else {
      assert Singles(line[1..]) + rest == rest;
      assert [line[0]] == line;
    }
  }

  /// `util::FIFO`: the device the controller reads lines from and writes
  /// LED commands to.
  class Device {
    /// The answers the operating system will give to the next ::read calls.
    var replies: seq<OsReply>
    /// Every byte ::write has accepted so far.
    var sent: seq<bv8>

    /// `FIFO(path)` once open() has succeeded.
    constructor (replies: seq<OsReply>)
      ensures this.replies == replies && sent == []
    {
      this.replies := replies;
      sent := [];
    }

    /// `read(BytesView dest)`: one ::read into `dest`, classified.
    method Read(dest: array<bv8>) returns (r: Result<()>)
      modifies this`replies, dest
      ensures replies == Rest(old(replies))
      ensures r == ReadStatus(Count(NextReply(old(replies))), dest.Length)
      ensures dest[..] == Delivered(old(dest[..]), NextReply(old(replies)))
    {
      var reply := NextReply(replies);
      replies := Rest(replies);
      if reply.Transferred? {
        var n := if |reply.data| <= dest.Length then |reply.data| else dest.Length;
        forall i | 0 <= i < n {
          dest[i] := reply.data[i];
        }
        assert dest[..] == Delivered(old(dest[..]), reply);
      }
      r := ReadStatus(Count(reply), dest.Length);
    }

    /// `read_single()`: read into a one-byte buffer holding 0.
    method ReadSingle() returns (r: Result<bv8>)
      modifies this`replies
      ensures (r, replies) == ReadSingleOf(old(replies))
    {
      var dst := new bv8[1] [0];
      var status := Read(dst);
      if status.Success? {
        r := Success(dst[0]);
      } else {
        r := Failure(status.code);
      }
    }

    /// `read_line(delim)`: the do-while loop that pushes bytes onto `res`
    /// until the byte just read is the delimiter.
    method ReadLine(delim: bv8) returns (r: Result<seq<bv8>>)
      modifies this`replies
      ensures (r, replies) == ReadLineOf(old(replies), delim)
    {
      var res: seq<bv8> := [];
      ContinuedNothing(ReadLineOf(replies, delim));
      while true
        invariant Continued(res, ReadLineOf(replies, delim)) == ReadLineOf(old(replies), delim)
        decreases |replies|
      {
        ghost var before := replies;
        var ec := ReadSingle();
        if ec.Failure? {
          return Failure(ec.code);
        }
        var c := ec.value;
        if c == delim {
          res := res + [c];
          return Success(res);
        }
        ContinuedTwice(res, [c], ReadLineOf(replies, delim));
        assert ReadLineOf(before, delim) == Continued([c], ReadLineOf(replies, delim));
        res := res + [c];
      }
    }

    /// `write(data)`: one ::write that reported `count`; the bytes it
    /// accepted reach the device.
    method Write(data: seq<bv8>, count: int) returns (r: Result<()>)
      modifies this`sent
      ensures r == WriteStatus(count, |data|)
      ensures sent == old(sent) + (if 0 <= count <= |data| then data[..count] else [])
    {
      if 0 <= count <= |data| {
        sent := sent + data[..count];
      }
      r := WriteStatus(count, |data|);
    }
  }
}
