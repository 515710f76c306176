/** What the lifecycle protocol needs from the kernel: who can be signalled, and a FIFO that
    keeps its bytes only while somebody has it open. */
module Kernel {
  import opened Common

  /** The processes of one managed command; each also stands for its own pid. */
  datatype Proc = Launcher | Runner | Holder | Command

  /** An exited child is a zombie until its parent, or init, reaps it. */
  datatype Life = Unborn | Live | Zombie | Reaped {
    /** `kill(pid, 0)` succeeds. */
    predicate Answers() {
      Live? || Zombie?
    }

    predicate Dead() {
      Zombie? || Reaped?
    }
  }

  /** Which processes hold a copy of one descriptor. */
  datatype Copies = Copies(launcher: bool, runner: bool, holder: bool, command: bool) {
    predicate Any() {
      launcher || runner || holder || command
    }
  }

  const NOBODY := Copies(false, false, false, false)

  /** `rw`: who holds a read-write descriptor. The command's read-only one was open at
      some point and is `attached` now. `accepted`, `consumed` and `lost` record every byte
      written, read, and thrown away with the last descriptor. */
  datatype Fifo = Fifo(rw: Copies, everOpen: bool, attached: bool, feeding: bool, others: nat,
                       buf: seq<byte>, accepted: seq<byte>, consumed: seq<byte>, lost: seq<byte>)
  {
    predicate HasReader() {
      rw.Any() || attached
    }

    predicate HasWriter() {
      rw.Any() || feeding || others > 0
    }

    /** A read of the command returns 0. */
    predicate AtEof() {
      attached && buf == [] && !HasWriter()
    }

    /** Nothing is lost or reordered while the command has not let go of its stdin. */
    predicate Valid() {
      && (attached ==> everOpen)
      && (!everOpen ==> consumed == [])
      && ((everOpen && !attached) || accepted == lost + consumed + buf)
    }

    /** Without any descriptor the buffer is gone. */
    function Settle(): (f: Fifo)
      ensures f.(buf := buf, lost := lost) == this
      ensures attached ==> f == this
      ensures Valid() ==> f.Valid()
    {
      if HasReader() || HasWriter() then this
      else
        assert consumed == [] ==> lost + consumed + buf == (lost + buf) + consumed + [];
        this.(buf := [], lost := lost + buf)
    }

    function WithRW(rw: Copies): (f: Fifo)
      ensures f.(buf := buf, lost := lost) == this.(rw := rw)
      ensures attached ==> f == this.(rw := rw)
      ensures Valid() ==> f.Valid()
    {
      this.(rw := rw).Settle()
    }

    function Attach(): (f: Fifo)
      requires !everOpen
      ensures Valid() ==> f.Valid()
    {
      this.(everOpen := true, attached := true)
    }

    function Detach(): (f: Fifo)
      ensures f.(buf := buf, lost := lost) == this.(attached := false)
      ensures Valid() ==> f.Valid()
    {
      this.(attached := false).Settle()
    }

    function Write(bytes: seq<byte>): (f: Fifo)
      ensures Valid() ==> f.Valid()
    {
      assert lost + consumed + (buf + bytes) == lost + consumed + buf + bytes;
      this.(buf := buf + bytes, accepted := accepted + bytes)
    }

    function Read(n: nat): (f: Fifo)
      requires n <= |buf| && everOpen
      ensures Valid() ==> f.Valid()
    {
      assert buf == buf[..n] + buf[n..];
      assert lost + (consumed + buf[..n]) + buf[n..] == lost + consumed + (buf[..n] + buf[n..]);
      this.(buf := buf[n..], consumed := consumed + buf[..n])
    }
  }

  const CLOSED := Fifo(NOBODY, false, false, false, 0, [], [], [], [])
}
