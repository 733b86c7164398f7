// The byte source of the reader (`PushbackReader` in vcard/src/reader.rs):
// an inner reader plus up to two bytes handed back to it, which the next
// reads deliver first.
module Pushback {
  import opened Errors
  import opened Strings

  /** What is still to be read: the bytes, and whether the inner reader
      ends in an I/O failure rather than at end of file. */
  datatype Stream = Stream(bytes: seq<byte>, failing: bool)

  /** The error `read_exact` reports when the stream runs out. */
  function EofError(s: Stream): (e: VCardError)
    ensures e.Io? && (e.io == Failed <==> s.failing)
  {
    Io(if s.failing then Failed else UnexpectedEof)
  }

  class PushbackReader {
    /** What the inner (buffered) reader has still to deliver. */
    var input: seq<byte>
    const failing: bool
    /** `buf`: the handed-back bytes, of which the first `numReturned`
        are pending. */
    const buf: array<byte>
    var numReturned: nat

    predicate Valid()
      reads this, buf
    {
      buf.Length == 2 && numReturned <= 2
    }

    /** Everything the next reads deliver, in order. */
    function Pending(): seq<byte>
      reads this, buf
      requires Valid()
    {
      buf[..numReturned] + input
    }

    function State(): Stream
      reads this, buf
      requires Valid()
    {
      Stream(Pending(), failing)
    }

    constructor (input: seq<byte>, failing: bool)
      ensures Valid() && fresh(buf)
      ensures numReturned == 0 && State() == Stream(input, failing)
    {
      this.input := input;
      this.failing := failing;
      buf := new byte[2](_ => 0);
      numReturned := 0;
    }

    /** `return_byte`: the byte goes after the bytes already handed back;
        a third one starts the buffer afresh, losing the two before it. */
    method ReturnByte(b: byte)
      requires Valid()
      modifies this, buf
      ensures Valid() && input == old(input)
      ensures numReturned == (if old(numReturned) >= 2 then 1 else old(numReturned) + 1)
      ensures Pending() == (if old(numReturned) >= 2 then [] else old(buf[..numReturned])) + [b] + input
    {
      if numReturned >= 2 {
        numReturned := 0;
      }
      buf[numReturned] := b;
      numReturned := numReturned + 1;
      assert buf[..numReturned] == old(buf[..numReturned]) + [b] || old(numReturned) >= 2;
    }

    /** `return_bytes`: the two bytes replace whatever was handed back. */
    method ReturnBytes(b: seq<byte>)
      requires Valid() && |b| == 2
      modifies this, buf
      ensures Valid() && input == old(input)
      ensures numReturned == 2 && Pending() == b + input
    {
      buf[0] := b[0];
      buf[1] := b[1];
      numReturned := 2;
      assert buf[..2] == b;
    }

    /** `read` into a buffer of `len` bytes. Handed-back bytes are read
        through a chain whose first part is never empty, so such a read
        delivers only handed-back bytes. The inner reader delivers as many
        bytes as asked for and as it has; once empty it reports end of file
        (a read of nothing) or its failure. A read of nothing while bytes
        are handed back loses them. */
    method Read(len: nat) returns (r: Result<seq<byte>>)
      requires Valid()
      modifies this, buf
      ensures Valid()
      ensures r.Err? <==> len > 0 && old(Pending()) == [] && failing
      ensures r.Err? ==> r.error == Io(Failed) && Pending() == old(Pending())
      ensures r.Ok? ==> |r.value| <= len && |r.value| <= |old(Pending())| && r.value == old(Pending())[..|r.value|]
      ensures r.Ok? ==> (r.value == [] <==> len == 0 || old(Pending()) == [])
      ensures r.Ok? && old(numReturned) > 0 ==> |r.value| <= old(numReturned)
      ensures r.Ok? && (len > 0 || old(numReturned) == 0) ==> Pending() == old(Pending())[|r.value|..]
      ensures r.Ok? && len == 0 && old(numReturned) > 0 ==> Pending() == old(input)
      ensures numReturned == (if r.Ok? && |r.value| == 1 && old(numReturned) > 0 then old(numReturned) - 1 else 0)
    {
      if numReturned == 0 {
        if len == 0 {
          return Ok([]);
        }
        if input == [] {
          if failing {
            return Err(Io(Failed));
          }
          return Ok([]);
        }
        var k := if len < |input| then len else |input|;
        r := Ok(input[..k]);
        input := input[k..];
        return;
      }
      var k := if len < numReturned then len else numReturned;
      r := Ok(buf[..k]);
      if k == 1 {
        buf[0] := buf[1];
        numReturned := numReturned - 1;
      } else {
        numReturned := 0;
      }
    }

    /** `read_exact`: exactly `n` bytes, or, when fewer remain, all of them
        consumed and end of file (or the inner failure) reported. */
    method ReadExact(n: nat) returns (r: Result<seq<byte>>)
      requires Valid()
      modifies this, buf
      ensures Valid()
      ensures n <= |old(Pending())| ==> r == Ok(old(Pending())[..n]) && Pending() == old(Pending())[n..]
      ensures n > |old(Pending())| ==> r == Err(EofError(old(State()))) && Pending() == []
      ensures numReturned == (if r.Ok? && n < old(numReturned) then old(numReturned) - n else 0)
    {
      ghost var start := Pending();
      var got: seq<byte> := [];
      while |got| < n
        invariant Valid()
        invariant |got| <= n && got + Pending() == start
        invariant numReturned == (if |got| < old(numReturned) then old(numReturned) - |got| else 0)
        decreases n - |got|
      {
        ghost var before := Pending();
        var part := Read(n - |got|);
        if part.Err? {
          return Err(Io(Failed));
        }
        var bytes := part.value;
        if bytes == [] {
          assert got == start;
          return Err(Io(UnexpectedEof));
        }
        assert before == bytes + Pending() by {
          assert before == before[..|bytes|] + before[|bytes|..];
        }
        ConcatAssoc(got, bytes, Pending());
        got := got + bytes;
      }
      assert start == got + Pending();
      assert got == start[..n] && Pending() == start[n..];
      return Ok(got);
    }
  }
}
