/**
 * NullPartSplitter: the multipart cursor over a response with no parts. It has
 * no state; every observer returns a constant and no operation changes
 * anything, so "zero results" behaves like an exhausted stream.
 */
module Http {
  import opened Wrappers
  import opened Bytes
  import opened Exceptions

  /** The end-of-stream sentinel of the read methods. */
  const EndOfStream := -1

  const EmptyResultMessage := "Empty result"

  class NullPartSplitter {

    constructor ()
    {
    }

    /** getTotalBytesRead: nothing is ever read. */
    method GetTotalBytesRead() returns (total: int)
      ensures total == 0
    {
      total := 0;
    }

    /** hasNext: there is never a next part. */
    method HasNext() returns (more: bool)
      ensures !more
    {
      more := false;
    }

    /** next: advancing an empty result always fails with IOException("Empty result"). */
    method Next() returns (r: Outcome<Error>)
      ensures r == Fail(IOFailure(EmptyResultMessage))
    {
      r := Fail(IOFailure(EmptyResultMessage));
    }

    /** read(): always at the end of the (empty) current part. */
    method Read() returns (b: int)
      ensures b == EndOfStream
    {
      b := EndOfStream;
    }

    /**
     * read(buffer, offset, length): end of stream for any arguments, a null
     * buffer or out-of-range offsets included; the method may not write the buffer.
     */
    method ReadInto(buffer: array?<byte>, offset: int, length: int) returns (n: int)
      ensures n == EndOfStream
    {
      n := EndOfStream;
    }

    /** close: does nothing. */
    method Close()
    {
    }

    /** setBufferSize: has no effect. */
    method SetBufferSize(size: int)
    {
    }

    /** getBufferSize: 0, whatever was set. */
    method GetBufferSize() returns (size: int)
      ensures size == 0
    {
      size := 0;
    }
  }

  /**
   * A caller that closes the cursor and sets its buffer size first still sees
   * an exhausted, empty stream: no operation changes what the observers return.
   */
  method ObserveAfterClose(s: NullPartSplitter, bufferSize: int, buffer: array<byte>)
    returns (more: bool, b: int, n: int, total: int, size: int)
    ensures !more && b == EndOfStream && n == EndOfStream && total == 0 && size == 0
  {
    s.SetBufferSize(bufferSize);
    s.Close();
    more := s.HasNext();
    b := s.Read();
    n := s.ReadInto(buffer, 0, buffer.Length);
    total := s.GetTotalBytesRead();
    size := s.GetBufferSize();
  }

  /** read(buffer, offset, length) leaves every byte of the caller's buffer as it was. */
  method ReadLeavesBuffer(s: NullPartSplitter, buffer: array<byte>, offset: int, length: int)
    returns (n: int)
    ensures n == EndOfStream && buffer[..] == old(buffer[..])
  {
    n := s.ReadInto(buffer, offset, length);
  }
}
