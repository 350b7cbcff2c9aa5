/** Reading the body of a request from the stream of the WSGI server. */
module RequestBody {
  import opened Wrappers

  type Byte = n: nat | n < 256

  datatype Error = RequestTooLong

  /** A stream hands out at least one byte, and not more than it is asked for, until its end; `gives`
      decides how many. */
  class InputStream {
    const content: seq<Byte>
    const gives: (nat, nat) -> nat
    var at: nat

    ghost predicate Valid()
      reads this
    {
      at <= |content|
    }

    constructor (content: seq<Byte>, gives: (nat, nat) -> nat)
      ensures Valid() && this.content == content && at == 0
    {
      this.content, this.gives, this.at := content, gives, 0;
    }

    method ReadSome(n: nat) returns (data: seq<Byte>)
      requires Valid()
      modifies this
      ensures Valid() && |data| <= n && at == old(at) + |data| && data == content[old(at)..at]
      ensures data == [] <==> n == 0 || old(at) == |content|
    {
      var left := |content| - at;
      var most := if n < left then n else left;
      var k := if most == 0 then 0 else 1 + gives(at, n) % most;
      data := content[at..at + k];
      at := at + k;
    }
  }

  /** `__wsgi_input_to_iterable`, to its end: the chunks are the beginning of the stream, up to the declared
      length, and a declared length over the maximum is refused before anything is read. */
  method InputToChunks(stream: InputStream, declared: Option<int>, maxLength: nat, blockLength: nat)
      returns (chunks: seq<seq<Byte>>, err: Option<Error>)
    requires stream.Valid() && stream.at == 0 && blockLength > 0
    modifies stream
    ensures err.Some? <==> declared.Some? && declared.value > maxLength
    ensures err.Some? ==> chunks == [] && stream.at == 0
    ensures err.None? ==>
      var length := if declared.Some? then declared.value else maxLength;
      var end := if length < 0 then 0 else if length < |stream.content| then length else |stream.content|;
      Concat(chunks) == stream.content[..end]
    ensures forall i | 0 <= i < |chunks| :: 0 < |chunks[i]| <= blockLength
  {
    chunks, err := [], None;
    var length := if declared.Some? then declared.value else maxLength;
    if length > maxLength {
      return [], Some(RequestTooLong);
    }
    var bytesRead := 0;
    while bytesRead < length
      invariant stream.Valid() && stream.at == bytesRead && (bytesRead > 0 ==> bytesRead <= length)
      invariant err.None? && Concat(chunks) == stream.content[..bytesRead]
      invariant forall i | 0 <= i < |chunks| :: 0 < |chunks[i]| <= blockLength
      decreases length - bytesRead
    {
      var bytesToRead := if blockLength < length - bytesRead then blockLength else length - bytesRead;
      if bytesToRead + bytesRead > maxLength {
        assert false;
      }
      var data := stream.ReadSome(bytesToRead);
      if data == [] {
        break;
      }
      bytesRead := bytesRead + |data|;
      ConcatSnoc(chunks, data);
      chunks := chunks + [data];
    }
  }

  function Concat(chunks: seq<seq<Byte>>): seq<Byte> {
    if chunks == [] then [] else Concat(chunks[..|chunks| - 1]) + chunks[|chunks| - 1]
  }

  lemma ConcatSnoc(chunks: seq<seq<Byte>>, data: seq<Byte>)
    ensures Concat(chunks + [data]) == Concat(chunks) + data
  {
    assert (chunks + [data])[..|chunks|] == chunks;
  }
}
