/**
 Value types shared by the HTML parser model: optional values, results,
 bytes, URLs, and the resource loader's response stream.
 */
module Common {

  datatype Option<+T> = None | Some(value: T)

  datatype Result<+T, +E> = Success(value: T) | Failure(error: E)

  /** An 8-bit byte of a resource payload. */
  type byte = b: int | 0 <= b < 256

  type Bytes = seq<byte>

  /**
   A URL.  Resolving a reference against a base URL (`make_url`) is not
   modelled: the resolved URL is the symbolic term `Resolved(reference, base)`,
   which is enough to say which reference and which base a request was made
   from.
   */
  datatype Url = Url(spec: string) | Resolved(reference: string, base: Url)

  /** `make_url(reference, Some(base))`. */
  function MakeUrl(reference: string, base: Url): Url
  {
    Resolved(reference, base)
  }

  /** The in-order concatenation of a list of chunks. */
  function Flatten<T>(chunks: seq<seq<T>>): seq<T>
    decreases |chunks|
  {
    if chunks == [] then [] else chunks[0] + Flatten(chunks[1..])
  }

  /** Appending one more chunk appends its contents to the concatenation. */
  lemma {:induction false} FlattenSnoc<T>(chunks: seq<seq<T>>, last: seq<T>)
    ensures Flatten(chunks + [last]) == Flatten(chunks) + last
    decreases |chunks|
  {
    if chunks == [] {
      assert [] + [last] == [last];
      assert Flatten([last]) == last + Flatten([last][1..]);
    } else {
      assert (chunks + [last])[0] == chunks[0];
      assert (chunks + [last])[1..] == chunks[1..] + [last];
      FlattenSnoc(chunks[1..], last);
    }
  }

  /** One message of a resource load: a chunk of the body, or the end of the load. */
  datatype LoadProgress = Payload(data: Bytes) | Done(ok: bool)

  /**
   The load ends at message `k`: every earlier message is a payload and
   message `k` is the completion signal.  Messages after it are never read.
   */
  ghost predicate DoneAt(stream: seq<LoadProgress>, k: int)
  {
    && 0 <= k < |stream|
    && stream[k].Done?
    && forall i :: 0 <= i < k ==> stream[i].Payload?
  }

  /** The payload chunks received before position `k`, in arrival order. */
  function PayloadsBefore(stream: seq<LoadProgress>, k: nat): seq<Bytes>
    requires k <= |stream|
  {
    seq(k, i requires 0 <= i < k => if stream[i].Payload? then stream[i].data else [])
  }

  /** What reading a load's messages up to its completion signal yields. */
  datatype Response =
    | Complete(chunks: seq<Bytes>, ok: bool)   // Done arrived after these payloads
    | Incomplete(chunks: seq<Bytes>)           // the stream ends without Done: the reader waits forever

  /**
   Receives payload chunks in order until the first `Done`, the shape of the
   receive loops of the script fetch worker and of the document load.
   */
  function ReadResponse(stream: seq<LoadProgress>): (r: Response)
    ensures forall k :: DoneAt(stream, k) ==> r == Complete(PayloadsBefore(stream, k), stream[k].ok)
    ensures (forall i :: 0 <= i < |stream| ==> stream[i].Payload?) ==> r == Incomplete(PayloadsBefore(stream, |stream|))
    decreases |stream|
  {
    if stream == [] then
      assert PayloadsBefore(stream, 0) == [];
      Incomplete([])
    else match stream[0]
      case Done(ok) => Complete([], ok)
      case Payload(data) =>
        var rest := ReadResponse(stream[1..]);
        assert forall k :: 0 < k <= |stream| ==> PayloadsBefore(stream, k) == [data] + PayloadsBefore(stream[1..], k - 1);
        assert forall k :: DoneAt(stream, k) ==> k > 0 && DoneAt(stream[1..], k - 1);
        match rest
        case Complete(chunks, ok) => Complete([data] + chunks, ok)
        case Incomplete(chunks) => Incomplete([data] + chunks)
  }
}
