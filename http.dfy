/**
  The part of Go's `http.ResponseWriter` the handlers use, as an abstract
  response record: a status line, the headers the handler set and a body
  made of the chunks passed to `Write`. It keeps net/http's ordering rules:
  the handler's headers are fixed by the first `WriteHeader` (or by the
  first `Write`, which implies `WriteHeader(200)`); later header changes and
  later `WriteHeader` calls have no effect on what the client receives; a
  handler that writes nothing answers 200 with whatever headers it set.
  Headers the server adds on its own (a sniffed `Content-Type`, `Date`,
  `Content-Length`) are not part of the record.
*/
module Http {

  const StatusOK: int := 200
  const StatusInternalServerError: int := 500

  /** One `Write` call: plain text, raw bytes, or a JSON encoding of `J`. */
  datatype Chunk<J> = Text(text: string) | Bytes(bytes: seq<bv8>) | Json(doc: J)

  /** What the client receives. */
  datatype Response<J> = Response(status: int, header: map<string, string>, body: seq<Chunk<J>>)

  /** The 500 answer every handler gives for an error: its text, nothing else. */
  function ErrorResponse<J>(error: string): Response<J> {
    Response(StatusInternalServerError, map[], [Text(error)])
  }

  class ResponseWriter<J> {
    /** `w.Header()`, the map a handler may still change. */
    var header: map<string, string>
    var wroteHeader: bool
    var status: int
    /** The header map as it was when the status line went out. */
    var sentHeader: map<string, string>
    var body: seq<Chunk<J>>

    /** A writer as the server hands it to a handler. */
    ghost predicate Pristine()
      reads this
    {
      !wroteHeader && header == map[] && body == []
    }

    constructor ()
      ensures Pristine()
    {
      header, wroteHeader, status, sentHeader, body := map[], false, StatusOK, map[], [];
    }

    /** The response the client receives once the handler returns. */
    ghost function Observed(): Response<J>
      reads this
    {
      if wroteHeader then Response(status, sentHeader, body) else Response(StatusOK, header, body)
    }

    /** `w.Header().Set(key, value)`. */
    method SetHeader(key: string, value: string)
      modifies this
      ensures header == old(header)[key := value]
      ensures wroteHeader == old(wroteHeader) && status == old(status)
      ensures sentHeader == old(sentHeader) && body == old(body)
    {
      header := header[key := value];
    }

    /** `w.WriteHeader(code)`: only the first call counts. */
    method WriteHeader(code: int)
      modifies this
      ensures old(wroteHeader) ==> Observed() == old(Observed())
      ensures !old(wroteHeader) ==> Observed() == Response(code, old(header), old(body))
      ensures wroteHeader && header == old(header) && body == old(body)
    {
      if !wroteHeader {
        wroteHeader, status, sentHeader := true, code, header;
      }
    }

    /** `w.Write(chunk)`: sends the status line first if it has not gone out. */
    method Write(chunk: Chunk<J>)
      modifies this
      ensures old(wroteHeader) ==> Observed() == old(Observed()).(body := old(body) + [chunk])
      ensures !old(wroteHeader) ==> Observed() == Response(StatusOK, old(header), old(body) + [chunk])
      ensures wroteHeader && header == old(header)
    {
      WriteHeader(StatusOK);
      body := body + [chunk];
    }
  }
}
