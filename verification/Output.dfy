/** The lines an app-server writes on stdout: streamed events and JSON-RPC replies. */
module Output {
  /** A JSON-RPC id; `Null` is also what a request without an id is answered with. */
  datatype Id = Null | Given(text: string)

  datatype Line =
    | ResponseStart(responseId: string)
    | ResponseDelta(responseId: string, delta: string)
    | ResponseEnd(responseId: string)
    | Result(id: Id, ok: bool)   // ok: what the body of the result says
    | Error(id: Id, code: int)

  predicate IsReply(line: Line) {
    line.Result? || line.Error?
  }

  class Writer {
    var lines: seq<Line>

    constructor ()
      ensures lines == []
    {
      lines := [];
    }

    method Emit(line: Line)
      modifies this
      ensures lines == old(lines) + [line]
    {
      lines := lines + [line];
    }
  }
}
