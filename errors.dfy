/**
 * `Error`: one JSHint finding, an immutable value whose getters return the
 * constructor's arguments; and the `java.util.List<Error>` that the runner
 * script fills and the hinters return.
 */
module Errors {
  import opened JavaLang

  /**
   * The constructor checks nothing: any `int` position and any string,
   * `null` included, is accepted. The destructors are the getters
   * (`getId` ... `getCharacter`).
   */
  datatype Error = Error(
    id: JString,
    code: JString,
    raw: JString,
    evidence: JString,
    reason: JString,
    line: Int32,
    character: Int32)

  /** The getters give back exactly what was passed in, whatever it was. */
  lemma GettersReturnArguments(id: JString, code: JString, raw: JString, evidence: JString,
                               reason: JString, line: Int32, character: Int32)
    ensures var e := Error(id, code, raw, evidence, reason, line, character);
      e.id == id && e.code == code && e.raw == raw && e.evidence == evidence &&
      e.reason == reason && e.line == line && e.character == character
  {
  }

  /** A `java.util.ArrayList<Error>`: a mutable list object shared by reference. */
  class ErrorList {
    var items: seq<Error>

    constructor ()
      ensures items == []
    {
      items := [];
    }

    /** `List.add`. */
    method Add(e: Error)
      modifies this
      ensures items == old(items) + [e]
    {
      items := items + [e];
    }
  }
}
