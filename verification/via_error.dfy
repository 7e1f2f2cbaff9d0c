/** error/error.go: the error values of the service and the HTTP status each maps to. */
module ViaError {
  /** An error: its code, the message its table gives for the code, and the cause. */
  datatype Error = Error(errorCode: int, message: string, cause: string)

  /** Internal errors, not the user's fault. */
  const ErrContractionHierarchies := 101
  const ErrMatrixComputation := 102
  /** Request errors, the user's fault. */
  const ReqErrMatrixNotFound := 200

  const StatusBadRequest := 400
  const StatusInternalServerError := 500

  const InternalErrors: map<int, string> := map[
    ErrContractionHierarchies := "Error while using contraction hierarchies.",
    ErrMatrixComputation := "Error in matrix computation"]

  /** The request-error table holds no entry. */
  const RequestErrors: map<int, string> := map[]

  const StatusCodes: map<int, int> := map[
    ErrContractionHierarchies := StatusInternalServerError,
    ErrMatrixComputation := StatusInternalServerError]

  /** A Go map read: the entry, or the empty string for an absent key. */
  function MessageFor(table: map<int, string>, code: int): string
  {
    if code in table then table[code] else ""
  }

  /** `NewError`: the internal table's message for the code. */
  function NewError(errorCode: int, cause: string): (e: Error)
    ensures e.errorCode == errorCode && e.cause == cause
    ensures errorCode == ErrContractionHierarchies ==> e.message == "Error while using contraction hierarchies."
    ensures errorCode == ErrMatrixComputation ==> e.message == "Error in matrix computation"
    ensures errorCode != ErrContractionHierarchies && errorCode != ErrMatrixComputation ==> e.message == ""
  {
    Error(errorCode, MessageFor(InternalErrors, errorCode), cause)
  }

  /** `NewRequestError`: the request table is empty, so the message always is too. */
  function NewRequestError(errorCode: int, cause: string): (e: Error)
    ensures e == Error(errorCode, "", cause)
  {
    Error(errorCode, MessageFor(RequestErrors, errorCode), cause)
  }

  /** `Error()`: the message, then the cause in parentheses. */
  function ErrorText(e: Error): (s: string)
    ensures |s| == |e.message| + |e.cause| + 3
    ensures s[..|e.message|] == e.message && s[|e.message|..|e.message| + 2] == " ("
    ensures s[|e.message| + 2..|s| - 1] == e.cause && s[|s| - 1] == ')'
  {
    e.message + " (" + e.cause + ")"
  }

  /** Two errors with the same message text the same way exactly when their causes agree. */
  lemma ErrorTextDeterminesCause(a: Error, b: Error)
    requires a.message == b.message
    ensures ErrorText(a) == ErrorText(b) <==> a.cause == b.cause
  {
    if ErrorText(a) == ErrorText(b) {
      assert a.cause == ErrorText(a)[|a.message| + 2..|ErrorText(a)| - 1];
    }
  }

  /** `statusCode`: the table's status, or 400 Bad Request for a code it does not list. */
  function StatusCode(e: Error): (status: int)
    ensures status == StatusInternalServerError <==>
      e.errorCode == ErrContractionHierarchies || e.errorCode == ErrMatrixComputation
    ensures status == StatusBadRequest <==>
      e.errorCode != ErrContractionHierarchies && e.errorCode != ErrMatrixComputation
  {
    if e.errorCode in StatusCodes then StatusCodes[e.errorCode] else StatusBadRequest
  }

  /** A missing matrix is the user's fault: 400, and a request error text of its cause. */
  lemma MatrixNotFoundIsBadRequest(cause: string)
    ensures StatusCode(NewRequestError(ReqErrMatrixNotFound, cause)) == StatusBadRequest
    ensures ErrorText(NewRequestError(ReqErrMatrixNotFound, cause)) == " (" + cause + ")"
  {
  }
}
