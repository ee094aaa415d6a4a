/** Shared record types of the language server (internal/lsp/model/model.go). */
module Model {

  /** A diagnostic attached to a uri: an LSP severity (1..4) and a message. */
  datatype Diag = Diag(severity: int, message: string)

  const SeverityError: int := 1
  const SeverityWarning: int := 2
  const SeverityInformation: int := 3
  const SeverityHint: int := 4

  /** A zero-based line/column position in a document. */
  datatype Pos = Pos(line: int, col: int)

  /** Go's zero value of `model.Pos`. */
  const ZeroPos: Pos := Pos(0, 0)
}
