/** The diagnostics of a uri as the language server reports them
    (internal/lsp/diagnostic/diagnostic.go). */
module Diagnostic {
  import opened Model
  import Uri
  import Protocol

  const Source: string := "gofs"

  /** The prefix a message takes for its severity: one per LSP severity, none for others. */
  function SeverityPrefix(severity: int): (p: string)
    ensures severity == SeverityError ==> p == "Error: "
    ensures severity == SeverityWarning ==> p == "Warning: "
    ensures severity == SeverityInformation ==> p == "Info: "
    ensures severity == SeverityHint ==> p == "Hint: "
    ensures !(SeverityError <= severity <= SeverityHint) ==> p == ""
  {
    if severity == SeverityError then "Error: "
    else if severity == SeverityWarning then "Warning: "
    else if severity == SeverityInformation then "Info: "
    else if severity == SeverityHint then "Hint: "
    else ""
  }

  /** `UriDiagnostic`: one response per diagnostic of the uri, in order, each spanning the
      uri, with its severity, the "gofs" source and the severity-prefixed message. */
  method UriDiagnostic(u: Uri.Uri) returns (ds: seq<Protocol.DiagnosticResponse>)
    ensures |ds| == |u.diag|
    ensures forall i :: 0 <= i < |ds| ==>
              && ds[i].range == Protocol.Range(Protocol.Position(u.from.line, u.from.col), Protocol.Position(u.to.line, u.to.col))
              && ds[i].severity == u.diag[i].severity
              && ds[i].code == 0
              && ds[i].source == Source
              && ds[i].message == SeverityPrefix(u.diag[i].severity) + u.diag[i].message
  {
    ds := [];
    var i := 0;
    while i < |u.diag|
      invariant 0 <= i <= |u.diag| && |ds| == i
      invariant forall j :: 0 <= j < i ==>
                  && ds[j].range == Protocol.Range(Protocol.Position(u.from.line, u.from.col), Protocol.Position(u.to.line, u.to.col))
                  && ds[j].severity == u.diag[j].severity
                  && ds[j].code == 0
                  && ds[j].source == Source
                  && ds[j].message == SeverityPrefix(u.diag[j].severity) + u.diag[j].message
    {
      var d := u.diag[i];
      var message := "";
      if d.severity == SeverityError {
        message := "Error: " + d.message;
      } else if d.severity == SeverityWarning {
        message := "Warning: " + d.message;
      } else if d.severity == SeverityInformation {
        message := "Info: " + d.message;
      } else if d.severity == SeverityHint {
        message := "Hint: " + d.message;
      } else {
        message := d.message;
      }
      var r := Protocol.Range(Protocol.Position(u.from.line, u.from.col), Protocol.Position(u.to.line, u.to.col));
      ds := ds + [Protocol.DiagnosticResponse(r, d.severity, 0, Source, message)];
      i := i + 1;
    }
  }
}
