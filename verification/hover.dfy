/** The hover lookup of the language server (internal/lsp/hover/hover.go): which uri of a templ
    document lies under the cursor. The logging is not modelled. */
module Hover {
  import Uri
  import TemplFile

  /** The test `HoveredUri` applies to one uri: lines and columns are compared separately, so
      a uri spanning several lines covers only the columns between its start and end columns. */
  predicate Covers(u: Uri.Uri, line: int, col: int) {
    u.from.line <= line && u.from.col <= col && u.to.line >= line && u.to.col >= col
  }

  /** `HoveredUri`: the index of the first uri covering the position, -1 when none does. */
  method HoveredUri(t: TemplFile.TemplFile, line: int, col: int) returns (i: int)
    ensures -1 <= i < |t.uris|
    ensures i == -1 <==> forall j :: 0 <= j < |t.uris| ==> !Covers(t.uris[j], line, col)
    ensures i >= 0 ==> Covers(t.uris[i], line, col) && forall j :: 0 <= j < i ==> !Covers(t.uris[j], line, col)
  {
    var k := 0;
    while k < |t.uris|
      invariant 0 <= k <= |t.uris|
      invariant forall j :: 0 <= j < k ==> !Covers(t.uris[j], line, col)
    {
      var u := t.uris[k];
      if u.from.line <= line && u.from.col <= col && u.to.line >= line && u.to.col >= col {
        return k;
      }
      k := k + 1;
    }
    return -1;
  }
}
