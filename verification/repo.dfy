/** The workspace state of the language server (internal/lsp/repo/repo.go): whether the
    workspace is a gofs project, its routes table, and the templ documents the editor has open.

    Reading the file system and parsing go.mod are not part of this model: `Open` is given
    their outcomes. Parsers are fixed when the repository is created. */
module Repo {
  import opened Wrappers
  import opened Model
  import Uri
  import RoutesFile
  import TemplFile
  import Seqs

  const NoRouteMessage: string := "no route found for uri"

  /** The diagnostic added to a uri that no route serves. */
  const NoRouteDiag: Diag := Diag(SeverityError, NoRouteMessage)

  /** The key open documents are looked up by. */
  function DocPath(d: TemplFile.TemplFile): string {
    d.path
  }

  /** The route index of every uri. */
  function RouteIndexes(routes: seq<RoutesFile.Route>, uris: seq<Uri.Uri>, level: (Uri.Uri, Uri.Uri) -> int, noMatch: int): (idx: seq<int>)
    ensures |idx| == |uris|
    ensures forall i :: 0 <= i < |uris| ==> -1 <= idx[i] < |routes|
  {
    seq(|uris|, i requires 0 <= i < |uris| => RoutesFile.BestRoute(routes, uris[i], level, noMatch))
  }

  /** The uris, each unresolved one with the "no route found" error appended to its diagnostics. */
  function Resolved(uris: seq<Uri.Uri>, idx: seq<int>): (us: seq<Uri.Uri>)
    requires |idx| == |uris|
    ensures |us| == |uris|
  {
    seq(|uris|, i requires 0 <= i < |uris| => if idx[i] == -1 then uris[i].(diag := uris[i].diag + [NoRouteDiag]) else uris[i])
  }

  /** The entry for a document whose uris are `uris`. */
  function Entry(path: string, text: string, uris: seq<Uri.Uri>, routes: seq<RoutesFile.Route>,
                 level: (Uri.Uri, Uri.Uri) -> int, noMatch: int): (e: TemplFile.TemplFile)
    ensures e.path == path && e.text == text
    ensures |e.uris| == |e.urisRouteIndex| == |uris|
  {
    var idx := RouteIndexes(routes, uris, level, noMatch);
    TemplFile.TemplFile(path, text, Resolved(uris, idx), idx)
  }

  /** A document re-extracted against `routes`; nothing when its text does not parse. */
  function Reextracted(parseTempl: string -> Result<seq<TemplFile.TopNode>>, parse: string -> Uri.ParseResult,
                       routes: seq<RoutesFile.Route>, level: (Uri.Uri, Uri.Uri) -> int, noMatch: int,
                       d: TemplFile.TemplFile): Option<TemplFile.TemplFile>
  {
    var p := parseTempl(d.text);
    if p.Err? then None
    else Some(Entry(d.path, d.text, TemplFile.TemplUris(p.value, parse), routes, level, noMatch))
  }

  /** `Reextracted` with everything but the document fixed. */
  function ReextractFn(parseTempl: string -> Result<seq<TemplFile.TopNode>>, parse: string -> Uri.ParseResult,
                       routes: seq<RoutesFile.Route>, level: (Uri.Uri, Uri.Uri) -> int, noMatch: int)
    : TemplFile.TemplFile -> Option<TemplFile.TemplFile>
  {
    d => Reextracted(parseTempl, parse, routes, level, noMatch, d)
  }

  /** From index `i` on, each element replaced by its image under `f`, up to the first one
      `f` has no image for, which and whose successors stay as they are. */
  function UpdateFrom<T>(xs: seq<T>, f: T -> Option<T>, i: nat): (r: seq<T>)
    requires i <= |xs|
    decreases |xs| - i
  {
    if i == |xs| then xs
    else
      var y := f(xs[i]);
      if y.None? then xs else UpdateFrom(xs[i := y.value], f, i + 1)
  }

  /** What `RecalculateTemplUrls` leaves: each document re-extracted in order, up to the first
      one that does not parse, which and whose successors keep their entries. */
  function Recalculated(ot: seq<TemplFile.TemplFile>, parseTempl: string -> Result<seq<TemplFile.TopNode>>,
                        parse: string -> Uri.ParseResult, routes: seq<RoutesFile.Route>,
                        level: (Uri.Uri, Uri.Uri) -> int, noMatch: int): seq<TemplFile.TemplFile>
  {
    UpdateFrom(ot, ReextractFn(parseTempl, parse, routes, level, noMatch), 0)
  }

  lemma {:induction false} UpdateFromKeepsDocuments(ot: seq<TemplFile.TemplFile>, i: nat,
      parseTempl: string -> Result<seq<TemplFile.TopNode>>, parse: string -> Uri.ParseResult,
      routes: seq<RoutesFile.Route>, level: (Uri.Uri, Uri.Uri) -> int, noMatch: int)
    requires i <= |ot|
    ensures var r := UpdateFrom(ot, ReextractFn(parseTempl, parse, routes, level, noMatch), i);
            |r| == |ot| && forall j :: 0 <= j < |ot| ==> r[j].path == ot[j].path && r[j].text == ot[j].text
    decreases |ot| - i
  {
    var f := ReextractFn(parseTempl, parse, routes, level, noMatch);
    if i < |ot| && f(ot[i]).Some? {
      var next := ot[i := f(ot[i]).value];
      UpdateFromKeepsDocuments(next, i + 1, parseTempl, parse, routes, level, noMatch);
    }
  }

  /** Recalculation keeps the number of documents and every document's path and text. */
  lemma RecalculatedKeepsDocuments(ot: seq<TemplFile.TemplFile>,
      parseTempl: string -> Result<seq<TemplFile.TopNode>>, parse: string -> Uri.ParseResult,
      routes: seq<RoutesFile.Route>, level: (Uri.Uri, Uri.Uri) -> int, noMatch: int)
    ensures var r := Recalculated(ot, parseTempl, parse, routes, level, noMatch);
            |r| == |ot| && forall i :: 0 <= i < |ot| ==> r[i].path == ot[i].path && r[i].text == ot[i].text
  {
    UpdateFromKeepsDocuments(ot, 0, parseTempl, parse, routes, level, noMatch);
  }

  lemma {:induction false} UpdateFromStopsAtError(ot: seq<TemplFile.TemplFile>, i: nat, k: nat,
      parseTempl: string -> Result<seq<TemplFile.TopNode>>, parse: string -> Uri.ParseResult,
      routes: seq<RoutesFile.Route>, level: (Uri.Uri, Uri.Uri) -> int, noMatch: int)
    requires i <= k < |ot| && parseTempl(ot[k].text).Err?
    ensures var r := UpdateFrom(ot, ReextractFn(parseTempl, parse, routes, level, noMatch), i);
            |r| == |ot| && r[k..] == ot[k..]
    decreases |ot| - i
  {
    var f := ReextractFn(parseTempl, parse, routes, level, noMatch);
    if f(ot[i]).Some? {
      var next := ot[i := f(ot[i]).value];
      assert next[k..] == ot[k..];
      UpdateFromStopsAtError(next, i + 1, k, parseTempl, parse, routes, level, noMatch);
    }
  }

  /** Recalculation stops at the first document that does not parse: it and every later
      document are left as they were. */
  lemma RecalculatedStopsAtError(ot: seq<TemplFile.TemplFile>, k: nat,
      parseTempl: string -> Result<seq<TemplFile.TopNode>>, parse: string -> Uri.ParseResult,
      routes: seq<RoutesFile.Route>, level: (Uri.Uri, Uri.Uri) -> int, noMatch: int)
    requires k < |ot| && parseTempl(ot[k].text).Err?
    ensures var r := Recalculated(ot, parseTempl, parse, routes, level, noMatch);
            |r| == |ot| && r[k..] == ot[k..]
  {
    UpdateFromStopsAtError(ot, 0, k, parseTempl, parse, routes, level, noMatch);
  }

  /** When `f` has an image for every element from `i` on, each of them is replaced by it. */
  lemma {:induction false} UpdateFromAllSome<T>(xs: seq<T>, f: T -> Option<T>, i: nat)
    requires i <= |xs|
    requires forall j :: i <= j < |xs| ==> f(xs[j]).Some?
    ensures var r := UpdateFrom(xs, f, i);
            && |r| == |xs|
            && (forall j :: 0 <= j < i ==> r[j] == xs[j])
            && (forall j :: i <= j < |xs| ==> r[j] == f(xs[j]).value)
    decreases |xs| - i
  {
    if i < |xs| {
      var next := xs[i := f(xs[i]).value];
      assert forall j :: i + 1 <= j < |xs| ==> next[j] == xs[j];
      UpdateFromAllSome(next, f, i + 1);
    }
  }

  /** Recalculation with every document parsing re-derives every entry from its text. */
  lemma RecalculatedAllParse(ot: seq<TemplFile.TemplFile>,
      parseTempl: string -> Result<seq<TemplFile.TopNode>>, parse: string -> Uri.ParseResult,
      routes: seq<RoutesFile.Route>, level: (Uri.Uri, Uri.Uri) -> int, noMatch: int)
    requires forall i :: 0 <= i < |ot| ==> parseTempl(ot[i].text).Ok?
    ensures var r := Recalculated(ot, parseTempl, parse, routes, level, noMatch);
            |r| == |ot| && forall i :: 0 <= i < |ot| ==>
              r[i] == Entry(ot[i].path, ot[i].text, TemplFile.TemplUris(parseTempl(ot[i].text).value, parse), routes, level, noMatch)
  {
    var f := ReextractFn(parseTempl, parse, routes, level, noMatch);
    assert forall i :: 0 <= i < |ot| ==> f(ot[i]).Some?;
    UpdateFromAllSome(ot, f, 0);
  }

  /** `Repo`: the workspace. The routes table is owned by the repository. */
  class Repo {
    var isOpen: bool
    var rootPath: string
    var hasGofsConfig: bool
    var modulePath: string
    const rt: RoutesFile.Routes
    var ot: seq<TemplFile.TemplFile>
    const parseTempl: string -> Result<seq<TemplFile.TopNode>>
    const level: (Uri.Uri, Uri.Uri) -> int
    const noMatch: int

    /** `NewRepo`: a closed repository with no open documents. */
    constructor (rt: RoutesFile.Routes, parseTempl: string -> Result<seq<TemplFile.TopNode>>,
                 level: (Uri.Uri, Uri.Uri) -> int, noMatch: int)
      ensures !isOpen && !hasGofsConfig && rootPath == "" && modulePath == "" && ot == []
      ensures this.rt == rt && this.parseTempl == parseTempl && this.level == level && this.noMatch == noMatch
    {
      isOpen := false;
      rootPath := "";
      hasGofsConfig := false;
      modulePath := "";
      ot := [];
      this.rt := rt;
      this.parseTempl := parseTempl;
      this.level := level;
      this.noMatch := noMatch;
    }

    /** `IsValidGofs`: an open gofs project with a module path and a loaded routes table. */
    predicate IsValidGofs()
      reads this, rt
    {
      isOpen && hasGofsConfig && modulePath != "" && rt.IsValid()
    }

    /** `Open`: without a .gofs directory the workspace opens as a plain one; otherwise the
        module path comes from go.mod and the routes from routes.go, and the first failure
        is returned with the workspace left closed. `goMod` is the outcome of reading and
        parsing go.mod, `routesFile` that of reading routes.go. */
    method Open(root: string, hasGofsDir: bool, goMod: Result<string>, routesFile: Result<seq<bv8>>)
      returns (err: Option<string>)
      requires hasGofsDir && goMod.Ok? && routesFile.Ok? ==>
                 RoutesFile.FileRoutes(rt.parseFile(routesFile.value), rt.parseExpr).Done?
      modifies this, rt
      ensures rootPath == root && ot == old(ot)
      ensures !hasGofsDir ==> err.None? && isOpen && !hasGofsConfig && !IsValidGofs()
                              && modulePath == old(modulePath) && unchanged(rt)
      ensures hasGofsDir ==> hasGofsConfig
      ensures hasGofsDir && goMod.Err? ==> err == Some(goMod.error) && isOpen == old(isOpen)
                                           && modulePath == old(modulePath) && unchanged(rt)
      ensures hasGofsDir && goMod.Ok? ==> modulePath == goMod.value
      ensures hasGofsDir && goMod.Ok? && routesFile.Err? ==> err == Some(routesFile.error) && isOpen == old(isOpen) && unchanged(rt)
      ensures hasGofsDir && goMod.Ok? && routesFile.Ok? ==>
                && err.None? && isOpen && rt.b == Some(routesFile.value)
                && rt.routes == RoutesFile.FileRoutes(rt.parseFile(routesFile.value), rt.parseExpr).value
                && (IsValidGofs() <==> goMod.value != "")
    {
      rootPath := root;
      if !hasGofsDir {
        isOpen := true;
        hasGofsConfig := false;
        return None;
      }
      hasGofsConfig := true;
      if goMod.Err? {
        return Some(goMod.error);
      }
      modulePath := goMod.value;
      if routesFile.Err? {
        return Some(routesFile.error);
      }
      rt.Update(routesFile.value);
      isOpen := true;
      return None;
    }

    /** `GetTemplFile`: the first open document with the path; nothing when the workspace is
        not open. */
    method GetTemplFile(path: string) returns (r: Option<TemplFile.TemplFile>)
      ensures !isOpen ==> r.None?
      ensures isOpen ==> (r.None? <==> forall j :: 0 <= j < |ot| ==> ot[j].path != path)
      ensures r.Some? ==> exists i :: 0 <= i < |ot| && ot[i] == r.value && ot[i].path == path
                                      && forall j :: 0 <= j < i ==> ot[j].path != path
    {
      if !isOpen {
        return None;
      }
      var i := 0;
      while i < |ot|
        invariant 0 <= i <= |ot|
        invariant forall j :: 0 <= j < i ==> ot[j].path != path
      {
        if ot[i].path == path {
          return Some(ot[i]);
        }
        i := i + 1;
      }
      return None;
    }

    /** The route index of one uri, and the uri with the "no route found" error added when
        the index is -1. */
    method ResolveUri(u: Uri.Uri) returns (v: Uri.Uri, k: int)
      ensures k == RoutesFile.BestRoute(rt.routes, u, level, noMatch)
      ensures k == -1 <==> forall j :: 0 <= j < |rt.routes| ==> level(rt.routes[j].uri, u) <= noMatch
      ensures v == if k == -1 then u.(diag := u.diag + [NoRouteDiag]) else u
    {
      k := rt.RouteIndex(u, level, noMatch);
      RoutesFile.BestRouteIsFirstMaximum(rt.routes, u, level, noMatch);
      v := u;
      if k == -1 {
        v := v.(diag := v.diag + [NoRouteDiag]);
      }
    }

    /** The route index of each uri, and the uris with the "no route found" error added
        to every unresolved one. */
    method IndexUris(uris: seq<Uri.Uri>) returns (us: seq<Uri.Uri>, idx: seq<int>)
      ensures idx == RouteIndexes(rt.routes, uris, level, noMatch)
      ensures us == Resolved(uris, idx)
    {
      us := [];
      idx := [];
      var i := 0;
      while i < |uris|
        invariant 0 <= i <= |uris|
        invariant |us| == i && |idx| == i
        invariant forall j :: 0 <= j < i ==> idx[j] == RoutesFile.BestRoute(rt.routes, uris[j], level, noMatch)
        invariant forall j :: 0 <= j < i ==> us[j] == if idx[j] == -1 then uris[j].(diag := uris[j].diag + [NoRouteDiag]) else uris[j]
      {
        var v, k := ResolveUri(uris[i]);
        idx := idx + [k];
        us := us + [v];
        i := i + 1;
      }
    }

    /** `OpenTemplFile`: append an entry for the document, without looking for an existing
        one; a document that does not parse gets no uris. Nothing happens while the
        workspace is not open. */
    method OpenTemplFile(path: string, text: string)
      modifies this
      ensures !isOpen ==> ot == old(ot)
      ensures isOpen && parseTempl(text).Err? ==> ot == old(ot) + [TemplFile.TemplFile(path, text, [], [])]
      ensures isOpen && parseTempl(text).Ok? ==>
                ot == old(ot) + [Entry(path, text, TemplFile.TemplUris(parseTempl(text).value, rt.parseExpr), rt.routes, level, noMatch)]
      ensures isOpen == old(isOpen) && hasGofsConfig == old(hasGofsConfig) && modulePath == old(modulePath) && rootPath == old(rootPath)
    {
      if !isOpen {
        return;
      }
      var uris := TemplFile.GetTemplUris(parseTempl(text), rt.parseExpr);
      if uris.Err? {
        ot := ot + [TemplFile.TemplFile(path, text, [], [])];
        return;
      }
      var us, idx := IndexUris(uris.value);
      ot := ot + [TemplFile.TemplFile(path, text, us, idx)];
    }

    /** `ChangeTemplFile`: the first document with the path takes the new text; its uris are
        re-extracted when the text parses and kept otherwise. No change without content
        changes, without a matching document, or while the workspace is not open. */
    method ChangeTemplFile(path: string, changes: seq<string>)
      modifies this
      ensures !isOpen || changes == [] || Seqs.FirstKey(old(ot), DocPath, path) == -1 ==> ot == old(ot)
      ensures isOpen && changes != [] && Seqs.FirstKey(old(ot), DocPath, path) >= 0 ==>
                var i := Seqs.FirstKey(old(ot), DocPath, path);
                var p := parseTempl(changes[0]);
                ot == old(ot)[i := if p.Err? then old(ot)[i].(text := changes[0])
                                   else Entry(path, changes[0], TemplFile.TemplUris(p.value, rt.parseExpr), rt.routes, level, noMatch)]
      ensures isOpen == old(isOpen) && hasGofsConfig == old(hasGofsConfig) && modulePath == old(modulePath) && rootPath == old(rootPath)
    {
      if !isOpen {
        return;
      }
      if |changes| == 0 {
        return;
      }
      var i := 0;
      while i < |ot|
        invariant 0 <= i <= |ot| && ot == old(ot)
        invariant forall j :: 0 <= j < i ==> ot[j].path != path
      {
        if ot[i].path == path {
          ot := ot[i := ot[i].(text := changes[0])];
          var uris := TemplFile.GetTemplUris(parseTempl(changes[0]), rt.parseExpr);
          if uris.Err? {
            return;
          }
          var us, idx := IndexUris(uris.value);
          ot := ot[i := ot[i].(uris := us, urisRouteIndex := idx)];
          return;
        }
        i := i + 1;
      }
    }

    /** `CloseTemplFile`: remove the first document with the path, keeping the others in order. */
    method CloseTemplFile(path: string)
      modifies this
      ensures !isOpen ==> ot == old(ot)
      ensures isOpen ==> ot == Seqs.RemoveFirstKey(old(ot), DocPath, path)
      ensures isOpen == old(isOpen) && hasGofsConfig == old(hasGofsConfig) && modulePath == old(modulePath) && rootPath == old(rootPath)
    {
      if !isOpen {
        return;
      }
      var i := 0;
      while i < |ot|
        invariant 0 <= i <= |ot| && ot == old(ot)
        invariant forall j :: 0 <= j < i ==> ot[j].path != path
      {
        if ot[i].path == path {
          ot := ot[..i] + ot[i + 1..];
          return;
        }
        i := i + 1;
      }
    }

    /** One document re-extracted against the current routes; nothing when it does not parse. */
    method Reextract(d: TemplFile.TemplFile) returns (r: Option<TemplFile.TemplFile>)
      ensures r == ReextractFn(parseTempl, rt.parseExpr, rt.routes, level, noMatch)(d)
    {
      var uris := TemplFile.GetTemplUris(parseTempl(d.text), rt.parseExpr);
      if uris.Err? {
        return None;
      }
      var us, idx := IndexUris(uris.value);
      return Some(d.(uris := us, urisRouteIndex := idx));
    }

    /** `RecalculateTemplUrls`: re-extract every document's uris against the current routes,
        stopping at the first document that does not parse. Allowed while not open. */
    method RecalculateTemplUrls()
      modifies this
      ensures ot == Recalculated(old(ot), parseTempl, rt.parseExpr, rt.routes, level, noMatch)
      ensures isOpen == old(isOpen) && hasGofsConfig == old(hasGofsConfig) && modulePath == old(modulePath) && rootPath == old(rootPath)
    {
      var docs := ot;
      ghost var f := ReextractFn(parseTempl, rt.parseExpr, rt.routes, level, noMatch);
      var i := 0;
      while i < |docs|
        invariant unchanged(this)
        invariant 0 <= i <= |docs|
        invariant UpdateFrom(docs, f, i) == UpdateFrom(ot, f, 0)
      {
        var e := Reextract(docs[i]);
        if e.None? {
          ot := docs;
          return;
        }
        docs := docs[i := e.value];
        i := i + 1;
      }
      ot := docs;
    }

    /** `UpdateRoutes`: reload the routes table from new routes.go content and re-resolve
        every open document. Nothing happens while the workspace is not open. */
    method UpdateRoutes(bytes: seq<bv8>)
      requires isOpen ==> RoutesFile.FileRoutes(rt.parseFile(bytes), rt.parseExpr).Done?
      modifies this, rt
      ensures isOpen == old(isOpen)
      ensures !isOpen ==> ot == old(ot) && unchanged(rt)
      ensures isOpen ==> rt.b == Some(bytes) && rt.routes == RoutesFile.FileRoutes(rt.parseFile(bytes), rt.parseExpr).value
      ensures isOpen ==> ot == Recalculated(old(ot), parseTempl, rt.parseExpr, rt.routes, level, noMatch)
    {
      if !isOpen {
        return;
      }
      rt.Update(bytes);
      RecalculateTemplUrls();
    }

    /** `Routes`: the routes of an open workspace; none otherwise. */
    function Routes(): (rs: seq<RoutesFile.Route>)
      reads this, rt
      ensures isOpen ==> rs == rt.routes
      ensures !isOpen ==> rs == []
    {
      if isOpen then rt.routes else []
    }

    /** `GetRoute`: an error while the workspace is not open, otherwise the table's answer. */
    function GetRoute(index: int): (r: Result<RoutesFile.Route>)
      reads this, rt
      ensures !isOpen ==> r == Err("repo is not open")
      ensures isOpen ==> (r.Ok? <==> 0 <= index < |rt.routes|)
      ensures r.Ok? ==> r.value == rt.routes[index]
    {
      if !isOpen then Err("repo is not open") else rt.GetRoute(index)
    }
  }
}
