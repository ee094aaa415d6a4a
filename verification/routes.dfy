/** The routes.go file of a gofs project (internal/lsp/routes_file).

    `getImports` and `getRoutes` walk the Go syntax tree of routes.go. The Go parser is not
    part of this model: a parsed file is given as a `GoFile`, the import specs and the call
    expressions it contains in the order `ast.Inspect` visits them, and a file that does not
    parse as `None`. Positions are the 1-based line/column pairs of Go's `token.Position`. */
module RoutesFile {
  import opened Wrappers
  import opened Model
  import opened Strs
  import Uri

  /** An import spec: its optional local name and its path literal, quotes included. */
  datatype ImportSpec = ImportSpec(name: Option<string>, pathLit: string)

  /** The function expression of a handler call. `SelectorFun.x` is the name of the selector's
      operand when that operand is an identifier. */
  datatype HandlerFun =
    | IdentFun(name: string)
    | SelectorFun(x: Option<string>, sel: string)
    | OtherFun

  /** The argument expressions `getRoutes` tells apart. */
  datatype ArgExpr =
    | LitArg(value: string)
    | CallArg(fun: HandlerFun)
    | OtherArg

  /** An argument with the positions of its first character and of the character after it. */
  datatype Arg = Arg(expr: ArgExpr, pos: Pos, end: Pos)

  /** A call expression: the selector name when the called function is a selector, and the
      arguments. */
  datatype CallSite = CallSite(sel: Option<string>, args: seq<Arg>)

  datatype GoFile = GoFile(imports: seq<ImportSpec>, calls: seq<CallSite>)

  datatype Handler = Handler(call: string, from: Pos, to: Pos)

  datatype Route = Route(uri: Uri.Uri, handler: Handler, pkg: string)

  /** Go's zero `uri.Uri`. */
  const ZeroUri: Uri.Uri := Uri.Uri("", "", [], [], ZeroPos, ZeroPos)

  // ---------------------------------------------------------------------------------------
  // Imports
  // ---------------------------------------------------------------------------------------

  /** The import path without its quotes. */
  function ImportPath(s: ImportSpec): string {
    Trim(s.pathLit, '"')
  }

  /** The name a package is referred to by: the explicit name, else the path's last element. */
  function ImportKey(s: ImportSpec): string {
    if s.name.Some? then s.name.value else PathBase(ImportPath(s))
  }

  /** The import map of a list of specs, filled in order: its keys are exactly the specs' keys. */
  function ImportsMap(specs: seq<ImportSpec>): (m: map<string, string>)
    ensures m.Keys == set i | 0 <= i < |specs| :: ImportKey(specs[i])
  {
    if specs == [] then map[]
    else
      var init := specs[..|specs| - 1];
      var s := specs[|specs| - 1];
      KeysSnoc(specs);
      ImportsMap(init)[ImportKey(s) := ImportPath(s)]
  }

  /** The keys of the specs are the keys of all but the last, and the last one's. */
  lemma KeysSnoc(specs: seq<ImportSpec>)
    requires specs != []
    ensures var init := specs[..|specs| - 1];
            (set i | 0 <= i < |specs| :: ImportKey(specs[i]))
              == (set i | 0 <= i < |init| :: ImportKey(init[i])) + {ImportKey(specs[|specs| - 1])}
  {
    var init := specs[..|specs| - 1];
    assert forall i :: 0 <= i < |init| ==> init[i] == specs[i];
  }

  /** A key maps to the path of the last spec that has it: a later import of the same name
      overwrites an earlier one. */
  lemma {:induction false} ImportsMapLastWins(specs: seq<ImportSpec>, i: nat)
    requires i < |specs|
    requires forall j :: i < j < |specs| ==> ImportKey(specs[j]) != ImportKey(specs[i])
    ensures ImportsMap(specs)[ImportKey(specs[i])] == ImportPath(specs[i])
  {
    var init := specs[..|specs| - 1];
    if i < |specs| - 1 {
      assert forall j :: 0 <= j < |init| ==> init[j] == specs[j];
      ImportsMapLastWins(init, i);
    }
  }

  /** One more spec adds its key to the map of the specs before it. */
  lemma ImportsMapStep(specs: seq<ImportSpec>, n: nat)
    requires n < |specs|
    ensures ImportsMap(specs[..n + 1]) == ImportsMap(specs[..n])[ImportKey(specs[n]) := ImportPath(specs[n])]
  {
    assert specs[..n + 1][..n] == specs[..n];
    assert specs[..n + 1][n] == specs[n];
  }

  /** `getImports` over the import specs of a parsed file, one spec after the other. */
  method GetImports(specs: seq<ImportSpec>) returns (m: map<string, string>)
    ensures m == ImportsMap(specs)
  {
    m := map[];
    var n := 0;
    while n < |specs|
      invariant 0 <= n <= |specs|
      invariant m == ImportsMap(specs[..n])
    {
      var s := specs[n];
      ImportsMapStep(specs, n);
      m := m[ImportKey(s) := ImportPath(s)];
      n := n + 1;
    }
    assert specs[..n] == specs;
  }

  /** The imports of a file that does not parse are empty. */
  method GetFileImports(file: Option<GoFile>) returns (m: map<string, string>)
    ensures file.None? ==> m == map[]
    ensures file.Some? ==> m == ImportsMap(file.value.imports)
  {
    if file.None? {
      return map[];
    }
    m := GetImports(file.value.imports);
  }

  // ---------------------------------------------------------------------------------------
  // Routes
  // ---------------------------------------------------------------------------------------

  /** A 1-based Go position as a 0-based model position. */
  function ZeroBased(p: Pos): (r: Pos)
    ensures r.line == p.line - 1 && r.col == p.col - 1
  {
    Pos(p.line - 1, p.col - 1)
  }

  /** A registration `x.Handle(route, handler)`. */
  predicate IsHandleCall(c: CallSite) {
    c.sel == Some("Handle") && |c.args| == 2
  }

  /** A route literal without its surrounding quotes. */
  function Unquote(v: string): string
    requires |v| >= 2
  {
    v[1..|v| - 1]
  }

  /** The uri of a route literal "VERB pattern": the verb is the text up to the first space,
      the raw pattern (quoted again) is the rest, and the range is the literal's. */
  function PatternUri(a: Arg, parse: string -> Uri.ParseResult): (u: Uri.Uri)
    requires a.expr.LitArg? && |a.expr.value| >= 2 && ' ' in Unquote(a.expr.value)
    ensures ' ' !in u.verb && |u.raw| >= 2 && u.raw[0] == '"' && u.raw[|u.raw| - 1] == '"'
    ensures u.verb + [' '] + u.raw[1..|u.raw| - 1] == Unquote(a.expr.value)
    ensures u.from == ZeroBased(a.pos) && u.to == ZeroBased(a.end)
  {
    var inner := Unquote(a.expr.value);
    var k := IndexOf(inner, ' ');
    var raw := "\"" + inner[k + 1..] + "\"";
    assert raw[1..|raw| - 1] == inner[k + 1..];
    assert inner == inner[..k] + [' '] + inner[k + 1..];
    Uri.NewUriFromTo(inner[..k], raw, ZeroBased(a.pos), ZeroBased(a.end), parse)
  }

  /** The handler call named by the second argument and the import path of its package, or a
      panic when it is not a call or its selector's operand is not an identifier. */
  function HandlerOf(a: Arg, imports: map<string, string>): (r: GoResult<(Handler, string)>)
    ensures !r.Failed?
    ensures r.Done? ==> r.value.0.from == ZeroBased(a.pos) && r.value.0.to == ZeroBased(a.end)
    ensures r.Panic? <==> !a.expr.CallArg? || (a.expr.fun.SelectorFun? && a.expr.fun.x.None?)
    ensures r.Done? && a.expr.fun.IdentFun? ==> r.value == (Handler(a.expr.fun.name, r.value.0.from, r.value.0.to), Lookup(imports, ""))
    ensures r.Done? && a.expr.fun.SelectorFun? ==> r.value == (Handler(a.expr.fun.sel, r.value.0.from, r.value.0.to), Lookup(imports, a.expr.fun.x.value))
  {
    var h := Handler("", ZeroBased(a.pos), ZeroBased(a.end));
    if !a.expr.CallArg? then Panic("interface conversion: ast.Expr is not *ast.CallExpr")
    else match a.expr.fun
      case IdentFun(name) => Done((h.(call := name), Lookup(imports, "")))
      case SelectorFun(x, sel) =>
        if x.None? then Panic("interface conversion: ast.Expr is not *ast.Ident")
        else Done((h.(call := sel), Lookup(imports, x.value)))
      case OtherFun => Done((h, Lookup(imports, "")))
  }

  /** The route of a `Handle` call; `None` when its literal pattern has no space (the call is
      skipped); a panic when a literal is too short to unquote or the handler is malformed.
      A non-literal pattern gives the zero uri. */
  function RouteOf(c: CallSite, imports: map<string, string>, parse: string -> Uri.ParseResult): (r: GoResult<Option<Route>>)
    requires IsHandleCall(c)
    ensures !r.Failed?
    ensures c.args[0].expr.LitArg? && |c.args[0].expr.value| < 2 ==> r.Panic?
    ensures r.Done? && r.value.None? ==> c.args[0].expr.LitArg? && ' ' !in Unquote(c.args[0].expr.value)
    ensures r.Done? && r.value.Some? ==>
              && HandlerOf(c.args[1], imports) == Done((r.value.value.handler, r.value.value.pkg))
              && (!c.args[0].expr.LitArg? ==> r.value.value.uri == ZeroUri)
              && (c.args[0].expr.LitArg? ==>
                    |c.args[0].expr.value| >= 2 && ' ' in Unquote(c.args[0].expr.value)
                    && r.value.value.uri == PatternUri(c.args[0], parse))
  {
    var a0 := c.args[0];
    if a0.expr.LitArg? && |a0.expr.value| < 2 then Panic("slice bounds out of range")
    else if a0.expr.LitArg? && ' ' !in Unquote(a0.expr.value) then Done(None)
    else
      var u := if a0.expr.LitArg? then PatternUri(a0, parse) else ZeroUri;
      match HandlerOf(c.args[1], imports)
      case Done(hp) => Done(Some(Route(u, hp.0, hp.1)))
      case Failed(e) => Failed(e)
      case Panic(p) => Panic(p)
  }

  /** Go's map index: the zero value "" for a missing key. */
  function Lookup(m: map<string, string>, k: string): (v: string)
    ensures k in m ==> v == m[k]
    ensures k !in m ==> v == ""
  {
    if k in m then m[k] else ""
  }

  /** The routes of the calls, in order, or the first panic. */
  function RoutesOf(calls: seq<CallSite>, imports: map<string, string>, parse: string -> Uri.ParseResult): (r: GoResult<seq<Route>>)
    ensures !r.Failed?
    ensures r.Done? ==> |r.value| <= |calls|
  {
    if calls == [] then Done([])
    else
      var init := calls[..|calls| - 1];
      var c := calls[|calls| - 1];
      var prev := RoutesOf(init, imports, parse);
      if prev.Panic? || !IsHandleCall(c) then prev
      else match RouteOf(c, imports, parse)
        case Panic(p) => Panic(p)
        case Done(None) => prev
        case Done(Some(rt)) => Done(prev.value + [rt])
  }

  /** Every extracted route is the route of some `Handle` call. */
  lemma {:induction false} RoutesOfSound(calls: seq<CallSite>, imports: map<string, string>, parse: string -> Uri.ParseResult)
    ensures var r := RoutesOf(calls, imports, parse);
            r.Done? ==> forall k :: 0 <= k < |r.value| ==>
              exists i :: 0 <= i < |calls| && IsHandleCall(calls[i]) && RouteOf(calls[i], imports, parse) == Done(Some(r.value[k]))
  {
    if calls != [] {
      var init := calls[..|calls| - 1];
      var last := |calls| - 1;
      RoutesOfSound(init, imports, parse);
      var r := RoutesOf(calls, imports, parse);
      var prev := RoutesOf(init, imports, parse);
      if r.Done? {
        forall k | 0 <= k < |r.value|
          ensures exists i :: 0 <= i < |calls| && IsHandleCall(calls[i]) && RouteOf(calls[i], imports, parse) == Done(Some(r.value[k]))
        {
          assert prev.Done?;
          assert r.value == prev.value || (IsHandleCall(calls[last]) && RouteOf(calls[last], imports, parse).Done?
                                             && RouteOf(calls[last], imports, parse).value.Some?
                                             && r.value == prev.value + [RouteOf(calls[last], imports, parse).value.value]);
          if k < |prev.value| {
            assert r.value[k] == prev.value[k];
            var i :| 0 <= i < |init| && IsHandleCall(init[i]) && RouteOf(init[i], imports, parse) == Done(Some(prev.value[k]));
            assert calls[i] == init[i];
          } else {
            assert IsHandleCall(calls[last]);
          }
        }
      }
    }
  }

  /** The route a call contributes: none unless it is a `Handle` call that yields one. */
  function Yield(c: CallSite, imports: map<string, string>, parse: string -> Uri.ParseResult): seq<Route> {
    if !IsHandleCall(c) then []
    else
      var o := RouteOf(c, imports, parse);
      if o.Done? && o.value.Some? then [o.value.value] else []
  }

  /** The routes of the `Handle` calls that yield one, front to back: the reference for what
      the inspection collects. */
  function Collected(calls: seq<CallSite>, imports: map<string, string>, parse: string -> Uri.ParseResult): seq<Route> {
    if calls == [] then [] else Yield(calls[0], imports, parse) + Collected(calls[1..], imports, parse)
  }

  /** One more call at the end adds its route, if it yields one, at the end. */
  lemma {:induction false} CollectedSnoc(calls: seq<CallSite>, c: CallSite, imports: map<string, string>, parse: string -> Uri.ParseResult)
    ensures Collected(calls + [c], imports, parse) == Collected(calls, imports, parse) + Yield(c, imports, parse)
  {
    if calls != [] {
      assert (calls + [c])[0] == calls[0];
      assert (calls + [c])[1..] == calls[1..] + [c];
      CollectedSnoc(calls[1..], c, imports, parse);
    } else {
      assert [c][1..] == [];
    }
  }

  /** Without a panic, the extraction collects every route a `Handle` call yields, and in the
      order of the calls. */
  lemma {:induction false} RoutesOfComplete(calls: seq<CallSite>, imports: map<string, string>, parse: string -> Uri.ParseResult)
    ensures RoutesOf(calls, imports, parse).Done? ==> RoutesOf(calls, imports, parse).value == Collected(calls, imports, parse)
  {
    if calls != [] {
      var init := calls[..|calls| - 1];
      var c := calls[|calls| - 1];
      assert calls == init + [c];
      RoutesOfComplete(init, imports, parse);
      CollectedSnoc(init, c, imports, parse);
    }
  }

  /** The extraction panics exactly when one of the `Handle` calls does. */
  lemma {:induction false} RoutesOfPanics(calls: seq<CallSite>, imports: map<string, string>, parse: string -> Uri.ParseResult)
    ensures RoutesOf(calls, imports, parse).Panic? <==>
              exists i :: 0 <= i < |calls| && IsHandleCall(calls[i]) && RouteOf(calls[i], imports, parse).Panic?
  {
    if calls != [] {
      var init := calls[..|calls| - 1];
      var last := |calls| - 1;
      RoutesOfPanics(init, imports, parse);
      assert forall i :: 0 <= i < |init| ==> init[i] == calls[i];
      var r := RoutesOf(calls, imports, parse);
      var prev := RoutesOf(init, imports, parse);
      if !prev.Panic? && IsHandleCall(calls[last]) && RouteOf(calls[last], imports, parse).Panic? {
        assert r.Panic?;
      }
      if r.Panic? && !prev.Panic? {
        assert RouteOf(calls[last], imports, parse).Panic?;
      }
      if r.Panic? && prev.Panic? {
        var i :| 0 <= i < |init| && IsHandleCall(init[i]) && RouteOf(init[i], imports, parse).Panic?;
        assert calls[i] == init[i];
      }
    }
  }

  /** Once a prefix of the calls panics, so does the whole, with the same panic. */
  lemma {:induction false} RoutesOfPanicPrefix(calls: seq<CallSite>, n: nat, imports: map<string, string>, parse: string -> Uri.ParseResult)
    requires n <= |calls|
    requires RoutesOf(calls[..n], imports, parse).Panic?
    ensures RoutesOf(calls, imports, parse) == RoutesOf(calls[..n], imports, parse)
    decreases |calls| - n
  {
    if n < |calls| {
      assert calls[..n + 1][..n] == calls[..n];
      RoutesOfPanicPrefix(calls, n + 1, imports, parse);
    } else {
      assert calls[..n] == calls;
    }
  }

  /** The routes of a file: none when it does not parse. */
  function FileRoutes(file: Option<GoFile>, parse: string -> Uri.ParseResult): (r: GoResult<seq<Route>>)
    ensures file.None? ==> r == Done([])
    ensures file.Some? ==> r == RoutesOf(file.value.calls, ImportsMap(file.value.imports), parse)
  {
    if file.None? then Done([]) else RoutesOf(file.value.calls, ImportsMap(file.value.imports), parse)
  }

  /** One more call of the walk over a prefix that has not panicked. */
  lemma RoutesOfStep(calls: seq<CallSite>, n: nat, routes: seq<Route>, imports: map<string, string>, parse: string -> Uri.ParseResult)
    requires n < |calls| && RoutesOf(calls[..n], imports, parse) == Done(routes)
    ensures !IsHandleCall(calls[n]) ==> RoutesOf(calls[..n + 1], imports, parse) == Done(routes)
    ensures IsHandleCall(calls[n]) && RouteOf(calls[n], imports, parse).Panic? ==>
              RoutesOf(calls[..n + 1], imports, parse) == Panic(RouteOf(calls[n], imports, parse).reason)
    ensures IsHandleCall(calls[n]) && RouteOf(calls[n], imports, parse) == Done(None) ==>
              RoutesOf(calls[..n + 1], imports, parse) == Done(routes)
    ensures IsHandleCall(calls[n]) && RouteOf(calls[n], imports, parse).Done? && RouteOf(calls[n], imports, parse).value.Some? ==>
              RoutesOf(calls[..n + 1], imports, parse) == Done(routes + [RouteOf(calls[n], imports, parse).value.value])
  {
    assert calls[..n + 1][..n] == calls[..n];
    assert calls[..n + 1][n] == calls[n];
  }

  /** `getRoutes`: nothing when the file does not parse, otherwise one route per `Handle`
      call with a well-formed pattern, in source order, or the first panic. */
  method GetRoutes(file: Option<GoFile>, parse: string -> Uri.ParseResult) returns (r: GoResult<seq<Route>>)
    ensures r == FileRoutes(file, parse)
  {
    var imports := GetFileImports(file);
    if file.None? {
      return Done([]);
    }
    var calls := file.value.calls;
    var routes: seq<Route> := [];
    var n := 0;
    while n < |calls|
      invariant 0 <= n <= |calls|
      invariant RoutesOf(calls[..n], imports, parse) == Done(routes)
    {
      var c := calls[n];
      RoutesOfStep(calls, n, routes, imports, parse);
      if IsHandleCall(c) {
        var rr := RouteOf(c, imports, parse);
        if rr.Panic? {
          RoutesOfPanicPrefix(calls, n + 1, imports, parse);
          return Panic(rr.reason);
        }
        if rr.value.Some? {
          routes := routes + [rr.value.value];
        }
      }
      n := n + 1;
    }
    assert calls[..n] == calls;
    r := Done(routes);
  }

  // ---------------------------------------------------------------------------------------
  // The route table
  // ---------------------------------------------------------------------------------------

  /** The route `RouteIndex` picks among `routes` for `u`: the last route whose level beats
      the best level of the routes before it, starting from `noMatch`; -1 when none does. */
  function BestRoute(routes: seq<Route>, u: Uri.Uri, level: (Uri.Uri, Uri.Uri) -> int, noMatch: int): (idx: int)
    ensures -1 <= idx < |routes|
  {
    if routes == [] then -1
    else
      var n := |routes| - 1;
      var p := BestRoute(routes[..n], u, level, noMatch);
      var best := if p == -1 then noMatch else level(routes[p].uri, u);
      if level(routes[n].uri, u) > best then n else p
  }

  /** The picked route is the first one with the highest level, provided that level exceeds
      `noMatch`; -1 exactly when no route's level exceeds `noMatch`. */
  lemma {:induction false} BestRouteIsFirstMaximum(routes: seq<Route>, u: Uri.Uri, level: (Uri.Uri, Uri.Uri) -> int, noMatch: int)
    ensures var idx := BestRoute(routes, u, level, noMatch);
            && (idx == -1 <==> forall i :: 0 <= i < |routes| ==> level(routes[i].uri, u) <= noMatch)
            && (idx >= 0 ==>
                  && level(routes[idx].uri, u) > noMatch
                  && (forall i :: 0 <= i < |routes| ==> level(routes[i].uri, u) <= level(routes[idx].uri, u))
                  && (forall i :: 0 <= i < idx ==> level(routes[i].uri, u) < level(routes[idx].uri, u)))
  {
    if routes != [] {
      var n := |routes| - 1;
      BestRouteIsFirstMaximum(routes[..n], u, level, noMatch);
      assert forall i :: 0 <= i < n ==> routes[..n][i] == routes[i];
    }
  }

  /** The result of `Routes.GetRoute` as the code is written: the guard lets the index equal
      to the number of routes, and negative indices, through to the slice index, which panics. */
  function GetRouteAsWritten(routes: seq<Route>, i: int): (r: GoResult<Route>)
    ensures r.Done? <==> 0 <= i < |routes|
    ensures r.Done? ==> r.value == routes[i]
    ensures r.Failed? <==> i > |routes|
  {
    if i > |routes| then Failed("invalid index")
    else if i < 0 || i == |routes| then Panic("index out of range")
    else Done(routes[i])
  }

  /** The index one past the last route passes the guard and panics. */
  lemma GetRouteAsWrittenPanicsAtCount(routes: seq<Route>)
    ensures GetRouteAsWritten(routes, |routes|).Panic?
  {
  }

  /** `Routes`: the routes extracted from routes.go and the file content they came from
      (`None` for Go's nil slice, before the table is first filled). The Go and uri
      parsers are fixed for the table's lifetime. */
  class Routes {
    var routes: seq<Route>
    var b: Option<seq<bv8>>
    const parseFile: seq<bv8> -> Option<GoFile>
    const parseExpr: string -> Uri.ParseResult

    /** Go's zero `Routes`. */
    constructor (parseFile: seq<bv8> -> Option<GoFile>, parseExpr: string -> Uri.ParseResult)
      ensures routes == [] && b == None
      ensures this.parseFile == parseFile && this.parseExpr == parseExpr
    {
      routes := [];
      b := None;
      this.parseFile := parseFile;
      this.parseExpr := parseExpr;
    }

    /** `IsValid`: the file content has been stored. */
    predicate IsValid()
      reads this
    {
      b.Some?
    }

    /** `SetDefault`: a valid, empty table. */
    method SetDefault()
      modifies this
      ensures routes == [] && b == Some([])
      ensures IsValid()
    {
      routes := [];
      b := Some([]);
    }

    /** `Update`: store the content and the routes extracted from it. The extraction must
        not panic: a panic would end the server. */
    method Update(bytes: seq<bv8>)
      requires FileRoutes(parseFile(bytes), parseExpr).Done?
      modifies this
      ensures b == Some(bytes) && IsValid()
      ensures routes == FileRoutes(parseFile(bytes), parseExpr).value
    {
      var r := GetRoutes(parseFile(bytes), parseExpr);
      routes := r.value;
      b := Some(bytes);
    }

    /** `GetRoute` with the bounds check the code evidently intends: every index outside the
        table is an error, and no index panics. */
    function GetRoute(i: int): (r: Result<Route>)
      reads this
      ensures r.Ok? <==> 0 <= i < |routes|
      ensures r.Ok? ==> r.value == routes[i]
      ensures r.Err? ==> r.error == "invalid index"
      ensures GetRouteAsWritten(routes, i).Done? ==> r == Ok(GetRouteAsWritten(routes, i).value)
      ensures GetRouteAsWritten(routes, i).Failed? ==> r == Err(GetRouteAsWritten(routes, i).error)
    {
      if i < 0 || i >= |routes| then Err("invalid index") else Ok(routes[i])
    }

    /** `RouteIndex`: the first route with the highest match level above `noMatch`, or -1. */
    method RouteIndex(u: Uri.Uri, level: (Uri.Uri, Uri.Uri) -> int, noMatch: int) returns (idx: int)
      ensures idx == BestRoute(routes, u, level, noMatch)
      ensures idx == -1 <==> forall i :: 0 <= i < |routes| ==> level(routes[i].uri, u) <= noMatch
      ensures idx >= 0 ==> 0 <= idx < |routes| && level(routes[idx].uri, u) > noMatch
                           && (forall i :: 0 <= i < |routes| ==> level(routes[i].uri, u) <= level(routes[idx].uri, u))
                           && (forall i :: 0 <= i < idx ==> level(routes[i].uri, u) < level(routes[idx].uri, u))
    {
      idx := -1;
      var bestLevel := noMatch;
      var i := 0;
      while i < |routes|
        invariant 0 <= i <= |routes|
        invariant idx == BestRoute(routes[..i], u, level, noMatch)
        invariant bestLevel == if idx == -1 then noMatch else level(routes[idx].uri, u)
      {
        assert routes[..i + 1][..i] == routes[..i];
        var l := level(routes[i].uri, u);
        if l > bestLevel {
          bestLevel := l;
          idx := i;
        }
        i := i + 1;
      }
      assert routes[..i] == routes;
      BestRouteIsFirstMaximum(routes, u, level, noMatch);
    }
  }
}
