/** Uri extraction and matching (internal/lsp/uri/uri.go).

    A uri is written either as a route pattern in routes.go ("GET /foo/{id}") or as the
    Go expression of an `hx-get`/`hx-post`/... attribute in a templ file. Both are reduced to
    a list of path segments in which every variable part becomes the wildcard "{}", plus
    diagnostics about what could not be understood. The Go expression parser is not part of
    this model: its result is an abstract syntax tree, `Expr`, given to `Segments`. */
module Uri {
  import opened Model
  import opened Strs

  /** The Go expressions the extractor distinguishes; every other node kind is `Other`,
      carrying the name Go's `%T` prints for it. */
  datatype Expr =
    | BasicLit(value: string)
    | Ident(name: string)
    | Selector(x: Expr, sel: string)
    | Binary(x: Expr, y: Expr)
    | Call(fun: Expr, args: seq<Expr>)
    | Other(kind: string)

  /** What `parser.ParseExpr` returns for a string. */
  datatype ParseResult = Parsed(expr: Expr) | ParseError(message: string)

  datatype Uri = Uri(verb: string, raw: string, seg: seq<string>, diag: seq<Diag>, from: Pos, to: Pos)

  /** Segments and diagnostics gathered from a pattern. */
  datatype Extract = Extract(seg: seq<string>, diag: seq<Diag>)

  /** The segment every variable part is replaced by. */
  const Wildcard: string := "{}"

  const MixedMessage: string := "mixed literal and function call, combine into a single Sprintf"

  // ---------------------------------------------------------------------------------------
  // Literal patterns
  // ---------------------------------------------------------------------------------------

  /** One character of the class `[A-Za-z\-\_\.\~\{\}\*]`; digits are not in it. */
  predicate IsValidUriChar(c: char) {
    ('A' <= c <= 'Z') || ('a' <= c <= 'z') || c == '-' || c == '_' || c == '.' || c == '~'
    || c == '{' || c == '}' || c == '*'
  }

  /** `isValidUriChars`: the whole part matches `^[A-Za-z\-\_\.\~\{\}\*]+$`. */
  predicate IsValidUriChars(p: string) {
    |p| > 0 && forall i :: 0 <= i < |p| ==> IsValidUriChar(p[i])
  }

  /** A part that stands for a variable: a Sprintf verb, a route wildcard or a route variable. */
  predicate IsVariablePart(p: string) {
    "%" <= p || "*" <= p || "{" <= p
  }

  /** A literal part that draws the "invalid character" diagnostic. */
  predicate IsInvalidPart(p: string) {
    !IsVariablePart(p) && p != "" && !IsValidUriChars(p)
  }

  function InvalidCharDiag(p: string): Diag {
    Diag(SeverityError, "invalid character in uri segment " + p)
  }

  /** The pattern with surrounding white space, then double quotes, then slashes removed. */
  function TrimPattern(pattern: string): string {
    Trim(Trim(TrimSpace(pattern), '"'), '/')
  }

  /** The slash-separated parts of a trimmed literal pattern. */
  function LiteralParts(pattern: string): (parts: seq<string>)
    ensures |parts| >= 1
  {
    Split(TrimPattern(pattern), '/')
  }

  /** How many of `parts` are invalid literal parts. */
  function CountInvalid(parts: seq<string>): nat {
    if parts == [] then 0
    else (if IsInvalidPart(parts[0]) then 1 else 0) + CountInvalid(parts[1..])
  }

  /** One "invalid character" error per invalid literal part, in the order of the parts. */
  function InvalidDiags(parts: seq<string>): seq<Diag> {
    if parts == [] then []
    else (if IsInvalidPart(parts[0]) then [InvalidCharDiag(parts[0])] else []) + InvalidDiags(parts[1..])
  }

  /** The loop of `LiteralSegments` over the parts: one segment per part, a wildcard for
      a variable part and the part itself otherwise; one error per invalid literal part. */
  function PartsSegments(parts: seq<string>): (r: Extract)
    ensures |r.seg| == |parts|
    ensures forall i :: 0 <= i < |parts| ==>
              r.seg[i] == (if IsVariablePart(parts[i]) then Wildcard else parts[i])
    ensures r.diag == InvalidDiags(parts) && |r.diag| == CountInvalid(parts)
    ensures forall d :: d in r.diag ==>
              d.severity == SeverityError && exists p :: p in parts && IsInvalidPart(p) && d == InvalidCharDiag(p)
  {
    if parts == [] then Extract([], [])
    else
      var p := parts[0];
      var rest := PartsSegments(parts[1..]);
      var s := if IsVariablePart(p) then Wildcard else p;
      var d := if IsInvalidPart(p) then [InvalidCharDiag(p)] else [];
      assert forall q :: q in parts[1..] ==> q in parts;
      Extract([s] + rest.seg, d + rest.diag)
  }

  /** `LiteralSegments`: the segments and diagnostics of one string literal. */
  function LiteralSegments(pattern: string): (r: Extract)
    ensures |r.seg| == |LiteralParts(pattern)| >= 1
    ensures r.diag == InvalidDiags(LiteralParts(pattern)) && |r.diag| == CountInvalid(LiteralParts(pattern))
    ensures forall d :: d in r.diag ==> d.severity == SeverityError
  {
    PartsSegments(LiteralParts(pattern))
  }

  // ---------------------------------------------------------------------------------------
  // Expressions
  // ---------------------------------------------------------------------------------------

  /** The `Sel` names of every selector inside a call's function expression, in the
      pre-order in which `ast.Inspect` meets them. */
  function SelectorNames(e: Expr): seq<string>
    decreases e, 1
  {
    match e
    case Selector(x, sel) => [sel] + SelectorNames(x)
    case Binary(x, y) => SelectorNames(x) + SelectorNames(y)
    case Call(fun, args) => SelectorNames(fun) + SelectorNamesOf(args, e)
    case _ => []
  }

  function SelectorNamesOf(args: seq<Expr>, ghost parent: Expr): seq<string>
    requires forall a :: a in args ==> a < parent
    decreases parent, 0, |args|
  {
    if args == [] then []
    else
      assert args[0] in args;
      assert forall a :: a in args[1..] ==> a in args;
      SelectorNames(args[0]) + SelectorNamesOf(args[1..], parent)
  }

  function UnexpectedCallDiag(names: seq<string>): Diag {
    Diag(SeverityWarning, "unexpected function call " + Join(names, '.') + ", use Sprintf instead")
  }

  function UnexpectedCodeDiag(kind: string): Diag {
    Diag(SeverityError, "unexpected code: " + kind)
  }

  /** The segments and diagnostics of the string-literal arguments of a Sprintf call. */
  function SprintfArgs(args: seq<Expr>): Extract {
    if args == [] then Extract([], [])
    else
      var rest := SprintfArgs(args[1..]);
      match args[0]
      case BasicLit(v) =>
        var l := LiteralSegments(v);
        Extract(l.seg + rest.seg, l.diag + rest.diag)
      case _ => rest
  }

  /** What the `ast.Inspect` callback of `Segments` collects from one expression, with the
      two closure flags `hasLit` and `hasCall`. */
  datatype Walked = Walked(seg: seq<string>, diag: seq<Diag>, hasLit: bool, hasCall: bool)

  /** Nothing collected. */
  const NothingWalked: Walked := Walked([], [], false, false)

  /** The contribution of one node the walk does not descend through; a binary expression,
      which the walk descends through, contributes nothing of its own. */
  function Leaf(e: Expr): Walked {
    match e
    case Binary(_, _) => NothingWalked
    case BasicLit(v) =>
      var l := LiteralSegments(v);
      Walked(l.seg, l.diag, true, false)
    case Ident(_) => Walked([Wildcard], [], false, false)
    case Selector(_, _) => Walked([Wildcard], [], false, false)
    case Call(fun, args) =>
      var names := SelectorNames(fun);
      if "Sprintf" !in names then Walked([], [UnexpectedCallDiag(names)], false, true)
      else
        var a := SprintfArgs(args);
        Walked(a.seg, a.diag, false, true)
    case Other(k) => Walked([], [UnexpectedCodeDiag(k)], false, false)
  }

  function Combine(a: Walked, b: Walked): Walked {
    Walked(a.seg + b.seg, a.diag + b.diag, a.hasLit || b.hasLit, a.hasCall || b.hasCall)
  }

  /** The walk itself: binary expressions are descended left operand first, every other
      node contributes on its own and is not descended. */
  function Walk(e: Expr): Walked {
    match e
    case Binary(x, y) => Combine(Walk(x), Walk(y))
    case _ => Leaf(e)
  }

  /** The nodes the walk stops at, left to right: the operands of the binary-operator tree. */
  function Operands(e: Expr): (r: seq<Expr>)
    ensures |r| >= 1
    ensures forall o :: o in r ==> !o.Binary?
  {
    match e
    case Binary(x, y) => Operands(x) + Operands(y)
    case _ => [e]
  }

  /** Walking `ops` one after another, from left to right, each contributing `leaf` of itself. */
  function WalkAllBy(ops: seq<Expr>, leaf: Expr -> Walked): Walked {
    if ops == [] then NothingWalked else Combine(leaf(ops[0]), WalkAllBy(ops[1..], leaf))
  }

  /** Walking the operands one after another, from left to right. */
  function WalkAll(ops: seq<Expr>): Walked {
    WalkAllBy(ops, Leaf)
  }

  lemma {:induction false} WalkAllByAppend(a: seq<Expr>, b: seq<Expr>, leaf: Expr -> Walked)
    ensures WalkAllBy(a + b, leaf) == Combine(WalkAllBy(a, leaf), WalkAllBy(b, leaf))
  {
    if a == [] {
      assert a + b == b;
    } else {
      assert (a + b)[1..] == a[1..] + b;
      WalkAllByAppend(a[1..], b, leaf);
    }
  }

  /** The walk is the left-to-right concatenation of what each operand contributes: the
      binary-expression tree only orders its operands. */
  lemma {:induction false} WalkIsOperandsInOrder(e: Expr)
    ensures Walk(e) == WalkAll(Operands(e))
  {
    if e.Binary? {
      WalkIsOperandsInOrder(e.x);
      WalkIsOperandsInOrder(e.y);
      WalkAllByAppend(Operands(e.x), Operands(e.y), Leaf);
    } else {
      var l := Leaf(e);
      assert Operands(e) == [e] && [e][1..] == [];
      assert l.seg + [] == l.seg && l.diag + [] == l.diag;
      assert WalkAllBy([e], Leaf) == Combine(l, NothingWalked);
    }
  }

  /** `Segments`: the segments and diagnostics of a parsed (or unparseable) expression. */
  function Segments(p: ParseResult): (r: Extract)
    ensures p.ParseError? ==> r == Extract([], [Diag(SeverityError, "invalid expression: " + p.message)])
    ensures p.Parsed? ==> r.seg == Walk(p.expr).seg
    ensures p.Parsed? ==> |r.diag| >= |Walk(p.expr).diag| && r.diag[..|Walk(p.expr).diag|] == Walk(p.expr).diag
  {
    match p
    case ParseError(m) => Extract([], [Diag(SeverityError, "invalid expression: " + m)])
    case Parsed(e) =>
      var w := Walk(e);
      Extract(w.seg, w.diag + (if w.hasLit && w.hasCall then [Diag(SeverityWarning, MixedMessage)] else []))
  }

  /** The flag `hasLit` is set exactly when some operand is a literal, and `hasCall` exactly
      when some operand is a call. */
  lemma {:induction false} WalkFlags(e: Expr)
    ensures Walk(e).hasLit <==> exists o :: o in Operands(e) && o.BasicLit?
    ensures Walk(e).hasCall <==> exists o :: o in Operands(e) && o.Call?
  {
    match e
    case Binary(x, y) =>
      WalkFlags(x);
      WalkFlags(y);
      assert forall o :: o in Operands(e) <==> o in Operands(x) || o in Operands(y);
    case _ =>
      assert Operands(e) == [e];
  }

  /** The "mixed" warning closes the diagnostics exactly when the expression joins a literal
      operand with a call operand. */
  lemma MixedWarning(e: Expr)
    ensures var r := Segments(Parsed(e));
            (exists o :: o in Operands(e) && o.BasicLit?) && (exists o :: o in Operands(e) && o.Call?)
            <==> |r.diag| == |Walk(e).diag| + 1 && r.diag[|r.diag| - 1] == Diag(SeverityWarning, MixedMessage)
  {
    WalkFlags(e);
  }

  // ---------------------------------------------------------------------------------------
  // Uris
  // ---------------------------------------------------------------------------------------

  /** `NewUri`: a uri whose raw text is kept verbatim and whose segments and diagnostics
      come from the white-space-trimmed text, as parsed by `parse`; positions are zero. */
  function NewUri(verb: string, raw: string, parse: string -> ParseResult): (u: Uri)
    ensures u.verb == verb && u.raw == raw && u.from == ZeroPos && u.to == ZeroPos
    ensures Extract(u.seg, u.diag) == Segments(parse(TrimSpace(raw)))
  {
    var x := Segments(parse(TrimSpace(raw)));
    Uri(verb, raw, x.seg, x.diag, ZeroPos, ZeroPos)
  }

  /** `NewUriFrom`: `NewUri` with the given start position. */
  function NewUriFrom(verb: string, raw: string, from: Pos, parse: string -> ParseResult): (u: Uri)
    ensures u.verb == verb && u.raw == raw && u.from == from && u.to == ZeroPos
    ensures Extract(u.seg, u.diag) == Segments(parse(TrimSpace(raw)))
  {
    NewUri(verb, raw, parse).(from := from)
  }

  /** `NewUriFromTo`: `NewUriFrom` with the given end position too. */
  function NewUriFromTo(verb: string, raw: string, from: Pos, to: Pos, parse: string -> ParseResult): (u: Uri)
    ensures u.verb == verb && u.raw == raw && u.from == from && u.to == to
    ensures Extract(u.seg, u.diag) == Segments(parse(TrimSpace(raw)))
  {
    NewUriFrom(verb, raw, from, parse).(to := to)
  }

  /** One segment of a pattern accepts one segment of a uri. `*` only counts on the
      receiver's (the pattern's) side. */
  predicate SegmentMatches(mine: string, theirs: string) {
    theirs == Wildcard || mine == Wildcard || mine == "*" || mine == theirs
  }

  /** The relation `IsMatch` decides. */
  predicate Matches(u: Uri, uri: Uri) {
    && uri.verb == u.verb
    && |uri.seg| > 0
    && |uri.seg| == |u.seg|
    && forall i :: 0 <= i < |uri.seg| ==> SegmentMatches(u.seg[i], uri.seg[i])
  }

  /** `Uri.IsMatch`: the verbs agree, the argument has segments, the counts agree, and the
      segments agree pairwise up to wildcards. */
  method IsMatch(u: Uri, uri: Uri) returns (m: bool)
    ensures m <==> Matches(u, uri)
    ensures uri.verb != u.verb || |uri.seg| == 0 || |uri.seg| != |u.seg| ==> !m
  {
    if uri.verb != u.verb {
      return false;
    }
    if |uri.seg| == 0 {
      return false;
    }
    if |uri.seg| != |u.seg| {
      return false;
    }
    var i := 0;
    while i < |uri.seg|
      invariant 0 <= i <= |uri.seg|
      invariant forall j :: 0 <= j < i ==> SegmentMatches(u.seg[j], uri.seg[j])
    {
      var s := uri.seg[i];
      if s == Wildcard || u.seg[i] == Wildcard {
        i := i + 1;
        continue;
      }
      if u.seg[i] == "*" {
        i := i + 1;
        continue;
      }
      if u.seg[i] != s {
        return false;
      }
      i := i + 1;
    }
    return true;
  }

  /** Every uri with at least one segment matches itself. */
  lemma MatchesReflexive(u: Uri)
    requires |u.seg| > 0
    ensures Matches(u, u)
  {
  }

  /** `*` is honoured only on the receiver, so matching is not symmetric. */
  lemma MatchesNotSymmetric()
    ensures var u := Uri("GET", "", ["*"], [], ZeroPos, ZeroPos);
            var v := Uri("GET", "", ["foo"], [], ZeroPos, ZeroPos);
            Matches(u, v) && !Matches(v, u)
  {
    var u := Uri("GET", "", ["*"], [], ZeroPos, ZeroPos);
    var v := Uri("GET", "", ["foo"], [], ZeroPos, ZeroPos);
    assert SegmentMatches(u.seg[0], v.seg[0]);
    assert "foo"[0] != "*"[0];
    assert !SegmentMatches(v.seg[0], u.seg[0]);
  }

  /** Matching depends only on verbs and segments, never on raw text, diagnostics or positions. */
  lemma MatchesIgnoresText(u: Uri, v: Uri, u': Uri, v': Uri)
    requires u.verb == u'.verb && u.seg == u'.seg && v.verb == v'.verb && v.seg == v'.seg
    ensures Matches(u, v) <==> Matches(u', v')
  {
  }
}
