/** Templ files (internal/lsp/templ_file): walking a parsed templ document and extracting
    the uris of its `hx-get`, `hx-post`, `hx-put` and `hx-delete` attributes.

    The templ parser is not part of this model: `GetTemplUris` is given what it returns,
    the top-level nodes or an error. */
module TemplFile {
  import opened Wrappers
  import opened Model
  import Uri

  /** A position in a templ document: byte index, line and column. */
  datatype Position = Position(index: int, line: int, col: int)

  datatype Range = Range(from: Position, to: Position)

  /** Element attributes, by the templ parser's attribute types. */
  datatype Attribute =
    | BoolConstant(name: string)
    | Constant(name: string, value: string, nameRange: Range)
    | BoolExpression(name: string)
    | Expression(name: string, exprValue: string, exprRange: Range)
    | Spread
    | Conditional(thenAttrs: seq<Attribute>, elseAttrs: seq<Attribute>)

  /** The fifteen node types a `NodeParser` has a callback for. */
  datatype Kind =
    | TextKind | ElementKind | RawElementKind | GoCommentKind | HTMLCommentKind
    | CallTemplateKind | TemplElementKind | ChildrenKind | IfKind | SwitchKind | ForKind
    | StringKind | GoCodeKind | WhitespaceKind | DocTypeKind

  /** A templ node. Only the node types `RecurseNode` descends into carry children. */
  datatype Node =
    | Text | RawElement | GoComment | HTMLComment | CallTemplate | ChildrenExpr
    | StringExpr | GoCode | Whitespace | DocType
    | Element(name: string, attrs: seq<Attribute>, children: seq<Node>)
    | TemplElement(children: seq<Node>)
    | IfExpr(thenNodes: seq<Node>, elseNodes: seq<Node>)
    | SwitchExpr(cases: seq<Case>)
    | ForExpr(children: seq<Node>)

  datatype Case = Case(children: seq<Node>)

  function KindOf(n: Node): Kind {
    match n
    case Text => TextKind
    case RawElement => RawElementKind
    case GoComment => GoCommentKind
    case HTMLComment => HTMLCommentKind
    case CallTemplate => CallTemplateKind
    case ChildrenExpr => ChildrenKind
    case StringExpr => StringKind
    case GoCode => GoCodeKind
    case Whitespace => WhitespaceKind
    case DocType => DocTypeKind
    case Element(_, _, _) => ElementKind
    case TemplElement(_) => TemplElementKind
    case IfExpr(_, _) => IfKind
    case SwitchExpr(_) => SwitchKind
    case ForExpr(_) => ForKind
  }

  const AllKinds: set<Kind> :=
    {TextKind, ElementKind, RawElementKind, GoCommentKind, HTMLCommentKind, CallTemplateKind,
     TemplElementKind, ChildrenKind, IfKind, SwitchKind, ForKind, StringKind, GoCodeKind,
     WhitespaceKind, DocTypeKind}

  // ---------------------------------------------------------------------------------------
  // RecurseNode
  // ---------------------------------------------------------------------------------------

  /** `NodeParser.RecurseNode`: the nodes handed to a callback, in the order the calls happen.
      `callbacks` holds the kinds whose callback is set. */
  function RecurseNode(callbacks: set<Kind>, n: Node): (fired: seq<Node>)
    ensures forall x :: x in fired ==> KindOf(x) in callbacks
    decreases n, 2
  {
    var self := if KindOf(n) in callbacks then [n] else [];
    match n
    case Element(_, _, children) => self + RecurseAll(callbacks, children, n)
    case TemplElement(children) => self + RecurseAll(callbacks, children, n)
    case IfExpr(thenNodes, elseNodes) =>
      self + RecurseAll(callbacks, thenNodes, n) + RecurseAll(callbacks, elseNodes, n)
    case SwitchExpr(cases) => self + RecurseCases(callbacks, cases, n)
    case ForExpr(children) => self + RecurseAll(callbacks, children, n)
    case _ => self
  }

  /** `RecurseNode` on each node of a list, in order. */
  function RecurseAll(callbacks: set<Kind>, ns: seq<Node>, ghost parent: Node): (fired: seq<Node>)
    requires forall x :: x in ns ==> x < parent
    ensures forall x :: x in fired ==> KindOf(x) in callbacks
    decreases parent, 0, |ns|
  {
    if ns == [] then []
    else
      assert ns[0] in ns;
      assert forall x :: x in ns[1..] ==> x in ns;
      RecurseNode(callbacks, ns[0]) + RecurseAll(callbacks, ns[1..], parent)
  }

  /** The children of each switch case, case by case. */
  function RecurseCases(callbacks: set<Kind>, cs: seq<Case>, ghost parent: Node): (fired: seq<Node>)
    requires forall c :: c in cs ==> c < parent
    ensures forall x :: x in fired ==> KindOf(x) in callbacks
    decreases parent, 1, |cs|
  {
    if cs == [] then []
    else
      assert cs[0] in cs;
      assert forall c :: c in cs[1..] ==> c in cs;
      assert forall x :: x in cs[0].children ==> x < parent;
      RecurseAll(callbacks, cs[0].children, parent) + RecurseCases(callbacks, cs[1..], parent)
  }

  /** The nodes of `s` whose kind is in `ks`, in order. */
  function Filter(s: seq<Node>, ks: set<Kind>): (r: seq<Node>)
    ensures |r| <= |s|
    ensures forall x :: x in r <==> x in s && KindOf(x) in ks
  {
    if s == [] then [] else (if KindOf(s[0]) in ks then [s[0]] else []) + Filter(s[1..], ks)
  }

  lemma {:induction false} FilterConcat(a: seq<Node>, b: seq<Node>, ks: set<Kind>)
    ensures Filter(a + b, ks) == Filter(a, ks) + Filter(b, ks)
  {
    if a != [] {
      assert (a + b)[1..] == a[1..] + b;
      FilterConcat(a[1..], b, ks);
    } else {
      assert a + b == b;
    }
  }

  /** Unsetting callbacks only removes their calls: the traversal still visits every node,
      and the remaining calls happen in the same order as with every callback set. */
  lemma {:induction false} RecurseNodeFilter(callbacks: set<Kind>, n: Node)
    ensures RecurseNode(callbacks, n) == Filter(RecurseNode(AllKinds, n), callbacks)
    decreases n, 2
  {
    assert KindOf(n) in AllKinds;
    var self := if KindOf(n) in callbacks then [n] else [];
    assert Filter([n], callbacks) == self;
    match n
    case Element(_, _, children) =>
      RecurseAllFilter(callbacks, children, n);
      FilterConcat([n], RecurseAll(AllKinds, children, n), callbacks);
    case TemplElement(children) =>
      RecurseAllFilter(callbacks, children, n);
      FilterConcat([n], RecurseAll(AllKinds, children, n), callbacks);
    case IfExpr(thenNodes, elseNodes) =>
      RecurseAllFilter(callbacks, thenNodes, n);
      RecurseAllFilter(callbacks, elseNodes, n);
      FilterConcat([n], RecurseAll(AllKinds, thenNodes, n), callbacks);
      FilterConcat([n] + RecurseAll(AllKinds, thenNodes, n), RecurseAll(AllKinds, elseNodes, n), callbacks);
    case SwitchExpr(cases) =>
      RecurseCasesFilter(callbacks, cases, n);
      FilterConcat([n], RecurseCases(AllKinds, cases, n), callbacks);
    case ForExpr(children) =>
      RecurseAllFilter(callbacks, children, n);
      FilterConcat([n], RecurseAll(AllKinds, children, n), callbacks);
    case _ =>
  }

  lemma {:induction false} RecurseAllFilter(callbacks: set<Kind>, ns: seq<Node>, parent: Node)
    requires forall x :: x in ns ==> x < parent
    ensures RecurseAll(callbacks, ns, parent) == Filter(RecurseAll(AllKinds, ns, parent), callbacks)
    decreases parent, 0, |ns|
  {
    if ns != [] {
      assert ns[0] in ns;
      assert forall x :: x in ns[1..] ==> x in ns;
      RecurseNodeFilter(callbacks, ns[0]);
      RecurseAllFilter(callbacks, ns[1..], parent);
      FilterConcat(RecurseNode(AllKinds, ns[0]), RecurseAll(AllKinds, ns[1..], parent), callbacks);
    }
  }

  lemma {:induction false} RecurseCasesFilter(callbacks: set<Kind>, cs: seq<Case>, parent: Node)
    requires forall c :: c in cs ==> c < parent
    ensures RecurseCases(callbacks, cs, parent) == Filter(RecurseCases(AllKinds, cs, parent), callbacks)
    decreases parent, 1, |cs|
  {
    if cs != [] {
      assert cs[0] in cs;
      assert forall c :: c in cs[1..] ==> c in cs;
      assert forall x :: x in cs[0].children ==> x < parent;
      RecurseAllFilter(callbacks, cs[0].children, parent);
      RecurseCasesFilter(callbacks, cs[1..], parent);
      FilterConcat(RecurseAll(AllKinds, cs[0].children, parent), RecurseCases(AllKinds, cs[1..], parent), callbacks);
    }
  }

  /** With its callback set, a node is handed over before anything below it: pre-order. */
  lemma RecurseNodePreOrder(callbacks: set<Kind>, n: Node)
    requires KindOf(n) in callbacks
    ensures |RecurseNode(callbacks, n)| > 0 && RecurseNode(callbacks, n)[0] == n
  {
  }

  /** An `if` hands over every node of its `then` branch before any node of its `else` branch. */
  lemma IfThenBeforeElse(callbacks: set<Kind>, thenNodes: seq<Node>, elseNodes: seq<Node>)
    ensures var n := IfExpr(thenNodes, elseNodes);
            var self := if IfKind in callbacks then [n] else [];
            RecurseNode(callbacks, n) == self + RecurseAll(callbacks, thenNodes, n) + RecurseAll(callbacks, elseNodes, n)
  {
  }

  // ---------------------------------------------------------------------------------------
  // ElementAttribute
  // ---------------------------------------------------------------------------------------

  /** The value and range `ElementAttribute` reports. */
  datatype Found = Found(value: string, range: Range)

  /** The number of bytes of the UTF-8 encoding of `s` (Go's `len`). */
  function Utf8Len(s: string): (n: nat)
    ensures |s| <= n <= 4 * |s|
  {
    if s == [] then 0
    else
      var c := s[0] as int;
      (if c < 0x80 then 1 else if c < 0x800 then 2 else if c < 0x10000 then 3 else 4) + Utf8Len(s[1..])
  }

  /** A position moved right by `d` bytes on the same line. */
  function Advance(p: Position, d: int): Position {
    Position(p.index + d, p.line, p.col + d)
  }

  /** What a matching constant or expression attribute yields: a constant's value is quoted
      and its range is the value's, two past the end of the name (`="`); an expression's
      value and range are the expression's own. */
  function Report(a: Attribute): (f: Found)
    requires a.Constant? || a.Expression?
    ensures a.Constant? ==> f.value == "\"" + a.value + "\""
                            && f.range.from == Advance(a.nameRange.to, 2)
                            && f.range.to == Advance(f.range.from, Utf8Len(a.value))
    ensures a.Expression? ==> f == Found(a.exprValue, a.exprRange)
  {
    if a.Constant? then
      var from := Advance(a.nameRange.to, 2);
      Found("\"" + a.value + "\"", Range(from, Advance(from, Utf8Len(a.value))))
    else Found(a.exprValue, a.exprRange)
  }

  /** `ElementAttribute`: the first attribute with the name, searching conditionals'
      `then` attributes before their `else` attributes; boolean and spread attributes never match. */
  function ElementAttribute(attrs: seq<Attribute>, name: string): Option<Found>
    decreases attrs
  {
    if attrs == [] then None
    else
      var a := attrs[0];
      var here :=
        match a
        case Constant(n, _, _) => if n == name then Some(Report(a)) else None
        case Expression(n, _, _) => if n == name then Some(Report(a)) else None
        case Conditional(t, e) =>
          var ft := ElementAttribute(t, name);
          if ft.Some? then ft else ElementAttribute(e, name)
        case _ => None;
      if here.Some? then here else ElementAttribute(attrs[1..], name)
  }

  /** The attributes that can match, in search order, with conditionals expanded in place. */
  function Flatten(attrs: seq<Attribute>): (flat: seq<Attribute>)
    ensures forall a :: a in flat ==> a.Constant? || a.Expression?
    decreases attrs
  {
    if attrs == [] then []
    else
      var a := attrs[0];
      var head :=
        match a
        case Constant(_, _, _) => [a]
        case Expression(_, _, _) => [a]
        case Conditional(t, e) => Flatten(t) + Flatten(e)
        case _ => [];
      head + Flatten(attrs[1..])
  }

  /** The first attribute of a flat list that carries the name. */
  function FirstNamed(flat: seq<Attribute>, name: string): (r: Option<Attribute>)
    requires forall a :: a in flat ==> a.Constant? || a.Expression?
    ensures r.None? <==> forall a :: a in flat ==> a.name != name
    ensures r.Some? ==> r.value in flat && r.value.name == name
  {
    if flat == [] then None
    else if flat[0].name == name then Some(flat[0])
    else
      var r := FirstNamed(flat[1..], name);
      assert forall a :: a in flat[1..] ==> a in flat;
      r
  }

  /** What `FirstNamed` finds is the first attribute with the name: none before it has it. */
  lemma {:induction false} FirstNamedIsFirst(flat: seq<Attribute>, name: string)
    requires forall a :: a in flat ==> a.Constant? || a.Expression?
    requires FirstNamed(flat, name).Some?
    ensures exists i :: 0 <= i < |flat| && flat[i] == FirstNamed(flat, name).value
                        && forall j :: 0 <= j < i ==> flat[j].name != name
  {
    var r := FirstNamed(flat, name);
    if flat[0].name == name {
      assert flat[0] == r.value;
    } else {
      assert forall a :: a in flat[1..] ==> a in flat;
      FirstNamedIsFirst(flat[1..], name);
      var i :| 0 <= i < |flat[1..]| && flat[1..][i] == r.value && forall j :: 0 <= j < i ==> flat[1..][j].name != name;
      var k := i + 1;
      assert forall j :: 1 <= j < k ==> flat[j] == flat[1..][j - 1];
      assert 0 <= k < |flat| && flat[k] == r.value && forall j :: 0 <= j < k ==> flat[j].name != name;
    }
  }

  lemma {:induction false} FirstNamedConcat(a: seq<Attribute>, b: seq<Attribute>, name: string)
    requires forall x :: x in a ==> x.Constant? || x.Expression?
    requires forall x :: x in b ==> x.Constant? || x.Expression?
    ensures FirstNamed(a + b, name) == if FirstNamed(a, name).Some? then FirstNamed(a, name) else FirstNamed(b, name)
  {
    if a == [] {
      assert a + b == b;
    } else {
      assert (a + b)[1..] == a[1..] + b;
      FirstNamedConcat(a[1..], b, name);
    }
  }

  /** `ElementAttribute` reports the first attribute with the name in the expanded search
      order, and nothing when no constant or expression attribute has it. */
  lemma {:induction false} ElementAttributeIsFirstNamed(attrs: seq<Attribute>, name: string)
    ensures var f := FirstNamed(Flatten(attrs), name);
            ElementAttribute(attrs, name) == if f.Some? then Some(Report(f.value)) else None
    decreases attrs
  {
    if attrs != [] {
      var a := attrs[0];
      ElementAttributeIsFirstNamed(attrs[1..], name);
      match a
      case Conditional(t, e) =>
        ElementAttributeIsFirstNamed(t, name);
        ElementAttributeIsFirstNamed(e, name);
        FirstNamedConcat(Flatten(t), Flatten(e), name);
        FirstNamedConcat(Flatten(t) + Flatten(e), Flatten(attrs[1..]), name);
      case Constant(_, _, _) =>
        FirstNamedConcat([a], Flatten(attrs[1..]), name);
      case Expression(_, _, _) =>
        FirstNamedConcat([a], Flatten(attrs[1..]), name);
      case _ =>
        assert Flatten(attrs) == Flatten(attrs[1..]);
    }
  }

  // ---------------------------------------------------------------------------------------
  // GetTemplUris
  // ---------------------------------------------------------------------------------------

  /** A top-level node of a templ file; only templates are scanned. */
  datatype TopNode = HTMLTemplate(children: seq<Node>) | OtherTop

  /** `TemplFile`: an open templ document, its uris, and the index of the route each uri
      resolves to (-1 for none). */
  datatype TemplFile = TemplFile(path: string, text: string, uris: seq<Uri.Uri>, urisRouteIndex: seq<int>)

  /** The htmx attributes looked up on every element, in order, with their verbs. */
  const HxAttrs: seq<(string, string)> :=
    [("hx-get", "GET"), ("hx-post", "POST"), ("hx-put", "PUT"), ("hx-delete", "DELETE")]

  predicate IsHxVerb(v: string) {
    v == "GET" || v == "POST" || v == "PUT" || v == "DELETE"
  }

  /** The uri of a found attribute: its value, and the line and column of its range. */
  function FoundUri(verb: string, f: Found, parse: string -> Uri.ParseResult): (u: Uri.Uri)
    ensures u.verb == verb && u.raw == f.value
    ensures u.from == Pos(f.range.from.line, f.range.from.col) && u.to == Pos(f.range.to.line, f.range.to.col)
  {
    Uri.NewUriFromTo(verb, f.value, Pos(f.range.from.line, f.range.from.col), Pos(f.range.to.line, f.range.to.col), parse)
  }

  /** The uri of one htmx attribute of an element, if the element has it. */
  function HxUri(attrs: seq<Attribute>, h: (string, string), parse: string -> Uri.ParseResult): seq<Uri.Uri> {
    var f := ElementAttribute(attrs, h.0);
    if f.Some? then [FoundUri(h.1, f.value, parse)] else []
  }

  /** The uris of one element for the htmx attributes `hx`, in order. */
  function HxUris(attrs: seq<Attribute>, hx: seq<(string, string)>, parse: string -> Uri.ParseResult): seq<Uri.Uri> {
    ConcatMap(hx, h => HxUri(attrs, h, parse))
  }

  /** What the element callback appends for one element. */
  function ElementUris(e: Node, parse: string -> Uri.ParseResult): seq<Uri.Uri> {
    if e.Element? then HxUris(e.attrs, HxAttrs, parse) else []
  }

  /** `f` applied to each element of `xs`, the results concatenated in order. */
  function ConcatMap<T, U>(xs: seq<T>, f: T -> seq<U>): seq<U> {
    if xs == [] then [] else f(xs[0]) + ConcatMap(xs[1..], f)
  }

  lemma {:induction false} ConcatMapAppend<T, U>(a: seq<T>, b: seq<T>, f: T -> seq<U>)
    ensures ConcatMap(a + b, f) == ConcatMap(a, f) + ConcatMap(b, f)
  {
    if a == [] {
      assert a + b == b;
    } else {
      assert (a + b)[0] == a[0];
      assert (a + b)[1..] == a[1..] + b;
      ConcatMapAppend(a[1..], b, f);
    }
  }

  lemma ConcatMapSnoc<T, U>(xs: seq<T>, f: T -> seq<U>)
    requires xs != []
    ensures ConcatMap(xs, f) == ConcatMap(xs[..|xs| - 1], f) + f(xs[|xs| - 1])
  {
    var n := |xs| - 1;
    ConcatMapAppend(xs[..n], [xs[n]], f);
    assert xs[..n] + [xs[n]] == xs;
  }

  /** One more item of a prefix. */
  lemma ConcatMapStep<T, U>(xs: seq<T>, k: nat, f: T -> seq<U>)
    requires k < |xs|
    ensures ConcatMap(xs[..k + 1], f) == ConcatMap(xs[..k], f) + f(xs[k])
  {
    ConcatMapSnoc(xs[..k + 1], f);
    assert xs[..k + 1][..k] == xs[..k];
  }

  /** One more item of a prefix, for a map of a map. */
  lemma ConcatMapNestedStep<T, U, V>(xs: seq<T>, k: nat, f: T -> seq<U>, g: U -> seq<V>)
    requires k < |xs|
    ensures ConcatMap(ConcatMap(xs[..k + 1], f), g) == ConcatMap(ConcatMap(xs[..k], f), g) + ConcatMap(f(xs[k]), g)
  {
    ConcatMapStep(xs, k, f);
    ConcatMapAppend(ConcatMap(xs[..k], f), f(xs[k]), g);
  }

  /** The traversal of one node with only the element callback set. */
  function ElementWalk(n: Node): seq<Node> {
    RecurseNode({ElementKind}, n)
  }

  /** What the traversal of the top-level nodes hands to the element callback: the elements
      of every template's children, in pre-order; nothing from other top-level nodes. */
  function TopElements(t: TopNode): seq<Node> {
    if t.HTMLTemplate? then ConcatMap(t.children, ElementWalk) else []
  }

  /** The element callback, for a given uri parser. */
  function ElementCallback(parse: string -> Uri.ParseResult): Node -> seq<Uri.Uri> {
    e => ElementUris(e, parse)
  }

  /** The uris `GetTemplUris` collects from the top-level nodes of a document. */
  function TemplUris(tops: seq<TopNode>, parse: string -> Uri.ParseResult): seq<Uri.Uri> {
    ConcatMap(ConcatMap(tops, TopElements), ElementCallback(parse))
  }

  /** Only elements are handed to the element callback. */
  lemma {:induction false} TopElementsAreElements(tops: seq<TopNode>)
    ensures forall e :: e in ConcatMap(tops, TopElements) ==> e.Element?
  {
    if tops != [] {
      TopElementsAreElements(tops[1..]);
      if tops[0].HTMLTemplate? {
        WalksAreElements(tops[0].children);
      }
    }
  }

  lemma {:induction false} WalksAreElements(ns: seq<Node>)
    ensures forall e :: e in ConcatMap(ns, ElementWalk) ==> e.Element?
  {
    if ns != [] {
      WalksAreElements(ns[1..]);
      assert forall e :: e in ElementWalk(ns[0]) ==> KindOf(e) == ElementKind;
    }
  }

  /** The callback run on each fired node in turn, appending what it returns. */
  method AppendEach(acc: seq<Uri.Uri>, fired: seq<Node>, callback: Node -> seq<Uri.Uri>) returns (out: seq<Uri.Uri>)
    ensures out == acc + ConcatMap(fired, callback)
  {
    out := acc;
    var k := 0;
    while k < |fired|
      invariant 0 <= k <= |fired|
      invariant out == acc + ConcatMap(fired[..k], callback)
    {
      ConcatMapStep(fired, k, callback);
      out := out + callback(fired[k]);
      k := k + 1;
    }
    assert fired[..k] == fired;
  }

  /** The children of one template, each walked by `walk` (the traversal with only the
      element callback set), the callback run on every node the walk fires. */
  method AppendTemplate(acc: seq<Uri.Uri>, children: seq<Node>, walk: Node -> seq<Node>, callback: Node -> seq<Uri.Uri>)
    returns (out: seq<Uri.Uri>)
    ensures out == acc + ConcatMap(ConcatMap(children, walk), callback)
  {
    out := acc;
    var c := 0;
    while c < |children|
      invariant 0 <= c <= |children|
      invariant out == acc + ConcatMap(ConcatMap(children[..c], walk), callback)
    {
      ConcatMapNestedStep(children, c, walk, callback);
      out := AppendEach(out, walk(children[c]), callback);
      c := c + 1;
    }
    assert children[..c] == children;
  }

  /** `GetTemplUris`: the parse error, or the uris of every element under the top-level
      templates, element by element in pre-order, each element's in the order get, post,
      put, delete. */
  method GetTemplUris(parsed: Result<seq<TopNode>>, parse: string -> Uri.ParseResult) returns (r: Result<seq<Uri.Uri>>)
    ensures parsed.Err? ==> r == Err(parsed.error)
    ensures parsed.Ok? ==> r == Ok(TemplUris(parsed.value, parse))
  {
    if parsed.Err? {
      return Err(parsed.error);
    }
    var tops := parsed.value;
    var callback := ElementCallback(parse);
    var uris: seq<Uri.Uri> := [];
    var t := 0;
    while t < |tops|
      invariant 0 <= t <= |tops|
      invariant uris == ConcatMap(ConcatMap(tops[..t], TopElements), callback)
    {
      ConcatMapNestedStep(tops, t, TopElements, callback);
      if tops[t].HTMLTemplate? {
        uris := AppendTemplate(uris, tops[t].children, ElementWalk, callback);
      }
      t := t + 1;
    }
    assert tops[..t] == tops;
    return Ok(uris);
  }

  /** An element without any of the looked-up attributes contributes no uri. */
  lemma {:induction false} HxUrisNone(attrs: seq<Attribute>, hx: seq<(string, string)>, parse: string -> Uri.ParseResult)
    requires forall h :: h in hx ==> ElementAttribute(attrs, h.0).None?
    ensures HxUris(attrs, hx, parse) == []
  {
    if hx != [] {
      assert hx[0] in hx;
      assert forall h :: h in hx[1..] ==> h in hx;
      HxUrisNone(attrs, hx[1..], parse);
    }
  }

  /** A document without htmx attributes yields an empty list of uris, not an error. */
  lemma {:induction false} NoHxNoUris(es: seq<Node>, parse: string -> Uri.ParseResult)
    requires forall e, h :: e in es && h in HxAttrs && e.Element? ==> ElementAttribute(e.attrs, h.0).None?
    ensures ConcatMap(es, ElementCallback(parse)) == []
  {
    if es != [] {
      assert es[0] in es;
      assert forall e :: e in es[1..] ==> e in es;
      NoHxNoUris(es[1..], parse);
      if es[0].Element? {
        HxUrisNone(es[0].attrs, HxAttrs, parse);
      }
    }
  }

  /** The uris for a list of htmx attributes: at most one each, with that attribute's verb. */
  lemma {:induction false} HxUrisVerbs(attrs: seq<Attribute>, hx: seq<(string, string)>, parse: string -> Uri.ParseResult)
    ensures |HxUris(attrs, hx, parse)| <= |hx|
    ensures forall u :: u in HxUris(attrs, hx, parse) ==> exists h :: h in hx && u.verb == h.1
  {
    if hx != [] {
      HxUrisVerbs(attrs, hx[1..], parse);
      assert forall h :: h in hx[1..] ==> h in hx;
    }
  }

  /** Every uri comes from one of the four htmx attributes, at most four per element. */
  lemma {:induction false} CallbackVerbs(es: seq<Node>, parse: string -> Uri.ParseResult)
    ensures |ConcatMap(es, ElementCallback(parse))| <= 4 * |es|
    ensures forall u :: u in ConcatMap(es, ElementCallback(parse)) ==> IsHxVerb(u.verb)
  {
    if es != [] {
      CallbackVerbs(es[1..], parse);
      if es[0].Element? {
        HxUrisVerbs(es[0].attrs, HxAttrs, parse);
      }
    }
  }

  /** A map over four items, item by item. */
  lemma ConcatMapFour<T, U>(xs: seq<T>, f: T -> seq<U>)
    requires |xs| == 4
    ensures ConcatMap(xs, f) == f(xs[0]) + f(xs[1]) + f(xs[2]) + f(xs[3])
  {
    var a, b, c := xs[1..], xs[2..], xs[3..];
    assert a[0] == xs[1] && a[1..] == b;
    assert b[0] == xs[2] && b[1..] == c;
    assert c[0] == xs[3] && c[1..] == [];
    assert ConcatMap(c, f) == f(xs[3]);
    assert ConcatMap(b, f) == f(xs[2]) + f(xs[3]);
    assert ConcatMap(a, f) == f(xs[1]) + (f(xs[2]) + f(xs[3]));
  }

  /** An element's uris are those of its `hx-get`, `hx-post`, `hx-put` and `hx-delete`
      attributes, in that order, each present attribute giving exactly one. */
  lemma ElementUrisInOrder(e: Node, parse: string -> Uri.ParseResult)
    requires e.Element?
    ensures ElementUris(e, parse) == HxUri(e.attrs, ("hx-get", "GET"), parse) + HxUri(e.attrs, ("hx-post", "POST"), parse)
                                     + HxUri(e.attrs, ("hx-put", "PUT"), parse) + HxUri(e.attrs, ("hx-delete", "DELETE"), parse)
  {
    ConcatMapFour(HxAttrs, h => HxUri(e.attrs, h, parse));
  }
}
