/** The struct reader of the code generator (internal/codegen/ast.go): it finds the struct
    type declared on a given line of a Go file and lists its fields, all of them and those
    the `gofs` struct tag marks as stored, primary key or searchable, each with its Go type
    and database column type.

    The Go parser is not part of this model: declarations arrive already parsed, with the
    line of their `type` keyword. */
module Codegen {
  import opened Wrappers
  import Strs

  /** A field's type expression. The parser only produces a package name as the left side
      of a qualified type, so `Selector` carries it as a string. An array's length is not
      recorded: `[4]T` takes the same path as `[]T`. */
  datatype TypeExpr = Ident(name: string) | Selector(x: string, sel: string) | ArrayType(elt: TypeExpr) | OtherType(kind: string)

  /** A struct field: its names (none for an embedded field), type and raw tag literal. */
  datatype Field = Field(names: seq<string>, typ: TypeExpr, tag: Option<string>)

  datatype TypeBody = StructType(fields: seq<Field>) | OtherBody

  datatype TypeSpec = TypeSpec(name: string, body: TypeBody)

  datatype Token = TypeToken | OtherToken

  /** A top-level declaration; only general declarations carry a token and specs. */
  datatype Decl = GenDecl(line: int, tok: Token, specs: seq<TypeSpec>) | OtherDecl

  datatype AstField = AstField(structName: string, fieldNumber: int, fieldName: string, fieldType: string, dbType: string)

  datatype AstStruct = AstStruct(pkg: string, structName: string, allFields: seq<AstField>,
                                 gofsFields: seq<AstField>, pkFields: seq<AstField>, searchableFields: seq<AstField>)

  /** `dbType`: INTEGER for `int`, TEXT for every other Go type. */
  function DbType(t: string): (r: string)
    ensures r == "INTEGER" <==> t == "int"
    ensures r == "TEXT" <==> t != "int"
  {
    if t == "string" then "TEXT"
    else if t == "int" then "INTEGER"
    else "TEXT"
  }

  /** `getType` as written: an array whose element is neither a name nor a qualified name
      reaches a type assertion to `*ast.Ident` that fails. */
  function GetTypeAsWritten(a: TypeExpr): GoResult<string> {
    match a
    case Ident(name) => Done(name)
    case Selector(x, sel) => Done(x + "." + sel)
    case ArrayType(elt) =>
      if elt.Ident? then Done("[]" + elt.name)
      else if elt.Selector? then
        var ft := GetTypeAsWritten(elt);
        if !ft.Done? then ft else Done("[]" + ft.value)
      else Panic("interface conversion: ast.Expr is not *ast.Ident")
    case OtherType(_) => Failed("unhandled type")
  }

  /** A field of type `[]*User` stops the code generator with a panic, where every other
      unsupported type gets an "unhandled type" error. */
  lemma GetTypeAsWrittenPanicsOnPointerSlice()
    ensures GetTypeAsWritten(ArrayType(OtherType("*ast.StarExpr"))).Panic?
    ensures GetTypeAsWritten(OtherType("*ast.StarExpr")) == Failed("unhandled type")
  {
  }

  /** `getType` with the failing type assertion replaced by the "unhandled type" error: the
      type's Go spelling, never a panic. */
  function GetType(a: TypeExpr): (r: GoResult<string>)
    ensures !r.Panic?
    ensures r.Failed? ==> r.error == "unhandled type"
    ensures a.Ident? ==> r == Done(a.name)
    ensures a.Selector? ==> r == Done(a.x + "." + a.sel)
    ensures a.ArrayType? && (a.elt.Ident? || a.elt.Selector?) ==> r.Done? && r.value == "[]" + GetType(a.elt).value
    ensures r.Done? <==> a.Ident? || a.Selector? || (a.ArrayType? && (a.elt.Ident? || a.elt.Selector?))
  {
    match a
    case Ident(name) => Done(name)
    case Selector(x, sel) => Done(x + "." + sel)
    case ArrayType(elt) =>
      if elt.Ident? then Done("[]" + elt.name)
      else if elt.Selector? then
        var ft := GetType(elt);
        if !ft.Done? then ft else Done("[]" + ft.value)
      else Failed("unhandled type")
    case OtherType(_) => Failed("unhandled type")
  }

  /** The corrected `getType` agrees with the code as written wherever that does not panic. */
  lemma GetTypeAgrees(a: TypeExpr)
    ensures !GetTypeAsWritten(a).Panic? ==> GetType(a) == GetTypeAsWritten(a)
    ensures GetTypeAsWritten(a).Panic? <==> a.ArrayType? && !a.elt.Ident? && !a.elt.Selector?
  {
  }

  /** Whether a declaration is a `type` declaration whose keyword is on the line. */
  predicate IsTypeDeclOn(d: Decl, line: int) {
    d.GenDecl? && d.line == line && d.tok == TypeToken
  }

  /** `findDecl`: the first spec of the first `type` declaration on the line, when it is a
      struct; an error when that declaration is not a struct or when there is none. A type
      declaration with an empty spec list (`type ()`) is indexed all the same. */
  function FindDecl(line: int, decls: seq<Decl>): (r: GoResult<TypeSpec>)
    ensures r == Failed("struct not found") <==> forall k :: 0 <= k < |decls| ==> !IsTypeDeclOn(decls[k], line)
    ensures !r.Failed? || r.error == "struct not found" || r.error == "type is not a struct"
    ensures r.Done? ==> r.value.body.StructType?
    ensures !(r == Failed("struct not found")) ==>
              exists k :: 0 <= k < |decls| && IsTypeDeclOn(decls[k], line)
                          && (forall j :: 0 <= j < k ==> !IsTypeDeclOn(decls[j], line))
                          && (r.Panic? <==> decls[k].specs == [])
                          && (r.Done? <==> decls[k].specs != [] && decls[k].specs[0].body.StructType?)
                          && (r.Done? ==> r.value == decls[k].specs[0])
  {
    if decls == [] then Failed("struct not found")
    else
      var d := decls[0];
      if IsTypeDeclOn(d, line) then
        if d.specs == [] then Panic("index out of range")
        else if !d.specs[0].body.StructType? then Failed("type is not a struct")
        else Done(d.specs[0])
      else
        var r := FindDecl(line, decls[1..]);
        assert forall j :: 1 <= j < |decls| ==> decls[j] == decls[1..][j - 1];
        r
  }

  /** The three field lists the `gofs` tag selects. */
  datatype ListKind = Gofs | Pk | Searchable

  /** Whether a tag puts a field in a list: containing `gofs` for the stored fields, and also
      `gofs:"pk"` or `gofs:"searchable"` for the other two. */
  predicate InList(kind: ListKind, tag: Option<string>) {
    tag.Some? && Strs.Contains(tag.value, "gofs")
    && match kind
       case Gofs => true
       case Pk => Strs.Contains(tag.value, "gofs:\"pk\"")
       case Searchable => Strs.Contains(tag.value, "gofs:\"searchable\"")
  }

  function List(a: AstStruct, kind: ListKind): seq<AstField> {
    match kind
    case Gofs => a.gofsFields
    case Pk => a.pkFields
    case Searchable => a.searchableFields
  }

  /** The outcome for one field: its name and type, or why it fails. The type comes first,
      then the name, which an embedded field does not have. */
  function FieldOutcome(f: Field): GoResult<(string, string)> {
    var ft := GetType(f.typ);
    if !ft.Done? then Propagate(ft)
    else if f.names == [] then Panic("index out of range")
    else Done((f.names[0], ft.value))
  }

  /** What the loop of `astStructFromStructType` has built after the given fields: each field
      appended to the full list and to the lists its tag selects, numbered by the length of
      the list it joins; the first field that fails ends it all. */
  function Build(pkg: string, sname: string, fields: seq<Field>): GoResult<AstStruct>
    decreases |fields|
  {
    if fields == [] then Done(AstStruct(pkg, sname, [], [], [], []))
    else
      var n := |fields| - 1;
      var prev := Build(pkg, sname, fields[..n]);
      var o := FieldOutcome(fields[n]);
      if !prev.Done? then prev
      else if !o.Done? then Propagate(o)
      else
        var a := prev.value;
        var (name, ft) := o.value;
        var tag := fields[n].tag;
        Done(a.(allFields := a.allFields + [AstField(sname, |a.allFields|, name, ft, "")],
                gofsFields := if InList(Gofs, tag) then a.gofsFields + [AstField(sname, |a.gofsFields|, name, ft, DbType(ft))] else a.gofsFields,
                pkFields := if InList(Pk, tag) then a.pkFields + [AstField(sname, |a.pkFields|, name, ft, DbType(ft))] else a.pkFields,
                searchableFields := if InList(Searchable, tag) then a.searchableFields + [AstField(sname, |a.searchableFields|, name, ft, DbType(ft))] else a.searchableFields))
  }

  /** The fields whose tags select them for a list, in order. */
  function Selected(fields: seq<Field>, kind: ListKind): seq<Field>
    decreases |fields|
  {
    if fields == [] then []
    else
      var n := |fields| - 1;
      Selected(fields[..n], kind) + if InList(kind, fields[n].tag) then [fields[n]] else []
  }

  /** The entry a resolvable field gets in a list, at position `k`. */
  function EntryOf(sname: string, k: int, f: Field, db: bool): AstField
    requires FieldOutcome(f).Done?
  {
    var (name, ft) := FieldOutcome(f).value;
    AstField(sname, k, name, ft, if db then DbType(ft) else "")
  }

  /** Every field resolves: its type has a Go spelling and it has a name. */
  predicate AllResolve(fields: seq<Field>) {
    forall i :: 0 <= i < |fields| ==> FieldOutcome(fields[i]).Done?
  }

  lemma {:induction false} BuildDoneIff(pkg: string, sname: string, fields: seq<Field>)
    ensures Build(pkg, sname, fields).Done? <==> AllResolve(fields)
    ensures Build(pkg, sname, fields).Done? ==>
              var a := Build(pkg, sname, fields).value;
              a.pkg == pkg && a.structName == sname && |a.allFields| == |fields|
  {
    if fields != [] {
      var n := |fields| - 1;
      BuildDoneIff(pkg, sname, fields[..n]);
      assert forall i :: 0 <= i < n ==> fields[..n][i] == fields[i];
    }
  }

  lemma {:induction false} BuildAllFields(pkg: string, sname: string, fields: seq<Field>)
    requires Build(pkg, sname, fields).Done?
    ensures AllResolve(fields)
    ensures var a := Build(pkg, sname, fields).value;
            |a.allFields| == |fields| && forall i :: 0 <= i < |fields| ==> a.allFields[i] == EntryOf(sname, i, fields[i], false)
  {
    BuildDoneIff(pkg, sname, fields);
    if fields != [] {
      var n := |fields| - 1;
      BuildDoneIff(pkg, sname, fields[..n]);
      BuildAllFields(pkg, sname, fields[..n]);
      assert forall i :: 0 <= i < n ==> fields[..n][i] == fields[i];
    }
  }

  lemma {:induction false} BuildList(pkg: string, sname: string, fields: seq<Field>, kind: ListKind)
    requires Build(pkg, sname, fields).Done?
    ensures var a := Build(pkg, sname, fields).value;
            && |List(a, kind)| == |Selected(fields, kind)|
            && forall k :: 0 <= k < |List(a, kind)| ==>
                 FieldOutcome(Selected(fields, kind)[k]).Done?
                 && List(a, kind)[k] == EntryOf(sname, k, Selected(fields, kind)[k], true)
  {
    if fields != [] {
      var n := |fields| - 1;
      BuildDoneIff(pkg, sname, fields);
      BuildDoneIff(pkg, sname, fields[..n]);
      BuildList(pkg, sname, fields[..n], kind);
      var a := Build(pkg, sname, fields).value;
      var p := Build(pkg, sname, fields[..n]).value;
      assert FieldOutcome(fields[n]).Done?;
      assert List(a, kind) == List(p, kind) + if InList(kind, fields[n].tag) then [EntryOf(sname, |List(p, kind)|, fields[n], true)] else [];
    }
  }

  /** The conversion succeeds exactly when every field resolves. Then the full list holds one
      entry per field in order, numbered by position and without a database type, and each
      tag-selected list holds the fields its tag selects, in order, numbered from 0, with
      their database types. */
  lemma BuildSpec(pkg: string, sname: string, fields: seq<Field>)
    ensures Build(pkg, sname, fields).Done? <==> AllResolve(fields)
    ensures Build(pkg, sname, fields).Done? ==>
              var a := Build(pkg, sname, fields).value;
              && a.pkg == pkg && a.structName == sname
              && |a.allFields| == |fields|
              && (forall i :: 0 <= i < |fields| ==> a.allFields[i] == EntryOf(sname, i, fields[i], false))
              && (forall kind: ListKind :: |List(a, kind)| == |Selected(fields, kind)|)
              && (forall kind: ListKind, k :: 0 <= k < |List(a, kind)| ==>
                    FieldOutcome(Selected(fields, kind)[k]).Done?
                    && List(a, kind)[k] == EntryOf(sname, k, Selected(fields, kind)[k], true))
  {
    BuildDoneIff(pkg, sname, fields);
    if Build(pkg, sname, fields).Done? {
      BuildAllFields(pkg, sname, fields);
      var a := Build(pkg, sname, fields).value;
      forall kind: ListKind
        ensures |List(a, kind)| == |Selected(fields, kind)|
        ensures forall k :: 0 <= k < |List(a, kind)| ==>
                  FieldOutcome(Selected(fields, kind)[k]).Done?
                  && List(a, kind)[k] == EntryOf(sname, k, Selected(fields, kind)[k], true)
      {
        BuildList(pkg, sname, fields, kind);
      }
    }
  }

  /** When the conversion fails, it fails as the first unresolvable field does, with no
      partial result. */
  lemma {:induction false} BuildFailsAtFirst(pkg: string, sname: string, fields: seq<Field>, i: nat)
    requires i < |fields| && !FieldOutcome(fields[i]).Done?
    requires forall j :: 0 <= j < i ==> FieldOutcome(fields[j]).Done?
    ensures !Build(pkg, sname, fields).Done?
    ensures Build(pkg, sname, fields) == Propagate(FieldOutcome(fields[i]))
  {
    var n := |fields| - 1;
    var pre := fields[..n];
    assert forall j :: 0 <= j < n ==> pre[j] == fields[j];
    if i < n {
      BuildFailsAtFirst(pkg, sname, pre, i);
    } else {
      BuildDoneIff(pkg, sname, pre);
    }
  }

  /** A field without a tag is only in the full list; a primary-key or searchable field is
      also a stored field. */
  lemma TagSelection(tag: Option<string>)
    ensures tag.None? ==> !InList(Gofs, tag) && !InList(Pk, tag) && !InList(Searchable, tag)
    ensures InList(Pk, tag) ==> InList(Gofs, tag)
    ensures InList(Searchable, tag) ==> InList(Gofs, tag)
  {
  }

  /** `astStructFromStructType`: the struct's name and package, and its fields sorted into
      the four lists; the first field whose type is unsupported or that has no name ends it. */
  method AstStructFromStructType(pkg: string, t: TypeSpec) returns (r: GoResult<AstStruct>)
    ensures !t.body.StructType? ==> r.Panic?
    ensures t.body.StructType? ==> r == Build(pkg, t.name, t.body.fields)
  {
    if !t.body.StructType? {
      return Panic("interface conversion: ast.Expr is not *ast.StructType");
    }
    var fields := t.body.fields;
    var all, gofs, pk, searchable := [], [], [], [];
    var i := 0;
    while i < |fields|
      invariant 0 <= i <= |fields|
      invariant Build(pkg, t.name, fields[..i]) == Done(AstStruct(pkg, t.name, all, gofs, pk, searchable))
    {
      assert fields[..i + 1][..i] == fields[..i];
      var field := fields[i];
      var ft := GetType(field.typ);
      if !ft.Done? {
        BuildFailsAtFirstStep(pkg, t.name, fields, i);
        return Propagate(ft);
      }
      if |field.names| == 0 {
        BuildFailsAtFirstStep(pkg, t.name, fields, i);
        return Panic("index out of range");
      }
      var name := field.names[0];
      all := all + [AstField(t.name, |all|, name, ft.value, "")];
      if field.tag.Some? {
        if Strs.Contains(field.tag.value, "gofs") {
          gofs := gofs + [AstField(t.name, |gofs|, name, ft.value, DbType(ft.value))];
          if Strs.Contains(field.tag.value, "gofs:\"pk\"") {
            pk := pk + [AstField(t.name, |pk|, name, ft.value, DbType(ft.value))];
          }
          if Strs.Contains(field.tag.value, "gofs:\"searchable\"") {
            searchable := searchable + [AstField(t.name, |searchable|, name, ft.value, DbType(ft.value))];
          }
        }
      }
      i := i + 1;
    }
    assert fields[..i] == fields;
    return Done(AstStruct(pkg, t.name, all, gofs, pk, searchable));
  }

  /** Once field `i` fails after a successful prefix, the whole conversion has that outcome. */
  lemma {:induction false} BuildFailsAtFirstStep(pkg: string, sname: string, fields: seq<Field>, i: nat)
    requires i < |fields| && !FieldOutcome(fields[i]).Done?
    requires Build(pkg, sname, fields[..i]).Done?
    ensures Build(pkg, sname, fields) == Propagate(FieldOutcome(fields[i]))
    decreases |fields| - i
  {
    if i + 1 < |fields| {
      var n := |fields| - 1;
      assert fields[..n][..i] == fields[..i];
      BuildFailsAtFirstStep(pkg, sname, fields[..n], i);
      assert fields[..n][i] == fields[i];
    } else {
      assert fields[..|fields| - 1] == fields[..i];
    }
  }

  /** `GetAstStruct`, given the parsed declarations or the parse error. */
  function GetAstStruct(parsed: Result<seq<Decl>>, pkg: string, line: int): (r: GoResult<AstStruct>)
    ensures parsed.Err? ==> r == Failed(parsed.error)
    ensures parsed.Ok? && !FindDecl(line, parsed.value).Done? ==> r == Propagate(FindDecl(line, parsed.value))
    ensures parsed.Ok? && FindDecl(line, parsed.value).Done? ==>
              var t := FindDecl(line, parsed.value).value;
              r == Build(pkg, t.name, t.body.fields)
  {
    if parsed.Err? then Failed(parsed.error)
    else
      var t := FindDecl(line, parsed.value);
      if !t.Done? then Propagate(t)
      else Build(pkg, t.value.name, t.value.body.fields)
  }
}
