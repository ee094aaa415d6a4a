/** The package index of the language server (internal/lsp/pkg/pkg.go): the functions of a Go
    package with the file and position of each. Loading packages is not part of this model. */
module Pkg {
  import opened Wrappers
  import opened Model
  import Seqs

  datatype Func = Func(name: string, file: string, pos: Pos)

  datatype Pkg = Pkg(files: seq<string>, funcs: seq<Func>)

  function FuncName(f: Func): string {
    f.name
  }

  /** `GetFunc`: the first function with the name, nothing when none has it. The package is
      a value, so it cannot change. */
  method GetFunc(p: Pkg, name: string) returns (r: Option<Func>)
    ensures r.None? <==> forall j :: 0 <= j < |p.funcs| ==> p.funcs[j].name != name
    ensures r.Some? ==> r.value.name == name
    ensures r.Some? ==> exists i :: 0 <= i < |p.funcs| && p.funcs[i] == r.value
                                    && forall j :: 0 <= j < i ==> p.funcs[j].name != name
    ensures var i := Seqs.FirstKey(p.funcs, FuncName, name);
            r == if i == -1 then None else Some(p.funcs[i])
  {
    var k := 0;
    while k < |p.funcs|
      invariant 0 <= k <= |p.funcs|
      invariant forall j :: 0 <= j < k ==> p.funcs[j].name != name
    {
      if p.funcs[k].name == name {
        return Some(p.funcs[k]);
      }
      k := k + 1;
    }
    return None;
  }
}
