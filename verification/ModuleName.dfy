// Module file names of node/task/manager.go: the parser and the table of modules that loadModules fills.

module ModuleNames {
  const DEFAULT_VERSION := "0.0.1"
  const SUFFIX := ".so"

  // The position of the last '@' in s, or -1.
  function LastAt(s: string): (i: int)
    ensures -1 <= i < |s|
    ensures i >= 0 ==> s[i] == '@'
    ensures forall j :: i < j < |s| ==> s[j] != '@'
  {
    if s == [] then -1 else if s[|s| - 1] == '@' then |s| - 1 else LastAt(s[..|s| - 1])
  }

  // The names for which no slice of the parser is out of range: it cuts three characters off the end, and for
  // every '@' also what stands before and at it.
  predicate Parseable(file: string)
  {
    |file| >= 3 && forall i :: 0 <= i < |file| && file[i] == '@' ==> i + 1 <= |file| - 3
  }

  function Parse(file: string): (string, string)
    requires Parseable(file)
  {
    var i := LastAt(file);
    if i < 0 then (file[..|file| - 3], DEFAULT_VERSION) else (file[..i], file[i + 1..|file| - 3])
  }

  function KeyName(name: string, version: string): string
  {
    name + "@" + version
  }

  method ParseModuleName(file: string) returns (name: string, version: string)
    requires Parseable(file)
    ensures (name, version) == Parse(file)
  {
    name, version := "", "";
    var isFound := false;
    ghost var last := -1;
    for idx := 0 to |file|
      invariant isFound <==> last >= 0
      invariant -1 <= last < idx && forall j :: last < j < idx ==> file[j] != '@'
      invariant isFound ==> file[last] == '@' && name == file[..last] && version == file[last + 1..|file| - 3]
    {
      if file[idx] == '@' {
        name := file[..idx];
        version := file[idx + 1..|file| - 3];
        isFound, last := true, idx;
      }
    }
    LastAtUnique(file, last);
    if !isFound {
      name := file[..|file| - 3];
      return name, DEFAULT_VERSION;
    }
  }

  lemma LastAtUnique(s: string, i: int)
    requires -1 <= i < |s| && (i >= 0 ==> s[i] == '@') && forall j :: i < j < |s| ==> s[j] != '@'
    ensures LastAt(s) == i
  {
    var l := LastAt(s);
    assert l >= 0 ==> s[l] == '@';
  }

  // The parser reads back every name and version that a file name was made of, whatever the name contains, as
  // long as the version has no '@'.
  lemma ParseRoundTrip(name: string, version: string)
    requires '@' !in version
    ensures var file := KeyName(name, version) + SUFFIX; Parseable(file) && Parse(file) == (name, version)
  {
    var file := KeyName(name, version) + SUFFIX;
    assert file == name + (['@'] + version + SUFFIX);
    assert forall j :: |name| < j < |file| - 3 ==> file[j] == version[j - |name| - 1];
    assert file[|file| - 3..] == SUFFIX;
    assert forall j :: |file| - 3 <= j < |file| ==> file[j] == SUFFIX[j - (|file| - 3)];
    LastAtUnique(file, |name|);
    assert file[..|name|] == name;
    assert file[|name| + 1..|file| - 3] == version;
  }

  // A file name without '@' gives its stem and the default version.
  lemma ParsePlain(stem: string)
    requires '@' !in stem
    ensures Parseable(stem + ".so") && Parse(stem + ".so") == (stem, "0.0.1")
  {
    var file := stem + SUFFIX;
    assert forall j :: 0 <= j < |file| ==> file[j] == if j < |stem| then stem[j] else SUFFIX[j - |stem|];
    LastAtUnique(file, -1);
    assert file[..|file| - 3] == stem;
  }

  lemma ParsedVersion(file: string)
    requires Parseable(file)
    ensures '@' !in Parse(file).1
  {
  }

  // Module ids determine name and version, because a version has no '@'.
  lemma KeyNameInjective(n1: string, v1: string, n2: string, v2: string)
    requires '@' !in v1 && '@' !in v2
    ensures KeyName(n1, v1) == KeyName(n2, v2) <==> n1 == n2 && v1 == v2
  {
    if KeyName(n1, v1) == KeyName(n2, v2) {
      ParseRoundTrip(n1, v1);
      ParseRoundTrip(n2, v2);
    }
  }

  function KeyOfFile(file: string): string
    requires Parseable(file)
  {
    var (name, version) := Parse(file);
    KeyName(name, version)
  }

  predicate IsModuleFile(file: string)
  {
    Parseable(file) && file[|file| - 3..] == SUFFIX
  }

  function StemOf(file: string): string
    requires IsModuleFile(file)
  {
    file[..|file| - 3]
  }

  lemma KeyFromStem(file: string)
    requires IsModuleFile(file)
    ensures KeyOfFile(file) == if '@' in StemOf(file) then StemOf(file) else KeyName(StemOf(file), DEFAULT_VERSION)
  {
    var i, stem := LastAt(file), StemOf(file);
    if i >= 0 {
      assert i < |stem| && stem[i] == '@';
      assert stem == file[..i] + ['@'] + file[i + 1..|file| - 3];
    } else {
      assert forall j :: 0 <= j < |stem| ==> stem[j] == file[j];
    }
  }

  // Two module files get the same id exactly when they are the same file or one of them is the other one with
  // the default version spelled out; loadModules then keeps the one it meets first.
  lemma SameKey(f: string, g: string)
    requires IsModuleFile(f) && IsModuleFile(g)
    ensures KeyOfFile(f) == KeyOfFile(g) <==>
              || f == g
              || ('@' !in StemOf(f) && StemOf(g) == KeyName(StemOf(f), DEFAULT_VERSION))
              || ('@' !in StemOf(g) && StemOf(f) == KeyName(StemOf(g), DEFAULT_VERSION))
  {
    KeyFromStem(f);
    KeyFromStem(g);
    assert f == StemOf(f) + SUFFIX && g == StemOf(g) + SUFFIX;
    assert KeyName(StemOf(f), DEFAULT_VERSION)[|StemOf(f)|] == '@';
    assert KeyName(StemOf(g), DEFAULT_VERSION)[|StemOf(g)|] == '@';
    KeyNameInjective(StemOf(f), DEFAULT_VERSION, StemOf(g), DEFAULT_VERSION);
  }

  // The files that loadModules skips start with a dot.
  predicate Visible(file: string)
  {
    file != [] && file[0] != '.'
  }

  // The first position of a visible file with the given id.
  ghost predicate FirstWithKey(files: seq<string>, id: string, k: nat)
  {
    && k < |files| && Visible(files[k]) && Parseable(files[k]) && KeyOfFile(files[k]) == id
    && forall j :: 0 <= j < k && Visible(files[j]) && Parseable(files[j]) ==> KeyOfFile(files[j]) != id
  }

  // The table maps exactly the ids of the visible files, each to the first file that has it; and every id in it
  // contains an '@'.
  method LoadModules(files: seq<string>) returns (modules: map<string, string>)
    requires forall k :: 0 <= k < |files| ==> files[k] != [] && (Visible(files[k]) ==> Parseable(files[k]))
    ensures forall k :: 0 <= k < |files| && Visible(files[k]) ==> KeyOfFile(files[k]) in modules
    ensures forall id :: id in modules ==> exists k: nat :: FirstWithKey(files, id, k) && modules[id] == files[k]
    ensures forall id :: id in modules ==> '@' in id
    ensures forall k, name, version :: 0 <= k < |files| && files[k] == name + "@" + version + ".so" ==>
              ('@' !in version && files[k][0] != '.' ==> name + "@" + version in modules)
    ensures forall id, k :: id in modules && 0 <= k < |files| && modules[id] == files[k] ==> files[k][0] != '.'
  {
    modules := map[];
    for i := 0 to |files|
      invariant forall k :: 0 <= k < i && Visible(files[k]) ==> KeyOfFile(files[k]) in modules
      invariant forall id :: id in modules ==>
                  exists k: nat :: k < i && FirstWithKey(files, id, k) && modules[id] == files[k]
      invariant forall id :: id in modules ==> '@' in id
    {
      var fileName := files[i];
      if fileName[0] != '.' {
        var name, version := ParseModuleName(fileName);
        var id := name + "@" + version;
        assert id[|name|] == '@';
        if id !in modules {
          modules := modules[id := fileName];
          assert FirstWithKey(files, id, i);
        }
      }
    }
    forall k, name, version |
      0 <= k < |files| && files[k] == name + "@" + version + ".so" && '@' !in version && files[k][0] != '.'
      ensures name + "@" + version in modules
    {
      ParseRoundTrip(name, version);
      assert files[k] == KeyName(name, version) + SUFFIX;
    }
  }
}
