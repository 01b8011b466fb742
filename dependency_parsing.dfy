/** `parse_dependency_files` of dependency_analysis/utils.py: the manifest parser for
    package.json-style JSON, requirements.txt and the `[packages]` section of a Pipfile. */
module DependencyParsing {
  import opened Wrappers
  import opened Text
  import opened Seqs

  datatype Dependency = Dependency(name: string, version: string)

  /** A decoded JSON value. An object is the list of items of the Python dict that
      `json.loads` builds, in insertion order. */
  datatype Json = JString(s: string) | JObject(members: seq<(string, Json)>) | JArray(items: seq<Json>) | JScalar

  /** An uploaded file: its name and its bytes decoded as UTF-8, None when they are not
      valid UTF-8. */
  datatype UploadedFile = UploadedFile(name: string, text: Option<string>)

  /** `json.loads` as the parser sees it: None when it raises. */
  type JsonLoads = string -> Option<Json>

  // ---- the Python dict operations on decoded objects ----

  /** `d.get(key)`. */
  function Get(d: seq<(string, Json)>, key: string): Option<Json>
  {
    if d == [] then None else if d[0].0 == key then Some(d[0].1) else Get(d[1..], key)
  }

  /** `d[key] = value`: an existing key keeps its place, a new key goes last. */
  function SetItem(d: seq<(string, Json)>, key: string, value: Json): (r: seq<(string, Json)>)
    ensures |r| >= |d| && forall i :: 0 <= i < |d| ==> r[i].0 == d[i].0
  {
    if d == [] then [(key, value)]
    else if d[0].0 == key then [(key, value)] + d[1..]
    else [d[0]] + SetItem(d[1..], key, value)
  }

  /** `d.update(e)` for a dict `e`: its items are set one after the other. */
  function Update(d: seq<(string, Json)>, e: seq<(string, Json)>): seq<(string, Json)>
    decreases |e|
  {
    if e == [] then d else Update(SetItem(d, e[0].0, e[0].1), e[1..])
  }

  predicate DistinctKeys(d: seq<(string, Json)>) {
    forall i, j :: 0 <= i < j < |d| ==> d[i].0 != d[j].0
  }

  /** `list(d)`: the keys in insertion order. */
  function Keys(d: seq<(string, Json)>): (ks: seq<string>)
    ensures |ks| == |d| && forall i :: 0 <= i < |d| ==> ks[i] == d[i].0
  {
    if d == [] then [] else [d[0].0] + Keys(d[1..])
  }

  /** The keys that setting the items of `e` one after the other adds to a dict whose
      keys are `ks`: those not yet present, in `e`'s order. */
  function NewKeys(ks: seq<string>, e: seq<(string, Json)>): seq<string>
    decreases |e|
  {
    if e == [] then []
    else if e[0].0 in ks then NewKeys(ks, e[1..])
    else [e[0].0] + NewKeys(ks + [e[0].0], e[1..])
  }

  /** `d.get(key, {})`. */
  function GetOrEmpty(d: seq<(string, Json)>, key: string): Json
  {
    Get(d, key).GetOr(JObject([]))
  }

  /** `d.update(other)` when `other` is not necessarily a dict: an empty string or an
      empty list leave `d` as it is, a non-empty string fails because its characters
      are not pairs, and numbers, booleans and null are not iterable. */
  function UpdateWith(d: seq<(string, Json)>, other: Json): Option<seq<(string, Json)>>
  {
    match other
    case JObject(e) => Some(Update(d, e))
    case JString(s) => if s == [] then Some(d) else None
    case JArray(items) => if items == [] then Some(d) else None
    case JScalar => None
  }

  /** Two partial results one after the other: the concatenation if neither raised. */
  function Concat(a: Option<seq<Dependency>>, b: Option<seq<Dependency>>): Option<seq<Dependency>>
  {
    if a.Some? && b.Some? then Some(a.value + b.value) else None
  }

  lemma ConcatAssociative(a: Option<seq<Dependency>>, b: Option<seq<Dependency>>, c: Option<seq<Dependency>>)
    ensures Concat(Concat(a, b), c) == Concat(a, Concat(b, c))
  {
    if a.Some? && b.Some? && c.Some? {
      assert (a.value + b.value) + c.value == a.value + (b.value + c.value);
    }
  }

  // ---- package.json ----

  /** `re.sub(r'[^\d.]', '', ver)`: the digits and dots of the version specifier. */
  function CleanVersion(ver: string): (r: string)
    ensures forall i :: 0 <= i < |r| ==> IsDigit(r[i]) || r[i] == '.'
    ensures |r| <= |ver|
  {
    if ver == [] then []
    else
      var last := ver[|ver| - 1];
      CleanVersion(ver[..|ver| - 1]) + (if IsDigit(last) || last == '.' then [last] else [])
  }

  /** Lines 40-41: `dependencies` updated by `devDependencies`, or None where `data` or
      `dependencies` is not a dict or the update raises. */
  function MergedDependencies(doc: Json): Option<seq<(string, Json)>>
  {
    match doc
    case JObject(members) =>
      (match GetOrEmpty(members, "dependencies")
       case JObject(deps) => UpdateWith(deps, GetOrEmpty(members, "devDependencies"))
       case _ => None)
    case _ => None
  }

  /** The dependency of one merged item; None when the version is not a string,
      on which `re.sub` raises. */
  function JsonItem(item: (string, Json)): Option<Dependency>
  {
    match item.1
    case JString(v) => Some(Dependency(item.0, CleanVersion(v)))
    case _ => None
  }

  /** The dependencies of the merged items in order, or None if any version is not
      a string. */
  function JsonItems(items: seq<(string, Json)>): Option<seq<Dependency>>
  {
    if items == [] then Some([])
    else
      var item := JsonItem(items[|items| - 1]);
      Concat(JsonItems(items[..|items| - 1]), if item.Some? then Some([item.value]) else None)
  }

  function JsonFile(text: string, loads: JsonLoads): Option<seq<Dependency>>
  {
    match loads(text)
    case None => None
    case Some(doc) =>
      match MergedDependencies(doc)
      case None => None
      case Some(items) => JsonItems(items)
  }

  // ---- requirements.txt ----

  /** Lines 54-59 for one line: a stripped line that is not blank, not a comment and
      contains `==` gives the first two pieces of `line.split('==')`. */
  function TxtLine(raw: string): seq<Dependency>
  {
    var line := Strip(raw);
    if line == [] || StartsWith(line, "#") then []
    else if Contains(line, "==") then
      var parts := Split(line, "==");
      [Dependency(parts[0], parts[1])]
    else []
  }

  function TxtFile(text: string): seq<Dependency>
  {
    FlatMap(SplitLines(text), TxtLine)
  }

  // ---- Pipfile ----

  /** `content.split('[packages]')[1].split('[dev-packages]')[0]`, None when the
      index raises because `[packages]` does not occur. */
  function PipfileSection(text: string): Option<string>
  {
    var pieces := Split(text, "[packages]");
    if |pieces| < 2 then None else Some(Split(pieces[1], "[dev-packages]")[0])
  }

  /** Lines 66-70 for one line: split at the first " = ", both sides stripped. */
  function PipfileLine(pkg: string): seq<Dependency>
  {
    var trimmed := Strip(pkg);
    if trimmed == [] || StartsWith(trimmed, "#") then []
    else
      match Find(pkg, " = ")
      case None => []
      case Some(i) => [Dependency(Strip(pkg[..i]), Strip(pkg[i + 3..]))]
  }

  function PipfileFile(text: string): Option<seq<Dependency>>
  {
    match PipfileSection(text)
    case None => None
    case Some(section) => Some(FlatMap(SplitLines(Strip(section)), PipfileLine))
  }

  // ---- the batch ----

  /** What one file contributes, chosen by its lower-cased name; None when it raises. */
  function FileDependencies(file: UploadedFile, loads: JsonLoads): Option<seq<Dependency>>
  {
    match file.text
    case None => None
    case Some(text) =>
      var filename := Lower(file.name);
      if EndsWith(filename, ".json") then JsonFile(text, loads)
      else if EndsWith(filename, ".txt") then Some(TxtFile(text))
      else if filename == "pipfile" then PipfileFile(text)
      else Some([])
  }

  /** The per-file dependencies concatenated in file order, or None when any file raises. */
  function ParseAll(files: seq<UploadedFile>, loads: JsonLoads): Option<seq<Dependency>>
  {
    if files == [] then Some([])
    else Concat(ParseAll(files[..|files| - 1], loads), FileDependencies(files[|files| - 1], loads))
  }

  /** The list `parse_dependency_files(files)` returns: `[]` on any exception. */
  function ParsedDependencies(files: seq<UploadedFile>, loads: JsonLoads): seq<Dependency>
  {
    ParseAll(files, loads).GetOr([])
  }

  // ---- the loops of parse_dependency_files ----

  /** One failing item fails the whole object. */
  lemma {:induction false} JsonItemsFailure(items: seq<(string, Json)>, k: nat)
    requires k < |items| && JsonItem(items[k]).None?
    ensures JsonItems(items).None?
    decreases |items|
  {
    if k < |items| - 1 {
      assert items[..|items| - 1][k] == items[k];
      JsonItemsFailure(items[..|items| - 1], k);
    }
  }

  /** One failing file fails the whole batch. */
  lemma {:induction false} ParseAllFailure(files: seq<UploadedFile>, loads: JsonLoads, k: nat)
    requires k < |files| && FileDependencies(files[k], loads).None?
    ensures ParseAll(files, loads).None?
    decreases |files|
  {
    if k < |files| - 1 {
      assert files[..|files| - 1][k] == files[k];
      ParseAllFailure(files[..|files| - 1], loads, k);
    }
  }

  /** Lines 45-48: appends the cleaned version of each merged item, stopping at the
      first version that is not a string. */
  method AppendJsonItems(dependencies: seq<Dependency>, items: seq<(string, Json)>) returns (r: Option<seq<Dependency>>)
    ensures r == Concat(Some(dependencies), JsonItems(items))
  {
    var acc := dependencies;
    var j := 0;
    while j < |items|
      invariant 0 <= j <= |items|
      invariant JsonItems(items[..j]).Some? && acc == dependencies + JsonItems(items[..j]).value
    {
      assert items[..j + 1][..j] == items[..j];
      var name, ver := items[j].0, items[j].1;
      if !ver.JString? {
        JsonItemsFailure(items, j);
        return None;
      }
      acc := acc + [Dependency(name, CleanVersion(ver.s))];
      j := j + 1;
    }
    assert items[..j] == items;
    r := Some(acc);
  }

  /** Lines 54-59 for one line of a requirements file. */
  method AppendTxtLine(dependencies: seq<Dependency>, raw: string) returns (r: seq<Dependency>)
    ensures r == dependencies + TxtLine(raw)
  {
    r := dependencies;
    var line := Strip(raw);
    if line == [] || StartsWith(line, "#") {
    } else if Contains(line, "==") {
      var parts := Split(line, "==");
      r := r + [Dependency(parts[0], parts[1])];
    }
  }

  /** Lines 53-59: appends the dependency of each requirements line. */
  method AppendTxtLines(dependencies: seq<Dependency>, lines: seq<string>) returns (r: seq<Dependency>)
    ensures r == dependencies + FlatMap(lines, TxtLine)
  {
    r := dependencies;
    var j := 0;
    while j < |lines|
      invariant 0 <= j <= |lines|
      invariant r == dependencies + FlatMap(lines[..j], TxtLine)
    {
      FlatMapStep(dependencies, lines, j, TxtLine);
      r := AppendTxtLine(r, lines[j]);
      j := j + 1;
    }
    assert lines[..j] == lines;
  }

  /** Lines 66-70 for one line of the `[packages]` section. */
  method AppendPipfileLine(dependencies: seq<Dependency>, pkg: string) returns (r: seq<Dependency>)
    ensures r == dependencies + PipfileLine(pkg)
  {
    r := dependencies;
    if Strip(pkg) == [] || StartsWith(Strip(pkg), "#") {
    } else {
      var at := Find(pkg, " = ");
      if at.Some? {
        var name, ver := pkg[..at.value], pkg[at.value + 3..];
        r := r + [Dependency(Strip(name), Strip(ver))];
      }
    }
  }

  /** Lines 64-70: appends the dependency of each line of the `[packages]` section. */
  method AppendPipfileLines(dependencies: seq<Dependency>, packages: seq<string>) returns (r: seq<Dependency>)
    ensures r == dependencies + FlatMap(packages, PipfileLine)
  {
    r := dependencies;
    var j := 0;
    while j < |packages|
      invariant 0 <= j <= |packages|
      invariant r == dependencies + FlatMap(packages[..j], PipfileLine)
    {
      FlatMapStep(dependencies, packages, j, PipfileLine);
      r := AppendPipfileLine(r, packages[j]);
      j := j + 1;
    }
    assert packages[..j] == packages;
  }

  /** Lines 38-48: a JSON manifest's merged items appended, or None where decoding,
      merging or cleaning raises. */
  method AppendJsonText(dependencies: seq<Dependency>, content: string, loads: JsonLoads) returns (r: Option<seq<Dependency>>)
    ensures r == Concat(Some(dependencies), JsonFile(content, loads))
  {
    var data := loads(content);
    if data.None? {
      return None;
    }
    var merged := MergedDependencies(data.value);
    if merged.None? {
      return None;
    }
    r := AppendJsonItems(dependencies, merged.value);
  }

  /** Lines 63-70: the `[packages]` lines of a Pipfile appended, or None where the
      section is missing. */
  method AppendPipfileText(dependencies: seq<Dependency>, content: string) returns (r: Option<seq<Dependency>>)
    ensures r == Concat(Some(dependencies), PipfileFile(content))
  {
    var pieces := Split(content, "[packages]");
    if |pieces| < 2 {
      return None;
    }
    var packages := SplitLines(Strip(Split(pieces[1], "[dev-packages]")[0]));
    var extended := AppendPipfileLines(dependencies, packages);
    r := Some(extended);
  }

  /** Lines 33-70 for one file: the dependencies list extended by what the file gives,
      or None where the file raises. */
  method AppendFile(dependencies: seq<Dependency>, file: UploadedFile, loads: JsonLoads) returns (r: Option<seq<Dependency>>)
    ensures r == Concat(Some(dependencies), FileDependencies(file, loads))
  {
    var filename := Lower(file.name);
    if file.text.None? {
      return None;
    }
    var content := file.text.value;
    if EndsWith(filename, ".json") {
      r := AppendJsonText(dependencies, content, loads);
    } else if EndsWith(filename, ".txt") {
      var extended := AppendTxtLines(dependencies, SplitLines(content));
      r := Some(extended);
    } else if filename == "pipfile" {
      r := AppendPipfileText(dependencies, content);
    } else {
      assert dependencies + [] == dependencies;
      r := Some(dependencies);
    }
  }

  /** parse_dependency_files: the files in order, with `[]` returned as soon as one of
      them raises. */
  method ParseDependencyFiles(files: seq<UploadedFile>, loads: JsonLoads) returns (dependencies: seq<Dependency>)
    ensures dependencies == ParsedDependencies(files, loads)
  {
    dependencies := [];
    var i := 0;
    while i < |files|
      invariant 0 <= i <= |files|
      invariant ParseAll(files[..i], loads) == Some(dependencies)
    {
      assert files[..i + 1][..i] == files[..i];
      var next := AppendFile(dependencies, files[i], loads);
      if next.None? {
        ParseAllFailure(files, loads, i);
        return [];
      }
      dependencies := next.value;
      i := i + 1;
    }
    assert files[..i] == files;
  }

  // ---- properties of the batch ----

  /** Any file that raises empties the whole batch, discarding what earlier files gave. */
  lemma FailureDiscardsAll(files: seq<UploadedFile>, loads: JsonLoads, k: nat)
    requires k < |files| && FileDependencies(files[k], loads).None?
    ensures ParsedDependencies(files, loads) == []
  {
    ParseAllFailure(files, loads, k);
  }

  /** Batches compose: the dependencies of `a + b` are those of `a` followed by those of
      `b`, with no deduplication, and the batch fails exactly when either part does. */
  lemma {:induction false} ParseAllAppend(a: seq<UploadedFile>, b: seq<UploadedFile>, loads: JsonLoads)
    ensures ParseAll(a + b, loads) == Concat(ParseAll(a, loads), ParseAll(b, loads))
    decreases |b|
  {
    if b == [] {
      assert a + b == a;
      assert ParseAll(a, loads).Some? ==> ParseAll(a, loads).value + [] == ParseAll(a, loads).value;
    } else {
      var init, last := b[..|b| - 1], b[|b| - 1];
      assert (a + b)[..|a + b| - 1] == a + init;
      assert (a + b)[|a + b| - 1] == last;
      ParseAllAppend(a, init, loads);
      ConcatAssociative(ParseAll(a, loads), ParseAll(init, loads), FileDependencies(last, loads));
    }
  }

  /** A file whose lower-cased name is none of the three kinds contributes nothing. */
  lemma OtherFilesContributeNothing(file: UploadedFile, loads: JsonLoads)
    requires file.text.Some?
    requires !EndsWith(Lower(file.name), ".json") && !EndsWith(Lower(file.name), ".txt")
    requires Lower(file.name) != "pipfile"
    ensures FileDependencies(file, loads) == Some([])
  {
  }

  /** Bytes that are not UTF-8 fail the batch, whatever the file's name. */
  lemma UndecodableFails(file: UploadedFile, loads: JsonLoads)
    requires file.text.None?
    ensures ParsedDependencies([file], loads) == []
  {
    FailureDiscardsAll([file], loads, 0);
  }

  // ---- properties of the three formats ----

  /** A requirements line that yields a dependency is, once stripped, the name, `==` and
      the version, possibly followed by more; neither part contains `==`. */
  lemma TxtLineShape(raw: string)
    requires TxtLine(raw) != []
    ensures |TxtLine(raw)| == 1
    ensures var d := TxtLine(raw)[0];
      StartsWith(Strip(raw), d.name + "==" + d.version)
      && !Contains(d.name, "==") && !Contains(d.version, "==")
  {
    var line := Strip(raw);
    SplitHead(line, "==");
    SplitPieceFree(line, "==", 0);
    SplitPieceFree(line, "==", 1);
  }

  /** The converse: a line written as `name==version` gives back that name and version,
      for a name without `=` that does not start with whitespace or `#` and a version
      without `==` or trailing whitespace. */
  lemma TxtLineRoundTrip(name: string, version: string)
    requires name != [] && !IsSpace(name[0]) && name[0] != '#'
    requires forall i :: 0 <= i < |name| ==> name[i] != '='
    requires version != [] ==> !IsSpace(version[|version| - 1])
    requires !Contains(version, "==")
    ensures TxtLine(name + "==" + version) == [Dependency(name, version)]
  {
    var line := name + "==" + version;
    assert line[0] == name[0];
    assert line[|line| - 1] == if version == [] then '=' else version[|version| - 1];
    StripUnchanged(line);
    assert line[..1] == [name[0]];
    TxtLineSplit(name, version);
  }

  /** A name without `=` joined by `==` to a version without `==` splits back into the
      two. */
  lemma TxtLineSplit(name: string, version: string)
    requires forall i :: 0 <= i < |name| ==> name[i] != '='
    requires !Contains(version, "==")
    ensures Split(name + "==" + version, "==") == [name, version]
  {
    var line := name + "==" + version;
    forall j | 0 <= j < |name|
      ensures !OccursAt(line, "==", j)
    {
      assert line[j..j + 2][0] == line[j] == name[j];
    }
    assert line[|name|..|name| + 2] == "==";
    assert line[..|name|] == name && line[|name| + 2..] == version;
    SplitOnce(line, "==", |name|);
  }

  /** A requirements file of one such line yields exactly its dependency. */
  lemma TxtFileOneLine(name: string, version: string)
    requires name != [] && !IsSpace(name[0]) && name[0] != '#'
    requires forall i :: 0 <= i < |name| ==> name[i] != '='
    requires version != [] ==> !IsSpace(version[|version| - 1])
    requires !Contains(version, "==")
    requires forall i :: 0 <= i < |name| ==> !IsLineBreak(name[i])
    requires forall i :: 0 <= i < |version| ==> !IsLineBreak(version[i])
    ensures TxtFile(name + "==" + version) == [Dependency(name, version)]
  {
    var line := name + "==" + version;
    forall j | 0 <= j < |line|
      ensures !IsLineBreak(line[j])
    {
      if j >= |name| + 2 {
        assert line[j] == version[j - |name| - 2];
      } else if j < |name| {
        assert line[j] == name[j];
      }
    }
    SingleLine(line);
    var none: seq<string> := [];
    assert none + [line] == [line];
    FlatMapSnoc(none, line, TxtLine);
    TxtLineRoundTrip(name, version);
  }

  /** A Pipfile line written as `name = version` gives back that name and version, for
      a name without spaces that does not start with `#` and a version without
      surrounding whitespace. */
  lemma PipfileLineRoundTrip(name: string, version: string)
    requires name != [] && name[0] != '#'
    requires forall i :: 0 <= i < |name| ==> !IsSpace(name[i])
    requires Strip(version) == version
    ensures PipfileLine(name + " = " + version) == [Dependency(name, version)]
  {
    PipfileLineSides(name, version);
    StripUnchanged(name);
  }

  /** `name = rest` splits into the stripped name and the stripped rest. */
  lemma PipfileLineSides(name: string, rest: string)
    requires name != [] && name[0] != '#'
    requires forall i :: 0 <= i < |name| ==> !IsSpace(name[i])
    ensures PipfileLine(name + " = " + rest) == [Dependency(Strip(name), Strip(rest))]
  {
    var pkg := name + " = " + rest;
    NotBlankNorComment(pkg);
    FirstAssignment(name, rest);
    PipfileLineAt(pkg, |name|);
    AroundSeparator(name, " = ", rest);
  }

  /** A line that is neither blank nor a comment, with its first " = " at `i`. */
  lemma PipfileLineAt(pkg: string, i: nat)
    requires Strip(pkg) != [] && !StartsWith(Strip(pkg), "#") && Find(pkg, " = ") == Some(i)
    ensures PipfileLine(pkg) == [Dependency(Strip(pkg[..i]), Strip(pkg[i + 3..]))]
  {
  }

  /** In `name = rest` with a name without whitespace, the first " = " follows the name. */
  lemma FirstAssignment(name: string, rest: string)
    requires forall i :: 0 <= i < |name| ==> !IsSpace(name[i])
    ensures Find(name + " = " + rest, " = ") == Some(|name|)
  {
    var pkg := name + " = " + rest;
    forall j | 0 <= j < |name|
      ensures !OccursAt(pkg, " = ", j)
    {
      assert pkg[j..j + 3][0] == pkg[j] == name[j];
    }
    assert pkg[|name|..|name| + 3] == " = ";
    assert OccursAt(pkg, " = ", |name|);
  }

  /** A line starting with a character that is neither whitespace nor `#` is neither
      blank nor a comment once stripped. */
  lemma NotBlankNorComment(line: string)
    requires line != [] && !IsSpace(line[0]) && line[0] != '#'
    ensures Strip(line) != [] && !StartsWith(Strip(line), "#")
  {
    TrimmedStart(line);
    assert Strip(line)[..1] == [line[0]];
  }

  /** Stripping a text that starts with a non-space character keeps that character first. */
  lemma TrimmedStart(s: string)
    requires s != [] && !IsSpace(s[0])
    ensures Strip(s) != [] && Strip(s)[0] == s[0]
  {
    assert TrimStart(s) == s;
  }

  /** A Pipfile without `[packages]` raises, so the batch it is in is empty. */
  lemma PipfileWithoutPackagesFails(text: string)
    requires !Contains(text, "[packages]")
    ensures PipfileFile(text).None?
  {
  }

  /** Setting a key keeps the value of every other key. */
  lemma {:induction false} GetSetItem(d: seq<(string, Json)>, key: string, value: Json, k: string)
    ensures Get(SetItem(d, key, value), k) == if k == key then Some(value) else Get(d, k)
    decreases |d|
  {
    if d != [] && d[0].0 != key {
      GetSetItem(d[1..], key, value, k);
    }
  }

  /** A key that no item carries is absent. */
  lemma {:induction false} GetAbsent(d: seq<(string, Json)>, k: string)
    requires forall i :: 0 <= i < |d| ==> d[i].0 != k
    ensures Get(d, k).None?
    decreases |d|
  {
    if d != [] {
      assert d[0].0 != k;
      forall i | 0 <= i < |d[1..]|
        ensures d[1..][i].0 != k
      {
        assert d[1..][i] == d[i + 1];
      }
      GetAbsent(d[1..], k);
    }
  }

  /** After `d.update(e)` with a dict `e`, a key of `e` takes its value from `e` and any
      other key keeps its value from `d`. */
  lemma {:induction false} GetUpdate(d: seq<(string, Json)>, e: seq<(string, Json)>, k: string)
    requires DistinctKeys(e)
    ensures Get(Update(d, e), k) == if Get(e, k).Some? then Get(e, k) else Get(d, k)
    decreases |e|
  {
    if e != [] {
      var rest := e[1..];
      forall i, j | 0 <= i < j < |rest|
        ensures rest[i].0 != rest[j].0
      {
        assert rest[i] == e[i + 1] && rest[j] == e[j + 1];
      }
      assert DistinctKeys(rest);
      GetUpdate(SetItem(d, e[0].0, e[0].1), rest, k);
      GetSetItem(d, e[0].0, e[0].1, k);
      if k == e[0].0 {
        forall i | 0 <= i < |rest|
          ensures rest[i].0 != k
        {
          assert rest[i] == e[i + 1];
        }
        GetAbsent(rest, k);
      }
    }
  }

  /** `d[key] = value` leaves the keys as they are when `key` is present and appends
      it otherwise. */
  lemma {:induction false} SetItemKeys(d: seq<(string, Json)>, key: string, value: Json)
    ensures Keys(SetItem(d, key, value)) == if key in Keys(d) then Keys(d) else Keys(d) + [key]
    decreases |d|
  {
    if d != [] {
      assert Keys(d) == [d[0].0] + Keys(d[1..]);
      if d[0].0 == key {
        assert ([(key, value)] + d[1..])[1..] == d[1..];
      } else {
        var tail := SetItem(d[1..], key, value);
        assert ([d[0]] + tail)[1..] == tail;
        SetItemKeys(d[1..], key, value);
        assert key in Keys(d) <==> key in Keys(d[1..]);
        if key !in Keys(d) {
          assert [d[0].0] + (Keys(d[1..]) + [key]) == ([d[0].0] + Keys(d[1..])) + [key];
        }
      }
    }
  }

  /** The keys after `d.update(e)`: those of `d` in their places, then the new keys of
      `e` in `e`'s order. */
  lemma {:induction false} UpdateKeys(d: seq<(string, Json)>, e: seq<(string, Json)>)
    ensures Keys(Update(d, e)) == Keys(d) + NewKeys(Keys(d), e)
    decreases |e|
  {
    if e == [] {
      assert Keys(d) + [] == Keys(d);
    } else {
      var k := e[0].0;
      var next := SetItem(d, k, e[0].1);
      assert Update(d, e) == Update(next, e[1..]);
      SetItemKeys(d, k, e[0].1);
      UpdateKeys(next, e[1..]);
      if k !in Keys(d) {
        assert NewKeys(Keys(d), e) == [k] + NewKeys(Keys(d) + [k], e[1..]);
        AppendAssociative(Keys(d), [k], NewKeys(Keys(d) + [k], e[1..]));
      } else {
        assert NewKeys(Keys(d), e) == NewKeys(Keys(d), e[1..]);
      }
    }
  }

  /** The new keys are exactly the keys of `e` missing from `ks`, each listed once. */
  lemma {:induction false} NewKeysShape(ks: seq<string>, e: seq<(string, Json)>)
    ensures forall x :: x in NewKeys(ks, e) <==> x in Keys(e) && x !in ks
    ensures Distinct(NewKeys(ks, e))
    decreases |e|
  {
    if e != [] {
      var k := e[0].0;
      assert Keys(e) == [k] + Keys(e[1..]);
      if k in ks {
        NewKeysShape(ks, e[1..]);
      } else {
        NewKeysShape(ks + [k], e[1..]);
        var rest := NewKeys(ks + [k], e[1..]);
        assert k !in rest;
        assert NewKeys(ks, e) == [k] + rest;
        DistinctAppend([k], rest);
      }
    }
  }

  /** Distinct keys are the distinct list of keys. */
  lemma DistinctKeysIff(d: seq<(string, Json)>)
    ensures DistinctKeys(d) <==> Distinct(Keys(d))
  {
    var ks := Keys(d);
    if Distinct(ks) {
      forall i, j | 0 <= i < j < |d|
        ensures d[i].0 != d[j].0
      {
        assert ks[i] == d[i].0 && ks[j] == d[j].0;
      }
    }
  }

  /** `update` keeps a dict's keys distinct. */
  lemma UpdateDistinct(d: seq<(string, Json)>, e: seq<(string, Json)>)
    requires DistinctKeys(d)
    ensures DistinctKeys(Update(d, e))
  {
    UpdateKeys(d, e);
    NewKeysShape(Keys(d), e);
    DistinctKeysIff(d);
    DistinctAppend(Keys(d), NewKeys(Keys(d), e));
    DistinctKeysIff(Update(d, e));
  }

  /** A key that `get` finds is the key of some item, with that item's value. */
  lemma {:induction false} GetFound(d: seq<(string, Json)>, k: string)
    requires Get(d, k).Some?
    ensures exists i :: 0 <= i < |d| && d[i] == (k, Get(d, k).value)
    decreases |d|
  {
    if d[0].0 != k {
      GetFound(d[1..], k);
      var i :| 0 <= i < |d[1..]| && d[1..][i] == (k, Get(d[1..], k).value);
      assert d[i + 1] == d[1..][i];
    }
  }

  /** When every merged version is a string, each item gives one dependency, in order,
      with the item's name and cleaned version. */
  lemma {:induction false} JsonItemsShape(items: seq<(string, Json)>)
    requires JsonItems(items).Some?
    ensures |JsonItems(items).value| == |items|
    ensures forall i :: 0 <= i < |items| ==>
      items[i].1.JString? && JsonItems(items).value[i] == Dependency(items[i].0, CleanVersion(items[i].1.s))
    decreases |items|
  {
    if items != [] {
      var init := items[..|items| - 1];
      var last := items[|items| - 1];
      JsonItemsShape(init);
      var d := JsonItem(last);
      assert d.Some?;
      assert JsonItems(items).value == JsonItems(init).value + [d.value];
      forall i | 0 <= i < |items|
        ensures items[i].1.JString? && JsonItems(items).value[i] == Dependency(items[i].0, CleanVersion(items[i].1.s))
      {
        if i < |init| {
          assert items[i] == init[i];
        }
      }
    }
  }

  /** Lines 38-48 for any `dependencies` and `devDependencies` objects: a package takes
      its version from `devDependencies` when listed there and from `dependencies`
      otherwise, and no package name occurs twice among the results. */
  lemma DevDependenciesOverride(text: string, loads: JsonLoads, members: seq<(string, Json)>,
                                deps: seq<(string, Json)>, dev: seq<(string, Json)>, name: string, v: string)
    requires loads(text) == Some(JObject(members))
    requires Get(members, "dependencies") == Some(JObject(deps))
    requires Get(members, "devDependencies") == Some(JObject(dev))
    requires DistinctKeys(deps) && DistinctKeys(dev)
    requires Get(dev, name) == Some(JString(v)) || (Get(dev, name).None? && Get(deps, name) == Some(JString(v)))
    ensures JsonFile(text, loads).Some? ==>
      var ds := JsonFile(text, loads).value;
      (exists i :: 0 <= i < |ds| && ds[i] == Dependency(name, CleanVersion(v))) &&
      forall i, j :: 0 <= i < j < |ds| ==> ds[i].name != ds[j].name
  {
    var merged := Update(deps, dev);
    assert MergedDependencies(JObject(members)) == Some(merged);
    assert JsonFile(text, loads) == JsonItems(merged);
    if JsonItems(merged).Some? {
      var ds := JsonItems(merged).value;
      JsonItemsShape(merged);
      UpdateDistinct(deps, dev);
      GetUpdate(deps, dev, name);
      GetFound(merged, name);
      var i :| 0 <= i < |merged| && merged[i] == (name, JString(v));
      assert ds[i] == Dependency(name, CleanVersion(v));
      forall a, b | 0 <= a < b < |ds|
        ensures ds[a].name != ds[b].name
      {
        assert ds[a].name == merged[a].0 && ds[b].name == merged[b].0;
      }
    }
  }

  /** Cleaning is idempotent: a version made of digits and dots is kept as it is. */
  lemma {:induction false} CleanKeepsDigits(v: string)
    requires forall i :: 0 <= i < |v| ==> IsDigit(v[i]) || v[i] == '.'
    ensures CleanVersion(v) == v
    decreases |v|
  {
    if v != [] {
      CleanKeepsDigits(v[..|v| - 1]);
    }
  }

  /** Cleaning works character by character. */
  lemma {:induction false} CleanAppend(a: string, b: string)
    ensures CleanVersion(a + b) == CleanVersion(a) + CleanVersion(b)
    decreases |b|
  {
    if b == [] {
      assert a + b == a;
    } else {
      var init := b[..|b| - 1];
      assert (a + b)[..|a + b| - 1] == a + init;
      CleanAppend(a, init);
    }
  }

  /** Caret and wildcard specifiers: "^4.17.21" cleans to "4.17.21" and "*" to "". */
  lemma CleanExamples()
    ensures CleanVersion("^4.17.21") == "4.17.21"
    ensures CleanVersion("*") == ""
  {
    var caret, exact := "^", "4.17.21";
    assert caret + exact == "^4.17.21";
    CleanAppend(caret, exact);
    assert CleanVersion(caret) == [] by { assert caret[..0] == []; }
    CleanKeepsDigits(exact);
    var star := "*";
    assert star[..0] == [];
  }

  /** The section a Pipfile is read from exists exactly when `[packages]` occurs; it
      is the start of the text after the first `[packages]`, contains neither marker,
      and runs up to the next marker or to the end of the text. */
  lemma PipfileSectionBounds(text: string)
    ensures PipfileSection(text).Some? <==> Contains(text, "[packages]")
    ensures PipfileSection(text).Some? ==>
      var rest := text[Find(text, "[packages]").value + 10..];
      var section := PipfileSection(text).value;
      StartsWith(rest, section)
      && !Contains(section, "[packages]") && !Contains(section, "[dev-packages]")
      && (|section| == |rest|
          || StartsWith(rest[|section|..], "[packages]")
          || StartsWith(rest[|section|..], "[dev-packages]"))
  {
    var found := Find(text, "[packages]");
    if found.Some? {
      var rest := text[found.value + 10..];
      SplitUnfold(text, "[packages]", found.value);
      var piece := Split(rest, "[packages]")[0];
      assert PipfileSection(text) == Some(Split(piece, "[dev-packages]")[0]);
      SectionAfterMarker(rest);
    }
  }

  /** After the first `[packages]`, the section runs up to the next marker. */
  lemma SectionAfterMarker(rest: string)
    ensures
      var section := Split(Split(rest, "[packages]")[0], "[dev-packages]")[0];
      StartsWith(rest, section)
      && !Contains(section, "[packages]") && !Contains(section, "[dev-packages]")
      && (|section| == |rest|
          || StartsWith(rest[|section|..], "[packages]")
          || StartsWith(rest[|section|..], "[dev-packages]"))
  {
    var piece := Split(rest, "[packages]")[0];
    var section := Split(piece, "[dev-packages]")[0];
    FirstPieceEnd(rest, "[packages]");
    SplitFirstFree(rest, "[packages]");
    FirstPieceEnd(piece, "[dev-packages]");
    SplitFirstFree(piece, "[dev-packages]");
    PrefixOfFree(piece, section, "[packages]");
    PrefixTransitive(rest, piece, section);
    if |section| < |piece| {
      assert rest[|section|..][..14] == piece[|section|..][..14];
    }
  }
}
