/** ShaderHelper: naming a shader's sibling (.vert <-> .frag) and pairing
    the entries of a recursive directory listing into vertex/fragment
    shader sets, at most one set per stem. The listing is an input
    sequence of paths in iteration order, and the paths that exist on disk
    are an input set. */
module ShaderHelper {
  import opened Paths

  /** The pair of shader files a pipeline is built from. */
  datatype ShaderSet = ShaderSet(vertexShaderLoc: string, fragmentShaderLoc: string)

  /** getSiblingShaderPath: the path of the other half of a shader pair,
      in the same directory with the same stem: a .frag file's sibling is
      the .vert file, and every other path's sibling is a .frag file. */
  function GetSiblingShaderPath(shaderPath: Path): (r: Path)
    ensures |r| >= 5 && r[|r| - 5..] == SiblingExtension(Extension(shaderPath))
  {
    if Extension(shaderPath) == ".frag" then ParentPath(shaderPath) + "/" + Stem(shaderPath) + ".vert"
    else ParentPath(shaderPath) + "/" + Stem(shaderPath) + ".frag"
  }

  predicate IsShaderExtension(ext: string)
  {
    ext == ".vert" || ext == ".frag"
  }

  /** Both shader extensions are extensions path::extension() can report. */
  lemma ShaderExtensionIsExtension(ext: string)
    requires IsShaderExtension(ext)
    ensures IsExtension(ext) && |ext| == 5
  {
    if ext == ".vert" {
      assert ext[1..] == "vert";
    } else {
      assert ext[1..] == "frag";
    }
  }

  /** The extension a sibling gets for a file with extension ext. */
  function SiblingExtension(ext: string): string
  {
    if ext == ".frag" then ".vert" else ".frag"
  }

  /** The sibling of `dir/name.ext`, for a directory that does not end in
      a separator: `dir/name.vert` for a .frag file and `dir/name.frag` for
      any other extension, the empty one included. */
  lemma SiblingOfPath(dir: Path, name: string, ext: string)
    requires |dir| > 0 && dir[|dir| - 1] != '/'
    requires '/' !in name && |name| > 0
    requires IsExtension(ext)
    requires ext == "" ==> '.' !in name
    requires name + ext != ".."
    ensures GetSiblingShaderPath(dir + "/" + name + ext) == dir + "/" + name + SiblingExtension(ext)
  {
    PathParts(dir, name, ext);
  }

  /** A shader file and its sibling are of opposite kinds with the same
      stem, and in the same directory unless the file had no directory
      part at all. */
  lemma SiblingSwapsShaderKind(shaderPath: Path)
    requires IsShaderExtension(Extension(shaderPath))
    ensures Extension(GetSiblingShaderPath(shaderPath)) == SiblingExtension(Extension(shaderPath))
    ensures Stem(GetSiblingShaderPath(shaderPath)) == Stem(shaderPath)
    ensures ParentPath(shaderPath) != "" ==> ParentPath(GetSiblingShaderPath(shaderPath)) == ParentPath(shaderPath)
  {
    var parent := ParentPath(shaderPath);
    var stem := Stem(shaderPath);
    var ext := SiblingExtension(Extension(shaderPath));
    var sibling := parent + "/" + stem + ext;
    assert GetSiblingShaderPath(shaderPath) == sibling;
    StemFacts(shaderPath);
    ParentPathFacts(shaderPath);
    ShaderExtensionIsExtension(ext);
    PathParts(parent, stem, ext);
    ParentOfParent(parent);
    assert Extension(sibling) == ext && Stem(sibling) == stem;
    assert parent != "" ==> ParentPath(sibling) == parent;
  }

  /** For `dir/name.vert` and `dir/name.frag` with a non-empty directory
      that does not end in a separator, the sibling of the sibling is the
      path itself. */
  lemma SiblingRoundTrip(dir: Path, name: string, ext: string)
    requires |dir| > 0 && dir[|dir| - 1] != '/'
    requires '/' !in name && |name| > 0
    requires IsShaderExtension(ext)
    ensures GetSiblingShaderPath(GetSiblingShaderPath(dir + "/" + name + ext)) == dir + "/" + name + ext
  {
    var other := SiblingExtension(ext);
    ShaderExtensionIsExtension(ext);
    ShaderExtensionIsExtension(other);
    var shader, sibling := dir + "/" + name + ext, dir + "/" + name + other;
    SiblingOfPath(dir, name, ext);
    assert GetSiblingShaderPath(shader) == sibling;
    SiblingOfPath(dir, name, other);
    assert SiblingExtension(other) == ext;
  }

  /** A bare file name has the empty parent, so its sibling is put in the
      root directory: `name.vert` pairs with `/name.frag`. */
  lemma BareNameSibling(name: string, ext: string)
    requires '/' !in name && |name| > 0
    requires IsShaderExtension(ext)
    ensures GetSiblingShaderPath(name + ext) == "/" + name + SiblingExtension(ext)
  {
    var file := name + ext;
    ShaderExtensionIsExtension(ext);
    NoSeparatorInFileName(name, ext);
    BareFileName(file);
    BareExtension(name, ext);
    StemBeforeExtension(file, name, ext);
    var other := SiblingExtension(ext);
    assert GetSiblingShaderPath(file) == ParentPath(file) + "/" + Stem(file) + other;
    EmptyParentSibling(ParentPath(file), Stem(file), other);
  }

  /** A bare shader file name is its own filename, with the shader
      extension as extension. */
  lemma BareExtension(name: string, ext: string)
    requires '/' !in name && |name| > 0
    requires IsShaderExtension(ext)
    ensures FileName(name + ext) == name + ext && Extension(name + ext) == ext
  {
    var file := name + ext;
    ShaderExtensionIsExtension(ext);
    NoSeparatorInFileName(name, ext);
    BareFileName(file);
    ExtensionAfterName(name, ext);
  }

  /** The stem of a bare shader file name is the name before the extension. */
  lemma StemBeforeExtension(file: Path, name: string, ext: string)
    requires file == name + ext
    requires '/' !in name && |name| > 0
    requires IsShaderExtension(ext)
    ensures Stem(file) == name
  {
    PrefixOfAppend(name, ext);
    BareExtension(name, ext);
    StemOfSplit(file, file, ext, name);
  }

  /** The stem of a file is its filename cut before the extension. */
  lemma StemOfSplit(file: Path, fileName: string, extension: string, name: string)
    requires fileName == FileName(file) && extension == Extension(file)
    requires |name| + |extension| == |fileName| && fileName[..|name|] == name
    ensures Stem(file) == name
  {
  }

  /** With the empty parent, the sibling's path starts at the root. */
  lemma EmptyParentSibling(parent: Path, stem: string, ext: string)
    requires parent == ""
    ensures parent + "/" + stem + ext == "/" + stem + ext
  {
  }

  /** What getShaderPaths has built so far: the sets it pushed, and the
      stems it recorded in ignoredShaders. */
  datatype ScanState = ScanState(out: seq<ShaderSet>, ignoredShaders: seq<string>)

  /** A .vert or .frag file whose sibling exists. */
  predicate HasSibling(p: Path, existing: set<Path>)
  {
    IsShaderExtension(Extension(p)) && GetSiblingShaderPath(p) in existing
  }

  /** The set built for a shader file: the file and its sibling, vertex
      shader first. */
  function PairFor(p: Path): ShaderSet
  {
    if Extension(p) == ".vert" then ShaderSet(p, GetSiblingShaderPath(p)) else ShaderSet(GetSiblingShaderPath(p), p)
  }

  /** The body of getShaderPaths' loop for one listed path: a .vert or
      .frag file whose sibling exists and whose stem is not yet recorded
      is paired with its sibling and its stem is recorded. */
  function VisitEntry(state: ScanState, p: Path, existing: set<Path>): (r: ScanState)
    ensures state.out <= r.out && state.ignoredShaders <= r.ignoredShaders
    ensures |r.out| - |state.out| == |r.ignoredShaders| - |state.ignoredShaders| <= 1
    ensures |r.out| > |state.out| <==> HasSibling(p, existing) && Stem(p) !in state.ignoredShaders
  {
    if HasSibling(p, existing) && Stem(p) !in state.ignoredShaders then
      ScanState(state.out + [PairFor(p)], state.ignoredShaders + [Stem(p)])
    else state
  }

  /** getShaderPaths' state after the listed paths `entries`, in order. */
  function ScanShaders(entries: seq<Path>, existing: set<Path>): (r: ScanState)
    ensures |r.out| == |r.ignoredShaders| <= |entries|
  {
    if |entries| == 0 then ScanState([], [])
    else VisitEntry(ScanShaders(entries[..|entries| - 1], existing), entries[|entries| - 1], existing)
  }

  /** getShaderPaths, as the loop that appends to its two vectors. */
  method GetShaderPaths(entries: seq<Path>, existing: set<Path>) returns (out: seq<ShaderSet>)
    ensures out == ScanShaders(entries, existing).out
  {
    out := [];
    var ignoredShaders: seq<string> := [];
    for i := 0 to |entries|
      invariant ScanState(out, ignoredShaders) == ScanShaders(entries[..i], existing)
    {
      var p := entries[i];
      assert entries[..i + 1][..i] == entries[..i];
      ghost var visited := VisitEntry(ScanState(out, ignoredShaders), p, existing);
      var extension, sibling, stem := Extension(p), GetSiblingShaderPath(p), Stem(p);
      if extension == ".vert" && sibling in existing && stem !in ignoredShaders {
        out := out + [ShaderSet(p, sibling)];
        ignoredShaders := ignoredShaders + [stem];
      } else if extension == ".frag" && sibling in existing && stem !in ignoredShaders {
        out := out + [ShaderSet(sibling, p)];
        ignoredShaders := ignoredShaders + [stem];
      }
      assert ScanState(out, ignoredShaders) == visited;
    }
    assert entries[..|entries|] == entries;
  }

  /** The listed files for which a set was pushed, in order. */
  ghost function PushedFiles(entries: seq<Path>, existing: set<Path>): seq<Path>
  {
    if |entries| == 0 then []
    else
      var before := entries[..|entries| - 1];
      var p := entries[|entries| - 1];
      if HasSibling(p, existing) && Stem(p) !in ScanShaders(before, existing).ignoredShaders
      then PushedFiles(before, existing) + [p]
      else PushedFiles(before, existing)
  }

  /** ignoredShaders grows by one exactly when a set is pushed, and no
      stem is recorded twice. */
  lemma {:induction false} ScanShadersStems(entries: seq<Path>, existing: set<Path>)
    ensures |ScanShaders(entries, existing).ignoredShaders| == |ScanShaders(entries, existing).out|
    ensures forall a, b :: 0 <= a < b < |ScanShaders(entries, existing).ignoredShaders| ==>
              ScanShaders(entries, existing).ignoredShaders[a] != ScanShaders(entries, existing).ignoredShaders[b]
  {
    if |entries| > 0 {
      var before := entries[..|entries| - 1];
      var p := entries[|entries| - 1];
      ScanShadersStems(before, existing);
      var prev := ScanShaders(before, existing);
      var next := ScanShaders(entries, existing);
      var stem := Stem(p);
      if HasSibling(p, existing) && stem !in prev.ignoredShaders {
        assert next.ignoredShaders == prev.ignoredShaders + [stem];
        forall a, b | 0 <= a < b < |next.ignoredShaders|
          ensures next.ignoredShaders[a] != next.ignoredShaders[b]
        {
          assert next.ignoredShaders[a] == prev.ignoredShaders[a];
          if b == |prev.ignoredShaders| {
            assert prev.ignoredShaders[a] in prev.ignoredShaders;
          }
        }
      } else {
        assert next == prev;
      }
    }
  }

  /** `files` are listed in `entries`, each has an existing sibling, and
      position k of the state holds the set built for files[k] and its
      stem. */
  predicate SourcesMatch(files: seq<Path>, state: ScanState, entries: seq<Path>, existing: set<Path>)
  {
    |files| == |state.out| && |files| == |state.ignoredShaders| &&
    forall k :: 0 <= k < |files| ==>
      files[k] in entries && HasSibling(files[k], existing) &&
      state.out[k] == PairFor(files[k]) && state.ignoredShaders[k] == Stem(files[k])
  }

  /** Listing one more path keeps the match. */
  lemma SourcesMatchExtend(files: seq<Path>, state: ScanState, before: seq<Path>, p: Path, existing: set<Path>)
    requires SourcesMatch(files, state, before, existing)
    ensures SourcesMatch(files, state, before + [p], existing)
  {
    forall k | 0 <= k < |files|
      ensures files[k] in before + [p]
    {
      assert files[k] in before;
    }
  }

  /** Pushing the set and stem of a listed file with an existing sibling
      keeps the match. */
  lemma SourcesMatchPush(files: seq<Path>, state: ScanState, before: seq<Path>, p: Path, existing: set<Path>)
    requires SourcesMatch(files, state, before, existing) && HasSibling(p, existing)
    ensures SourcesMatch(files + [p], ScanState(state.out + [PairFor(p)], state.ignoredShaders + [Stem(p)]),
                         before + [p], existing)
  {
    var nextFiles, pair, stem := files + [p], PairFor(p), Stem(p);
    var next := ScanState(state.out + [pair], state.ignoredShaders + [stem]);
    forall k | 0 <= k < |nextFiles|
      ensures nextFiles[k] in before + [p] && HasSibling(nextFiles[k], existing) &&
              next.out[k] == PairFor(nextFiles[k]) && next.ignoredShaders[k] == Stem(nextFiles[k])
    {
      if k < |files| {
        assert nextFiles[k] == files[k] && next.out[k] == state.out[k] && next.ignoredShaders[k] == state.ignoredShaders[k];
        assert files[k] in before;
      } else {
        assert nextFiles[k] == p && next.out[k] == pair && next.ignoredShaders[k] == stem;
      }
    }
  }

  /** Each pushed set is the pair of one listed file with an existing
      sibling, and that file's stem is recorded at the same position. */
  lemma {:induction false} ScanShadersSources(entries: seq<Path>, existing: set<Path>)
    ensures SourcesMatch(PushedFiles(entries, existing), ScanShaders(entries, existing), entries, existing)
  {
    if |entries| > 0 {
      var before := entries[..|entries| - 1];
      ScanShadersSources(before, existing);
      SourcesMatchVisit(PushedFiles(before, existing), ScanShaders(before, existing), entries, existing);
    }
  }

  /** Visiting the last listed path keeps the match, with the path added to
      the pushed files exactly when a set is pushed for it. */
  lemma SourcesMatchVisit(files: seq<Path>, state: ScanState, entries: seq<Path>, existing: set<Path>)
    requires |entries| > 0
    requires SourcesMatch(files, state, entries[..|entries| - 1], existing)
    ensures SourcesMatch(if HasSibling(entries[|entries| - 1], existing) && Stem(entries[|entries| - 1]) !in state.ignoredShaders
                         then files + [entries[|entries| - 1]] else files,
                         VisitEntry(state, entries[|entries| - 1], existing), entries, existing)
  {
    var before, p := entries[..|entries| - 1], entries[|entries| - 1];
    assert entries == before + [p];
    if HasSibling(p, existing) && Stem(p) !in state.ignoredShaders {
      SourcesMatchPush(files, state, before, p, existing);
    } else {
      SourcesMatchExtend(files, state, before, p, existing);
    }
  }

  /** An emitted set: a .vert file and a .frag file with the given stem,
      one of them listed and the other its existing sibling. */
  predicate IsShaderPair(pair: ShaderSet, stem: string, entries: seq<Path>, existing: set<Path>)
  {
    Extension(pair.vertexShaderLoc) == ".vert" && Extension(pair.fragmentShaderLoc) == ".frag" &&
    Stem(pair.vertexShaderLoc) == stem && Stem(pair.fragmentShaderLoc) == stem &&
    ((pair.vertexShaderLoc in entries && pair.fragmentShaderLoc == GetSiblingShaderPath(pair.vertexShaderLoc) &&
      pair.fragmentShaderLoc in existing) ||
     (pair.fragmentShaderLoc in entries && pair.vertexShaderLoc == GetSiblingShaderPath(pair.fragmentShaderLoc) &&
      pair.vertexShaderLoc in existing))
  }

  /** The set built for a listed file with an existing sibling is a
      genuine pair with that file's stem. */
  lemma PairForIsShaderPair(p: Path, entries: seq<Path>, existing: set<Path>)
    requires p in entries && HasSibling(p, existing)
    ensures IsShaderPair(PairFor(p), Stem(p), entries, existing)
  {
    var sibling, stem := GetSiblingShaderPath(p), Stem(p);
    SiblingSwapsShaderKind(p);
    if Extension(p) == ".vert" {
      assert PairFor(p) == ShaderSet(p, sibling);
      assert Extension(sibling) == ".frag" && Stem(sibling) == stem;
    } else {
      assert PairFor(p) == ShaderSet(sibling, p);
      assert Extension(sibling) == ".vert" && Stem(sibling) == stem;
    }
  }

  /** Every emitted set is a genuine vertex/fragment pair whose stem is the
      matching entry of ignoredShaders; the two vectors grow together, and
      no stem is recorded twice. */
  lemma ScanShadersPairs(entries: seq<Path>, existing: set<Path>)
    ensures |ScanShaders(entries, existing).out| == |ScanShaders(entries, existing).ignoredShaders|
    ensures forall k :: 0 <= k < |ScanShaders(entries, existing).out| ==>
              IsShaderPair(ScanShaders(entries, existing).out[k], ScanShaders(entries, existing).ignoredShaders[k], entries, existing)
    ensures forall a, b :: 0 <= a < b < |ScanShaders(entries, existing).ignoredShaders| ==>
              ScanShaders(entries, existing).ignoredShaders[a] != ScanShaders(entries, existing).ignoredShaders[b]
  {
    ScanShadersStems(entries, existing);
    ScanShadersSources(entries, existing);
    var files := PushedFiles(entries, existing);
    var state := ScanShaders(entries, existing);
    forall k | 0 <= k < |state.out|
      ensures IsShaderPair(state.out[k], state.ignoredShaders[k], entries, existing)
    {
      PairForIsShaderPair(files[k], entries, existing);
    }
  }

  /** Recorded stems are never dropped: the stems after a prefix of the
      listing begin the stems after the whole of it, and likewise the sets.
      So the output follows the listing's order. */
  lemma {:induction false} ScanShadersPrefix(entries: seq<Path>, n: nat, existing: set<Path>)
    requires n <= |entries|
    ensures ScanShaders(entries[..n], existing).out <= ScanShaders(entries, existing).out
    ensures ScanShaders(entries[..n], existing).ignoredShaders <= ScanShaders(entries, existing).ignoredShaders
    decreases |entries| - n
  {
    if n == |entries| {
      assert entries[..n] == entries;
    } else {
      var shorter := entries[..|entries| - 1];
      assert shorter[..n] == entries[..n];
      ScanShadersPrefix(shorter, n, existing);
    }
  }

  /** A stem is recorded as soon as the first listed .vert or .frag file
      with an existing sibling and that stem is visited; later files with
      the same stem, in any directory, add nothing. */
  lemma ScanShadersComplete(entries: seq<Path>, existing: set<Path>, i: nat)
    requires i < |entries| && HasSibling(entries[i], existing)
    ensures Stem(entries[i]) in ScanShaders(entries, existing).ignoredShaders
  {
    var upTo := entries[..i + 1];
    assert upTo[..i] == entries[..i] && upTo[i] == entries[i] && |upTo| == i + 1;
    var visited := ScanShaders(upTo, existing);
    VisitRecordsStem(ScanShaders(upTo[..i], existing), entries[i], existing);
    ScanShadersPrefix(entries, i + 1, existing);
    InPrefix(Stem(entries[i]), visited.ignoredShaders, ScanShaders(entries, existing).ignoredShaders);
  }

  /** Visiting a shader file with an existing sibling leaves its stem
      recorded, whether or not it was recorded before. */
  lemma VisitRecordsStem(state: ScanState, p: Path, existing: set<Path>)
    requires HasSibling(p, existing)
    ensures Stem(p) in VisitEntry(state, p, existing).ignoredShaders
  {
    if Stem(p) !in state.ignoredShaders {
      assert VisitEntry(state, p, existing).ignoredShaders == state.ignoredShaders + [Stem(p)];
    }
  }

  lemma InPrefix(x: string, prefix: seq<string>, s: seq<string>)
    requires x in prefix && prefix <= s
    ensures x in s
  {
    var k :| 0 <= k < |prefix| && prefix[k] == x;
    assert s[k] == x;
  }

  /** The number of listed .vert and .frag files. */
  function ShaderFileCount(entries: seq<Path>): nat
  {
    if |entries| == 0 then 0
    else ShaderFileCount(entries[..|entries| - 1]) + if IsShaderExtension(Extension(entries[|entries| - 1])) then 1 else 0
  }

  /** At most one set per listed .vert or .frag file. */
  lemma {:induction false} ScanShadersBound(entries: seq<Path>, existing: set<Path>)
    ensures |ScanShaders(entries, existing).out| <= ShaderFileCount(entries)
  {
    if |entries| > 0 {
      ScanShadersBound(entries[..|entries| - 1], existing);
    }
  }

  /** `ShaderSet((first, second))` as the source spells it: the inner
      parentheses make one comma expression whose value is `second`, and
      parenthesised aggregate initialisation (C++20) puts it in the first
      field and leaves the second empty. */
  function ShaderSetAsWritten(first: string, second: string): (r: ShaderSet)
    ensures r.vertexShaderLoc == second && r.fragmentShaderLoc == ""
  {
    ShaderSet(second, "")
  }

  /** As written, the set built for `dir/name.vert` holds the fragment
      shader's path where the vertex shader belongs and nothing as the
      fragment shader, and the set built from `dir/name.frag` holds that
      path as its vertex shader: neither is the pair the fields name. */
  lemma ShaderSetAsWrittenMisnamesPaths(dir: Path, name: string)
    requires |dir| > 0 && dir[|dir| - 1] != '/'
    requires '/' !in name && |name| > 0
    ensures var vert := dir + "/" + name + ".vert";
            ShaderSetAsWritten(vert, GetSiblingShaderPath(vert)) == ShaderSet(dir + "/" + name + ".frag", "") &&
            ShaderSetAsWritten(vert, GetSiblingShaderPath(vert)) != ShaderSet(vert, GetSiblingShaderPath(vert))
    ensures var frag := dir + "/" + name + ".frag";
            ShaderSetAsWritten(GetSiblingShaderPath(frag), frag) == ShaderSet(frag, "") &&
            ShaderSetAsWritten(GetSiblingShaderPath(frag), frag) != ShaderSet(GetSiblingShaderPath(frag), frag)
  {
    assert "vert" == ".vert"[1..] && "frag" == ".frag"[1..];
    SiblingOfPath(dir, name, ".vert");
    SiblingOfPath(dir, name, ".frag");
  }
}
