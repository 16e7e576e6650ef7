/** The part of std::filesystem::path (POSIX form, '/' as the only
    separator) that the shader helper uses: filename, parent_path,
    extension and stem, on paths held as strings. */
module Paths {
  type Path = string

  /** The index of the last occurrence of c in s, or -1. */
  function LastIndexOf(s: string, c: char): (r: int)
    ensures -1 <= r < |s|
    ensures r >= 0 ==> s[r] == c
    ensures forall k :: r < k < |s| ==> s[k] != c
  {
    if |s| == 0 then -1
    else if s[|s| - 1] == c then |s| - 1
    else LastIndexOf(s[..|s| - 1], c)
  }

  /** Where the filename begins: just after the last separator. */
  function FileNameStart(p: Path): (r: nat)
    ensures r <= |p|
    ensures r > 0 ==> p[r - 1] == '/'
    ensures forall k :: r <= k < |p| ==> p[k] != '/'
  {
    LastIndexOf(p, '/') + 1
  }

  /** path::filename(): the last element; empty when p ends in a separator. */
  function FileName(p: Path): (r: Path)
  {
    p[FileNameStart(p)..]
  }

  /** s without its trailing separators. */
  function TrimTrailingSeparators(s: string): (r: string)
  {
    if |s| > 0 && s[|s| - 1] == '/' then TrimTrailingSeparators(s[..|s| - 1]) else s
  }

  /** path::parent_path(): what precedes the filename, without trailing
      separators; the root "/" stays "/", and a bare name has the empty
      parent. */
  function ParentPath(p: Path): (r: Path)
  {
    var directory := p[..FileNameStart(p)];
    var trimmed := TrimTrailingSeparators(directory);
    if |trimmed| == 0 && |directory| > 0 then "/" else trimmed
  }

  /** The extension of a filename: from its last '.' on; empty when it has
      no '.', when its only '.' is its first character, and for "." and "..". */
  function FileNameExtension(name: string): (r: string)
    ensures |r| <= |name|
  {
    if name == "." || name == ".." then ""
    else
      var dot := LastIndexOf(name, '.');
      if dot <= 0 then "" else name[dot..]
  }

  /** path::extension() */
  function Extension(p: Path): (r: string)
    ensures |r| <= |FileName(p)|
  {
    FileNameExtension(FileName(p))
  }

  /** path::stem(): the filename without its extension. */
  function Stem(p: Path): (r: string)
  {
    var name := FileName(p);
    name[..|name| - |Extension(p)|]
  }

  /** filename() holds no separator and is a suffix of the path. */
  lemma FileNameFacts(p: Path)
    ensures '/' !in FileName(p)
    ensures |FileName(p)| <= |p| && FileName(p) == p[|p| - |FileName(p)|..]
  {
    var start := FileNameStart(p);
    forall k | 0 <= k < |FileName(p)|
      ensures FileName(p)[k] != '/'
    {
      assert FileName(p)[k] == p[start + k];
    }
  }

  /** Trimming leaves a prefix that does not end in a separator, and
      removes only separators. */
  lemma {:induction false} TrimTrailingSeparatorsFacts(s: string)
    ensures |TrimTrailingSeparators(s)| <= |s| && TrimTrailingSeparators(s) == s[..|TrimTrailingSeparators(s)|]
    ensures |TrimTrailingSeparators(s)| > 0 ==> TrimTrailingSeparators(s)[|TrimTrailingSeparators(s)| - 1] != '/'
    ensures forall k :: |TrimTrailingSeparators(s)| <= k < |s| ==> s[k] == '/'
  {
    if |s| > 0 && s[|s| - 1] == '/' {
      var shorter := s[..|s| - 1];
      TrimTrailingSeparatorsFacts(shorter);
      var r := TrimTrailingSeparators(shorter);
      assert TrimTrailingSeparators(s) == r;
      assert s[..|r|] == shorter[..|r|];
      forall k | |r| <= k < |s|
        ensures s[k] == '/'
      {
        if k < |s| - 1 {
          assert s[k] == shorter[k];
        }
      }
    }
  }

  /** parent_path() is empty exactly for a bare name, and otherwise is "/"
      or does not end in a separator. */
  lemma ParentPathFacts(p: Path)
    ensures FileNameStart(p) == 0 ==> ParentPath(p) == ""
    ensures FileNameStart(p) > 0 ==> |ParentPath(p)| > 0
    ensures ParentPath(p) != "/" && |ParentPath(p)| > 0 ==> ParentPath(p)[|ParentPath(p)| - 1] != '/'
  {
    TrimTrailingSeparatorsFacts(p[..FileNameStart(p)]);
  }

  /** A filename's extension is a suffix of it that starts with its last
      '.', and that '.' is not the filename's first character. */
  lemma FileNameExtensionFacts(name: string)
    ensures FileNameExtension(name) == name[|name| - |FileNameExtension(name)|..]
    ensures |FileNameExtension(name)| > 0 ==>
              FileNameExtension(name)[0] == '.' && |FileNameExtension(name)| < |name| &&
              '.' !in FileNameExtension(name)[1..]
  {
    var r := FileNameExtension(name);
    if |r| > 0 {
      var dot := LastIndexOf(name, '.');
      assert r == name[dot..];
      forall k | 0 <= k < |r[1..]|
        ensures r[1..][k] != '.'
      {
        assert r[1..][k] == name[dot + 1 + k];
      }
    }
  }

  /** extension() is a suffix of filename() that starts with '.' and holds
      no other '.'. */
  lemma ExtensionFacts(p: Path)
    ensures Extension(p) == FileName(p)[|FileName(p)| - |Extension(p)|..]
    ensures |Extension(p)| > 0 ==>
              Extension(p)[0] == '.' && |Extension(p)| < |FileName(p)| && '.' !in Extension(p)[1..]
  {
    FileNameExtensionFacts(FileName(p));
  }

  /** stem() followed by extension() is filename(), the stem holds no
      separator, and a path with an extension has a non-empty stem. */
  lemma StemFacts(p: Path)
    ensures '/' !in Stem(p)
    ensures Stem(p) + Extension(p) == FileName(p)
    ensures |Extension(p)| > 0 ==> |Stem(p)| > 0
  {
    var name, ext, stem := FileName(p), Extension(p), Stem(p);
    ExtensionFacts(p);
    var cut := |name| - |ext|;
    assert stem == name[..cut] && ext == name[cut..];
    SplitAt(name, cut);
    StemHasNoSeparator(p);
  }

  /** A string is its prefix followed by the rest. */
  lemma PrefixOfAppend(a: string, b: string)
    ensures (a + b)[..|a|] == a
  {
  }

  lemma SplitAt(s: string, cut: nat)
    requires cut <= |s|
    ensures s == s[..cut] + s[cut..]
  {
  }

  /** The stem is a prefix of the filename, so it holds no separator. */
  lemma StemHasNoSeparator(p: Path)
    ensures '/' !in Stem(p)
  {
    var name, stem := FileName(p), Stem(p);
    FileNameFacts(p);
    forall k | 0 <= k < |stem|
      ensures stem[k] != '/'
    {
      assert stem[k] == name[k];
    }
  }

  /** An extension as path::extension() reports it: empty, or a '.'
      followed by characters that are neither '.' nor a separator. */
  predicate IsExtension(ext: string)
  {
    ext == "" || (ext[0] == '.' && '.' !in ext[1..] && '/' !in ext[1..])
  }

  /** The filename of `dir + "/" + file` is `file` when it holds no
      separator, and what precedes it is `dir + "/"`. */
  lemma FileNameAfterSeparator(dir: Path, file: string)
    requires '/' !in file
    ensures FileNameStart(dir + "/" + file) == |dir| + 1
    ensures FileName(dir + "/" + file) == file
    ensures (dir + "/" + file)[..FileNameStart(dir + "/" + file)] == dir + "/"
  {
    var p := dir + "/" + file;
    assert p[|dir|] == '/';
    forall k | |dir| < k < |p|
      ensures p[k] != '/'
    {
      assert p[k] == file[k - |dir| - 1];
    }
  }

  /** A name followed by an extension that the name does not swallow has
      that extension. */
  lemma ExtensionAfterName(name: string, ext: string)
    requires |name| > 0
    requires IsExtension(ext)
    requires ext == "" ==> '.' !in name
    requires name + ext != ".."
    ensures FileNameExtension(name + ext) == ext
  {
    var file := name + ext;
    if ext == "" {
      assert file == name;
    } else {
      assert file[|name|] == '.';
      forall k | |name| < k < |file|
        ensures file[k] != '.'
      {
        assert file[k] == ext[1..][k - |name| - 1];
      }
      assert LastIndexOf(file, '.') == |name|;
      assert file[|name|..] == ext;
      assert file != ".";
    }
  }

  /** A name with no separator followed by an extension has none. */
  lemma NoSeparatorInFileName(name: string, ext: string)
    requires '/' !in name
    requires IsExtension(ext)
    ensures '/' !in name + ext
  {
    var file := name + ext;
    forall k | 0 <= k < |file|
      ensures file[k] != '/'
    {
      if k >= |name| {
        assert file[k] == ext[k - |name|];
        assert k - |name| == 0 || ext[k - |name|] == ext[1..][k - |name| - 1];
      }
    }
  }

  /** The three parts of `dir + "/" + name + ext`, for a name with no
      separator and an extension that the name does not swallow. */
  lemma PathParts(dir: Path, name: string, ext: string)
    requires '/' !in name && |name| > 0
    requires IsExtension(ext)
    requires ext == "" ==> '.' !in name
    requires name + ext != ".."
    ensures FileName(dir + "/" + name + ext) == name + ext
    ensures Extension(dir + "/" + name + ext) == ext
    ensures Stem(dir + "/" + name + ext) == name
    ensures ParentPath(dir + "/" + name + ext) ==
              if |TrimTrailingSeparators(dir)| == 0 then "/" else TrimTrailingSeparators(dir)
  {
    var file := name + ext;
    var p := dir + "/" + name + ext;
    AppendAssociates(dir + "/", name, ext);
    NoSeparatorInFileName(name, ext);
    FileNameAfterSeparator(dir, file);
    ExtensionAfterName(name, ext);
    var fileName, extension := FileName(p), Extension(p);
    assert fileName == file;
    assert extension == FileNameExtension(file) == ext;
    var stem := Stem(p);
    assert stem == file[..|name|] == name;
    var directory := p[..FileNameStart(p)];
    assert directory == dir + "/";
    assert directory[..|directory| - 1] == dir;
    assert TrimTrailingSeparators(directory) == TrimTrailingSeparators(dir);
  }

  /** Concatenation associates. */
  lemma AppendAssociates(a: string, b: string, c: string)
    ensures a + b + c == a + (b + c)
  {
  }

  /** A non-empty parent path is what PathParts reports as the parent of
      a file placed in it. */
  lemma ParentOfParent(parent: Path)
    requires parent != "/" && |parent| > 0 ==> parent[|parent| - 1] != '/'
    ensures parent != "" ==> (if |TrimTrailingSeparators(parent)| == 0 then "/" else TrimTrailingSeparators(parent)) == parent
  {
    if parent == "/" {
      assert TrimTrailingSeparators(parent) == TrimTrailingSeparators("");
    }
  }

  /** A path with no separator is a bare filename with the empty parent. */
  lemma BareFileName(file: Path)
    requires '/' !in file
    ensures FileName(file) == file
    ensures ParentPath(file) == ""
  {
    assert FileNameStart(file) == 0;
  }
}
