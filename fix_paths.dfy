/** scripts/fix-paths.js, run after a static export: it collects every
    `.html` file under `out/`, works out for each one the relative prefix
    that leads back to `out/`, rewrites the absolute references to `/_next/`
    and `/logo.jpg` with that prefix, and writes a file back only when its
    content changed. Paths are sequences of segments; the file system is the
    tree the collection walks and the list of contents the rewrite reads. */
module FixPaths {
  import opened Wrappers
  import opened Text

  type Path = seq<string>

  /** A directory entry as `readdirSync` and `statSync` report it. */
  datatype Entry = File(name: string) | Dir(name: string, children: seq<Entry>)

  /** The collection order of `findHtmlFiles`: the entries of a directory in
      listing order, a directory's own files in place of the directory, and
      a file only when its name ends in `.html`. */
  function HtmlFiles(dir: Path, entries: seq<Entry>): (r: seq<Path>)
    decreases entries
  {
    if entries == [] then []
    else HtmlFiles(dir, entries[..|entries| - 1]) + EntryFiles(dir, entries[|entries| - 1])
  }

  function EntryFiles(dir: Path, e: Entry): (r: seq<Path>)
    decreases e, 0
  {
    match e
    case File(name) => if EndsWith(name, ".html") then [dir + [name]] else []
    case Dir(name, children) => HtmlFiles(dir + [name], children)
  }

  /** `rel` leads from a directory with these entries to a file in it or
      below it. */
  predicate HasFile(entries: seq<Entry>, rel: Path)
    decreases entries
  {
    exists i :: 0 <= i < |entries| && EntryHasFile(entries[i], rel)
  }

  predicate EntryHasFile(e: Entry, rel: Path)
    decreases e, 0
  {
    match e
    case File(name) => rel == [name]
    case Dir(name, children) => |rel| >= 2 && rel[0] == name && HasFile(children, rel[1..])
  }

  /** The collected paths are exactly the paths of files in the tree whose
      names end in `.html`. */
  lemma {:induction false} HtmlFilesExact(dir: Path, entries: seq<Entry>, p: Path)
    ensures p in HtmlFiles(dir, entries) <==>
      (|dir| < |p| && p[..|dir|] == dir && HasFile(entries, p[|dir|..]) && EndsWith(p[|p| - 1], ".html"))
    decreases entries
  {
    if entries != [] {
      var init, last := entries[..|entries| - 1], entries[|entries| - 1];
      HtmlFilesExact(dir, init, p);
      EntryFilesExact(dir, last, p);
      if |dir| < |p| && p[..|dir|] == dir {
        var rel := p[|dir|..];
        assert HasFile(entries, rel) <==> HasFile(init, rel) || EntryHasFile(last, rel) by {
          if HasFile(entries, rel) {
            var i :| 0 <= i < |entries| && EntryHasFile(entries[i], rel);
            if i < |init| {
              assert init[i] == entries[i];
            }
          }
          if HasFile(init, rel) {
            var i :| 0 <= i < |init| && EntryHasFile(init[i], rel);
            assert entries[i] == init[i];
          }
        }
      }
    }
  }

  lemma {:induction false} EntryFilesExact(dir: Path, e: Entry, p: Path)
    ensures p in EntryFiles(dir, e) <==>
      (|dir| < |p| && p[..|dir|] == dir && EntryHasFile(e, p[|dir|..]) && EndsWith(p[|p| - 1], ".html"))
    decreases e, 0
  {
    match e
    case File(name) =>
      if |dir| < |p| && p[..|dir|] == dir && p[|dir|..] == [name] {
        assert p == dir + [name];
      }
    case Dir(name, children) =>
      var sub := dir + [name];
      HtmlFilesExact(sub, children, p);
      if |dir| < |p| && p[..|dir|] == dir {
        var rel := p[|dir|..];
        if |p| > |sub| && p[..|sub|] == sub {
          assert rel[0] == name && rel[1..] == p[|sub|..];
        }
        if |rel| >= 2 && rel[0] == name {
          assert p[..|sub|] == sub;
          assert rel[1..] == p[|sub|..];
        }
      }
  }

  /** The list `findHtmlFiles` pushes onto. */
  class FileList {
    var paths: seq<Path>

    constructor ()
      ensures paths == []
    {
      paths := [];
    }

    /** `findHtmlFiles(dir, fileList)`: appends the `.html` files of the
        tree in collection order. */
    method FindHtmlFiles(dir: Path, entries: seq<Entry>)
      modifies this
      ensures paths == old(paths) + HtmlFiles(dir, entries)
      decreases entries
    {
      var i := 0;
      while i < |entries|
        invariant 0 <= i <= |entries|
        invariant paths == old(paths) + HtmlFiles(dir, entries[..i])
      {
        assert entries[..i + 1][..i] == entries[..i];
        match entries[i] {
          case Dir(name, children) =>
            FindHtmlFiles(dir + [name], children);
          case File(name) =>
            if EndsWith(name, ".html") {
              paths := paths + [dir + [name]];
            }
        }
        i := i + 1;
      }
      assert entries[..i] == entries;
    }
  }

  /** The directory part of a file path. */
  function DirName(p: Path): (r: Path)
    ensures |r| == if p == [] then 0 else |p| - 1
    ensures r == p[..|r|]
  {
    if p == [] then [] else p[..|p| - 1]
  }

  /** Length of the longest common start of two paths. */
  function CommonLength(a: Path, b: Path): (k: nat)
    ensures k <= |a| && k <= |b| && a[..k] == b[..k]
    ensures k < |a| && k < |b| ==> a[k] != b[k]
  {
    if a == [] || b == [] || a[0] != b[0] then 0
    else
      var k := CommonLength(a[1..], b[1..]);
      assert a[..k + 1] == [a[0]] + a[1..][..k];
      assert b[..k + 1] == [b[0]] + b[1..][..k];
      k + 1
  }

  function Ups(n: nat): (r: Path)
    ensures |r| == n && forall i :: 0 <= i < n ==> r[i] == ".."
  {
    if n == 0 then [] else [".."] + Ups(n - 1)
  }

  /** `path.relative(from, to)`: up out of `from` to the common part, then
      down into the rest of `to`. */
  function Relative(from: Path, to: Path): (r: Path)
    ensures from == to ==> r == []
  {
    var k := CommonLength(from, to);
    Ups(|from| - k) + to[k..]
  }

  /** `split(path.sep).filter(p => p === '..').length`. */
  function UpCount(rel: Path): (n: nat)
    ensures n <= |rel|
    ensures (forall i :: 0 <= i < |rel| ==> rel[i] == "..") ==> n == |rel|
    ensures (forall i :: 0 <= i < |rel| ==> rel[i] != "..") ==> n == 0
  {
    if rel == [] then 0
    else (if rel[0] == ".." then 1 else 0) + UpCount(rel[1..])
  }

  /** `replace(/\\/g, '/')`. */
  function Slashes(s: string): (r: string)
    ensures |r| == |s| && '\\' !in r
    ensures forall i :: 0 <= i < |s| ==> r[i] == if s[i] == '\\' then '/' else s[i]
  {
    seq(|s|, i requires 0 <= i < |s| => if s[i] == '\\' then '/' else s[i])
  }

  /** The prefix for a file in directory `fileDir`: `./` in `out/` itself,
      otherwise `../` once per `..` step of the way back to `out/`. */
  function PathPrefix(fileDir: Path, outDir: Path): (r: string)
    ensures '\\' !in r
  {
    var prefix :=
      if fileDir == outDir then "./"
      else
        var rel := Relative(fileDir, outDir);
        var depth := if rel == [] then 0 else UpCount(rel);
        if depth == 0 then "./" else Repeat("../", depth);
    Slashes(prefix)
  }

  /** A file directly in `out/` gets `./`. */
  lemma PrefixAtRoot(outDir: Path)
    ensures PathPrefix(outDir, outDir) == "./"
  {
    SlashesFree("./");
  }

  /** A file `d > 0` directories below `out/` gets `../` repeated `d`
      times. */
  lemma PrefixBelow(outDir: Path, dirs: Path)
    requires dirs != []
    ensures PathPrefix(outDir + dirs, outDir) == Repeat("../", |dirs|)
  {
    var rel := Relative(outDir + dirs, outDir);
    RelativeToAncestor(outDir, dirs);
    UpCountUps(|dirs|);
    assert |outDir + dirs| != |outDir|;
    assert rel != [] && UpCount(rel) == |dirs|;
    SlashesFree(Repeat("../", |dirs|));
  }

  lemma UpCountUps(n: nat)
    ensures UpCount(Ups(n)) == n
  {
  }

  /** From `d` directories below `outDir` the way back is `d` steps up. */
  lemma RelativeToAncestor(outDir: Path, dirs: Path)
    ensures Relative(outDir + dirs, outDir) == Ups(|dirs|)
  {
    var from := outDir + dirs;
    assert from[..|outDir|] == outDir;
    assert CommonLength(from, outDir) == |outDir|;
    assert outDir[|outDir|..] == [];
  }

  lemma SlashesFree(s: string)
    requires '\\' !in s
    ensures Slashes(s) == s
  {
  }

  /** `s.startsWith(pat)` at position `i`. */
  predicate MatchAt(s: string, i: nat, pat: string) {
    i <= |s| && StartsWith(s[i..], pat)
  }

  /** `String.prototype.replace` with a global literal pattern: occurrences
      are found left to right, do not overlap, and each becomes `rep`. */
  function ReplaceAll(s: string, pat: string, rep: string): (r: string)
    requires pat != []
    decreases |s|
  {
    if |s| < |pat| then s
    else if StartsWith(s, pat) then rep + ReplaceAll(s[|pat|..], pat, rep)
    else [s[0]] + ReplaceAll(s[1..], pat, rep)
  }

  /** Text without an occurrence is left alone. */
  lemma {:induction false} ReplaceAllFree(s: string, pat: string, rep: string)
    requires pat != []
    requires forall i :: 0 <= i <= |s| ==> !MatchAt(s, i, pat)
    ensures ReplaceAll(s, pat, rep) == s
    decreases |s|
  {
    if |s| >= |pat| {
      assert !MatchAt(s, 0, pat);
      forall i | 0 <= i <= |s[1..]|
        ensures !MatchAt(s[1..], i, pat)
      {
        assert s[1..][i..] == s[i + 1..];
        assert !MatchAt(s, i + 1, pat);
      }
      ReplaceAllFree(s[1..], pat, rep);
    }
  }

  /** The first occurrence becomes `rep`, what precedes it is kept, and the
      rest is rewritten on its own. */
  lemma {:induction false} ReplaceAllFirst(a: string, pat: string, b: string, rep: string)
    requires pat != []
    requires forall i :: 0 <= i < |a| ==> !MatchAt(a + pat + b, i, pat)
    ensures ReplaceAll(a + pat + b, pat, rep) == a + rep + ReplaceAll(b, pat, rep)
    decreases |a|
  {
    var s := a + pat + b;
    if a == [] {
      assert s == pat + b;
      assert s[..|pat|] == pat;
      assert s[|pat|..] == b;
    } else {
      assert !MatchAt(s, 0, pat);
      assert s[1..] == a[1..] + pat + b;
      forall i | 0 <= i < |a[1..]|
        ensures !MatchAt(a[1..] + pat + b, i, pat)
      {
        assert s[1..][i..] == s[i + 1..];
        assert !MatchAt(s, i + 1, pat);
      }
      ReplaceAllFirst(a[1..], pat, b, rep);
      assert [s[0]] + (a[1..] + rep + ReplaceAll(b, pat, rep)) == a + rep + ReplaceAll(b, pat, rep);
    }
  }

  /** The guarded rewrite `([^:])"<pat>` → `$1"<rep>`: an occurrence of `"`
      and `pat` counts only when a character other than `:` stands right
      before it, and that character is kept. */
  predicate GuardAt(s: string, i: nat, pat: string) {
    i < |s| && s[i] != ':' && MatchAt(s, i + 1, "\"" + pat)
  }

  function GuardedReplace(s: string, pat: string, rep: string): (r: string)
    decreases |s|
  {
    if s == [] then s
    else if GuardAt(s, 0, pat) then [s[0]] + "\"" + rep + GuardedReplace(s[2 + |pat|..], pat, rep)
    else [s[0]] + GuardedReplace(s[1..], pat, rep)
  }

  /** Text in which every occurrence stands at position 0 or after `:` is
      left alone. */
  lemma {:induction false} GuardedFree(s: string, pat: string, rep: string)
    requires forall i :: 0 <= i < |s| ==> !GuardAt(s, i, pat)
    ensures GuardedReplace(s, pat, rep) == s
    decreases |s|
  {
    if s != [] {
      assert !GuardAt(s, 0, pat);
      forall i | 0 <= i < |s[1..]|
        ensures !GuardAt(s[1..], i, pat)
      {
        assert s[1..][i..] == s[i + 1..];
        assert s[1..][i + 1..] == s[i + 2..];
        assert !GuardAt(s, i + 1, pat);
      }
      GuardedFree(s[1..], pat, rep);
      assert [s[0]] + s[1..] == s;
    }
  }

  /** The first guarded occurrence keeps its leading character and gets
      `rep`; what precedes it is kept. */
  lemma GuardedFirst(a: string, c: char, pat: string, b: string, rep: string)
    requires c != ':'
    requires forall i :: 0 <= i < |a| ==> !GuardAt(a + [c] + "\"" + pat + b, i, pat)
    ensures GuardedReplace(a + [c] + "\"" + pat + b, pat, rep) == a + [c] + "\"" + rep + GuardedReplace(b, pat, rep)
  {
    var t := [c] + "\"" + pat + b;
    assert a + [c] + "\"" + pat + b == a + t;
    GuardedSkip(a, t, pat, rep);
    GuardedHead(c, pat, b, rep);
    assert a + ([c] + "\"" + rep + GuardedReplace(b, pat, rep)) == a + [c] + "\"" + rep + GuardedReplace(b, pat, rep);
  }

  /** A guarded occurrence right at the start is rewritten. */
  lemma GuardedHead(c: char, pat: string, b: string, rep: string)
    requires c != ':'
    ensures GuardedReplace([c] + "\"" + pat + b, pat, rep) == [c] + "\"" + rep + GuardedReplace(b, pat, rep)
  {
    var q := "\"" + pat;
    var s := [c] + q + b;
    assert s == [c] + "\"" + pat + b;
    assert s[1..][..|q|] == q;
    assert GuardAt(s, 0, pat);
    assert s[2 + |pat|..] == b;
  }

  /** A start `a` in which no guarded occurrence begins is copied as it is. */
  lemma {:induction false} GuardedSkip(a: string, t: string, pat: string, rep: string)
    requires forall i :: 0 <= i < |a| ==> !GuardAt(a + t, i, pat)
    ensures GuardedReplace(a + t, pat, rep) == a + GuardedReplace(t, pat, rep)
    decreases |a|
  {
    if a == [] {
      assert a + t == t;
    } else {
      var s := a + t;
      assert s[0] == a[0] && !GuardAt(s, 0, pat);
      assert s[1..] == a[1..] + t;
      forall i | 0 <= i < |a[1..]|
        ensures !GuardAt(a[1..] + t, i, pat)
      {
        assert s[1..][i..] == s[i + 1..];
        assert s[1..][i + 1..] == s[i + 2..];
        assert !GuardAt(s, i + 1, pat);
      }
      GuardedSkip(a[1..], t, pat, rep);
      assert [a[0]] + (a[1..] + GuardedReplace(t, pat, rep)) == a + GuardedReplace(t, pat, rep);
    }
  }

  /** The six rewrites of a file's content, in order. */
  function FixContent(content: string, prefix: string): (r: string) {
    var c1 := ReplaceAll(content, "href=\"/_next/", "href=\"" + prefix + "_next/");
    var c2 := ReplaceAll(c1, "src=\"/_next/", "src=\"" + prefix + "_next/");
    var c3 := ReplaceAll(c2, "href=\"/logo.jpg", "href=\"" + prefix + "logo.jpg");
    var c4 := ReplaceAll(c3, "src=\"/logo.jpg", "src=\"" + prefix + "logo.jpg");
    var c5 := GuardedReplace(c4, "/_next/", prefix + "_next/");
    GuardedReplace(c5, "/logo.jpg", prefix + "logo.jpg")
  }

  /** Content without a `/_next/` or `/logo.jpg` reference anywhere is left
      alone. */
  lemma FixContentFree(content: string, prefix: string)
    requires !Contains(content, "/_next/") && !Contains(content, "/logo.jpg")
    ensures FixContent(content, prefix) == content
  {
    assert "href=\"" + "/_next/" == "href=\"/_next/" && "src=\"" + "/_next/" == "src=\"/_next/";
    assert "href=\"" + "/logo.jpg" == "href=\"/logo.jpg" && "src=\"" + "/logo.jpg" == "src=\"/logo.jpg";
    NoAttribute(content, "href=\"", "/_next/", "href=\"" + prefix + "_next/");
    NoAttribute(content, "src=\"", "/_next/", "src=\"" + prefix + "_next/");
    NoAttribute(content, "href=\"", "/logo.jpg", "href=\"" + prefix + "logo.jpg");
    NoAttribute(content, "src=\"", "/logo.jpg", "src=\"" + prefix + "logo.jpg");
    NoGuarded(content, "/_next/", prefix + "_next/");
    NoGuarded(content, "/logo.jpg", prefix + "logo.jpg");
  }

  /** An occurrence of `attr + path` holds an occurrence of `path`. */
  lemma MatchContains(s: string, i: nat, attr: string, path: string)
    ensures MatchAt(s, i, attr + path) ==> Contains(s, path)
  {
    if MatchAt(s, i, attr + path) {
      assert s[i..][..|attr + path|][|attr|..] == path;
      assert s[i + |attr|..][..|path|] == path;
    }
  }

  lemma NoAttribute(s: string, attr: string, path: string, rep: string)
    requires path != [] && !Contains(s, path)
    ensures ReplaceAll(s, attr + path, rep) == s
  {
    forall i | 0 <= i <= |s|
      ensures !MatchAt(s, i, attr + path)
    {
      MatchContains(s, i, attr, path);
    }
    ReplaceAllFree(s, attr + path, rep);
  }

  lemma NoGuarded(s: string, path: string, rep: string)
    requires !Contains(s, path)
    ensures GuardedReplace(s, path, rep) == s
  {
    forall i | 0 <= i < |s|
      ensures !GuardAt(s, i, path)
    {
      MatchContains(s, i + 1, "\"", path);
    }
    GuardedFree(s, path, rep);
  }

  /** One iteration of the loop in `fixPaths`: the prefix for the file's
      directory, the rewritten content, and the content to write back, which
      is `None` when the rewrite changed nothing. */
  method FixFile(filePath: Path, content: string, outDir: Path) returns (write: Option<string>)
    ensures write.Some? <==> FixContent(content, PathPrefix(DirName(filePath), outDir)) != content
    ensures write.Some? ==> write.value == FixContent(content, PathPrefix(DirName(filePath), outDir))
  {
    var fileDir := DirName(filePath);
    var pathPrefix := "./";
    if fileDir != outDir {
      var relativePath := Relative(fileDir, outDir);
      var depth := if relativePath == [] then 0 else UpCount(relativePath);
      if depth == 0 {
        pathPrefix := "./";
      } else {
        pathPrefix := Repeat("../", depth);
      }
    }
    pathPrefix := Slashes(pathPrefix);
    var fixed := content;
    fixed := ReplaceAll(fixed, "href=\"/_next/", "href=\"" + pathPrefix + "_next/");
    fixed := ReplaceAll(fixed, "src=\"/_next/", "src=\"" + pathPrefix + "_next/");
    fixed := ReplaceAll(fixed, "href=\"/logo.jpg", "href=\"" + pathPrefix + "logo.jpg");
    fixed := ReplaceAll(fixed, "src=\"/logo.jpg", "src=\"" + pathPrefix + "logo.jpg");
    fixed := GuardedReplace(fixed, "/_next/", pathPrefix + "_next/");
    fixed := GuardedReplace(fixed, "/logo.jpg", pathPrefix + "logo.jpg");
    if fixed != content {
      write := Some(fixed);
    } else {
      write := None;
    }
  }

  /** The write for one file: its path and rewritten content when the
      rewrite changed it, nothing otherwise. */
  function Rewrite(outDir: Path, f: (Path, string)): (ws: seq<(Path, string)>)
    ensures |ws| <= 1
  {
    var fixed := FixContent(f.1, PathPrefix(DirName(f.0), outDir));
    if fixed != f.1 then [(f.0, fixed)] else []
  }

  /** The writes of the loop in `fixPaths` over the collected files and
      their contents, in order. */
  function Writes(outDir: Path, files: seq<(Path, string)>): (ws: seq<(Path, string)>)
    ensures |ws| <= |files|
  {
    Collect(files, f => Rewrite(outDir, f))
  }

  /** The writes `each` makes for every file in turn, one after the other. */
  function Collect(files: seq<(Path, string)>, each: ((Path, string)) -> seq<(Path, string)>): (ws: seq<(Path, string)>)
    requires forall f :: |each(f)| <= 1
    ensures |ws| <= |files|
  {
    if files == [] then []
    else Collect(files[..|files| - 1], each) + each(files[|files| - 1])
  }

  lemma {:induction false} CollectExact(files: seq<(Path, string)>, each: ((Path, string)) -> seq<(Path, string)>, w: (Path, string))
    requires forall f :: |each(f)| <= 1
    ensures w in Collect(files, each) <==> exists k :: 0 <= k < |files| && w in each(files[k])
  {
    if files != [] {
      var init := files[..|files| - 1];
      CollectExact(init, each, w);
      assert forall k :: 0 <= k < |init| ==> init[k] == files[k];
    }
  }

  /** Taking one more file appends that file's writes. */
  lemma CollectStep(files: seq<(Path, string)>, i: nat, each: ((Path, string)) -> seq<(Path, string)>)
    requires i < |files| && forall f :: |each(f)| <= 1
    ensures Collect(files[..i + 1], each) == Collect(files[..i], each) + each(files[i])
  {
    assert files[..i + 1][..i] == files[..i];
  }

  /** A write is made for a file exactly when its rewrite changes it, and
      carries the file's path and the rewritten content. */
  lemma WritesExact(outDir: Path, files: seq<(Path, string)>, w: (Path, string))
    ensures w in Writes(outDir, files) <==> exists k :: 0 <= k < |files| && w in Rewrite(outDir, files[k])
  {
    CollectExact(files, f => Rewrite(outDir, f), w);
  }

  lemma RewriteExact(outDir: Path, f: (Path, string), w: (Path, string))
    ensures w in Rewrite(outDir, f) <==>
      w == (f.0, FixContent(f.1, PathPrefix(DirName(f.0), outDir))) && w.1 != f.1
  {
  }

  lemma RewriteOfFix(outDir: Path, f: (Path, string), write: Option<string>)
    requires write.Some? <==> FixContent(f.1, PathPrefix(DirName(f.0), outDir)) != f.1
    requires write.Some? ==> write.value == FixContent(f.1, PathPrefix(DirName(f.0), outDir))
    ensures Rewrite(outDir, f) == if write.Some? then [(f.0, write.value)] else []
  {
  }

  /** The loop of `fixPaths`. */
  method FixAll(outDir: Path, files: seq<(Path, string)>) returns (writes: seq<(Path, string)>)
    ensures writes == Writes(outDir, files)
  {
    writes := [];
    var i := 0;
    while i < |files|
      invariant 0 <= i <= |files|
      invariant writes == Collect(files[..i], f => Rewrite(outDir, f))
    {
      var write := FixFile(files[i].0, files[i].1, outDir);
      RewriteOfFix(outDir, files[i], write);
      CollectStep(files, i, f => Rewrite(outDir, f));
      if write.Some? {
        writes := writes + [(files[i].0, write.value)];
      }
      i := i + 1;
    }
    assert files[..i] == files;
  }
}
