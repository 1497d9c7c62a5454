// The development build script's path logic: the extension test that picks
// how a source file is processed, the output-path rewrite for templates and
// stylesheets, the directory prefixes made before a file is written, and
// the template substitution that fills the page skeleton with a page's
// stylesheet, script and content sections.

module BuildScript {

  import opened JsString

  datatype Option<T> = None | Some(value: T)

  /** A JavaScript argument: a string, or anything else. */
  datatype Value = Str(s: string) | NotString

  /** `getExtension(str)`: '' for a non-string and for a string without a
      '.', otherwise the suffix from the last '.' on. */
  function GetExtension(v: Value): (ext: string)
    ensures v.NotString? ==> ext == ""
    ensures v.Str? && '.' !in v.s ==> ext == ""
    ensures v.Str? && '.' in v.s ==>
              |ext| >= 1 && ext[0] == '.' && '.' !in ext[1..] && EndsWith(v.s, ext)
  {
    if v.NotString? then ""
    else
      var idx := LastIndexOf(v.s, '.');
      if idx >= 0 then v.s[idx..] else ""
  }

  predicate EndsWith(s: string, suffix: string)
  {
    |suffix| <= |s| && s[|s| - |suffix|..] == suffix
  }

  /** `outPath.replace(/\.ext$/, repl)`: the suffix is swapped only when
      the path ends with it. */
  function ReplaceSuffix(path: string, suffix: string, repl: string): (r: string)
    ensures EndsWith(path, suffix) ==> r == path[..|path| - |suffix|] + repl
    ensures !EndsWith(path, suffix) ==> r == path
  {
    if EndsWith(path, suffix) then path[..|path| - |suffix|] + repl else path
  }

  /** The output path `processFile` writes for input `path`: a template
      becomes '.html', a stylesheet '.css', anything else keeps the path. */
  function OutPath(path: string, outPath: string): string
  {
    var ext := GetExtension(Str(path));
    if ext == ".tmpl" then ReplaceSuffix(outPath, ".tmpl", ".html")
    else if ext == ".less" then ReplaceSuffix(outPath, ".less", ".css")
    else outPath
  }

  const SrcRoot: string := "../src/"
  const DistRoot: string := "../dist/"

  /** A path whose last '.' starts a five-character suffix ends with that
      suffix as its extension. */
  lemma ExtensionOfSuffix(s: string, suffix: string)
    requires |suffix| >= 1 && suffix[0] == '.' && '.' !in suffix[1..] && EndsWith(s, suffix)
    ensures GetExtension(Str(s)) == suffix
  {
    var k := |s| - |suffix|;
    assert s[k..] == suffix;
    assert s[k + 1..] == suffix[1..];
    LastIndexOfAt(s, '.', k);
  }

  /** Under the build's own layout (every input under `../src/`, its
      output at the same relative path under `../dist/`) a '.tmpl' file is
      written as '.html', a '.less' file as '.css', and every other file to
      its own relative path. */
  lemma OutPathOfSource(p: string)
    ensures EndsWith(p, ".tmpl") ==>
              OutPath(SrcRoot + p, DistRoot + p) == DistRoot + p[..|p| - 5] + ".html"
    ensures EndsWith(p, ".less") ==>
              OutPath(SrcRoot + p, DistRoot + p) == DistRoot + p[..|p| - 5] + ".css"
    ensures !EndsWith(p, ".tmpl") && !EndsWith(p, ".less") ==>
              OutPath(SrcRoot + p, DistRoot + p) == DistRoot + p
  {
    if EndsWith(p, ".tmpl") {
      RenamedOut(p, ".tmpl");
    } else if EndsWith(p, ".less") {
      RenamedOut(p, ".less");
    } else {
      var ext := GetExtension(Str(SrcRoot + p));
      if ext == ".tmpl" || ext == ".less" {
        SourceSuffix(p, ext);
        assert false;
      }
    }
  }

  /** A source path ending in a five-character extension has that
      extension, and its output path ends in the same one. */
  lemma RenamedOut(p: string, ext: string)
    requires EndsWith(p, ext) && |ext| == 5 && ext[0] == '.' && '.' !in ext[1..]
    ensures GetExtension(Str(SrcRoot + p)) == ext
    ensures EndsWith(DistRoot + p, ext)
    ensures (DistRoot + p)[..|DistRoot + p| - 5] == DistRoot + p[..|p| - 5]
  {
    var src := SrcRoot + p;
    var out := DistRoot + p;
    assert src[|src| - 5..] == p[|p| - 5..];
    ExtensionOfSuffix(src, ext);
    assert out[|out| - 5..] == p[|p| - 5..];
  }

  /** A five-character extension of a source path is also a suffix of
      its relative part: the root contributes no '.' that could start one. */
  lemma SourceSuffix(p: string, ext: string)
    requires GetExtension(Str(SrcRoot + p)) == ext && |ext| == 5
    ensures EndsWith(p, ext)
  {
    var src := SrcRoot + p;
    assert '.' in src by {
      assert src[0] == '.';
    }
    if |p| < 5 {
      assert false;
    }
    assert src[|src| - 5..] == p[|p| - 5..];
  }

  // ---------------------------------------------------------------------
  // `ensureDirectoryForFile`

  /** The directories above a file: its '/'-separated components without
      the last. */
  function Dirs(path: string): (dirs: seq<string>)
    ensures |dirs| == |Split(path, '/')| - 1
    ensures dirs == Split(path, '/')[..|dirs|]
  {
    var parts := Split(path, '/');
    parts[..|parts| - 1]
  }

  /** `dirs.slice(0, i + 1).join('/')`. */
  function Prefix(dirs: seq<string>, i: nat): string
    requires i < |dirs|
  {
    Join(dirs[..i + 1], '/')
  }

  lemma {:induction false} JoinAppend(xs: seq<string>, ys: seq<string>, sep: char)
    requires |xs| >= 1 && |ys| >= 1
    ensures Join(xs + ys, sep) == Join(xs, sep) + [sep] + Join(ys, sep)
    decreases |xs|
  {
    if |xs| == 1 {
      assert (xs + ys)[1..] == ys;
    } else {
      JoinAppend(xs[1..], ys, sep);
      assert (xs + ys)[1..] == xs[1..] + ys;
    }
  }

  /** The prefixes grow one component at a time, shortest first, and each
      is followed in the path by a '/': every directory visited lies on the
      way to the file. */
  lemma PrefixesOfPath(path: string, i: nat)
    requires i < |Dirs(path)|
    ensures i + 1 < |Dirs(path)| ==>
              Prefix(Dirs(path), i + 1) == Prefix(Dirs(path), i) + "/" + Dirs(path)[i + 1]
    ensures |Prefix(Dirs(path), i)| < |path| && path[..|Prefix(Dirs(path), i)| + 1] == Prefix(Dirs(path), i) + "/"
  {
    var parts := Split(path, '/');
    var dirs := Dirs(path);
    if i + 1 < |dirs| {
      assert dirs[..i + 2] == dirs[..i + 1] + [dirs[i + 1]];
      JoinAppend(dirs[..i + 1], [dirs[i + 1]], '/');
    }
    JoinSplit(path, '/');
    assert parts == parts[..i + 1] + parts[i + 1..];
    assert parts[..i + 1] == dirs[..i + 1];
    JoinAppend(parts[..i + 1], parts[i + 1..], '/');
    var pre := Prefix(dirs, i);
    assert path == pre + "/" + Join(parts[i + 1..], '/');
    assert path[..|pre| + 1] == pre + "/";
  }

  datatype Kind = Directory | File

  /** The directory tree as a map from path to what is there. */
  class FileSystem {
    var entries: map<string, Kind>

    constructor (entries: map<string, Kind>)
      ensures this.entries == entries
    {
      this.entries := entries;
    }
  }

  /** `ensureDirectoryForFile(path)`: `lstat`s each prefix in turn, making
      a missing one a directory and throwing ('Not Directory') at the first
      that is a file. `visited` lists the prefixes looked at. */
  method EnsureDirectoryForFile(fs: FileSystem, path: string) returns (visited: seq<string>, failed: bool)
    modifies fs
    ensures var dirs := Dirs(path);
            |visited| <= |dirs| && (forall i :: 0 <= i < |visited| ==> visited[i] == Prefix(dirs, i))
    ensures !failed ==>
              |visited| == |Dirs(path)| &&
              forall d :: d in visited ==> d in fs.entries && fs.entries[d] == Directory
    ensures failed <==> exists d :: d in visited && d in old(fs.entries) && old(fs.entries)[d] == File
    ensures failed ==>
              |visited| >= 1 && visited[|visited| - 1] in old(fs.entries) &&
              old(fs.entries)[visited[|visited| - 1]] == File
    ensures forall d :: d in fs.entries <==> d in old(fs.entries) || d in visited
    ensures forall d :: d in old(fs.entries) ==> fs.entries[d] == old(fs.entries)[d]
  {
    var dirs := Split(path, '/');
    dirs := dirs[..|dirs| - 1];
    visited := [];
    failed := false;
    var i := 0;
    while i < |dirs|
      invariant 0 <= i <= |dirs| && dirs == Dirs(path)
      invariant |visited| == i && forall k :: 0 <= k < i ==> visited[k] == Prefix(dirs, k)
      invariant forall d :: d in visited ==> d in fs.entries && fs.entries[d] == Directory
      invariant forall d :: d in visited ==> !(d in old(fs.entries) && old(fs.entries)[d] == File)
      invariant forall d :: d in fs.entries <==> d in old(fs.entries) || d in visited
      invariant forall d :: d in old(fs.entries) ==> fs.entries[d] == old(fs.entries)[d]
    {
      var dir := Join(dirs[..i + 1], '/');
      visited := visited + [dir];
      if dir in fs.entries {
        if fs.entries[dir] != Directory {
          failed := true;
          return;
        }
      } else {
        fs.entries := fs.entries[dir := Directory];
      }
      i := i + 1;
    }
  }

  // ---------------------------------------------------------------------
  // `processTmplFile`

  /** `t` occurs in `s` at `i`. */
  predicate IsAt(s: string, t: string, i: int)
  {
    0 <= i && i + |t| <= |s| && s[i..i + |t|] == t
  }

  /** The first occurrence of `t` in `s` at or after `i`, or -1. */
  function FindFrom(s: string, t: string, i: nat): (r: int)
    ensures r == -1 || (i <= r && IsAt(s, t, r))
    ensures forall k :: i <= k && (r == -1 || k < r) ==> !IsAt(s, t, k)
    decreases |s| - i
  {
    if i + |t| > |s| then -1
    else if s[i..i + |t|] == t then i
    else FindFrom(s, t, i + 1)
  }

  /** The last occurrence of `t` in `s` at or after `lo`, or -1. */
  function FindLast(s: string, t: string, lo: nat): (r: int)
    ensures r == -1 || (lo <= r && IsAt(s, t, r))
    ensures forall k :: lo <= k && k > r ==> !IsAt(s, t, k)
  {
    FindLastBelow(s, t, lo, |s| + 1)
  }

  function FindLastBelow(s: string, t: string, lo: nat, hi: nat): (r: int)
    ensures r == -1 || (lo <= r < hi && IsAt(s, t, r))
    ensures forall k :: lo <= k < hi && k > r ==> !IsAt(s, t, k)
    ensures forall k :: k >= |s| + 1 ==> !IsAt(s, t, k)
    decreases hi
  {
    if hi <= lo then -1
    else if IsAt(s, t, hi - 1) then hi - 1
    else FindLastBelow(s, t, lo, hi - 1)
  }

  /** `contents.match(/<start>(.*)<end>/s)[1]`: the text between the first
      start marker and the last end marker after it, or None when there is
      no such pair. */
  function Capture(contents: string, start: string, end: string): (r: Option<string>)
    ensures r.Some? <==> FindFrom(contents, start, 0) >= 0 &&
                          FindLast(contents, end, FindFrom(contents, start, 0) + |start|) >= 0
    ensures r.Some? ==>
              var i := FindFrom(contents, start, 0) + |start|;
              var j := FindLast(contents, end, i);
              r.value == contents[i..j] && IsAt(contents, start, i - |start|) && IsAt(contents, end, j)
  {
    var i := FindFrom(contents, start, 0);
    if i < 0 then None
    else
      var j := FindLast(contents, end, i + |start|);
      if j < 0 then None else Some(contents[i + |start|..j])
  }

  /** The captured section, or '' when its markers are missing. */
  function Section(contents: string, start: string, end: string): string
  {
    var m := Capture(contents, start, end);
    if m.Some? then m.value else ""
  }

  /** A placeholder replaced by text as it is: the first occurrence only,
      nothing when there is none. */
  function ReplaceFirst(s: string, placeholder: string, text: string): (r: string)
    ensures FindFrom(s, placeholder, 0) < 0 ==> r == s
    ensures FindFrom(s, placeholder, 0) >= 0 ==>
              var k := FindFrom(s, placeholder, 0);
              r == s[..k] + text + s[k + |placeholder|..]
  {
    var k := FindFrom(s, placeholder, 0);
    if k < 0 then s else s[..k] + text + s[k + |placeholder|..]
  }

  /** The replacement text `String.prototype.replace` inserts for a string
      pattern: '$$' stands for '$', '$&' for the matched text, '$`' for the
      text before the match and "$'" for the text after it; any other '$'
      is kept. */
  function Expand(text: string, matched: string, before: string, after: string): string
    decreases |text|
  {
    if |text| == 0 then ""
    else if text[0] == '$' && |text| >= 2 && text[1] in "$&`'" then
      var sub := if text[1] == '$' then "$" else if text[1] == '&' then matched
                 else if text[1] == '`' then before else after;
      sub + Expand(text[2..], matched, before, after)
    else [text[0]] + Expand(text[1..], matched, before, after)
  }

  /** Text without a '$' is inserted as it is. */
  lemma {:induction false} ExpandPlain(text: string, matched: string, before: string, after: string)
    requires '$' !in text
    ensures Expand(text, matched, before, after) == text
    decreases |text|
  {
    if |text| > 0 {
      assert '$' !in text[1..] by {
        assert forall c :: c in text[1..] ==> c in text;
      }
      ExpandPlain(text[1..], matched, before, after);
    }
  }

  /** `s.replace(placeholder, text)` as written: the captured section goes
      through the replacement patterns. */
  function ReplaceAsWritten(s: string, placeholder: string, text: string): string
  {
    var k := FindFrom(s, placeholder, 0);
    if k < 0 then s
    else s[..k] + Expand(text, placeholder, s[..k], s[k + |placeholder|..]) + s[k + |placeholder|..]
  }

  /** A section without '$' is inserted the same either way. */
  lemma ReplaceAsWrittenPlain(s: string, placeholder: string, text: string)
    requires '$' !in text
    ensures ReplaceAsWritten(s, placeholder, text) == ReplaceFirst(s, placeholder, text)
  {
    var k := FindFrom(s, placeholder, 0);
    if k >= 0 {
      var before := s[..k];
      var after := s[k + |placeholder|..];
      ExpandPlain(text, placeholder, before, after);
      assert ReplaceAsWritten(s, placeholder, text) == before + Expand(text, placeholder, before, after) + after;
    }
  }

  /** A script section holding '$$' loses a '$' on its way into the page
      as written. */
  lemma DollarsCollapse()
    ensures ReplaceAsWritten("<!--SCRIPTS-HERE-->", "<!--SCRIPTS-HERE-->", "a$$b") == "a$b"
    ensures ReplaceFirst("<!--SCRIPTS-HERE-->", "<!--SCRIPTS-HERE-->", "a$$b") == "a$$b"
  {
    var ph := "<!--SCRIPTS-HERE-->";
    assert FindFrom(ph, ph, 0) == 0;
    assert Expand("b", ph, "", "") == "b";
    assert Expand("$$b", ph, "", "") == "$" + Expand("b", ph, "", "");
    assert Expand("a$$b", ph, "", "") == "a" + Expand("$$b", ph, "", "");
  }

  /** `processTmplFile`'s page: the skeleton with its stylesheet, script and
      content placeholders each replaced by the page's matching section
      (markers missing: ''), inserted as they are. */
  function Substitute(template: string, contents: string): string
  {
    var withStyles := ReplaceFirst(template, "<!--STYLESHEETS-HERE-->",
                                   Section(contents, "<!--STYLESHEETS-START-->", "<!--STYLESHEETS-END-->"));
    var withScripts := ReplaceFirst(withStyles, "<!--SCRIPTS-HERE-->",
                                    Section(contents, "<!--SCRIPTS-START-->", "<!--SCRIPTS-END-->"));
    ReplaceFirst(withScripts, "<!--CONTENT-HERE-->",
                 Section(contents, "<!--CONTENT-START-->", "<!--CONTENT-END-->"))
  }

  /** The page as written, every section going through the replacement
      patterns. */
  function SubstituteAsWritten(template: string, contents: string): string
  {
    var withStyles := ReplaceAsWritten(template, "<!--STYLESHEETS-HERE-->",
                                       Section(contents, "<!--STYLESHEETS-START-->", "<!--STYLESHEETS-END-->"));
    var withScripts := ReplaceAsWritten(withStyles, "<!--SCRIPTS-HERE-->",
                                        Section(contents, "<!--SCRIPTS-START-->", "<!--SCRIPTS-END-->"));
    ReplaceAsWritten(withScripts, "<!--CONTENT-HERE-->",
                     Section(contents, "<!--CONTENT-START-->", "<!--CONTENT-END-->"))
  }

  /** For a page none of whose sections holds a '$', the page as written is
      the intended one. */
  lemma SubstitutePlain(template: string, contents: string)
    requires '$' !in Section(contents, "<!--STYLESHEETS-START-->", "<!--STYLESHEETS-END-->")
    requires '$' !in Section(contents, "<!--SCRIPTS-START-->", "<!--SCRIPTS-END-->")
    requires '$' !in Section(contents, "<!--CONTENT-START-->", "<!--CONTENT-END-->")
    ensures SubstituteAsWritten(template, contents) == Substitute(template, contents)
  {
    var styles := Section(contents, "<!--STYLESHEETS-START-->", "<!--STYLESHEETS-END-->");
    var scripts := Section(contents, "<!--SCRIPTS-START-->", "<!--SCRIPTS-END-->");
    var content := Section(contents, "<!--CONTENT-START-->", "<!--CONTENT-END-->");
    ReplaceAsWrittenPlain(template, "<!--STYLESHEETS-HERE-->", styles);
    var s1 := ReplaceFirst(template, "<!--STYLESHEETS-HERE-->", styles);
    ReplaceAsWrittenPlain(s1, "<!--SCRIPTS-HERE-->", scripts);
    var s2 := ReplaceFirst(s1, "<!--SCRIPTS-HERE-->", scripts);
    ReplaceAsWrittenPlain(s2, "<!--CONTENT-HERE-->", content);
  }

  /** A page with no markers gets every placeholder emptied. */
  lemma NoMarkersEmpty(contents: string, start: string, end: string)
    requires FindFrom(contents, start, 0) < 0
    ensures Section(contents, start, end) == ""
  {
  }
}
