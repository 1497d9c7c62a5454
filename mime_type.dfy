// The development server's MIME lookup: a file name's extension (as
// Node's `path.extname` finds it, without its dot) looked up in a table of
// seven types, 'application/octet-stream' otherwise.

module MimeType {

  import opened JsString

  /** A JavaScript argument: a string, or anything else. */
  datatype Value = Str(s: string) | NotString

  const OctetStream: string := "application/octet-stream"

  /** `MIME_TYPES`. */
  const Table: map<string, string> := map[
    "html" := "text/html",
    "css" := "text/css",
    "js" := "text/javascript",
    "json" := "application/json",
    "png" := "image/png",
    "jpg" := "image/jpeg",
    "jpeg" := "image/jpeg"
  ]

  /** The path without its trailing '/'s. */
  function TrimSlashes(s: string): (r: string)
    ensures |r| <= |s| && r == s[..|r|]
    ensures r == "" || r[|r| - 1] != '/'
  {
    if |s| > 0 && s[|s| - 1] == '/' then TrimSlashes(s[..|s| - 1]) else s
  }

  /** The last path component, trailing '/'s ignored. */
  function Base(s: string): string
  {
    var t := TrimSlashes(s);
    t[LastIndexOf(t, '/') + 1..]
  }

  /** `path.extname(s)` for '/'-separated paths: from the last '.' of the
      last component to its end; '' when the component has no '.', when
      its only '.' leads it (a hidden file) or when it is '..'. */
  function Extname(s: string): (ext: string)
    ensures ext == "" || ext[0] == '.'
  {
    var base := Base(s);
    var idx := LastIndexOf(base, '.');
    if idx <= 0 || base == ".." then "" else base[idx..]
  }

  /** `str.substring(1)`: '' stays ''. */
  function DropFirst(s: string): string
  {
    if |s| == 0 then "" else s[1..]
  }

  /** The table lookup with its default: `ext ? MIME_TYPES[ext] : ''`,
      and 'application/octet-stream' when that is falsy. */
  function Lookup(ext: string): (r: string)
    ensures r != ""
    ensures ext in Table ==> r == Table[ext]
    ensures ext !in Table ==> r == OctetStream
  {
    if ext != "" && ext in Table && Table[ext] != "" then Table[ext] else OctetStream
  }

  /** The MIME type served for a file name: the table's entry for its
      extension, 'application/octet-stream' for a non-string, a name without
      an extension or an extension not in the table (compared exactly, so
      case matters). */
  function MimeType(filename: Value): (r: string)
    ensures r != ""
    ensures filename.NotString? ==> r == OctetStream
    ensures filename.Str? && DropFirst(Extname(filename.s)) in Table ==>
              r == Table[DropFirst(Extname(filename.s))]
    ensures filename.Str? && DropFirst(Extname(filename.s)) !in Table ==> r == OctetStream
  {
    if filename.NotString? then OctetStream
    else Lookup(DropFirst(Extname(filename.s)))
  }

  /** Both spellings of the JPEG extension give 'image/jpeg', each listed
      extension gives its own entry, and the comparison is exact: an
      upper-case extension is not found. */
  lemma TableEntries()
    ensures Lookup("jpg") == Lookup("jpeg") == "image/jpeg"
    ensures Lookup("html") == "text/html" && Lookup("css") == "text/css"
    ensures Lookup("js") == "text/javascript" && Lookup("json") == "application/json"
    ensures Lookup("png") == "image/png"
    ensures Lookup("HTML") == OctetStream && Lookup("") == OctetStream
  {
  }

  /** A plain file name `name.ext` is served by its extension. */
  lemma NamedLookup(name: string, ext: string)
    requires name != "" && '.' !in name && '/' !in name
    requires ext != "" && '.' !in ext && '/' !in ext
    ensures MimeType(Str(name + "." + ext)) == Lookup(ext)
  {
    NamedFile(name, ext);
  }

  /** A name without '.' has no extension. */
  lemma NoDotNoExtension(s: string)
    requires '.' !in s
    ensures Extname(s) == "" && MimeType(Str(s)) == OctetStream
  {
    var t := TrimSlashes(s);
    var base := Base(s);
    assert '.' !in base by {
      forall c | c in base
        ensures c in s
      {
        var i :| 0 <= i < |base| && base[i] == c;
        assert base[i] == t[LastIndexOf(t, '/') + 1 + i];
        assert t[LastIndexOf(t, '/') + 1 + i] == s[LastIndexOf(t, '/') + 1 + i];
      }
    }
  }

  /** A plain file name `name.ext` (name not empty, neither part holding '.'
      or '/') has extension `.ext`. */
  lemma NamedFile(name: string, ext: string)
    requires name != "" && '.' !in name && '/' !in name
    requires ext != "" && '.' !in ext && '/' !in ext
    ensures Extname(name + "." + ext) == "." + ext
    ensures DropFirst(Extname(name + "." + ext)) == ext
  {
    var s := name + "." + ext;
    assert s[|s| - 1] == ext[|ext| - 1];
    assert TrimSlashes(s) == s;
    assert '/' !in s by {
      forall i | 0 <= i < |s|
        ensures s[i] != '/'
      {
        if i < |name| {
          assert s[i] == name[i];
        } else if i > |name| {
          assert s[i] == ext[i - |name| - 1];
        }
      }
    }
    assert Base(s) == s;
    var k := |name|;
    assert s[k] == '.';
    assert s[k + 1..] == ext;
    LastIndexOfAt(s, '.', k);
    assert s[k..] == "." + ext;
  }

  // ---------------------------------------------------------------------
  // The lookup as written reads the table as a plain object, so an
  // extension naming a member every object inherits finds that member.

  /** Members every plain object inherits from `Object.prototype`. */
  const Inherited: set<string> := {
    "constructor", "__proto__", "toString", "toLocaleString", "valueOf",
    "hasOwnProperty", "isPrototypeOf", "propertyIsEnumerable",
    "__defineGetter__", "__defineSetter__", "__lookupGetter__", "__lookupSetter__"
  }

  /** What the lookup returns as written: a type name, or an inherited
      function or object (every one of them truthy). */
  datatype Served = Text(s: string) | Builtin(name: string)

  /** `MIME_TYPES[ext]` as written, with its default. */
  function LookupAsWritten(ext: string): Served
  {
    if ext != "" && ext in Table && Table[ext] != "" then Text(Table[ext])
    else if ext != "" && ext in Inherited then Builtin(ext)
    else Text(OctetStream)
  }

  function MimeTypeAsWritten(filename: Value): Served
  {
    if filename.NotString? then Text(OctetStream)
    else LookupAsWritten(DropFirst(Extname(filename.s)))
  }

  /** A file named 'x.constructor' is served with `Object` itself as its
      type, where octet-stream is meant. */
  lemma InheritedKeyServed()
    ensures MimeTypeAsWritten(Str("x" + "." + "constructor")) == Builtin("constructor")
    ensures MimeType(Str("x" + "." + "constructor")) == OctetStream
  {
    NamedFile("x", "constructor");
    assert "constructor" !in Table;
  }

  /** Outside the inherited names the lookup as written serves what the
      own-keys lookup does. */
  lemma AsWrittenAgrees(filename: Value)
    requires filename.Str? ==> DropFirst(Extname(filename.s)) !in Inherited
    ensures MimeTypeAsWritten(filename) == Text(MimeType(filename))
  {
  }
}
