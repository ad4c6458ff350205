/** backend/routes/upload.js: the multer file filter (extension and MIME
    type), the stored file name, and the reply of POST /upload. Writing the
    file to disk, the 10 MB limit and the clock are outside the model; the
    timestamp and the request origin are parameters. */
module Upload {
  import opened Base
  import opened Text

  // --------------------------------------------------------- path.extname

  /** Position of the last `c` in `s`, or -1 when there is none. */
  function LastIndexOf(s: string, c: char): (r: int)
    ensures -1 <= r < |s|
    ensures r >= 0 ==> s[r] == c
    ensures forall k :: r < k < |s| ==> s[k] != c
  {
    if s == [] then -1
    else if s[|s| - 1] == c then |s| - 1
    else LastIndexOf(s[..|s| - 1], c)
  }

  /** The last `c` is the one at `i` when none follows it. */
  lemma LastIndexOfIs(s: string, c: char, i: int)
    requires -1 <= i < |s|
    requires i >= 0 ==> s[i] == c
    requires forall k :: i < k < |s| ==> s[k] != c
    ensures LastIndexOf(s, c) == i
  {
  }

  /** The path without its trailing slashes. */
  function TrimSlashes(p: string): (r: string)
    ensures |r| <= |p| && r == p[..|r|]
    ensures r == [] || r[|r| - 1] != '/'
    ensures forall k :: |r| <= k < |p| ==> p[k] == '/'
  {
    if p != [] && p[|p| - 1] == '/' then TrimSlashes(p[..|p| - 1]) else p
  }

  /** The last component of a POSIX path (Node's `path.basename`). */
  function BaseName(p: string): (r: string)
    ensures forall k :: 0 <= k < |r| ==> r[k] != '/'
  {
    var t := TrimSlashes(p);
    t[LastIndexOf(t, '/') + 1..]
  }

  /** Node's `path.extname` on a POSIX path: from the last dot of the base
      name to its end; empty when the base name has no dot, starts with its
      only dot (`.bashrc`), or is `..`. */
  function ExtName(p: string): (r: string)
    ensures r == [] || (r[0] == '.' && forall k :: 1 <= k < |r| ==> r[k] != '.')
    ensures forall k :: 0 <= k < |r| ==> r[k] != '/'
    ensures |r| <= |BaseName(p)| && r == BaseName(p)[|BaseName(p)| - |r|..]
  {
    ExtOfBase(BaseName(p))
  }

  /** The extension of a base name. */
  function ExtOfBase(b: string): (r: string)
    ensures r == [] || (r[0] == '.' && forall k :: 1 <= k < |r| ==> r[k] != '.')
    ensures |r| <= |b| && r == b[|b| - |r|..]
  {
    var d := LastIndexOf(b, '.');
    if d <= 0 || b == ".." then "" else b[d..]
  }

  /** A path with no slash is its own base name. */
  lemma BaseNameOfPlain(p: string)
    requires forall k :: 0 <= k < |p| ==> p[k] != '/'
    ensures BaseName(p) == p
  {
    if p != [] {
      assert p[|p| - 1] != '/';
    }
    assert TrimSlashes(p) == p;
    LastIndexOfIs(p, '/', -1);
  }

  /** A slash-free name whose last dot is at `d > 0` and which is not `..`
      has the extension that starts at `d`. */
  lemma ExtNameAt(p: string, d: int)
    requires forall k :: 0 <= k < |p| ==> p[k] != '/'
    requires 0 < d < |p| && p[d] == '.' && forall k :: d < k < |p| ==> p[k] != '.'
    requires p != ".."
    ensures ExtName(p) == p[d..]
  {
    BaseNameOfPlain(p);
    LastIndexOfIs(p, '.', d);
    assert ExtOfBase(p) == p[d..];
  }

  /** A slash-free name without a dot has no extension. */
  lemma ExtNameNone(p: string)
    requires forall k :: 0 <= k < |p| ==> p[k] != '/' && p[k] != '.'
    ensures ExtName(p) == ""
  {
    BaseNameOfPlain(p);
    LastIndexOfIs(p, '.', -1);
    assert ExtOfBase(p) == "";
  }

  /** Only the last dot counts: whatever dots the stem holds, the extension
      is the last dot and what follows it (`a.tar.gz` gives `.gz`, `..gz`
      gives `.gz`). The one exception is `..`, which has none. */
  lemma LastDotCounts(stem: string, ext: string)
    requires stem != [] && (stem == "." ==> ext != ".")
    requires forall k :: 0 <= k < |stem| ==> stem[k] != '/'
    requires ext != [] && ext[0] == '.'
    requires forall k :: 1 <= k < |ext| ==> ext[k] != '/' && ext[k] != '.'
    ensures ExtName(stem + ext) == ext
  {
    var n := stem + ext;
    forall k | 0 <= k < |n|
      ensures n[k] != '/' && (k > |stem| ==> n[k] != '.')
    {
      if k >= |stem| {
        assert n[k] == ext[k - |stem|];
      } else {
        assert n[k] == stem[k];
      }
    }
    assert n != ".." by {
      if |n| == 2 {
        assert stem == n[..1];
      }
    }
    ExtNameAt(n, |stem|);
    assert n[|stem|..] == ext;
  }

  /** A leading dot alone does not start an extension (`.bashrc`). */
  lemma DotFileHasNoExtension(name: string)
    requires forall k :: 0 <= k < |name| ==> name[k] != '/'
    requires name != [] && name[0] == '.' && forall k :: 0 < k < |name| ==> name[k] != '.'
    ensures ExtName(name) == ""
  {
    BaseNameOfPlain(name);
    LastIndexOfIs(name, '.', 0);
    assert ExtOfBase(name) == "";
  }

  /** Directory components and a trailing slash are ignored: only the last
      component counts. */
  lemma DirectoryPartIgnored(dir: string, name: string)
    requires name != [] && forall k :: 0 <= k < |name| ==> name[k] != '/'
    ensures ExtName(dir + "/" + name + "/") == ExtName(name)
  {
    var t := dir + "/" + name;
    var p := t + "/";
    assert p[..|p| - 1] == t;
    assert t[|t| - 1] == name[|name| - 1];
    assert TrimSlashes(t) == t;
    assert TrimSlashes(p) == t;
    forall k | |dir| < k < |t|
      ensures t[k] != '/'
    {
      assert t[k] == name[k - |dir| - 1];
    }
    LastIndexOfIs(t, '/', |dir|);
    assert t[|dir| + 1..] == name;
    assert BaseName(p) == name;
    BaseNameOfPlain(name);
  }

  // ------------------------------------------------------------- fileFilter

  /** The alternatives of `/jpeg|jpg|png|pdf|doc|docx|xlsx|xls/`. */
  const ExtensionWords := ["jpeg", "jpg", "png", "pdf", "doc", "docx", "xlsx", "xls"]

  /** The unanchored regular expression tested on the lower-cased extension;
      a name without an extension never passes. */
  predicate ExtensionAllowed(originalName: string): (b: bool)
    ensures b ==> ExtName(originalName) != ""
  {
    var s := Lower(ExtName(originalName));
    assert s == [] ==> !ContainsAny(s, ExtensionWords) by {
      if s == [] {
        forall w | w in ExtensionWords
          ensures !Contains(s, w)
        {
          NothingInEmpty(w);
        }
      }
    }
    ContainsAny(s, ExtensionWords)
  }

  /** `docx` and `xlsx` add nothing: whatever contains them contains `doc`
      or `xls`. */
  lemma LongAlternativesRedundant(s: string)
    ensures ContainsAny(s, ExtensionWords) <==> ContainsAny(s, ["jpeg", "jpg", "png", "pdf", "doc", "xls"])
  {
    var short := ["jpeg", "jpg", "png", "pdf", "doc", "xls"];
    if ContainsAny(s, ExtensionWords) {
      var w :| w in ExtensionWords && Contains(s, w);
      if w == "docx" {
        assert "doc" + "x" == "docx";
        ContainsPrefixOf(s, "doc", "x");
        assert "doc" in short;
      } else if w == "xlsx" {
        assert "xls" + "x" == "xlsx";
        ContainsPrefixOf(s, "xls", "x");
        assert "xls" in short;
      } else {
        assert w in short;
      }
    }
    if ContainsAny(s, short) {
      var w :| w in short && Contains(s, w);
      assert w in ExtensionWords;
    }
  }

  /** The expression is not anchored: any extension that starts with `pdf`
      passes, `.pdfx` included. */
  lemma UnanchoredExtension(stem: string, tail: string)
    requires stem != [] && stem != "." && forall k :: 0 <= k < |stem| ==> stem[k] != '/'
    requires forall k :: 0 <= k < |tail| ==> tail[k] != '/' && tail[k] != '.'
    ensures ExtensionAllowed(stem + (".pdf" + tail))
  {
    var ext := ".pdf" + tail;
    forall k | 1 <= k < |ext|
      ensures ext[k] != '/' && ext[k] != '.'
    {
      if k >= 4 {
        assert ext[k] == tail[k - 4];
      }
    }
    LastDotCounts(stem, ext);
    PdfExtensionAllowed(tail);
  }

  lemma PdfExtensionAllowed(tail: string)
    ensures ContainsAny(Lower(".pdf" + tail), ExtensionWords)
  {
    var e := ".pdf" + tail;
    var low := Lower(e);
    assert e[1] == 'p' && e[2] == 'd' && e[3] == 'f';
    assert low[1] == 'p' && low[2] == 'd' && low[3] == 'f';
    assert low[1..4] == "pdf";
    assert OccursAt(low, "pdf", 1);
    assert "pdf" in ExtensionWords;
  }

  /** The test ignores letter case: `.JPG` passes. */
  lemma UpperCaseExtension(stem: string)
    requires stem != [] && stem != "." && forall k :: 0 <= k < |stem| ==> stem[k] != '/'
    ensures ExtensionAllowed(stem + ".JPG")
  {
    LastDotCounts(stem, ".JPG");
    JpgLowered();
  }

  lemma JpgLowered()
    ensures ContainsAny(Lower(".JPG"), ExtensionWords)
  {
    var low := Lower(".JPG");
    assert low[1] == 'j' && low[2] == 'p' && low[3] == 'g';
    assert low[1..4] == "jpg";
    assert OccursAt(low, "jpg", 1);
    assert "jpg" in ExtensionWords;
  }

  const Application := "application/"
  const WordType := Application + "vnd.openxmlformats-officedocument.wordprocessingml.document"
  const ExcelType := Application + "vnd.openxmlformats-officedocument.spreadsheetml.sheet"

  /** The MIME test: any image, PDF, the two Word and the two Excel types, or a
      generic binary stream. */
  predicate MimeAllowed(mime: string): (b: bool)
    ensures b ==> StartsWith(mime, "image/") || StartsWith(mime, Application)
  {
    var app := Application;
    assert "application/pdf"[..|app|] == app && "application/msword"[..|app|] == app;
    assert WordType[..|app|] == app && ExcelType[..|app|] == app;
    assert "application/vnd.ms-excel"[..|app|] == app && "application/octet-stream"[..|app|] == app;
    || StartsWith(mime, "image/")
    || mime == "application/pdf"
    || mime == "application/msword" || mime == WordType
    || mime == "application/vnd.ms-excel" || mime == ExcelType
    || mime == "application/octet-stream"
  }

  /** What multer knows of an incoming file part. */
  datatype FileInfo = FileInfo(fieldName: string, originalName: string, mimeType: string)

  const RejectPrefix := "Error: File type not supported! Got: "

  /** `fileFilter`: accept when both tests pass, otherwise an error whose
      message names the MIME type. */
  function FileFilter(file: FileInfo): (r: Option<string>)
    ensures r.None? <==> ExtensionAllowed(file.originalName) && MimeAllowed(file.mimeType)
    ensures r.Some? ==> StartsWith(r.value, RejectPrefix) &&
                        r.value[|RejectPrefix|..] == file.mimeType
  {
    if ExtensionAllowed(file.originalName) && MimeAllowed(file.mimeType) then None
    else
      var msg := RejectPrefix + file.mimeType;
      assert msg[..|RejectPrefix|] == RejectPrefix;
      Some(msg)
  }

  // --------------------------------------------------------------- filename

  /** The stored name: field name, a dash, the timestamp, the extension. */
  function StoredName(fieldName: string, timestamp: nat, originalName: string): (r: string)
    ensures StartsWith(r, fieldName + "-")
  {
    var r := fieldName + "-" + Decimal(timestamp) + ExtName(originalName);
    assert r[..|fieldName + "-"|] == fieldName + "-";
    r
  }

  /** The only field the route accepts. */
  const FileField := "file"

  /** The stored name keeps the uploaded file's extension, and the timestamp
      can be read back from it. */
  lemma StoredNameKeepsExtension(timestamp: nat, originalName: string)
    ensures ExtName(StoredName(FileField, timestamp, originalName)) == ExtName(originalName)
  {
    var e := ExtName(originalName);
    var stem := FileField + "-" + Decimal(timestamp);
    var n := stem + e;
    assert n == StoredName(FileField, timestamp, originalName);
    assert forall k :: 0 <= k < |stem| ==> stem[k] != '/' && stem[k] != '.' by {
      forall k | 0 <= k < |stem|
        ensures stem[k] != '/' && stem[k] != '.'
      {
        if k >= 5 {
          assert stem[k] == Decimal(timestamp)[k - 5];
        }
      }
    }
    if e == [] {
      assert n == stem;
      ExtNameNone(n);
    } else {
      assert stem != "." by { assert stem[0] == 'f'; }
      LastDotCounts(stem, e);
    }
  }

  /** Reading the timestamp back from a stored name. */
  lemma StoredNameKeepsTimestamp(timestamp: nat, originalName: string)
    ensures var n := StoredName(FileField, timestamp, originalName);
      var digits := n[|FileField| + 1..|n| - |ExtName(originalName)|];
      (forall k :: 0 <= k < |digits| ==> IsDigit(digits[k])) && ParseDecimal(digits) == timestamp
  {
    var n := StoredName(FileField, timestamp, originalName);
    assert n[|FileField| + 1..|n| - |ExtName(originalName)|] == Decimal(timestamp);
    DecimalRoundTrip(timestamp);
  }

  // ------------------------------------------------------------------ route

  /** The JSON body of a successful upload. */
  datatype Uploaded = Uploaded(msg: string, fileName: string, filePath: string)

  /** POST /upload with `.single('file')`: a part under another field name is
      a multer error (`Unexpected field`), a rejected file carries the
      filter's message, both with 400; no file at all is 400 too; otherwise
      the reply names the stored file and its public URL under `origin`
      (protocol and host of the request). */
  function UploadReply(file: Option<FileInfo>, timestamp: nat, origin: string): (r: Reply<Uploaded>)
    ensures r.Ok? <==> file.Some? && file.value.fieldName == FileField &&
                       FileFilter(file.value).None?
    ensures file.None? ==> r == Fail(400, "No file uploaded")
    ensures file.Some? && file.value.fieldName != FileField ==> r == Fail(400, "Unexpected field")
    ensures file.Some? && file.value.fieldName == FileField && FileFilter(file.value).Some? ==>
      r == Fail(400, FileFilter(file.value).value)
    ensures r.Ok? ==> r.body.fileName == StoredName(FileField, timestamp, file.value.originalName)
    ensures r.Ok? ==> r.body.msg == "File uploaded successfully"
    ensures r.Ok? ==> ExtName(r.body.fileName) == ExtName(file.value.originalName)
    ensures r.Ok? ==> r.body.filePath == origin + "/uploads/" + r.body.fileName
  {
    match file
    case None => Fail(400, "No file uploaded")
    case Some(f) =>
      if f.fieldName != FileField then Fail(400, "Unexpected field")
      else match FileFilter(f)
        case Some(msg) => Fail(400, msg)
        case None =>
          var name := StoredName(f.fieldName, timestamp, f.originalName);
          StoredNameKeepsExtension(timestamp, f.originalName);
          Ok(Uploaded("File uploaded successfully", name, origin + "/uploads/" + name))
  }
}
