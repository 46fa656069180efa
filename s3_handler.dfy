/** The request checks of the parsing lambda in deploy/server/main.go:
    parseS3URL, and the validation UploadHandler performs before it hands
    the design files to the parser. URL parsing, downloads, temporary
    files and the S3 calls are the environment: `parse` stands for
    url.Parse and `fetch(i)` for fetching file `i` into a temporary file
    (its path, or None when creating, downloading or copying fails). */
module S3Handler {
  import opened Wrappers
  import Ascii
  import DbParse

  /** The parts of a parsed URL the handler reads. */
  datatype Url = Url(host: string, path: string)

  datatype S3Object = S3Object(valid: bool, bucket: string, key: string)

  // ---- parseS3URL ----

  /** The path with every leading '/' removed. */
  function StripSlashes(path: string): (key: string)
    ensures |key| <= |path|
    ensures key == [] || key[0] != '/'
    decreases |path|
  {
    if |path| > 0 && path[0] == '/' then StripSlashes(path[1..]) else path
  }

  function Slashes(n: nat): (s: string)
    ensures |s| == n && forall k :: 0 <= k < n ==> s[k] == '/'
  {
    if n == 0 then [] else Slashes(n - 1) + "/"
  }

  /** The path is some number of slashes followed by the key. */
  lemma {:induction false} StripSlashesSplits(path: string)
    ensures path == Slashes(|path| - |StripSlashes(path)|) + StripSlashes(path)
    decreases |path|
  {
    if |path| > 0 && path[0] == '/' {
      var key := StripSlashes(path[1..]);
      var n := |path| - 1 - |key|;
      StripSlashesSplits(path[1..]);
      SlashesCons(n);
      assert path == [path[0]] + path[1..];
    }
  }

  lemma SlashesCons(n: nat)
    ensures Slashes(n + 1) == "/" + Slashes(n)
  {
    var a, b := Slashes(n + 1), "/" + Slashes(n);
    assert forall k :: 0 <= k < n + 1 ==> a[k] == b[k];
  }

  /** `for len(urlPath) > 0 && strings.HasPrefix(urlPath, "/") { urlPath = urlPath[1:] }`. */
  method TrimLeadingSlashes(path: string) returns (key: string)
    ensures key == StripSlashes(path)
  {
    key := path;
    while |key| > 0 && key[0] == '/'
      invariant StripSlashes(key) == StripSlashes(path)
      decreases |key|
    {
      key := key[1..];
    }
  }

  /** `strings.Split(host, ".")[0]`: the host up to its first '.'. */
  function FirstLabel(host: string): (bucket: string)
    ensures |bucket| <= |host| && bucket == host[..|bucket|]
    ensures '.' !in bucket
    ensures bucket == host || host[|bucket|] == '.'
  {
    if host == [] || host[0] == '.' then []
    else [host[0]] + FirstLabel(host[1..])
  }

  /** The bucket is the one prefix of the host that holds no '.' and is the
      whole host or stops at a '.'. */
  lemma {:induction false} FirstLabelUnique(host: string, b: string)
    requires |b| <= |host| && b == host[..|b|] && '.' !in b
    requires b == host || host[|b|] == '.'
    ensures b == FirstLabel(host)
  {
    if b != [] {
      assert b[0] == host[0];
      assert b[1..] == host[1..][..|b| - 1];
      FirstLabelUnique(host[1..], b[1..]);
      assert b == [host[0]] + b[1..];
    }
  }

  /** parseS3URL: None where url.Parse fails; otherwise a valid object
      whose bucket is the first label of the host and whose key is the path
      without its leading slashes. */
  function ParseS3Url(parsed: Option<Url>): (r: Option<S3Object>)
    ensures r.Some? <==> parsed.Some?
    ensures r.Some? ==> r.value.valid
  {
    match parsed
    case None => None
    case Some(u) => Some(S3Object(true, FirstLabel(u.host), StripSlashes(u.path)))
  }

  /** The method form, with the trimming loop. */
  method ParseS3UrlLoop(parsed: Option<Url>) returns (r: Option<S3Object>)
    ensures r == ParseS3Url(parsed)
  {
    if parsed.None? {
      return None;
    }
    var key := TrimLeadingSlashes(parsed.value.path);
    r := Some(S3Object(true, FirstLabel(parsed.value.host), key));
  }

  // ---- UploadHandler ----

  /** A Meta entry of the request: the goopendb.DesignFile fields the
      handler and the parser read. */
  datatype Meta = Meta(fileType: string, fileName: string, isTech: bool, isLibrary: bool)

  datatype UploadRequest = UploadRequest(meta: seq<Meta>, files: seq<string>, delete: seq<string>)

  /** Where the handler stops: an HTTP error with its status and message,
      or the design files handed to the parser. */
  datatype Outcome = Rejected(status: int, message: string) | Accepted(files: DbParse.DesignFiles)

  const BadRequest: int := 400
  const Unavailable: int := 503

  /** The URL of a file passes when it parses and names the upload bucket. */
  predicate UrlOk(url: string, bucket: string, parse: string -> Option<Url>) {
    var obj := ParseS3Url(parse(url));
    obj.Some? && obj.value.bucket == bucket
  }

  /** The name test: the lower-cased name ends in ".def" or ".lef". */
  predicate DesignName(name: string) {
    Ascii.EndsWith(Ascii.ToLower(name), ".def") || Ascii.EndsWith(Ascii.ToLower(name), ".lef")
  }

  /** The URL loop from file `i` on; None when every URL passes. */
  function UrlCheck(req: UploadRequest, bucket: string, parse: string -> Option<Url>, i: nat): (r: Option<Outcome>)
    requires |req.meta| == |req.files| && i <= |req.files|
    ensures r.Some? <==> exists k :: i <= k < |req.files| && !UrlOk(req.files[k], bucket, parse)
    ensures r.Some? ==> r.value.Rejected?
    decreases |req.files| - i
  {
    if i == |req.files| then None
    else if !UrlOk(req.files[i], bucket, parse) then Some(Rejected(BadRequest, "File error: " + req.meta[i].fileName))
    else UrlCheck(req, bucket, parse, i + 1)
  }

  function FileOf(m: Meta, path: string): DbParse.DesignFile {
    DbParse.DesignFile(path, m.isTech, m.isLibrary)
  }

  /** The classification loop from file `i` on, `acc` holding the design
      files gathered so far. */
  function Classify(req: UploadRequest, fetch: nat -> Option<string>, i: nat, acc: DbParse.DesignFiles): (r: Outcome)
    requires |req.meta| == |req.files| && i <= |req.files|
    decreases |req.files| - i
  {
    if i == |req.files| then Accepted(acc)
    else
      var m := req.meta[i];
      if !DesignName(m.fileName) then Rejected(BadRequest, "Only design .lef and .def files are supported")
      else if fetch(i).None? then Rejected(Unavailable, "Failed to handle the uploaded file: " + m.fileName)
      else if m.fileType == "def" then
        if acc.def.Some? then Rejected(BadRequest, "Only one DEF file per design is supported")
        else Classify(req, fetch, i + 1, acc.(def := Some(FileOf(m, fetch(i).value))))
      else if m.fileType == "lef" then
        Classify(req, fetch, i + 1, acc.(lef := acc.lef + [FileOf(m, fetch(i).value)]))
      else Rejected(BadRequest, "Invalid file type " + m.fileType)
  }

  /** The handler up to the parser call. */
  function Handle(req: UploadRequest, bucket: string, parse: string -> Option<Url>,
                  fetch: nat -> Option<string>): (r: Outcome)
    ensures req.files == [] ==> r == Rejected(BadRequest, "No files were uploaded")
    ensures req.files != [] && (|req.files| != |req.meta| || |req.files| != |req.delete|) ==>
              r == Rejected(BadRequest, "Each uploaded file should have one meta object")
  {
    if |req.files| == 0 then Rejected(BadRequest, "No files were uploaded")
    else if |req.files| != |req.meta| || |req.files| != |req.delete| then
      Rejected(BadRequest, "Each uploaded file should have one meta object")
    else
      match UrlCheck(req, bucket, parse, 0)
      case Some(rejected) => rejected
      case None => Classify(req, fetch, 0, DbParse.DesignFiles(None, []))
  }

  // ---- What an accepted request satisfies ----

  /** The file `i` passes the checks of the classification loop. */
  predicate FileOk(m: Meta, path: Option<string>) {
    DesignName(m.fileName) && path.Some? && (m.fileType == "def" || m.fileType == "lef")
  }

  /** How many of the files from `i` on are DEF files. */
  function DefCount(meta: seq<Meta>, i: nat): nat
    requires i <= |meta|
    decreases |meta| - i
  {
    if i == |meta| then 0 else (if meta[i].fileType == "def" then 1 else 0) + DefCount(meta, i + 1)
  }

  /** The LEF files from `i` on, in request order. */
  function LefFiles(req: UploadRequest, fetch: nat -> Option<string>, i: nat): seq<DbParse.DesignFile>
    requires |req.meta| == |req.files| && i <= |req.files|
    decreases |req.files| - i
  {
    if i == |req.files| then []
    else
      var m := req.meta[i];
      (if m.fileType == "lef" && fetch(i).Some? then [FileOf(m, fetch(i).value)] else [])
        + LefFiles(req, fetch, i + 1)
  }

  /** The loop accepts exactly when every remaining file passes and at most
      one DEF is seen in all. */
  lemma {:induction false} ClassifyAccepts(req: UploadRequest, fetch: nat -> Option<string>, i: nat,
                                           acc: DbParse.DesignFiles)
    requires |req.meta| == |req.files| && i <= |req.files|
    ensures Classify(req, fetch, i, acc).Accepted? <==>
              (forall k :: i <= k < |req.files| ==> FileOk(req.meta[k], fetch(k))) &&
              DefCount(req.meta, i) + (if acc.def.Some? then 1 else 0) <= 1
    decreases |req.files| - i
  {
    if i < |req.files| && FileOk(req.meta[i], fetch(i)) {
      ClassifyAccepts(req, fetch, i + 1, NextFiles(req.meta[i], fetch(i).value, acc));
    }
  }

  /** The design files after one accepted file. */
  function NextFiles(m: Meta, path: string, acc: DbParse.DesignFiles): DbParse.DesignFiles {
    if m.fileType == "def" then acc.(def := Some(FileOf(m, path)))
    else acc.(lef := acc.lef + [FileOf(m, path)])
  }

  /** When the loop accepts, the LEF list is the gathered one followed by
      the remaining LEF files in request order, and the DEF is present when
      one was gathered or one remains. */
  lemma {:induction false} ClassifyGathers(req: UploadRequest, fetch: nat -> Option<string>, i: nat,
                                           acc: DbParse.DesignFiles)
    requires |req.meta| == |req.files| && i <= |req.files|
    requires Classify(req, fetch, i, acc).Accepted?
    ensures var files := Classify(req, fetch, i, acc).files;
            files.lef == acc.lef + LefFiles(req, fetch, i) &&
            (files.def.Some? <==> acc.def.Some? || DefCount(req.meta, i) > 0)
    decreases |req.files| - i
  {
    if i < |req.files| {
      var m := req.meta[i];
      var f := FileOf(m, fetch(i).value);
      ClassifyGathers(req, fetch, i + 1, NextFiles(m, fetch(i).value, acc));
      if m.fileType == "lef" {
        assert acc.lef + [f] + LefFiles(req, fetch, i + 1) == acc.lef + LefFiles(req, fetch, i);
      }
    } else {
      assert acc.lef + [] == acc.lef;
    }
  }

  /** An accepted request: every URL names the upload bucket, every file is
      a fetched .def or .lef with meta type "def" or "lef", there is at most
      one DEF, and the LEF files are handed over in request order. */
  lemma HandleAccepts(req: UploadRequest, bucket: string, parse: string -> Option<Url>,
                      fetch: nat -> Option<string>)
    ensures var r := Handle(req, bucket, parse, fetch);
            r.Accepted? <==>
              |req.files| > 0 && |req.files| == |req.meta| == |req.delete| &&
              (forall k :: 0 <= k < |req.files| ==> UrlOk(req.files[k], bucket, parse)) &&
              (forall k :: 0 <= k < |req.files| ==> FileOk(req.meta[k], fetch(k))) &&
              DefCount(req.meta, 0) <= 1
    ensures var r := Handle(req, bucket, parse, fetch);
            r.Accepted? ==> r.files.lef == LefFiles(req, fetch, 0) &&
                            (r.files.def.Some? <==> DefCount(req.meta, 0) == 1)
  {
    if |req.files| > 0 && |req.files| == |req.meta| == |req.delete| {
      var empty := DbParse.DesignFiles(None, []);
      ClassifyAccepts(req, fetch, 0, empty);
      if Classify(req, fetch, 0, empty).Accepted? {
        ClassifyGathers(req, fetch, 0, empty);
        assert [] + LefFiles(req, fetch, 0) == LefFiles(req, fetch, 0);
      }
    }
  }

  /** The URL checks come first: a file with a foreign bucket is refused
      with its name even when a later file has a bad name. */
  lemma ForeignBucketFirst(req: UploadRequest, bucket: string, parse: string -> Option<Url>,
                           fetch: nat -> Option<string>, i: nat)
    requires |req.files| > 0 && |req.files| == |req.meta| == |req.delete| && i < |req.files|
    requires !UrlOk(req.files[i], bucket, parse)
    requires forall k :: 0 <= k < i ==> UrlOk(req.files[k], bucket, parse)
    ensures Handle(req, bucket, parse, fetch) == Rejected(BadRequest, "File error: " + req.meta[i].fileName)
  {
    UrlCheckFirst(req, bucket, parse, 0, i);
  }

  lemma {:induction false} UrlCheckFirst(req: UploadRequest, bucket: string, parse: string -> Option<Url>,
                                         j: nat, i: nat)
    requires |req.meta| == |req.files| && j <= i < |req.files|
    requires !UrlOk(req.files[i], bucket, parse)
    requires forall k :: j <= k < i ==> UrlOk(req.files[k], bucket, parse)
    ensures UrlCheck(req, bucket, parse, j) == Some(Rejected(BadRequest, "File error: " + req.meta[i].fileName))
    decreases i - j
  {
    if j < i {
      UrlCheckFirst(req, bucket, parse, j + 1, i);
    }
  }

  /** The handler with its two loops: the URL loop collecting the S3
      objects, then the loop filling the design files. */
  method UploadHandler(req: UploadRequest, bucket: string, parse: string -> Option<Url>,
                       fetch: nat -> Option<string>) returns (r: Outcome, objects: seq<S3Object>)
    ensures r == Handle(req, bucket, parse, fetch)
    ensures r.Accepted? ==> |objects| == |req.files|
    ensures r.Accepted? ==>
              forall k :: 0 <= k < |objects| ==>
                objects[k].bucket == bucket && ParseS3Url(parse(req.files[k])) == Some(objects[k])
  {
    objects := [];
    if |req.files| == 0 {
      return Rejected(BadRequest, "No files were uploaded"), objects;
    }
    if |req.files| != |req.meta| || |req.files| != |req.delete| {
      return Rejected(BadRequest, "Each uploaded file should have one meta object"), objects;
    }
    var rejected;
    rejected, objects := ValidateUrls(req, bucket, parse);
    if rejected.Some? {
      return rejected.value, objects;
    }
    r := ClassifyFiles(req, fetch);
  }

  /** The URL loop: each file's URL is parsed and its object kept, and the
      first that fails to parse or names another bucket is refused. */
  method ValidateUrls(req: UploadRequest, bucket: string, parse: string -> Option<Url>)
    returns (rejected: Option<Outcome>, objects: seq<S3Object>)
    requires |req.meta| == |req.files|
    ensures rejected == UrlCheck(req, bucket, parse, 0)
    ensures rejected.None? ==> |objects| == |req.files|
    ensures rejected.None? ==>
              forall k :: 0 <= k < |objects| ==>
                objects[k].bucket == bucket && ParseS3Url(parse(req.files[k])) == Some(objects[k])
  {
    objects := [];
    var i := 0;
    while i < |req.files|
      invariant 0 <= i <= |req.files| && |objects| == i
      invariant UrlCheck(req, bucket, parse, 0) == UrlCheck(req, bucket, parse, i)
      invariant forall k :: 0 <= k < i ==>
                  objects[k].bucket == bucket && ParseS3Url(parse(req.files[k])) == Some(objects[k])
    {
      var obj := ParseS3UrlLoop(parse(req.files[i]));
      if obj.None? {
        return Some(Rejected(BadRequest, "File error: " + req.meta[i].fileName)), objects;
      }
      objects := objects + [obj.value];
      if bucket != obj.value.bucket {
        return Some(Rejected(BadRequest, "File error: " + req.meta[i].fileName)), objects;
      }
      i := i + 1;
    }
    rejected := None;
  }

  /** The classification loop over the files, in request order. */
  method ClassifyFiles(req: UploadRequest, fetch: nat -> Option<string>) returns (r: Outcome)
    requires |req.meta| == |req.files|
    ensures r == Classify(req, fetch, 0, DbParse.DesignFiles(None, []))
  {
    var designFiles := DbParse.DesignFiles(None, []);
    var i := 0;
    while i < |req.files|
      invariant 0 <= i <= |req.files|
      invariant Classify(req, fetch, 0, DbParse.DesignFiles(None, [])) == Classify(req, fetch, i, designFiles)
    {
      var fileMeta := req.meta[i];
      var filename := Ascii.ToLower(fileMeta.fileName);
      if !Ascii.EndsWith(filename, ".def") && !Ascii.EndsWith(filename, ".lef") {
        return Rejected(BadRequest, "Only design .lef and .def files are supported");
      }
      var path := fetch(i);
      if path.None? {
        return Rejected(Unavailable, "Failed to handle the uploaded file: " + fileMeta.fileName);
      }
      if fileMeta.fileType == "def" {
        if designFiles.def.Some? {
          return Rejected(BadRequest, "Only one DEF file per design is supported");
        }
        designFiles := designFiles.(def := Some(FileOf(fileMeta, path.value)));
      } else if fileMeta.fileType == "lef" {
        designFiles := designFiles.(lef := designFiles.lef + [FileOf(fileMeta, path.value)]);
      } else {
        return Rejected(BadRequest, "Invalid file type " + fileMeta.fileType);
      }
      i := i + 1;
    }
    r := Accepted(designFiles);
  }
}
