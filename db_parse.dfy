/** The file-set validation at the head of ParseDesign and the library name
    the LEF readers are given (server/goopendb/goopendb.go). The OpenDB
    readers themselves are foreign calls: the model produces the sequence of
    read steps ParseDesign issues, and leaves out the errors those calls may
    return. */
module DbParse {
  import opened Wrappers

  /** An uploaded design file: its path and, for a LEF file, its roles. */
  datatype DesignFile = DesignFile(filePath: string, isTech: bool, isLibrary: bool)

  /** The DEF file (nil when missing) and the LEF files, in request order. */
  datatype DesignFiles = DesignFiles(def: Option<DesignFile>, lef: seq<DesignFile>)

  /** The errors ParseDesign returns before any file is read. */
  datatype ParseError = NeedLef | NeedDef | OneTechOnly | TechOrLibrary | NeedTech | NeedLibrary

  /** The text of each error. */
  function Message(e: ParseError): string {
    match e
    case NeedLef => "At least one LEF file is required"
    case NeedDef => "One DEF file is required"
    case OneTechOnly => "Only one LEF technology file is allowed"
    case TechOrLibrary => "LEF file must be technology or library file"
    case NeedTech => "LEF technology file is required"
    case NeedLibrary => "LEF library file is required"
  }

  // ---- generateLibraryName: path.Base, path.Ext, strings.TrimSuffix ----

  /** The position of the last `c` in `p`, or -1 when there is none
      (strings.LastIndex with a one-character separator). */
  function LastIndex(p: string, c: char): (i: int)
    ensures -1 <= i < |p|
    ensures i >= 0 ==> p[i] == c
    ensures forall j :: i < j < |p| ==> p[j] != c
  {
    if p == [] then -1
    else if p[|p| - 1] == c then |p| - 1
    else LastIndex(p[..|p| - 1], c)
  }

  /** The length of the path once its trailing slashes are removed. */
  function TrimmedLength(p: string): (n: nat)
    ensures n <= |p|
    ensures n == 0 || p[n - 1] != '/'
    ensures forall j :: n <= j < |p| ==> p[j] == '/'
  {
    if p != [] && p[|p| - 1] == '/' then TrimmedLength(p[..|p| - 1]) else |p|
  }

  /** path.Base: "." for the empty path; otherwise what follows the last
      slash once trailing slashes are removed, or "/" when the path is
      all slashes. */
  function Base(p: string): (r: string)
    ensures r != []
    ensures r == "/" || forall i :: 0 <= i < |r| ==> r[i] != '/'
  {
    if p == [] then "."
    else
      var q := p[..TrimmedLength(p)];
      var e := q[LastIndex(q, '/') + 1..];
      if e == [] then "/" else e
  }

  /** path.Ext: scanning back from the end up to the last slash, the
      suffix from the first '.' met, or "" when there is none. */
  function Ext(p: string): (r: string)
    ensures r != [] ==> r[0] == '.'
    ensures forall i :: 1 <= i < |r| ==> r[i] != '.' && r[i] != '/'
  {
    var dot := LastIndex(p, '.');
    if dot > LastIndex(p, '/') then p[dot..] else []
  }

  /** strings.TrimSuffix. */
  function TrimSuffix(s: string, suffix: string): (r: string)
    ensures |suffix| <= |s| && s[|s| - |suffix|..] == suffix ==> r + suffix == s
    ensures !(|suffix| <= |s| && s[|s| - |suffix|..] == suffix) ==> r == s
  {
    if |suffix| <= |s| && s[|s| - |suffix|..] == suffix then s[..|s| - |suffix|] else s
  }

  /** generateLibraryName: the base name without the path's extension. */
  function LibraryName(p: string): string {
    TrimSuffix(Base(p), Ext(p))
  }

  /** For a path naming a file (not ending in '/'), the library name is the
      base name with the extension cut off: putting the extension back gives
      the base name. */
  lemma LibraryNameSplitsBase(p: string)
    requires p != [] && p[|p| - 1] != '/'
    ensures LibraryName(p) + Ext(p) == Base(p)
  {
    var slash, dot := LastIndex(p, '/'), LastIndex(p, '.');
    BaseOfFile(p);
    var b, e := p[slash + 1..], Ext(p);
    if dot > slash {
      assert e == p[dot..];
      assert b[|b| - |e|..] == e;
    } else {
      assert e == [];
      assert b[|b| - |e|..] == e;
    }
    assert LibraryName(p) == TrimSuffix(b, e);
  }

  /** The base name of a path not ending in '/' is what follows its last
      slash. */
  lemma BaseOfFile(p: string)
    requires p != [] && p[|p| - 1] != '/'
    ensures Base(p) == p[LastIndex(p, '/') + 1..]
  {
    var n := TrimmedLength(p);
    assert n == |p|;
    var q := p[..n];
    assert q == p;
    var b := p[LastIndex(p, '/') + 1..];
    assert q[LastIndex(q, '/') + 1..] == b;
    assert b != [];
  }

  /** The library name of a file path holds no '/', and without an
      extension no '.'. */
  lemma LibraryNameIsFileName(p: string)
    requires p != [] && p[|p| - 1] != '/'
    ensures forall i :: 0 <= i < |LibraryName(p)| ==> LibraryName(p)[i] != '/'
    ensures Ext(p) == [] ==> forall i :: 0 <= i < |LibraryName(p)| ==> LibraryName(p)[i] != '.'
  {
    LibraryNameSplitsBase(p);
    BaseOfFile(p);
    var slash, dot := LastIndex(p, '/'), LastIndex(p, '.');
    var b := p[slash + 1..];
    PrefixAvoids(LibraryName(p), Ext(p), b, '/');
    if Ext(p) == [] {
      assert dot <= slash;
      PrefixAvoids(LibraryName(p), Ext(p), b, '.');
    }
  }

  /** A prefix of a string without `c` has no `c`. */
  lemma PrefixAvoids(n: string, e: string, b: string, c: char)
    requires n + e == b && forall i :: 0 <= i < |b| ==> b[i] != c
    ensures forall i :: 0 <= i < |n| ==> n[i] != c
  {
    forall i | 0 <= i < |n| ensures n[i] != c {
      assert n[i] == b[i];
    }
  }

  /** A path with a trailing slash has no extension, so its library name
      keeps the last element whole: "dir/cells.lef/" names "cells.lef". */
  lemma TrailingSlashKeepsExtension(p: string)
    requires p != [] && p[|p| - 1] == '/'
    ensures Ext(p) == [] && LibraryName(p) == Base(p)
  {
  }

  // ---- ParseDesign ----

  /** The reads ParseDesign issues once the files are valid. ReadLEF and
      ReadLEFLibrary also pass the OpenDB reader a library name, which is
      LibraryName(path) (see LibraryArgument). */
  datatype ReadStep =
    | ReadTechAndLib(path: string)
    | ReadTech(path: string)
    | ReadLib(path: string)
    | ReadDef(path: string)

  /** The library name a read passes along with its path. */
  function LibraryArgument(step: ReadStep): Option<string> {
    match step
    case ReadTechAndLib(path) => Some(LibraryName(path))
    case ReadLib(path) => Some(LibraryName(path))
    case _ => None
  }

  /** The flags the validation loop has set. */
  datatype Flags = Flags(hasTech: bool, hasLib: bool)

  function TechCount(lefs: seq<DesignFile>): nat {
    if lefs == [] then 0
    else TechCount(lefs[..|lefs| - 1]) + (if lefs[|lefs| - 1].isTech then 1 else 0)
  }

  /** A LEF list the loop walks through: at most one tech file, and every
      file a tech or a library file. */
  predicate Acceptable(lefs: seq<DesignFile>) {
    TechCount(lefs) <= 1 && forall k :: 0 <= k < |lefs| ==> lefs[k].isTech || lefs[k].isLibrary
  }

  /** The validation loop over a list of LEF files: the flags it leaves, or
      the error it returns. */
  function CheckLefs(lefs: seq<DesignFile>): Result<Flags, ParseError> {
    if lefs == [] then Success(Flags(false, false))
    else
      match CheckLefs(lefs[..|lefs| - 1])
      case Failure(e) => Failure(e)
      case Success(f) =>
        var file := lefs[|lefs| - 1];
        if file.isTech && f.hasTech then Failure(OneTechOnly)
        else if !file.isLibrary && !file.isTech then Failure(TechOrLibrary)
        else Success(Flags(f.hasTech || file.isTech, f.hasLib || file.isLibrary))
  }

  /** The loop passes exactly the acceptable lists, leaving hasTech set iff
      there is a tech file and hasLib iff there is a library file. Otherwise
      it stops at the first file that breaks acceptability: a second tech
      file, or a file that is neither. */
  lemma {:induction false} CheckLefsOutcome(lefs: seq<DesignFile>)
    ensures CheckLefs(lefs).Success? <==> Acceptable(lefs)
    ensures CheckLefs(lefs).Success? ==>
      CheckLefs(lefs).value.hasTech == (TechCount(lefs) == 1) &&
      CheckLefs(lefs).value.hasLib == (exists k :: 0 <= k < |lefs| && lefs[k].isLibrary)
    ensures CheckLefs(lefs).Failure? ==>
      exists k :: 0 <= k < |lefs| && Acceptable(lefs[..k]) &&
        ((lefs[k].isTech && TechCount(lefs[..k]) == 1 && CheckLefs(lefs).error == OneTechOnly) ||
         (!lefs[k].isTech && !lefs[k].isLibrary && CheckLefs(lefs).error == TechOrLibrary))
  {
    if lefs != [] {
      var n := |lefs| - 1;
      var init, file := lefs[..n], lefs[n];
      CheckLefsOutcome(init);
      assert forall k :: 0 <= k < n ==> init[k] == lefs[k];
      match CheckLefs(init)
      case Failure(e) => {
        var k :| 0 <= k < n && Acceptable(init[..k]) &&
          ((init[k].isTech && TechCount(init[..k]) == 1 && e == OneTechOnly) ||
           (!init[k].isTech && !init[k].isLibrary && e == TechOrLibrary));
        assert init[..k] == lefs[..k];
        assert !Acceptable(init);
      }
      case Success(f) => {
        assert lefs[..n] == init;
        if file.isLibrary {
          assert lefs[n].isLibrary;
        }
      }
    }
  }

  /** The read issued for one valid LEF file. */
  function ReadOf(file: DesignFile): (step: ReadStep)
    requires file.isTech || file.isLibrary
    ensures step.ReadTechAndLib? <==> file.isTech && file.isLibrary
    ensures step.ReadTech? <==> file.isTech && !file.isLibrary
    ensures step.ReadLib? <==> !file.isTech && file.isLibrary
    ensures step.path == file.filePath
  {
    if file.isTech && file.isLibrary then ReadTechAndLib(file.filePath)
    else if file.isTech then ReadTech(file.filePath)
    else ReadLib(file.filePath)
  }

  function LefReads(lefs: seq<DesignFile>): (r: seq<ReadStep>)
    requires forall k :: 0 <= k < |lefs| ==> lefs[k].isTech || lefs[k].isLibrary
    ensures |r| == |lefs|
    ensures forall k :: 0 <= k < |lefs| ==> r[k] == ReadOf(lefs[k])
  {
    seq(|lefs|, k requires 0 <= k < |lefs| => ReadOf(lefs[k]))
  }

  /** ParseDesign up to the foreign reads: the first validation error, or
      the reads it issues, LEF files in request order and the DEF last. */
  function ParseDesign(files: DesignFiles): Result<seq<ReadStep>, ParseError> {
    if |files.lef| == 0 then Failure(NeedLef)
    else if files.def.None? then Failure(NeedDef)
    else
      match CheckLefs(files.lef)
      case Failure(e) => Failure(e)
      case Success(f) =>
        if !f.hasTech then Failure(NeedTech)
        else if !f.hasLib then Failure(NeedLibrary)
        else
          CheckLefsOutcome(files.lef);
          Success(LefReads(files.lef) + [ReadDef(files.def.value.filePath)])
  }

  /** The file set is accepted iff there is a LEF and a DEF file, exactly
      one tech file, at least one library file and no LEF file without a
      role. */
  predicate Valid(files: DesignFiles) {
    |files.lef| > 0 && files.def.Some? && Acceptable(files.lef) && TechCount(files.lef) == 1 &&
    exists k :: 0 <= k < |files.lef| && files.lef[k].isLibrary
  }

  /** ParseDesign reports the first violated rule in this order: no LEF
      file, no DEF file, then (file by file) a second tech file or a file
      that is neither tech nor library, then no tech file, then no library
      file. */
  lemma ParseDesignErrorOrder(files: DesignFiles)
    ensures ParseDesign(files) == Failure(NeedLef) <==> |files.lef| == 0
    ensures ParseDesign(files) == Failure(NeedDef) <==> |files.lef| > 0 && files.def.None?
    ensures ParseDesign(files) == Failure(OneTechOnly) <==>
      |files.lef| > 0 && files.def.Some? &&
      exists k :: 0 <= k < |files.lef| && Acceptable(files.lef[..k]) &&
        files.lef[k].isTech && TechCount(files.lef[..k]) == 1
    ensures ParseDesign(files) == Failure(TechOrLibrary) <==>
      |files.lef| > 0 && files.def.Some? &&
      exists k :: 0 <= k < |files.lef| && Acceptable(files.lef[..k]) &&
        !files.lef[k].isTech && !files.lef[k].isLibrary
    ensures ParseDesign(files) == Failure(NeedTech) <==>
      |files.lef| > 0 && files.def.Some? && Acceptable(files.lef) && TechCount(files.lef) == 0
    ensures ParseDesign(files) == Failure(NeedLibrary) <==>
      |files.lef| > 0 && files.def.Some? && Acceptable(files.lef) && TechCount(files.lef) == 1 &&
      forall k :: 0 <= k < |files.lef| ==> !files.lef[k].isLibrary
    ensures ParseDesign(files).Success? <==> Valid(files)
  {
    CheckLefsOutcome(files.lef);
    if |files.lef| > 0 && files.def.Some? {
      if Acceptable(files.lef) {
        forall k | 0 <= k < |files.lef|
          ensures !(files.lef[k].isTech && TechCount(files.lef[..k]) == 1)
          ensures files.lef[k].isTech || files.lef[k].isLibrary
        {
          PrefixAcceptable(files.lef, k);
        }
      } else {
        BadPrefixUnique(files.lef);
      }
    }
  }

  /** An acceptable list has acceptable prefixes; the file after a prefix
      holding the tech file is no tech file. */
  lemma {:induction false} PrefixAcceptable(lefs: seq<DesignFile>, k: nat)
    requires k < |lefs| && Acceptable(lefs)
    ensures lefs[k].isTech ==> TechCount(lefs[..k]) == 0
    ensures lefs[k].isTech || lefs[k].isLibrary
  {
    var n := |lefs| - 1;
    assert lefs[..n] + [lefs[n]] == lefs;
    if k < n {
      assert forall j :: 0 <= j < n ==> lefs[..n][j] == lefs[j];
      PrefixAcceptable(lefs[..n], k);
      assert lefs[..n][..k] == lefs[..k];
    } else {
      assert lefs[..k] == lefs[..n];
    }
  }

  /** TechCount never decreases along prefixes. */
  lemma {:induction false} TechCountMonotone(lefs: seq<DesignFile>, i: nat, j: nat)
    requires i <= j <= |lefs|
    ensures TechCount(lefs[..i]) <= TechCount(lefs[..j])
    decreases j - i
  {
    if i < j {
      TechCountMonotone(lefs, i, j - 1);
      assert lefs[..j][..j - 1] == lefs[..j - 1];
    }
  }

  /** Only one position can be the first to break acceptability: a prefix
      that is acceptable stays so up to that position. */
  lemma BadPrefixUnique(lefs: seq<DesignFile>)
    ensures forall k1, k2 :: 0 <= k1 < k2 < |lefs| && Acceptable(lefs[..k2]) ==>
      (lefs[k1].isTech || lefs[k1].isLibrary) && (lefs[k1].isTech ==> TechCount(lefs[..k1]) == 0)
  {
    forall k1, k2 | 0 <= k1 < k2 < |lefs| && Acceptable(lefs[..k2])
      ensures (lefs[k1].isTech || lefs[k1].isLibrary) && (lefs[k1].isTech ==> TechCount(lefs[..k1]) == 0)
    {
      assert lefs[..k2][k1] == lefs[k1];
      PrefixAcceptable(lefs[..k2], k1);
      assert lefs[..k2][..k1] == lefs[..k1];
    }
  }

  /** The reads of an accepted file set: one per LEF file in request order,
      chosen by its roles and named after its path, then the DEF read;
      exactly one of the LEF reads loads the technology. */
  lemma ParseDesignReads(files: DesignFiles)
    requires Valid(files)
    ensures ParseDesign(files).Success?
    ensures |ParseDesign(files).value| == |files.lef| + 1
    ensures ParseDesign(files).value[|files.lef|] == ReadDef(files.def.value.filePath)
    ensures forall k :: 0 <= k < |files.lef| ==> ParseDesign(files).value[k] == ReadOf(files.lef[k])
  {
    ParseDesignErrorOrder(files);
  }

  /** The validation loop of ParseDesign, with its early returns. */
  method CheckLoop(lefs: seq<DesignFile>) returns (r: Result<Flags, ParseError>)
    ensures r == CheckLefs(lefs)
  {
    var hasTech := false;
    var hasLib := false;
    var i := 0;
    while i < |lefs|
      invariant 0 <= i <= |lefs|
      invariant CheckLefs(lefs[..i]) == Success(Flags(hasTech, hasLib))
    {
      var file := lefs[i];
      assert lefs[..i + 1][..i] == lefs[..i];
      if file.isTech {
        if hasTech {
          CheckFailureSticks(lefs, i + 1);
          return Failure(OneTechOnly);
        }
        hasTech := true;
      }
      if file.isLibrary {
        hasLib := true;
      }
      if !file.isLibrary && !file.isTech {
        CheckFailureSticks(lefs, i + 1);
        return Failure(TechOrLibrary);
      }
      i := i + 1;
    }
    assert lefs[..i] == lefs;
    r := Success(Flags(hasTech, hasLib));
  }

  /** The read loop of ParseDesign over validated LEF files. */
  method ReadLoop(lefs: seq<DesignFile>) returns (steps: seq<ReadStep>)
    requires forall k :: 0 <= k < |lefs| ==> lefs[k].isTech || lefs[k].isLibrary
    ensures steps == LefReads(lefs)
  {
    steps := [];
    var i := 0;
    while i < |lefs|
      invariant 0 <= i <= |lefs|
      invariant |steps| == i && forall k :: 0 <= k < i ==> steps[k] == ReadOf(lefs[k])
    {
      var file := lefs[i];
      var step;
      if file.isTech && file.isLibrary {
        step := ReadTechAndLib(file.filePath);
      } else if file.isTech {
        step := ReadTech(file.filePath);
      } else {
        step := ReadLib(file.filePath);
      }
      assert step == ReadOf(file);
      steps := steps + [step];
      i := i + 1;
    }
  }

  /** ParseDesign up to the foreign reads. */
  method ValidateAndPlan(files: DesignFiles) returns (r: Result<seq<ReadStep>, ParseError>)
    ensures r == ParseDesign(files)
  {
    if |files.lef| == 0 {
      return Failure(NeedLef);
    }
    if files.def.None? {
      return Failure(NeedDef);
    }
    var flags := CheckLoop(files.lef);
    if flags.Failure? {
      return Failure(flags.error);
    }
    if !flags.value.hasTech {
      return Failure(NeedTech);
    }
    if !flags.value.hasLib {
      return Failure(NeedLibrary);
    }
    CheckLefsOutcome(files.lef);
    var steps := ReadLoop(files.lef);
    r := Success(steps + [ReadDef(files.def.value.filePath)]);
  }

  /** Once the loop has returned an error, the error of the whole list is
      that one. */
  lemma {:induction false} CheckFailureSticks(lefs: seq<DesignFile>, i: nat)
    requires i <= |lefs| && CheckLefs(lefs[..i]).Failure?
    ensures CheckLefs(lefs) == CheckLefs(lefs[..i])
    decreases |lefs| - i
  {
    if i < |lefs| {
      assert lefs[..i + 1][..i] == lefs[..i];
      CheckFailureSticks(lefs, i + 1);
    } else {
      assert lefs[..i] == lefs;
    }
  }
}
