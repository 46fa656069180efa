/** The file list of the upload form (client/components/common/Upload/Upload.js):
    dropped batches are accepted or rejected as a whole, accepted files get
    consecutive ids, the first LEF becomes the technology file when there is
    none, and an upload starts only with a DEF, a technology file and a
    library LEF. The request itself, the spinner and the analytics are not
    modelled. */
module Upload {
  import opened Wrappers
  import Ascii

  datatype Kind = Def | Lef

  /** An entry of the list: id, type, library flag and file name. */
  datatype FileEntry = FileEntry(id: int, kind: Kind, isLibrary: bool, filename: string)

  /** The state the updaters work on: nextID, files and techID. */
  datatype Files = Files(nextID: int, files: seq<FileEntry>, techID: int)

  const MaxFiles: int := 10

  const OnlyOneDef: string := "Only one DEF file can be uploaded."
  const OnlyLefDef: string := "Only design LEF/DEF files can be uploaded."
  const TooManyFiles: string := "You can only upload up to 10 files per design."
  const OnlyOneTech: string := "Only one LEF technology file can be uploaded."
  const MissingDef: string := "Missing design DEF file."
  const MissingTech: string := "Missing LEF technology file."
  const MissingLibrary: string := "At least one LEF library file should be uploaded."

  // ---- File types ----

  /** How a dropped file is classified: by its lower-cased name's suffix. */
  datatype Ext = DefName | LefName | OtherName

  function Classify(name: string): Ext {
    if LowerEndsWith(name, ".def") then DefName
    else if LowerEndsWith(name, ".lef") then LefName
    else OtherName
  }

  /** The lower-cased name ends with `ext`, compared from the last
      character back. */
  predicate LowerEndsWith(name: string, ext: string)
    decreases |ext|
  {
    ext == [] ||
    (|name| > 0 && Ascii.LowerChar(name[|name| - 1]) == ext[|ext| - 1] &&
     LowerEndsWith(name[..|name| - 1], ext[..|ext| - 1]))
  }

  /** The last |ext| characters of the name, lower-cased, are ext. */
  predicate SuffixMatch(name: string, ext: string) {
    |ext| <= |name| &&
    forall k :: 0 <= k < |ext| ==> Ascii.LowerChar(name[|name| - |ext| + k]) == ext[k]
  }

  lemma {:induction false} LowerEndsWithMatch(name: string, ext: string)
    ensures LowerEndsWith(name, ext) <==> SuffixMatch(name, ext)
    decreases |ext|
  {
    if ext != [] && name != [] {
      var n, m := |name| - 1, |ext| - 1;
      LowerEndsWithMatch(name[..n], ext[..m]);
      if SuffixMatch(name, ext) {
        forall k | 0 <= k < m ensures Ascii.LowerChar(name[..n][n - m + k]) == ext[..m][k] {
          assert name[..n][n - m + k] == name[|name| - |ext| + k];
        }
      }
      if LowerEndsWith(name, ext) {
        forall k | 0 <= k < |ext| ensures Ascii.LowerChar(name[|name| - |ext| + k]) == ext[k] {
          if k < m { assert name[..n][n - m + k] == name[|name| - |ext| + k]; }
        }
      }
    }
  }

  /** The comparison from the back is the test of the source: the
      lower-cased name ends with the extension. */
  lemma LowerEndsWithIsEndsWith(name: string, ext: string)
    ensures LowerEndsWith(name, ext) <==> Ascii.EndsWith(Ascii.ToLower(name), ext)
  {
    LowerEndsWithMatch(name, ext);
    if |ext| <= |name| {
      SuffixMatchTail(name, ext);
    }
  }

  /** SuffixMatch reads the same characters as the lower-cased tail. */
  lemma SuffixMatchTail(name: string, ext: string)
    requires |ext| <= |name|
    ensures SuffixMatch(name, ext) <==> Ascii.ToLower(name)[|name| - |ext|..] == ext
  {
    var low := Ascii.ToLower(name);
    var tail := low[|low| - |ext|..];
    assert forall k :: 0 <= k < |ext| ==> tail[k] == Ascii.LowerChar(name[|name| - |ext| + k]);
    if SuffixMatch(name, ext) {
      assert tail == ext;
    }
  }

  /** A file's type does not depend on the case of its name. */
  lemma ClassifyIgnoresCase(name: string)
    ensures Classify(Ascii.ToLower(name)) == Classify(name)
  {
    Ascii.ToLowerIdempotent(name);
    LowerEndsWithIsEndsWith(name, ".def");
    LowerEndsWithIsEndsWith(name, ".lef");
    LowerEndsWithIsEndsWith(Ascii.ToLower(name), ".def");
    LowerEndsWithIsEndsWith(Ascii.ToLower(name), ".lef");
  }

  // ---- onFilesAdded ----

  /** The list holds a DEF. */
  predicate HasDef(files: seq<FileEntry>) {
    exists i :: 0 <= i < |files| && files[i].kind == Def
  }

  /** The list holds a LEF (a non-DEF entry) whose id is techID: the test of
      the scan at the start of onFilesAdded. */
  predicate HasTechLef(files: seq<FileEntry>, techID: int) {
    exists i :: 0 <= i < |files| && files[i].kind != Def && files[i].id == techID
  }

  /** What the loop over a batch carries: the new state so far and the two
      flags. */
  datatype Acc = Acc(nextID: int, files: seq<FileEntry>, techID: int, hasDef: bool, hasTech: bool)

  /** The state after the file `name` is pushed. */
  function Push(acc: Acc, name: string, e: Ext): Acc {
    var kind := if e == DefName then Def else Lef;
    Acc(acc.nextID + 1, acc.files + [FileEntry(acc.nextID, kind, kind == Lef, name)],
        if e == DefName || acc.hasTech then acc.techID else acc.nextID,
        acc.hasDef || e == DefName, acc.hasTech || e == LefName)
  }

  /** The loop of onFilesAdded over the rest of a batch; a failure carries
      the alert of the file that stopped it. */
  function AddFrom(acc: Acc, names: seq<string>): (r: Result<Acc, string>)
    ensures r.Success? ==> |r.value.files| == |acc.files| + |names|
    ensures r.Success? ==> r.value.nextID == acc.nextID + |names|
    decreases |names|
  {
    if names == [] then Success(acc)
    else
      var e := Classify(names[0]);
      if e == OtherName then Failure(OnlyLefDef)
      else if e == DefName && acc.hasDef then Failure(OnlyOneDef)
      else if |acc.files| + 1 > MaxFiles then Failure(TooManyFiles)
      else AddFrom(Push(acc, names[0], e), names[1..])
  }

  /** onFilesAdded on a state. */
  function AddFiles(st: Files, names: seq<string>): Result<Files, string> {
    match AddFrom(Acc(st.nextID, st.files, st.techID, HasDef(st.files), HasTechLef(st.files, st.techID)), names)
    case Failure(msg) => Failure(msg)
    case Success(acc) => Success(Files(acc.nextID, acc.files, acc.techID))
  }

  function DefCount(names: seq<string>): nat {
    if names == [] then 0 else (if Classify(names[0]) == DefName then 1 else 0) + DefCount(names[1..])
  }

  predicate AllLefDef(names: seq<string>) {
    forall i :: 0 <= i < |names| ==> Classify(names[i]) != OtherName
  }

  /** The entries a batch adds, with ids from `id` on: a DEF for each .def
      name and a library LEF for each .lef name. */
  function NewEntries(id: int, names: seq<string>): (r: seq<FileEntry>)
    ensures |r| == |names|
    ensures forall i :: 0 <= i < |names| ==> r[i].id == id + i && r[i].filename == names[i]
    ensures forall i :: 0 <= i < |names| ==>
      r[i].kind == (if Classify(names[i]) == DefName then Def else Lef) && r[i].isLibrary == (r[i].kind == Lef)
    decreases |names|
  {
    if names == [] then []
    else
      var kind := if Classify(names[0]) == DefName then Def else Lef;
      [FileEntry(id, kind, kind == Lef, names[0])] + NewEntries(id + 1, names[1..])
  }

  /** The position of the first .lef name of a batch, if any. */
  function FirstLefName(names: seq<string>): (r: Option<nat>)
    ensures r.Some? ==> r.value < |names| && Classify(names[r.value]) == LefName
    ensures r.Some? ==> forall j :: 0 <= j < r.value ==> Classify(names[j]) != LefName
    ensures r.None? ==> forall j :: 0 <= j < |names| ==> Classify(names[j]) != LefName
    decreases |names|
  {
    if names == [] then None
    else if Classify(names[0]) == LefName then Some(0)
    else match FirstLefName(names[1..]) case None => None case Some(k) => Some(k + 1)
  }

  /** A batch is rejected exactly when it holds a file that is neither DEF
      nor LEF, brings the DEF count to two, or brings the list above ten
      files. */
  lemma {:induction false} AddFromRejects(acc: Acc, names: seq<string>)
    ensures AddFrom(acc, names).Failure? <==>
      !AllLefDef(names) || DefCount(names) + (if acc.hasDef then 1 else 0) >= 2 ||
      (names != [] && |acc.files| + |names| > MaxFiles)
    decreases |names|
  {
    if names != [] {
      var tail := names[1..];
      var e := Classify(names[0]);
      assert AllLefDef(names) <==> e != OtherName && AllLefDef(tail) by {
        if e != OtherName && AllLefDef(tail) {
          forall i | 0 < i < |names| ensures Classify(names[i]) != OtherName {
            assert names[i] == tail[i - 1];
          }
        }
      }
      if e != OtherName && !(e == DefName && acc.hasDef) && |acc.files| + 1 <= MaxFiles {
        AddFromRejects(Push(acc, names[0], e), tail);
      }
    }
  }

  /** An accepted batch appends one entry per file, with consecutive ids
      from nextID. */
  lemma {:induction false} AddFromAppends(acc: Acc, names: seq<string>)
    requires AddFrom(acc, names).Success?
    ensures AddFrom(acc, names).value.files == acc.files + NewEntries(acc.nextID, names)
    decreases |names|
  {
    if names == [] {
      assert acc.files + [] == acc.files;
    } else {
      var next := AddFromStep(acc, names);
      AddFromAppends(next, names[1..]);
      var entry := NewEntriesHead(acc.nextID, names);
      var rest := NewEntries(acc.nextID + 1, names[1..]);
      AppendAssoc(acc.files, [entry], rest);
    }
  }

  /** An accepted batch goes on with the state after its first file. */
  lemma AddFromStep(acc: Acc, names: seq<string>) returns (next: Acc)
    requires names != [] && AddFrom(acc, names).Success?
    ensures next == Push(acc, names[0], Classify(names[0]))
    ensures AddFrom(acc, names) == AddFrom(next, names[1..])
    ensures next.nextID == acc.nextID + 1
    ensures next.files == acc.files + [NewEntries(acc.nextID, names)[0]]
  {
    next := Push(acc, names[0], Classify(names[0]));
  }

  /** The entries of a batch are the first file's entry, then the rest's. */
  lemma NewEntriesHead(id: int, names: seq<string>) returns (entry: FileEntry)
    requires names != []
    ensures entry == NewEntries(id, names)[0]
    ensures NewEntries(id, names) == [entry] + NewEntries(id + 1, names[1..])
  {
    entry := NewEntries(id, names)[0];
  }

  lemma AppendAssoc<T>(a: seq<T>, b: seq<T>, c: seq<T>)
    ensures (a + b) + c == a + (b + c)
  {
  }

  /** On an accepted batch the technology file is kept when there is one,
      and is otherwise the batch's first LEF. */
  lemma {:induction false} AddFromTech(acc: Acc, names: seq<string>)
    requires AddFrom(acc, names).Success?
    ensures AddFrom(acc, names).value.techID ==
      (if acc.hasTech then acc.techID
       else if FirstLefName(names).Some? then acc.nextID + FirstLefName(names).value
       else acc.techID)
    decreases |names|
  {
    if names != [] {
      AddFromTech(Push(acc, names[0], Classify(names[0])), names[1..]);
    }
  }

  /** onFilesAdded rejects a batch exactly when one of its files is
      neither .def nor .lef, when it would leave two DEFs, or when it would
      take the list past ten files; an accepted batch is appended with ids
      nextID, nextID + 1, ..., and the first LEF of the batch becomes the
      technology file unless the list already has one. */
  lemma AddFilesOutcome(st: Files, names: seq<string>)
    ensures AddFiles(st, names).Failure? <==>
      !AllLefDef(names) || DefCount(names) + (if HasDef(st.files) then 1 else 0) >= 2 ||
      (names != [] && |st.files| + |names| > MaxFiles)
    ensures AddFiles(st, names).Success? ==>
      var r := AddFiles(st, names).value;
      r.nextID == st.nextID + |names| && r.files == st.files + NewEntries(st.nextID, names) &&
      r.techID == (if HasTechLef(st.files, st.techID) then st.techID
                   else if FirstLefName(names).Some? then st.nextID + FirstLefName(names).value
                   else st.techID)
  {
    var acc := Acc(st.nextID, st.files, st.techID, HasDef(st.files), HasTechLef(st.files, st.techID));
    AddFromRejects(acc, names);
    if AddFrom(acc, names).Success? {
      AddFromAppends(acc, names);
      AddFromTech(acc, names);
    }
  }

  // ---- The invariant of the list ----

  predicate IdsIncrease(files: seq<FileEntry>) {
    forall i, j :: 0 <= i < j < |files| ==> files[i].id < files[j].id
  }

  predicate IdsBelow(files: seq<FileEntry>, nextID: int) {
    forall i :: 0 <= i < |files| ==> 0 <= files[i].id < nextID
  }

  predicate AtMostOneDef(files: seq<FileEntry>) {
    forall i, j :: 0 <= i < j < |files| && files[i].kind == Def ==> files[j].kind != Def
  }

  /** Ids strictly increase along the list and lie in [0, nextID); there is
      at most one DEF; there are at most ten files. */
  predicate Wellformed(st: Files) {
    0 <= st.nextID && IdsIncrease(st.files) && IdsBelow(st.files, st.nextID) &&
    AtMostOneDef(st.files) && |st.files| <= MaxFiles
  }

  /** Each .def name of a batch counts towards DefCount, and two of them
      make it at least two. */
  lemma {:induction false} DefCountBounds(names: seq<string>)
    ensures forall i :: 0 <= i < |names| && Classify(names[i]) == DefName ==> DefCount(names) >= 1
    ensures forall i, j :: 0 <= i < j < |names| && Classify(names[i]) == DefName && Classify(names[j]) == DefName ==>
      DefCount(names) >= 2
    decreases |names|
  {
    if names != [] {
      var tail := names[1..];
      DefCountBounds(tail);
      assert forall i :: 0 < i < |names| ==> names[i] == tail[i - 1];
    }
  }

  /** Appending entries with fresh, consecutive ids keeps the ids
      increasing and below the new nextID. */
  lemma AppendIds(files: seq<FileEntry>, nextID: int, added: seq<FileEntry>)
    requires IdsIncrease(files) && IdsBelow(files, nextID)
    requires nextID >= 0
    requires forall k :: 0 <= k < |added| ==> added[k].id == nextID + k
    ensures IdsIncrease(files + added) && IdsBelow(files + added, nextID + |added|)
  {
    var all, n := files + added, |files|;
    forall i, j | 0 <= i < j < |all| ensures all[i].id < all[j].id {
      if j >= n {
        assert all[j] == added[j - n];
        if i >= n { assert all[i] == added[i - n]; } else { assert all[i] == files[i]; }
      } else {
        assert all[i] == files[i] && all[j] == files[j];
      }
    }
    forall i | 0 <= i < |all| ensures 0 <= all[i].id < nextID + |added| {
      if i >= n { assert all[i] == added[i - n]; } else { assert all[i] == files[i]; }
    }
  }

  /** Appending entries keeps at most one DEF when the list and the
      addition hold at most one between them. */
  lemma AppendDefs(files: seq<FileEntry>, added: seq<FileEntry>)
    requires AtMostOneDef(files) && AtMostOneDef(added)
    requires HasDef(files) ==> forall k :: 0 <= k < |added| ==> added[k].kind != Def
    ensures AtMostOneDef(files + added)
  {
    var all, n := files + added, |files|;
    forall i, j | 0 <= i < j < |all| && all[i].kind == Def ensures all[j].kind != Def {
      if j >= n {
        assert all[j] == added[j - n];
        if i >= n { assert all[i] == added[i - n]; } else { assert all[i] == files[i]; assert HasDef(files); }
      } else {
        assert all[i] == files[i] && all[j] == files[j];
      }
    }
  }

  /** onFilesAdded keeps the list well-formed. */
  lemma AddFilesWellformed(st: Files, names: seq<string>)
    requires Wellformed(st)
    requires AddFiles(st, names).Success?
    ensures Wellformed(AddFiles(st, names).value)
  {
    var acc := Acc(st.nextID, st.files, st.techID, HasDef(st.files), HasTechLef(st.files, st.techID));
    AddFromAppends(acc, names);
    AddFromRejects(acc, names);
    DefCountBounds(names);
    var added := NewEntries(st.nextID, names);
    AppendIds(st.files, st.nextID, added);
    assert AtMostOneDef(added) by {
      forall i, j | 0 <= i < j < |added| && added[i].kind == Def ensures added[j].kind != Def {
        assert Classify(names[i]) == DefName;
      }
    }
    if HasDef(st.files) {
      forall k | 0 <= k < |added| ensures added[k].kind != Def {
        assert Classify(names[k]) != DefName;
      }
    }
    AppendDefs(st.files, added);
  }

  // ---- onUploadStart ----

  /** The three flags of the scan in onUploadStart. */
  datatype Scan = Scan(hasDef: bool, hasTech: bool, hasLibrary: bool)

  /** The scan over the list, file by file. A second DEF, or a second file
      with the technology id, sets an alert and returns from the forEach
      callback, so the rest of that file's checks are skipped. */
  function StartScan(files: seq<FileEntry>, techID: int): Scan
  {
    if files == [] then Scan(false, false, false)
    else
      var s := StartScan(files[..|files| - 1], techID);
      var f := files[|files| - 1];
      if f.kind == Def && s.hasDef then s
      else
        var s1 := s.(hasDef := s.hasDef || f.kind == Def);
        if f.id == techID && s1.hasTech then s1
        else s1.(hasTech := s1.hasTech || f.id == techID, hasLibrary := s1.hasLibrary || f.isLibrary)
  }

  /** The list holds an entry, of any type, whose id is techID. */
  predicate HasTechFile(files: seq<FileEntry>, techID: int) {
    exists i :: 0 <= i < |files| && files[i].id == techID
  }

  predicate HasLibrary(files: seq<FileEntry>) {
    exists i :: 0 <= i < |files| && files[i].isLibrary
  }

  lemma LastFlags(files: seq<FileEntry>, techID: int)
    requires files != []
    ensures var init, f := files[..|files| - 1], files[|files| - 1];
      (HasDef(files) <==> HasDef(init) || f.kind == Def) &&
      (HasTechFile(files, techID) <==> HasTechFile(init, techID) || f.id == techID) &&
      (HasLibrary(files) <==> HasLibrary(init) || f.isLibrary)
  {
    assert files == files[..|files| - 1] + [files[|files| - 1]];
  }

  /** On a list with increasing ids and at most one DEF the skips never
      happen: the scan finds a DEF, a file with the technology id and a
      library file exactly when the list has them. */
  lemma {:induction false} StartScanFinds(files: seq<FileEntry>, techID: int)
    requires IdsIncrease(files) && AtMostOneDef(files)
    ensures StartScan(files, techID) == Scan(HasDef(files), HasTechFile(files, techID), HasLibrary(files))
  {
    if files != [] {
      var n := |files| - 1;
      var init, f := files[..n], files[n];
      assert forall k :: 0 <= k < n ==> init[k] == files[k];
      StartScanFinds(init, techID);
      LastFlags(files, techID);
    }
  }

  /** The alert onUploadStart leaves: the first missing part, or none when
      the upload starts. The alerts of the duplicate checks are always
      overwritten by one of these. */
  function StartAlert(s: Scan): (a: Option<string>)
    ensures a.None? <==> s.hasDef && s.hasTech && s.hasLibrary
    ensures !s.hasDef ==> a == Some(MissingDef)
    ensures s.hasDef && !s.hasTech ==> a == Some(MissingTech)
    ensures s.hasDef && s.hasTech && !s.hasLibrary ==> a == Some(MissingLibrary)
  {
    if !s.hasDef then Some(MissingDef)
    else if !s.hasTech then Some(MissingTech)
    else if !s.hasLibrary then Some(MissingLibrary)
    else None
  }

  // ---- onFileDelete ----

  /** prev.files.slice(0, ind) followed by prev.files.slice(ind + 1). */
  function Remove(files: seq<FileEntry>, ind: nat): (r: seq<FileEntry>)
    ensures ind < |files| ==> |r| == |files| - 1
    ensures ind >= |files| ==> r == files
    ensures forall k :: 0 <= k < |r| ==> r[k] == (if k < ind then files[k] else files[k + 1])
  {
    if ind < |files| then files[..ind] + files[ind + 1..] else files
  }

  /** The position of the first LEF of a list, if any. */
  function FirstLef(files: seq<FileEntry>): (r: Option<nat>)
    ensures r.Some? ==> r.value < |files| && files[r.value].kind == Lef
    ensures r.Some? ==> forall j :: 0 <= j < r.value ==> files[j].kind != Lef
    ensures r.None? ==> forall j :: 0 <= j < |files| ==> files[j].kind != Lef
    decreases |files|
  {
    if files == [] then None
    else if files[0].kind == Lef then Some(0)
    else match FirstLef(files[1..]) case None => None case Some(k) => Some(k + 1)
  }

  /** The technology id after a delete: kept while a file still has it,
      otherwise the first LEF's id, or -1 without a LEF. */
  function TechAfterDelete(files: seq<FileEntry>, techID: int): int {
    if HasTechFile(files, techID) then techID
    else match FirstLef(files) case Some(k) => files[k].id case None => -1
  }

  /** onFileDelete on a state. */
  function Delete(st: Files, ind: nat): Files {
    var files := Remove(st.files, ind);
    Files(st.nextID, files, TechAfterDelete(files, st.techID))
  }

  /** onFileDelete keeps the list well-formed, keeps the technology id
      while a file has it, and otherwise points it at a LEF of the list, or
      at -1 when there is none. */
  lemma DeleteWellformed(st: Files, ind: nat)
    requires Wellformed(st)
    ensures Wellformed(Delete(st, ind))
    ensures var r := Delete(st, ind);
      (HasTechFile(r.files, st.techID) ==> r.techID == st.techID) &&
      (!HasTechFile(r.files, st.techID) ==>
        (r.techID == -1 <==> forall k :: 0 <= k < |r.files| ==> r.files[k].kind != Lef) &&
        (r.techID != -1 ==> exists k :: 0 <= k < |r.files| && r.files[k].kind == Lef && r.files[k].id == r.techID))
  {
    var files := Remove(st.files, ind);
    RemoveIds(st.files, st.nextID, ind);
    RemoveDefs(st.files, ind);
    if !HasTechFile(files, st.techID) {
      match FirstLef(files)
      case Some(k) => assert files[k].id >= 0;
      case None =>
    }
  }

  lemma RemoveIds(files: seq<FileEntry>, nextID: int, ind: nat)
    requires IdsIncrease(files) && IdsBelow(files, nextID)
    ensures IdsIncrease(Remove(files, ind)) && IdsBelow(Remove(files, ind), nextID)
  {
    var r := Remove(files, ind);
    forall i, j | 0 <= i < j < |r| ensures r[i].id < r[j].id {
      assert r[i] == files[if i < ind then i else i + 1];
      assert r[j] == files[if j < ind then j else j + 1];
    }
  }

  lemma RemoveDefs(files: seq<FileEntry>, ind: nat)
    requires AtMostOneDef(files)
    ensures AtMostOneDef(Remove(files, ind))
  {
    var r := Remove(files, ind);
    forall i, j | 0 <= i < j < |r| && r[i].kind == Def ensures r[j].kind != Def {
      assert r[i] == files[if i < ind then i else i + 1];
      assert r[j] == files[if j < ind then j else j + 1];
    }
  }

  // ---- onSetTechFile and onSetLibraryFile ----

  /** onSetTechFile: checking a file's switch makes it the technology file;
      unchecking changes nothing. */
  function SetTech(st: Files, file: FileEntry, checked: bool): (r: Files)
    ensures r.files == st.files && r.nextID == st.nextID
    ensures checked ==> r.techID == file.id
    ensures checked ==> HasTechFile(st.files, file.id) ==> HasTechFile(r.files, r.techID)
    ensures !checked ==> r == st
  {
    if checked then st.(techID := file.id) else st
  }

  /** onSetLibraryFile: the slices around `ind` with the updated entry
      between them; past the end the entry is appended. */
  function SetLibrary(st: Files, ind: nat, file: FileEntry, checked: bool): (r: Files)
    ensures r.nextID == st.nextID && r.techID == st.techID
    ensures ind < |st.files| ==>
      |r.files| == |st.files| && r.files[ind] == file.(isLibrary := checked) &&
      forall k :: 0 <= k < |st.files| && k != ind ==> r.files[k] == st.files[k]
    ensures ind >= |st.files| ==> r.files == st.files + [file.(isLibrary := checked)]
  {
    var cut := if ind < |st.files| then ind else |st.files|;
    var rest := if ind + 1 <= |st.files| then st.files[ind + 1..] else [];
    Files(st.nextID, st.files[..cut] + [file.(isLibrary := checked)] + rest, st.techID)
  }

  /** Switching the library flag of a listed entry keeps the list
      well-formed. */
  lemma SetLibraryWellformed(st: Files, ind: nat, checked: bool)
    requires Wellformed(st) && ind < |st.files|
    ensures Wellformed(SetLibrary(st, ind, st.files[ind], checked))
  {
    var r := SetLibrary(st, ind, st.files[ind], checked);
    assert forall k :: 0 <= k < |r.files| ==> r.files[k].id == st.files[k].id && r.files[k].kind == st.files[k].kind;
  }

  // ---- The loops ----

  /** The scan at the start of onFilesAdded, stopping once both flags are
      set. */
  method Prescan(files: seq<FileEntry>, techID: int) returns (hasDef: bool, hasTech: bool)
    ensures hasDef == HasDef(files) && hasTech == HasTechLef(files, techID)
  {
    hasDef, hasTech := false, false;
    var i := 0;
    while i < |files|
      invariant 0 <= i <= |files|
      invariant hasDef == HasDef(files[..i]) && hasTech == HasTechLef(files[..i], techID)
    {
      assert files[..i + 1] == files[..i] + [files[i]];
      if hasDef && hasTech {
        assert HasDef(files[..i + 1]) by {
          var k :| 0 <= k < i && files[..i][k].kind == Def;
          assert files[..i + 1][k] == files[..i][k];
        }
        assert HasTechLef(files[..i + 1], techID) by {
          var k :| 0 <= k < i && files[..i][k].kind != Def && files[..i][k].id == techID;
          assert files[..i + 1][k] == files[..i][k];
        }
      } else if files[i].kind == Def {
        hasDef := true;
      } else if techID == files[i].id {
        hasTech := true;
      }
      i := i + 1;
    }
    assert files[..i] == files;
  }

  /** The loop over a dropped batch. */
  method AddBatch(start: Acc, names: seq<string>) returns (r: Result<Acc, string>)
    ensures r == AddFrom(start, names)
  {
    var acc := start;
    var k := 0;
    while k < |names|
      invariant 0 <= k <= |names|
      invariant AddFrom(start, names) == AddFrom(acc, names[k..])
    {
      var name := names[k];
      assert names[k..][0] == name && names[k..][1..] == names[k + 1..];
      var ext := Classify(name);
      if ext == DefName {
        if acc.hasDef {
          return Failure(OnlyOneDef);
        }
      } else if ext != LefName {
        return Failure(OnlyLefDef);
      }
      var next := Push(acc, name, ext);
      if |next.files| > MaxFiles {
        return Failure(TooManyFiles);
      }
      acc := next;
      k := k + 1;
    }
    r := Success(acc);
  }

  /** The forEach of onUploadStart. */
  method ScanFiles(files: seq<FileEntry>, techID: int) returns (s: Scan)
    ensures s == StartScan(files, techID)
  {
    s := Scan(false, false, false);
    var i := 0;
    while i < |files|
      invariant 0 <= i <= |files|
      invariant s == StartScan(files[..i], techID)
    {
      assert files[..i + 1][..i] == files[..i];
      var file := files[i];
      if file.kind == Def {
        if s.hasDef {
          i := i + 1;
          continue;
        }
        s := s.(hasDef := true);
      }
      if techID == file.id {
        if s.hasTech {
          i := i + 1;
          continue;
        }
        s := s.(hasTech := true);
      }
      if file.isLibrary {
        s := s.(hasLibrary := true);
      }
      i := i + 1;
    }
    assert files[..i] == files;
  }

  /** The loop of onFileDelete: it looks for the technology file and
      remembers the first LEF it passes on the way. */
  method NewTechID(files: seq<FileEntry>, techID: int) returns (id: int)
    ensures id == TechAfterDelete(files, techID)
  {
    var firstLef: Option<FileEntry> := None;
    var techFound := false;
    var i := 0;
    while i < |files|
      invariant 0 <= i <= |files|
      invariant !techFound && !HasTechFile(files[..i], techID)
      invariant firstLef.None? ==> forall k :: 0 <= k < i ==> files[k].kind != Lef
      invariant firstLef.Some? ==> FirstLef(files).Some? && firstLef.value == files[FirstLef(files).value]
    {
      if firstLef.None? && files[i].kind == Lef {
        firstLef := Some(files[i]);
      }
      if techID == files[i].id {
        techFound := true;
        break;
      }
      assert files[..i + 1] == files[..i] + [files[i]];
      i := i + 1;
    }
    if techFound {
      return techID;
    }
    assert files[..i] == files;
    id := if firstLef.Some? then firstLef.value.id else -1;
  }

  // ---- The component's state ----

  class Uploader {
    var nextID: int
    var files: seq<FileEntry>
    var techID: int
    /** The alert shown, if any. */
    var alert: Option<string>
    var isUploading: bool

    function State(): Files
      reads this
    {
      Files(nextID, files, techID)
    }

    constructor ()
      ensures State() == Files(0, [], -1) && alert.None? && !isUploading
      ensures Wellformed(State())
    {
      nextID, files, techID := 0, [], -1;
      alert, isUploading := None, false;
    }

    /** onFilesAdded: a rejected batch leaves the list as it was and shows
        the alert of the file that stopped it; an accepted one clears the
        alert. */
    method FilesAdded(names: seq<string>)
      modifies this`nextID, this`files, this`techID, this`alert
      ensures AddFiles(old(State()), names).Failure? ==>
        State() == old(State()) && alert == Some(AddFiles(old(State()), names).error)
      ensures AddFiles(old(State()), names).Success? ==>
        State() == AddFiles(old(State()), names).value && alert.None?
    {
      var hasDef, hasTech := Prescan(files, techID);
      var r := AddBatch(Acc(nextID, files, techID, hasDef, hasTech), names);
      match r
      case Failure(msg) =>
        alert := Some(msg);
      case Success(acc) =>
        nextID, files, techID := acc.nextID, acc.files, acc.techID;
        alert := None;
    }

    /** onUploadStart: the list is left as it is; the upload starts exactly
        when the scan finds a DEF, a file with the technology id and a
        library file, which on a well-formed list is when the list has
        them. */
    method UploadStart() returns (upload: bool)
      modifies this`alert, this`isUploading
      ensures var s := StartScan(files, techID);
        (upload <==> s.hasDef && s.hasTech && s.hasLibrary) && alert == StartAlert(s)
      ensures Wellformed(State()) ==>
        (upload <==> HasDef(files) && HasTechFile(files, techID) && HasLibrary(files))
      ensures isUploading == (upload || old(isUploading))
    {
      var s := ScanFiles(files, techID);
      if Wellformed(State()) {
        StartScanFinds(files, techID);
      }
      if !s.hasDef {
        alert := Some(MissingDef);
        return false;
      }
      if !s.hasTech {
        alert := Some(MissingTech);
        return false;
      }
      if !s.hasLibrary {
        alert := Some(MissingLibrary);
        return false;
      }
      alert := None;
      isUploading := true;
      upload := true;
    }

    method SetTechFile(file: FileEntry, checked: bool)
      modifies this`techID
      ensures State() == SetTech(old(State()), file, checked)
    {
      if checked {
        techID := file.id;
      }
    }

    method SetLibraryFile(ind: nat, file: FileEntry, checked: bool)
      modifies this`files
      ensures State() == SetLibrary(old(State()), ind, file, checked)
    {
      var updated := file.(isLibrary := checked);
      if ind < |files| {
        files := files[..ind] + [updated] + files[ind + 1..];
      } else {
        files := files + [updated];
      }
    }

    method FileDelete(ind: nat)
      modifies this`files, this`techID
      ensures State() == Delete(old(State()), ind)
    {
      var newFiles := if ind < |files| then files[..ind] + files[ind + 1..] else files;
      var id := NewTechID(newFiles, techID);
      files, techID := newFiles, id;
    }
  }
}
