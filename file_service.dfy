/**
 * `FileService`: choosing an encoding for bytes read from disk, the atomic
 * save protocol (temp file in the target's directory, write, `os.replace`,
 * clean up on failure) and opening a file into a `TextDocument`.
 */
module FileService {
  import opened Wrappers
  import opened Paths
  import opened FileSystemModel
  import opened TextDocumentModel

  const EncodingFallback: string := "utf-8"
  const EncodingMinConfidence: real := 0.7

  /** What the encoding detector (`chardet.detect`) reports: a name, possibly missing, and a confidence. */
  datatype Detection = Detection(encoding: Option<string>, confidence: real)

  /** A detection `_detect_encoding` trusts: a non-empty name with confidence at least 0.7. */
  predicate Confident(d: Detection) {
    d.encoding.Some? && d.encoding.value != [] && d.confidence >= EncodingMinConfidence
  }

  function LowerChar(c: char): char {
    if 'A' <= c <= 'Z' then (c - 'A' + 'a') as char else c
  }

  /**
   * `s.lower()` on the ASCII letters; no other character lower-cases to a
   * letter of "ascii", so this decides `s.lower() == "ascii"` exactly.
   */
  function AsciiLower(s: string): (r: string)
    ensures |r| == |s|
    ensures forall i :: 0 <= i < |s| ==> r[i] == LowerChar(s[i])
  {
    seq(|s|, i requires 0 <= i < |s| => LowerChar(s[i]))
  }

  /** `s` is "ascii" in some mix of upper and lower case letters. */
  predicate SpellsAscii(s: string) {
    |s| == 5 && forall i :: 0 <= i < 5 ==> s[i] == "ascii"[i] || s[i] == "ASCII"[i]
  }

  /** The comparison `s.lower() == "ascii"` holds exactly for the case variants of "ascii". */
  lemma {:induction false} AsciiLowerIsAscii(s: string)
    ensures AsciiLower(s) == "ascii" <==> SpellsAscii(s)
  {
    if AsciiLower(s) == "ascii" {
      forall i | 0 <= i < 5 ensures s[i] == "ascii"[i] || s[i] == "ASCII"[i] {
        assert LowerChar(s[i]) == "ascii"[i];
      }
    }
    if SpellsAscii(s) {
      assert forall i :: 0 <= i < 5 ==> AsciiLower(s)[i] == "ascii"[i];
    }
  }

  /**
   * `_detect_encoding`, given the detector's report, or `None` when the
   * detector is not installed (the `ImportError` path).
   */
  function DetectEncoding(report: Option<Detection>): (enc: string)
    ensures enc != []
    ensures enc == EncodingFallback ||
      (report.Some? && report.value.encoding.Some? && enc == report.value.encoding.value)
  {
    if report.Some? && Confident(report.value) then
      var name := report.value.encoding.value;
      if AsciiLower(name) == "ascii" then "utf-8" else name
    else
      EncodingFallback
  }

  /** Without a detector, without a name or below the threshold, the answer is utf-8. */
  lemma FallbackWhenUnsure(report: Option<Detection>)
    requires report.None? || !Confident(report.value)
    ensures DetectEncoding(report) == "utf-8"
  {
  }

  /**
   * A confident "ascii", in any letter case, is reported as utf-8; a
   * confident name becomes "utf-8" only that way or by being "utf-8" itself.
   */
  lemma {:induction false} AsciiBecomesUtf8(name: string, confidence: real)
    requires name != [] && confidence >= 0.7
    ensures SpellsAscii(name) ==> DetectEncoding(Some(Detection(Some(name), confidence))) == "utf-8"
    ensures DetectEncoding(Some(Detection(Some(name), confidence))) == "utf-8" <==> SpellsAscii(name) || name == "utf-8"
  {
    AsciiLowerIsAscii(name);
  }

  /** Any other confident name is returned as the detector spelled it, not lower-cased. */
  lemma {:induction false} ConfidentNameVerbatim(name: string, confidence: real)
    requires name != [] && confidence >= 0.7 && !SpellsAscii(name)
    ensures DetectEncoding(Some(Detection(Some(name), confidence))) == name
  {
    AsciiLowerIsAscii(name);
  }

  /** The threshold is inclusive: exactly 0.7 is trusted, anything less is not. */
  lemma {:induction false} ThresholdIsInclusive(name: string, confidence: real)
    requires name != [] && !SpellsAscii(name)
    ensures DetectEncoding(Some(Detection(Some(name), 0.7))) == name
    ensures confidence < 0.7 ==> DetectEncoding(Some(Detection(Some(name), confidence))) == "utf-8"
  {
    AsciiLowerIsAscii(name);
  }

  /** "ASCII" is normalised, while "Windows-1252" keeps its capitals. */
  lemma {:induction false} DetectionExamples()
    ensures DetectEncoding(Some(Detection(Some("ASCII"), 0.99))) == "utf-8"
    ensures DetectEncoding(Some(Detection(Some("Windows-1252"), 0.73))) == "Windows-1252"
    ensures DetectEncoding(Some(Detection(Some("utf-8"), 0.5))) == "utf-8"
  {
    assert AsciiLower("ASCII") == "ascii";
    assert AsciiLower("Windows-1252")[0] == 'w';
  }

  /** The report the optional detector gives on `raw`. */
  function Report(detector: Option<string -> Detection>, raw: string): Option<Detection> {
    if detector.Some? then Some(detector.value(raw)) else None
  }

  // ----- open_file -----

  /**
   * `open_file`: read the file at `filepath` (relative paths resolve
   * against `cwd`), pick its encoding and wrap it in an unmodified
   * `TextDocument`. `readDenied` stands for a file the process may not read.
   */
  function OpenFile(
    files: map<string, string>, cwd: string, filepath: string,
    readDenied: bool, detector: Option<string -> Detection>): (r: Result<TextDocument, Error>)
    ensures r.Success? <==> filepath != [] && AbsPath(cwd, filepath) in files && !readDenied
    ensures (filepath == [] || AbsPath(cwd, filepath) !in files) ==> r == Failure(FileNotFoundError)
    ensures filepath != [] && AbsPath(cwd, filepath) in files && readDenied ==> r == Failure(PermissionError)
    ensures r.Success? ==>
      && r.value.filepath == filepath
      && r.value.content == files[AbsPath(cwd, filepath)]
      && r.value.encoding == DetectEncoding(Report(detector, files[AbsPath(cwd, filepath)]))
      && !r.value.modified
  {
    var path := AbsPath(cwd, filepath);
    if filepath == [] || path !in files then Failure(FileNotFoundError)
    else if readDenied then Failure(PermissionError)
    else
      var raw := files[path];
      var encoding := DetectEncoding(Report(detector, raw));
      Success(TextDocument(filepath, raw, encoding))
  }

  // ----- save_file -----

  /** Where each step of a save can fail. */
  datatype SaveFaults = SaveFaults(
    createDenied: bool,
    writeFailsAfter: Option<nat>,
    replaceDenied: bool,
    unlinkFails: bool)

  const NoFaults := SaveFaults(false, None, false, false)

  /** The end of one save: what it raised, the file system after it, and the temp file it created. */
  datatype SaveRun = SaveRun(outcome: Outcome<Error>, files: map<string, string>, tmp: Option<string>)

  /** `os.path.dirname(os.path.abspath(filepath)) or "."`. */
  function SaveDir(cwd: string, filepath: string): (dir: string)
    ensures dir != []
    ensures dir == "." || dir <= AbsPath(cwd, filepath)
  {
    var d := DirName(AbsPath(cwd, filepath));
    if d == [] then "." else d
  }

  /**
   * The `try` block of `save_file` and its handler, from the file system
   * `created` that already holds the empty temp file `tmp`: write the
   * content into it and replace `target` with it. When either fails,
   * remove the temp file (an error doing so is swallowed) and raise the
   * original error.
   */
  function WriteAndReplace(
    created: map<string, string>, tmp: string, target: string,
    content: string, faults: SaveFaults): (r: SaveRun)
    ensures r.tmp == Some(tmp)
    ensures r.outcome.Pass? <==> faults.writeFailsAfter.None? && !faults.replaceDenied
    ensures r.outcome.Pass? ==> target in r.files && r.files[target] == content
    ensures r.outcome.Pass? ==> AgreeOutside(r.files, created, {tmp, target})
    ensures r.outcome.Fail? ==> AgreeOutside(r.files, created, {tmp})
    ensures r.outcome.Fail? && !faults.unlinkFails ==> tmp !in r.files
  {
    var written := created[tmp := Written(content, faults.writeFailsAfter)];
    if faults.writeFailsAfter.None? && !faults.replaceDenied then
      SaveRun(Pass, Replaced(written, tmp, target), Some(tmp))
    else
      var err := if faults.writeFailsAfter.Some? then OSError else PermissionError;
      SaveRun(Fail(err), if faults.unlinkFails then written else written - {tmp}, Some(tmp))
  }

  /** `a` and `b` hold the same files with the same contents, except perhaps at the paths in `skip`. */
  ghost predicate AgreeOutside(a: map<string, string>, b: map<string, string>, skip: set<string>) {
    forall p :: p !in skip ==> (p in a <==> p in b) && (p in a ==> a[p] == b[p])
  }

  /**
   * What `save_file` does to the file system: refuse an empty path, create
   * a temp file next to the target, then write and replace.
   */
  function Save(
    files: map<string, string>, cwd: string, doc: TextDocument,
    names: seq<string>, faults: SaveFaults): (r: SaveRun)
    ensures !doc.Validate() ==> r.outcome == Fail(ValueError)
    ensures r.tmp.None? ==> r.outcome.Fail? && r.files == files
    ensures r.outcome.Pass? ==> AbsPath(cwd, doc.filepath) in r.files && r.files[AbsPath(cwd, doc.filepath)] == doc.content
  {
    if !doc.Validate() then SaveRun(Fail(ValueError), files, None)
    else if faults.createDenied then SaveRun(Fail(PermissionError), files, None)
    else
      var dir := SaveDir(cwd, doc.filepath);
      var k := FirstFree(files, dir, names);
      if k == |names| then SaveRun(Fail(FileExistsError), files, None)
      else
        var tmp := TempPath(dir, names[k]);
        WriteAndReplace(files[tmp := ""], tmp, AbsPath(cwd, doc.filepath), doc.content, faults)
  }

  /** `save_file`, step by step on the file system. */
  method SaveFile(
    fs: FileSystem, cwd: string, doc: TextDocument,
    names: seq<string>, faults: SaveFaults) returns (r: Outcome<Error>)
    modifies fs
    ensures r == Save(old(fs.files), cwd, doc, names, faults).outcome
    ensures fs.files == Save(old(fs.files), cwd, doc, names, faults).files
  {
    if !doc.Validate() {
      return Fail(ValueError);
    }
    var dir := DirName(AbsPath(cwd, doc.filepath));
    if dir == [] {
      dir := ".";
    }
    assert dir == SaveDir(cwd, doc.filepath);
    var made := fs.MakeTemp(dir, names, faults.createDenied);
    if made.Failure? {
      return Fail(made.error);
    }
    r := TryWriteAndReplace(fs, made.value, AbsPath(cwd, doc.filepath), doc.content, faults);
  }

  /** The `try` block and its handler, on the file system. */
  method TryWriteAndReplace(
    fs: FileSystem, tmp: string, target: string,
    content: string, faults: SaveFaults) returns (r: Outcome<Error>)
    modifies fs
    ensures r == WriteAndReplace(old(fs.files), tmp, target, content, faults).outcome
    ensures fs.files == WriteAndReplace(old(fs.files), tmp, target, content, faults).files
  {
    r := fs.Write(tmp, content, faults.writeFailsAfter);
    if r.Pass? {
      r := fs.Replace(tmp, target, faults.replaceDenied);
    }
    if r.Fail? {
      var _ := fs.Unlink(tmp, faults.unlinkFails);
    }
  }

  /** An empty path is refused with `ValueError` before anything is touched. */
  lemma SaveRejectsEmptyPath(files: map<string, string>, cwd: string, doc: TextDocument,
                             names: seq<string>, faults: SaveFaults)
    requires doc.filepath == []
    ensures Save(files, cwd, doc, names, faults) == SaveRun(Fail(ValueError), files, None)
  {
  }

  /**
   * A save succeeds exactly when the path is non-empty, a temp file can be
   * created and neither the write nor the replace fails.
   */
  lemma SaveSucceedsIff(files: map<string, string>, cwd: string, doc: TextDocument,
                        names: seq<string>, faults: SaveFaults)
    ensures Save(files, cwd, doc, names, faults).outcome.Pass? <==>
      && doc.Validate()
      && !faults.createDenied
      && FirstFree(files, SaveDir(cwd, doc.filepath), names) < |names|
      && faults.writeFailsAfter.None?
      && !faults.replaceDenied
  {
  }

  /** A save that got as far as creating a temp file used the first free name in the target's directory. */
  lemma {:induction false} SaveTemp(files: map<string, string>, cwd: string, doc: TextDocument,
                                    names: seq<string>, faults: SaveFaults)
    requires Save(files, cwd, doc, names, faults).tmp.Some?
    ensures doc.Validate() && !faults.createDenied
    ensures FirstFree(files, SaveDir(cwd, doc.filepath), names) < |names|
    ensures var tmp := TempPath(SaveDir(cwd, doc.filepath), names[FirstFree(files, SaveDir(cwd, doc.filepath), names)]);
      && Save(files, cwd, doc, names, faults).tmp == Some(tmp)
      && tmp !in files
      && Save(files, cwd, doc, names, faults) ==
         WriteAndReplace(files[tmp := ""], tmp, AbsPath(cwd, doc.filepath), doc.content, faults)
  {
  }

  /** Writing into a fresh file and moving it onto `target` amounts to storing the content at `target`. */
  lemma {:induction false} ReplaceFresh(files: map<string, string>, tmp: string, target: string, content: string)
    requires tmp !in files
    ensures Replaced(files[tmp := ""][tmp := content], tmp, target) == files[target := content]
  {
    var written := files[tmp := ""][tmp := content];
    if tmp != target {
      assert written - {tmp} == files;
    }
  }

  /** Removing a file created fresh restores the file system it was created in. */
  lemma {:induction false} UnlinkFresh(files: map<string, string>, tmp: string, content: string)
    requires tmp !in files
    ensures files[tmp := ""][tmp := content] - {tmp} == files
  {
  }

  /**
   * After a successful save the target holds exactly the document's
   * content, every other file is as before, and no temp file is left
   * (unless the temp name picked was the target's own).
   */
  lemma {:induction false} SaveSuccess(files: map<string, string>, cwd: string, doc: TextDocument,
                                       names: seq<string>, faults: SaveFaults)
    requires Save(files, cwd, doc, names, faults).outcome.Pass?
    ensures var run := Save(files, cwd, doc, names, faults);
      && run.files == files[AbsPath(cwd, doc.filepath) := doc.content]
      && run.tmp.Some?
      && (run.tmp.value == AbsPath(cwd, doc.filepath) || run.tmp.value !in run.files)
  {
    var run := Save(files, cwd, doc, names, faults);
    assert run.tmp.Some?;
    SaveTemp(files, cwd, doc, names, faults);
    var tmp := run.tmp.value;
    assert faults.writeFailsAfter.None?;
    ReplaceFresh(files, tmp, AbsPath(cwd, doc.filepath), doc.content);
  }

  /**
   * A failed save raises and changes no file but its own temp file, which
   * is gone too unless removing it failed; in particular the target keeps
   * its old content.
   */
  lemma {:induction false} SaveFailure(files: map<string, string>, cwd: string, doc: TextDocument,
                                       names: seq<string>, faults: SaveFaults)
    requires Save(files, cwd, doc, names, faults).outcome.Fail?
    ensures var run := Save(files, cwd, doc, names, faults);
      && (run.tmp.None? ==> run.files == files)
      && (run.tmp.Some? ==> run.tmp.value !in files && run.files - {run.tmp.value} == files)
      && (!faults.unlinkFails ==> run.files == files)
  {
    var run := Save(files, cwd, doc, names, faults);
    if run.tmp.Some? {
      SaveTemp(files, cwd, doc, names, faults);
      UnlinkFresh(files, run.tmp.value, Written(doc.content, faults.writeFailsAfter));
    }
  }

  /** The error a failed save raises is the one from the step that failed. */
  lemma SaveRaisesFirstError(files: map<string, string>, cwd: string, doc: TextDocument,
                             names: seq<string>, faults: SaveFaults)
    requires doc.Validate()
    ensures faults.createDenied ==> Save(files, cwd, doc, names, faults).outcome == Fail(PermissionError)
    ensures !faults.createDenied && FirstFree(files, SaveDir(cwd, doc.filepath), names) < |names| ==>
      && (faults.writeFailsAfter.Some? ==> Save(files, cwd, doc, names, faults).outcome == Fail(OSError))
      && (faults.writeFailsAfter.None? && faults.replaceDenied ==>
            Save(files, cwd, doc, names, faults).outcome == Fail(PermissionError))
  {
  }

  /** A random name that holds no '/' makes a temp file name that holds none either. */
  lemma {:induction false} TempNameHasNoSlash(name: string)
    requires HasNoSlash(name)
    ensures HasNoSlash("tmp" + name)
  {
    forall i | 0 <= i < |"tmp" + name| ensures ("tmp" + name)[i] != '/' {
      if i >= 3 {
        assert ("tmp" + name)[i] == name[i - 3];
      }
    }
  }

  /** The temp file is created in the target's own directory, so the replace stays on one file system. */
  lemma {:induction false} TempBesideTarget(files: map<string, string>, cwd: string, doc: TextDocument,
                                            names: seq<string>, faults: SaveFaults)
    requires IsAbsolute(cwd)
    requires forall k :: 0 <= k < |names| ==> HasNoSlash(names[k])
    ensures var run := Save(files, cwd, doc, names, faults);
      run.tmp.Some? ==> DirName(run.tmp.value) == DirName(AbsPath(cwd, doc.filepath))
  {
    if Save(files, cwd, doc, names, faults).tmp.Some? {
      SaveTemp(files, cwd, doc, names, faults);
      TempDirIsTargetDir(cwd, doc.filepath, names[FirstFree(files, SaveDir(cwd, doc.filepath), names)]);
    }
  }

  /** A temp file named from a slash-free name lies in the target's directory. */
  lemma {:induction false} TempDirIsTargetDir(cwd: string, filepath: string, name: string)
    requires IsAbsolute(cwd) && HasNoSlash(name)
    ensures DirName(TempPath(SaveDir(cwd, filepath), name)) == DirName(AbsPath(cwd, filepath))
  {
    var target := AbsPath(cwd, filepath);
    var dir := DirName(target);
    assert dir != [] by {
      AbsoluteHasDirName(target);
    }
    assert SaveDir(cwd, filepath) == dir;
    TempNameHasNoSlash(name);
    DirNameOfJoin(dir, "tmp" + name);
  }

  /**
   * Saving a document and opening the same path again gives back its
   * content, unmodified, under the encoding the detector picks for it.
   */
  lemma {:induction false} SaveThenOpen(files: map<string, string>, cwd: string, doc: TextDocument,
                                        names: seq<string>, faults: SaveFaults,
                                        detector: Option<string -> Detection>)
    requires Save(files, cwd, doc, names, faults).outcome.Pass?
    ensures OpenFile(Save(files, cwd, doc, names, faults).files, cwd, doc.filepath, false, detector) ==
      Success(TextDocument(doc.filepath, doc.content, DetectEncoding(Report(detector, doc.content))))
  {
    SaveSuccess(files, cwd, doc, names, faults);
  }
}
