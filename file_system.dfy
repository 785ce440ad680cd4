/**
 * The file system as `save_file` and `open_file` see it: a map from
 * absolute path to the text a file holds (encoding and decoding are taken
 * to be the identity), and the four primitives `save_file` performs on it:
 * `tempfile.mkstemp`, writing through the returned descriptor, `os.replace`
 * and `os.unlink`. Every primitive that can fail takes its failure as a
 * parameter.
 */
module FileSystemModel {
  import opened Wrappers
  import opened Paths

  /** The exceptions the file operations raise. */
  datatype Error = ValueError | FileNotFoundError | PermissionError | FileExistsError | OSError

  /** The file `mkstemp` creates in `dir` for the random name `name` (prefix "tmp", no suffix). */
  function TempPath(dir: string, name: string): string {
    JoinPath(dir, "tmp" + name)
  }

  /**
   * The attempt at which `mkstemp` succeeds: the index of the first random
   * name whose file does not exist yet, or `|names|` when every attempt
   * collides.
   */
  function FirstFree(files: map<string, string>, dir: string, names: seq<string>): (k: nat)
    ensures k <= |names|
    ensures forall j :: 0 <= j < k ==> TempPath(dir, names[j]) in files
    ensures k < |names| ==> TempPath(dir, names[k]) !in files
  {
    if names == [] then 0
    else if TempPath(dir, names[0]) !in files then 0
    else 1 + FirstFree(files, dir, names[1..])
  }

  /** What a file holds after writing `content` when the write fails after `failAfter` characters. */
  function Written(content: string, failAfter: Option<nat>): (w: string)
    ensures w <= content
    ensures failAfter.None? ==> w == content
  {
    if failAfter.Some? && failAfter.value < |content| then content[..failAfter.value] else content
  }

  /** `os.replace(src, dst)`: `dst` takes `src`'s content and `src` is gone; replacing a file by itself changes nothing. */
  function Replaced(files: map<string, string>, src: string, dst: string): (r: map<string, string>)
    requires src in files
    ensures dst in r && r[dst] == files[src]
    ensures src != dst ==> src !in r
    ensures forall p :: p != src && p != dst ==> (p in r <==> p in files) && (p in r ==> r[p] == files[p])
  {
    if src == dst then files else (files - {src})[dst := files[src]]
  }

  class FileSystem {
    var files: map<string, string>

    constructor (initial: map<string, string>)
      ensures files == initial
    {
      files := initial;
    }

    /**
     * `tempfile.mkstemp(dir=dir)`: try the random names in turn and create,
     * empty, the first whose file does not exist; fail with
     * `FileExistsError` when all are taken. `denied` stands for a directory
     * the process cannot create files in.
     */
    method MakeTemp(dir: string, names: seq<string>, denied: bool) returns (r: Result<string, Error>)
      modifies this
      ensures denied ==> r == Failure(PermissionError) && files == old(files)
      ensures !denied && FirstFree(old(files), dir, names) == |names| ==>
        r == Failure(FileExistsError) && files == old(files)
      ensures !denied && FirstFree(old(files), dir, names) < |names| ==>
        var p := TempPath(dir, names[FirstFree(old(files), dir, names)]);
        r == Success(p) && p !in old(files) && files == old(files)[p := ""]
    {
      if denied {
        return Failure(PermissionError);
      }
      var k := 0;
      while k < |names|
        invariant k <= FirstFree(files, dir, names)
        invariant files == old(files)
      {
        var p := TempPath(dir, names[k]);
        if p !in files {
          files := files[p := ""];
          return Success(p);
        }
        k := k + 1;
      }
      return Failure(FileExistsError);
    }

    /** Write `content` to the file at `path`; a write that fails leaves only a prefix behind. */
    method Write(path: string, content: string, failAfter: Option<nat>) returns (r: Outcome<Error>)
      modifies this
      ensures files == old(files)[path := Written(content, failAfter)]
      ensures r == if failAfter.Some? then Fail(OSError) else Pass
    {
      files := files[path := Written(content, failAfter)];
      r := if failAfter.Some? then Fail(OSError) else Pass;
    }

    /** `os.replace(src, dst)`, atomic: either all of it happens or none. */
    method Replace(src: string, dst: string, denied: bool) returns (r: Outcome<Error>)
      modifies this
      ensures denied ==> r == Fail(PermissionError) && files == old(files)
      ensures !denied && src !in old(files) ==> r == Fail(FileNotFoundError) && files == old(files)
      ensures !denied && src in old(files) ==> r == Pass && files == Replaced(old(files), src, dst)
    {
      if denied {
        return Fail(PermissionError);
      }
      if src !in files {
        return Fail(FileNotFoundError);
      }
      files := Replaced(files, src, dst);
      return Pass;
    }

    /** `os.unlink(path)`. */
    method Unlink(path: string, fails: bool) returns (r: Outcome<Error>)
      modifies this
      ensures fails ==> r == Fail(OSError) && files == old(files)
      ensures !fails && path !in old(files) ==> r == Fail(FileNotFoundError) && files == old(files)
      ensures !fails && path in old(files) ==> r == Pass && files == old(files) - {path}
    {
      if fails {
        return Fail(OSError);
      }
      if path !in files {
        return Fail(FileNotFoundError);
      }
      files := files - {path};
      return Pass;
    }
  }
}
