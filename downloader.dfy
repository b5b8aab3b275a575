/**
 * DownloadURL (src/request/request.go:73-124): fetch one URL with status
 * checking, resolve the destination path, skip an existing non-empty file,
 * otherwise create the file and copy the body into it, removing the file again
 * when the copy fails.
 *
 * The disk is an abstract map from paths to file contents; whether os.Create
 * and io.Copy fail is an input. Go panics are a result of their own.
 */
module Downloader {
  import opened Wrappers
  import opened GoStrings
  import opened GoFilepath
  import opened Dispatcher

  /** The helpers of the utils and net/url packages that path resolution calls; their definitions are not modelled. */
  datatype PathHelpers = PathHelpers(
    removeExtFromFilename: string -> string,     // utils.RemoveExtFromFilename
    getLastPartOfURL: string -> string,          // utils.GetLastPartOfURL
    pathUnescape: string -> Option<string>)      // url.PathUnescape; None is its error

  /** Whether the disk operations of one download fail. */
  datatype DiskEnv = DiskEnv(
    createFails: bool,                           // os.Create returns an error
    copyFailsAfter: Option<nat>,                 // io.Copy fails after writing this many bytes
    removeFails: bool)                           // os.Remove returns an error, which the code ignores

  /** Everything one download runs against. */
  datatype JobWorld = JobWorld(net: Environment, disk: DiskEnv)

  /** Why a download panics. */
  datatype PanicReason =
    | NilResponse       // res.Body of a nil response (line 82)
    | UnescapeFailed    // panic(err) after url.PathUnescape (line 89)
    | CreateFailed      // panic(err) after os.Create (line 109)

  /** How DownloadURL ends: it returns an error value (nil or not), or it panics. */
  datatype DownloadResult = Returned(error: Option<Error>) | Panicked(reason: PanicReason)

  type Files = map<string, seq<byte>>

  // ---------------------------------------------------------------------------
  // Destination path (request.go:84-99)

  /**
   * The path the body is written to. A destination without extension is a
   * directory: the file name comes from the unescaped final URL. A destination
   * with an extension is the file itself, with its extension lower-cased.
   * None is the panic of a failed unescape.
   */
  function ResolvePath(filePath: string, responseURL: string, h: PathHelpers): (r: Option<string>)
    ensures r.None? <==> Ext(filePath) == [] && h.pathUnescape(responseURL).None?
  {
    if Ext(filePath) == [] then
      match h.pathUnescape(responseURL)
      case None => None
      case Some(unescaped) =>
        var filename := h.getLastPartOfURL(unescaped);
        var filenameWithoutExt := h.removeExtFromFilename(filename);
        Some(Join(filePath, filenameWithoutExt + ToLower(Ext(filename))))
    else
      Some(h.removeExtFromFilename(filePath) + ToLower(Ext(filePath)))
  }

  /**
   * An explicit file path keeps its own extension, lower-cased, whatever the
   * response URL is, and whatever RemoveExtFromFilename does.
   */
  lemma ExplicitPathKeepsOwnExtension(filePath: string, responseURL: string, otherURL: string, h: PathHelpers)
    requires Ext(filePath) != []
    ensures ResolvePath(filePath, responseURL, h).Some?
    ensures Ext(ResolvePath(filePath, responseURL, h).value) == ToLower(Ext(filePath))
    ensures ResolvePath(filePath, responseURL, h) == ResolvePath(filePath, otherURL, h)
  {
    LowerExtension(Ext(filePath));
    ExtOfAppendedExtension(h.removeExtFromFilename(filePath), ToLower(Ext(filePath)));
  }

  /**
   * A directory destination gets a file named after the last part of the
   * unescaped response URL, whose extension (when it has one) is the URL's,
   * lower-cased.
   */
  lemma DirectoryTakesResponseExtension(filePath: string, responseURL: string, h: PathHelpers)
    requires Ext(filePath) == [] && h.pathUnescape(responseURL).Some?
    ensures
      var filename := h.getLastPartOfURL(h.pathUnescape(responseURL).value);
      var r := ResolvePath(filePath, responseURL, h);
      && r.Some?
      && (Ext(filename) != [] ==> Ext(r.value) == ToLower(Ext(filename)))
  {
    var filename := h.getLastPartOfURL(h.pathUnescape(responseURL).value);
    if Ext(filename) != [] {
      var e := ToLower(Ext(filename));
      LowerExtension(Ext(filename));
      var name := h.removeExtFromFilename(filename) + e;
      ExtOfAppendedExtension(h.removeExtFromFilename(filename), e);
      ExtOfJoin(filePath, name);
    }
  }

  /** Example: "/out/report.PDF" resolves to "/out/report.pdf", whatever the response URL. */
  lemma ExplicitPathExample(responseURL: string, h: PathHelpers)
    requires h.removeExtFromFilename("/out/report.PDF") == "/out/report"
    ensures ResolvePath("/out/report.PDF", responseURL, h) == Some("/out/report.pdf")
  {
    assert IsExtension(".PDF");
    ExtOfAppendedExtension("/out/report", ".PDF");
    assert "/out/report" + ".PDF" == "/out/report.PDF";
    assert Ext("/out/report.PDF") == ".PDF";
    var lower := ToLower(".PDF");
    assert lower == ".pdf";
    assert "/out/report" + ".pdf" == "/out/report.pdf";
  }

  /** The file name of the directory example keeps its last extension, lower-cased. */
  lemma DirectoryExampleName(removed: string)
    requires removed == "My File.final"
    ensures removed + ToLower(Ext("My File.final.JPG")) == "My File.final.jpg"
  {
    assert IsExtension(".JPG");
    ExtOfAppendedExtension("My File.final", ".JPG");
    assert "My File.final" + ".JPG" == "My File.final.JPG";
    var lower := ToLower(".JPG");
    assert lower == ".jpg";
  }

  /** The directory of the directory example has no extension, and the file name is joined under it. */
  lemma DirectoryExampleJoin(dir: string, name: string)
    requires dir == "/out/" && name == "My File.final.jpg"
    ensures Ext(dir) == []
    ensures Join(dir, name) == "/out/My File.final.jpg"
  {
    assert dir[..4] == "/out";
    assert TrimTrailingSlashes(dir) == "/out";
    assert "/out" + "/" + name == "/out/My File.final.jpg";
  }

  /** Example: directory "/out/" and a response URL ending in "My%20File.final.JPG" give "/out/My File.final.jpg". */
  lemma DirectoryExample(responseURL: string, h: PathHelpers)
    requires h.pathUnescape(responseURL) == Some("https://host/My File.final.JPG")
    requires h.getLastPartOfURL("https://host/My File.final.JPG") == "My File.final.JPG"
    requires h.removeExtFromFilename("My File.final.JPG") == "My File.final"
    ensures ResolvePath("/out/", responseURL, h) == Some("/out/My File.final.jpg")
  {
    DirectoryExampleName(h.removeExtFromFilename("My File.final.JPG"));
    DirectoryExampleJoin("/out/", "My File.final.jpg");
  }

  // ---------------------------------------------------------------------------
  // Disk effects (request.go:101-123)

  /** utils.CheckIfFileIsEmpty: a missing file counts as empty. */
  predicate IsEmptyOrMissing(files: Files, path: string)
  {
    path !in files || files[path] == []
  }

  /** The disk and the result after a download whose request has given `call`. */
  datatype DownloadState = DownloadState(files: Files, result: DownloadResult)

  /** DownloadURL from the point CallRequest has returned, as written. */
  function AfterCall(files: Files, call: DispatchResult, filePath: string, h: PathHelpers, disk: DiskEnv): (s: DownloadState)
    ensures s.result == Returned(call.error) || s.result == Returned(None) || s.result.Panicked?
    ensures s.result.Returned? && s.result.error.Some? <==> call.error.Some?
  {
    if call.error.Some? then DownloadState(files, Returned(call.error))
    else if call.response.None? then DownloadState(files, Panicked(NilResponse))
    else
      var res := call.response.value;
      match ResolvePath(filePath, res.finalURL, h)
      case None => DownloadState(files, Panicked(UnescapeFailed))
      case Some(path) =>
        if !IsEmptyOrMissing(files, path) then DownloadState(files, Returned(None))
        else if disk.createFails then DownloadState(files, Panicked(CreateFailed))
        else DownloadState(Saved(files, path, res.body, disk), Returned(None))
  }

  /** The bytes io.Copy has written before it fails after `written` bytes. */
  function Partial(body: seq<byte>, written: nat): (p: seq<byte>)
    ensures p <= body
    ensures |p| == if written < |body| then written else |body|
  {
    body[..if written < |body| then written else |body|]
  }

  /**
   * The disk after os.Create and io.Copy of `body` to `path`: the whole body,
   * or, when the copy fails, no file at all, since the partial file is removed;
   * when that removal fails too, the partial file stays.
   */
  function Saved(files: Files, path: string, body: seq<byte>, disk: DiskEnv): (r: Files)
    ensures disk.copyFailsAfter.None? ==> path in r && r[path] == body
    ensures disk.copyFailsAfter.Some? && !disk.removeFails ==> path !in r
    ensures disk.copyFailsAfter.Some? && disk.removeFails ==>
              path in r && r[path] == Partial(body, disk.copyFailsAfter.value)
    ensures forall q :: q != path ==> (q in r <==> q in files) && (q in r ==> r[q] == files[q])
  {
    match disk.copyFailsAfter
    case None => files[path := body]
    case Some(written) => if disk.removeFails then files[path := Partial(body, written)] else files - {path}
  }

  /** DownloadURL as a whole, as written. */
  function Download(files: Files, fileURL: string, filePath: string, settings: Settings, h: PathHelpers, world: JobWorld): DownloadState
    requires settings.retryCounter <= |world.net.attempts|
  {
    AfterCall(files, CallResult(world.net, settings, true), filePath, h, world.disk)
  }

  /** The path a successful request resolves to, when there is one. */
  function Destination(call: DispatchResult, filePath: string, h: PathHelpers): Option<string>
  {
    if call.error.None? && call.response.Some? then ResolvePath(filePath, call.response.value.finalURL, h) else None
  }

  /** Only the resolved path can change on disk; no other file is touched. */
  lemma OnlyDestinationChanges(files: Files, call: DispatchResult, filePath: string, h: PathHelpers, disk: DiskEnv)
    ensures
      var s := AfterCall(files, call, filePath, h, disk);
      var dest := Destination(call, filePath, h);
      && (dest.None? ==> s.files == files)
      && (dest.Some? ==> forall q :: q != dest.value ==> (q in s.files <==> q in files) && (q in files ==> s.files[q] == files[q]))
  {
  }

  /** A request error is returned as is, and the disk is left alone. */
  lemma RequestErrorLeavesDisk(files: Files, call: DispatchResult, filePath: string, h: PathHelpers, disk: DiskEnv)
    requires call.error.Some?
    ensures AfterCall(files, call, filePath, h, disk) == DownloadState(files, Returned(call.error))
  {
  }

  /** An existing non-empty file at the resolved path is kept byte for byte and nil is returned. */
  lemma ExistingFileIsSkipped(files: Files, call: DispatchResult, filePath: string, h: PathHelpers, disk: DiskEnv)
    requires Destination(call, filePath, h).Some?
    requires !IsEmptyOrMissing(files, Destination(call, filePath, h).value)
    ensures AfterCall(files, call, filePath, h, disk) == DownloadState(files, Returned(None))
  {
  }

  /**
   * A failed copy whose clean-up succeeds leaves no file at the resolved path,
   * the rest of the disk as it was, and returns nil.
   */
  lemma FailedCopyIsRemoved(files: Files, call: DispatchResult, filePath: string, h: PathHelpers, disk: DiskEnv)
    requires Destination(call, filePath, h).Some?
    requires IsEmptyOrMissing(files, Destination(call, filePath, h).value)
    requires !disk.createFails && disk.copyFailsAfter.Some? && !disk.removeFails
    ensures
      var s := AfterCall(files, call, filePath, h, disk);
      && s.result == Returned(None)
      && Destination(call, filePath, h).value !in s.files
      && s.files == files - {Destination(call, filePath, h).value}
  {
  }

  /**
   * Unless the removal of a partial file fails, a file left at the resolved path
   * is never partial: it is the whole body, or the untouched earlier file.
   */
  lemma NoPartialFile(files: Files, call: DispatchResult, filePath: string, h: PathHelpers, disk: DiskEnv)
    requires Destination(call, filePath, h).Some?
    requires !disk.removeFails
    ensures
      var s := AfterCall(files, call, filePath, h, disk);
      var p := Destination(call, filePath, h).value;
      p in s.files ==> s.files[p] == call.response.value.body || (p in files && s.files[p] == files[p])
  {
  }

  /**
   * The error of os.Remove is ignored: when the copy fails after `written` bytes
   * and the removal fails too, those bytes stay at the resolved path and nil is
   * returned. When some bytes were written, a later download to the same path
   * takes the partial file for a complete one and skips it.
   */
  lemma FailedRemovalLeavesPartialFile(files: Files, call: DispatchResult, later: DispatchResult, filePath: string,
                                       h: PathHelpers, disk: DiskEnv, laterDisk: DiskEnv)
    requires Destination(call, filePath, h).Some?
    requires IsEmptyOrMissing(files, Destination(call, filePath, h).value)
    requires !disk.createFails && disk.copyFailsAfter.Some? && disk.removeFails
    requires Destination(later, filePath, h) == Destination(call, filePath, h)
    ensures
      var s := AfterCall(files, call, filePath, h, disk);
      var p := Destination(call, filePath, h).value;
      var written := disk.copyFailsAfter.value;
      && s.result == Returned(None)
      && p in s.files && s.files[p] == Partial(call.response.value.body, written)
      && (s.files[p] != [] ==> AfterCall(s.files, later, filePath, h, laterDisk) == DownloadState(s.files, Returned(None)))
  {
    var s := AfterCall(files, call, filePath, h, disk);
    var p := Destination(call, filePath, h).value;
    var written := disk.copyFailsAfter.value;
    if s.files[p] != [] {
      ExistingFileIsSkipped(s.files, later, filePath, h, laterDisk);
    }
  }

  /** DownloadURL returns a non-nil error exactly when CallRequest does (NewRequest failed). */
  lemma ErrorOnlyFromRequest(files: Files, fileURL: string, filePath: string, settings: Settings, h: PathHelpers, world: JobWorld)
    requires settings.retryCounter <= |world.net.attempts|
    ensures
      var r := Download(files, fileURL, filePath, settings, h, world).result;
      (r.Returned? && r.error.Some?) <==> world.net.newRequestError.Some?
  {
  }

  /**
   * When every attempt fails, CallRequest gives (nil, nil) and DownloadURL then
   * dereferences the nil response: the download panics instead of returning an
   * error, with the disk untouched.
   */
  lemma ExhaustedDownloadPanics(files: Files, fileURL: string, filePath: string, settings: Settings, h: PathHelpers, world: JobWorld)
    requires settings.retryCounter <= |world.net.attempts|
    requires world.net.newRequestError.None?
    requires forall j :: 0 <= j < settings.retryCounter ==> !Accepted(world.net.attempts[j], true)
    ensures Download(files, fileURL, filePath, settings, h, world) == DownloadState(files, Panicked(NilResponse))
  {
  }

  /** The error an exhausted download reports when the failed attempts left none. */
  const ExhaustedError: Error := Error("failed to send a request after all retries")

  /**
   * DownloadURL as evidently intended: a nil response is handled as a failed
   * request (its error, or ExhaustedError) before it is dereferenced; the rest is
   * as written.
   */
  function DownloadIntended(files: Files, call: DispatchResult, filePath: string, h: PathHelpers, disk: DiskEnv): (s: DownloadState)
    ensures s.result != Panicked(NilResponse)
    ensures call.response.None? ==> s.files == files && s.result.Returned? && s.result.error.Some?
    ensures call.response.Some? && call.error.None? ==> s == AfterCall(files, call, filePath, h, disk)
    ensures call.error.Some? ==> s == AfterCall(files, call, filePath, h, disk)
  {
    if call.response.None? then DownloadState(files, Returned(Some(if call.error.Some? then call.error.value else ExhaustedError)))
    else AfterCall(files, call, filePath, h, disk)
  }

  // ---------------------------------------------------------------------------
  // The imperative model

  /** The disk: a mutable map from paths to file contents. */
  class FileSystem {
    var files: Files

    constructor (initial: Files)
      ensures files == initial
    {
      files := initial;
    }

    /** utils.CheckIfFileIsEmpty. */
    function IsEmpty(path: string): (empty: bool)
      reads this
      ensures empty <==> path !in files || files[path] == []
    {
      IsEmptyOrMissing(files, path)
    }

    /** os.Create: an empty file, truncating one that exists. */
    method Create(path: string)
      modifies this
      ensures files == old(files)[path := []]
    {
      files := files[path := []];
    }

    /** Writing through the file handle: appends to the file. */
    method Write(path: string, data: seq<byte>)
      requires path in files
      modifies this
      ensures files == old(files)[path := old(files)[path] + data]
    {
      files := files[path := files[path] + data];
    }

    /** os.Create, then io.Copy of the body; a partial file is removed when the copy fails. */
    method Save(path: string, body: seq<byte>, disk: DiskEnv)
      modifies this
      ensures files == Saved(old(files), path, body, disk)
    {
      Create(path);
      match disk.copyFailsAfter {
        case Some(written) =>
          Write(path, Partial(body, written));
          assert [] + Partial(body, written) == Partial(body, written);
          assert files == old(files)[path := Partial(body, written)];
          if !disk.removeFails {
            Remove(path);
            assert files == old(files) - {path};
          }
        case None =>
          Write(path, body);
          assert [] + body == body;
      }
    }

    /** os.Remove. */
    method Remove(path: string)
      modifies this
      ensures files == old(files) - {path}
    {
      files := files - {path};
    }
  }

  /** DownloadURL (lines 73-124) on a mutable disk. */
  method DownloadURL(fileURL: string, filePath: string, cookies: seq<Cookie>, headers: map<string, string>,
                     params: map<string, string>, fs: FileSystem, settings: Settings, h: PathHelpers, world: JobWorld)
    returns (r: DownloadResult)
    requires settings.retryCounter <= |world.net.attempts|
    modifies fs
    ensures DownloadState(fs.files, r) == Download(old(fs.files), fileURL, filePath, settings, h, world)
  {
    var res, err := CallRequest("GET", fileURL, cookies, headers, params, true, settings, world.net);
    if err.Some? {
      return Returned(err);
    }
    if res.None? {
      // `defer res.Body.Close()` reads the field of a nil response
      return Panicked(NilResponse);
    }
    var resolved := ResolvePath(filePath, res.value.finalURL, h);
    if resolved.None? {
      return Panicked(UnescapeFailed);
    }
    var path := resolved.value;

    // check if the file already exists
    if !fs.IsEmpty(path) {
      return Returned(None);
    }

    // create the file
    if world.disk.createFails {
      return Panicked(CreateFailed);
    }
    fs.Save(path, res.value.body, world.disk);
    return Returned(None);
  }
}
