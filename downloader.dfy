/**
 * The downloader service: yt-dlp into the shared temporary directory and the
 * choice of the newest file there, ffmpeg conversion to '<name>-ig.mp4' next
 * to its input, and best-effort removal. A spawned tool is an oracle that
 * reports how it ended (a spawn error, or an exit code and its stderr chunks);
 * the directory listing after the download is a parameter.
 */
module Downloader {
  import opened Wrappers
  import Js
  import opened FileSystem

  const NoFileError: string := "Download failed: no file found"
  const ConvertedSuffix: string := "-ig.mp4"

  /** An entry of the temporary directory and its modification time in milliseconds. */
  datatype DirEntry = DirEntry(name: string, mtimeMs: int)

  /** How a spawned process ended: its 'error' event, or its 'close' event with the exit code (null when killed by a signal). */
  datatype ToolRun = SpawnError(message: string) | Closed(code: Option<int>, stderrChunks: seq<string>)

  /** os.tmpdir()/ig-media, the one directory every download shares. */
  function TempDir(tmpRoot: seq<string>): seq<string> {
    tmpRoot + ["ig-media"]
  }

  /** The chunks in the order they arrived, joined. */
  function Concat(chunks: seq<string>): string {
    if chunks == [] then "" else Concat(chunks[..|chunks| - 1]) + chunks[|chunks| - 1]
  }

  /** The 'data' handler: `stderr += chunk` for every chunk. */
  method CollectStderr(chunks: seq<string>) returns (stderr: string)
    ensures stderr == Concat(chunks)
  {
    stderr := "";
    var i := 0;
    while i < |chunks|
      invariant 0 <= i <= |chunks|
      invariant stderr == Concat(chunks[..i])
    {
      assert chunks[..i + 1][..i] == chunks[..i];
      stderr := stderr + chunks[i];
      i := i + 1;
    }
    assert chunks[..|chunks|] == chunks;
  }

  /** Every chunk appears in the collected text, at its own offset. */
  lemma {:induction false} ConcatContains(chunks: seq<string>, k: nat)
    requires k < |chunks|
    ensures var before := |Concat(chunks[..k])|;
      before + |chunks[k]| <= |Concat(chunks)| && Concat(chunks)[before..before + |chunks[k]|] == chunks[k]
  {
    var n := |chunks|;
    var init := chunks[..n - 1];
    if k < n - 1 {
      assert init[..k] == chunks[..k];
      ConcatContains(init, k);
    } else {
      assert init == chunks[..k];
    }
  }

  /** The process closed with exit code 0. */
  predicate CleanExit(run: ToolRun) {
    run.Closed? && run.code == Some(0)
  }

  /** How `${code}` renders an exit code: null for a signal. */
  function CodeText(code: Option<int>): string {
    if code.None? then "null" else Js.IntToString(code.value)
  }

  /** '<tool> exited with code <code>: <stderr>'. */
  function ExitMessage(tool: string, code: Option<int>, stderr: string): string {
    tool + " exited with code " + CodeText(code) + ": " + stderr
  }

  /** The rejection of a run: the spawn error as is, or '<tool> exited with code <code>: <stderr>' unless the code is 0. */
  function ToolError(tool: string, run: ToolRun): (e: Option<string>)
    ensures e.None? <==> CleanExit(run)
    ensures run.Closed? && e.Some? ==>
      e.value == ExitMessage(tool, run.code, Concat(run.stderrChunks))
  {
    match run
    case SpawnError(m) => Some(m)
    case Closed(code, chunks) =>
      if code == Some(0) then None
      else Some(ExitMessage(tool, code, Concat(chunks)))
  }

  /** A non-zero exit code can be read back from the message. */
  lemma ExitCodeInMessage(tool: string, code: int, chunks: seq<string>)
    requires code != 0
    ensures var m := ToolError(tool, Closed(Some(code), chunks)).value;
      var prefix := tool + " exited with code ";
      |prefix| <= |m| && m[..|prefix|] == prefix && Js.ParseInt(m[|prefix|..]) == Some(code)
  {
    var prefix := tool + " exited with code ";
    var m := ToolError(tool, Closed(Some(code), chunks)).value;
    var rest := ": " + Concat(chunks);
    assert m == prefix + (Js.IntToString(code) + rest);
    Js.SplitAt(m, prefix, Js.IntToString(code) + rest);
    Js.NumberAt(m, |prefix|, code, rest);
  }

  /**
   * The index of the entry sort((a, b) => b.mtimeMs - a.mtimeMs)[0] picks: the
   * sort is stable, so among the newest entries the first listed wins.
   */
  function Newest(entries: seq<DirEntry>): (r: Option<nat>)
    ensures r.None? <==> entries == []
    ensures r.Some? ==> r.value < |entries|
    ensures r.Some? ==> forall j :: 0 <= j < |entries| ==> entries[j].mtimeMs <= entries[r.value].mtimeMs
    ensures r.Some? ==> forall j :: 0 <= j < r.value ==> entries[j].mtimeMs < entries[r.value].mtimeMs
  {
    if entries == [] then None
    else
      var last := |entries| - 1;
      var init := entries[..last];
      match Newest(init)
      case None => Some(last)
      case Some(i) =>
        if entries[last].mtimeMs > init[i].mtimeMs then Some(last) else Some(i)
  }

  /** Those two properties single the entry out: no other index has them. */
  lemma NewestIsUnique(entries: seq<DirEntry>, k: nat)
    requires k < |entries|
    requires forall j :: 0 <= j < |entries| ==> entries[j].mtimeMs <= entries[k].mtimeMs
    requires forall j :: 0 <= j < k ==> entries[j].mtimeMs < entries[k].mtimeMs
    ensures Newest(entries) == Some(k)
  {
    var i := Newest(entries).value;
    assert !(i < k) && !(k < i);
  }

  /** downloadWithYtDlp's result, given how yt-dlp ended and what the directory holds afterwards. */
  function Download(tmpRoot: seq<string>, run: ToolRun, listing: seq<DirEntry>): (r: Result<Path, string>)
  {
    match ToolError("yt-dlp", run)
    case Some(m) => Err(m)
    case None =>
      match Newest(listing)
      case None => Err(NoFileError)
      case Some(i) => Ok(Join(TempDir(tmpRoot), listing[i].name))
  }

  /** A clean exit yields the newest entry of the temporary directory, or the no-file error when it is empty; any other ending yields the tool's error. */
  lemma DownloadOutcome(tmpRoot: seq<string>, run: ToolRun, listing: seq<DirEntry>)
    ensures var r := Download(tmpRoot, run, listing);
      && (ToolError("yt-dlp", run).Some? ==> r == Err(ToolError("yt-dlp", run).value))
      && (ToolError("yt-dlp", run).None? && listing == [] ==> r == Err(NoFileError))
      && (r.Ok? ==>
            && r.value.dir == TempDir(tmpRoot)
            && exists i :: 0 <= i < |listing| && listing[i].name == r.value.base
                 && forall j :: 0 <= j < |listing| ==> listing[j].mtimeMs <= listing[i].mtimeMs)
  {
    var r := Download(tmpRoot, run, listing);
    if r.Ok? {
      var i := Newest(listing).value;
      assert listing[i].name == r.value.base;
    }
  }

  /** The paths of the directory's entries. */
  function ListedPaths(tmpRoot: seq<string>, listing: seq<DirEntry>): set<Path> {
    set e | e in listing :: Join(TempDir(tmpRoot), e.name)
  }

  /**
   * downloadWithYtDlp: run yt-dlp into the temporary directory; after a clean
   * exit the directory holds the listed files and the newest one is returned.
   */
  method DownloadWithYtDlp(disk: Disk, tmpRoot: seq<string>, run: ToolRun, listing: seq<DirEntry>)
    returns (r: Result<Path, string>)
    modifies disk
    ensures r == Download(tmpRoot, run, listing)
    ensures disk.files == old(disk.files) + (if ToolError("yt-dlp", run).None? then ListedPaths(tmpRoot, listing) else {})
    ensures r.Ok? ==> r.value in disk.files
  {
    if run.SpawnError? {
      return Err(run.message);
    }
    if run.code != Some(0) {
      var stderr := CollectStderr(run.stderrChunks);
      return Err(ExitMessage("yt-dlp", run.code, stderr));
    }
    disk.files := disk.files + ListedPaths(tmpRoot, listing);
    var latest := Newest(listing);
    if latest.None? {
      return Err(NoFileError);
    }
    r := Ok(Join(TempDir(tmpRoot), listing[latest.value].name));
    assert listing[latest.value] in listing;
  }

  /** path.join(path.dirname(input), path.parse(input).name + '-ig.mp4'). */
  function ConvertedPath(input: Path): (out: Path)
    ensures out.dir == input.dir
  {
    Join(input.dir, ParsedName(input.base) + ConvertedSuffix)
  }

  /** The converted name is the input's base name, whole or cut just before a '.', followed by '-ig.mp4'. */
  lemma ConvertedName(input: Path)
    ensures var out := ConvertedPath(input).base;
      && |out| >= |ConvertedSuffix| && out[|out| - |ConvertedSuffix|..] == ConvertedSuffix
      && var stem := out[..|out| - |ConvertedSuffix|];
         && |stem| <= |input.base| && stem == input.base[..|stem|]
         && (stem == input.base || input.base[|stem|] == '.')
  {
    var stem := ParsedName(input.base);
    var out := ConvertedPath(input).base;
    assert out == stem + ConvertedSuffix;
    assert out[..|stem|] == stem;
    assert out[|stem|..] == ConvertedSuffix;
  }

  /** The output never overwrites its own input. */
  lemma ConvertedPathDiffers(input: Path)
    ensures ConvertedPath(input) != input
  {
    var name := ParsedName(input.base);
    var out := name + ConvertedSuffix;
    if name == input.base {
      assert |out| > |input.base|;
    } else {
      assert out[|name|] == '-' && input.base[|name|] == '.';
    }
  }

  /** convertForInstagram's result, given how ffmpeg ended. */
  function Convert(input: Path, run: ToolRun): (r: Result<Path, string>)
    ensures r.Ok? <==> CleanExit(run)
    ensures r.Ok? ==> r.value == ConvertedPath(input)
    ensures run.Closed? && r.Err? ==>
      r.error == ExitMessage("FFmpeg", run.code, Concat(run.stderrChunks))
  {
    match ToolError("FFmpeg", run)
    case Some(m) => Err(m)
    case None => Ok(ConvertedPath(input))
  }

  /** convertForInstagram: after a clean ffmpeg exit the converted file exists beside its input. */
  method ConvertForInstagram(disk: Disk, input: Path, run: ToolRun) returns (r: Result<Path, string>)
    modifies disk
    ensures r == Convert(input, run)
    ensures r.Ok? ==> disk.files == old(disk.files) + {r.value}
    ensures r.Err? ==> disk.files == old(disk.files)
  {
    var outPath := ConvertedPath(input);
    if run.SpawnError? {
      return Err(run.message);
    }
    if run.code != Some(0) {
      var stderr := CollectStderr(run.stderrChunks);
      return Err(ExitMessage("FFmpeg", run.code, stderr));
    }
    disk.files := disk.files + {outPath};
    r := Ok(outPath);
  }

  /** cleanupFile: remove the file when there is one; removal errors are swallowed. */
  method CleanupFile(disk: Disk, filePath: Option<Path>)
    modifies disk
    ensures filePath.None? ==> disk.files == old(disk.files)
    ensures filePath.Some? ==> disk.files == old(disk.files) - {filePath.value}
  {
    if filePath.Some? {
      disk.files := disk.files - {filePath.value};
    }
  }
}
