/**
 * The storage service: the public base URL, the unique name a staged file
 * gets under public/uploads, the URL it is served from, copying a file there
 * and removing it again. The clock (Date.now) and the six random bytes are
 * parameters; fs.copy is an oracle that either succeeds or fails with a message.
 */
module Storage {
  import opened Wrappers
  import Js
  import opened FileSystem

  /** The port used when PORT is unset or empty. */
  const DefaultPort: string := "3000"
  const UploadsRoute: string := "/public/uploads/"

  type Bytes6 = b: seq<Js.Byte> | |b| == 6 witness [0, 0, 0, 0, 0, 0]

  /** BASE_URL, or http://localhost: followed by PORT (3000 when unset or empty). */
  function ConfiguredBase(baseUrlEnv: Option<string>, portEnv: Option<string>): string {
    if Js.Truthy(baseUrlEnv) then baseUrlEnv.value
    else "http://localhost:" + (if Js.Truthy(portEnv) then portEnv.value else DefaultPort)
  }

  /** getBaseUrl: the configured base with one trailing '/' removed. */
  function BaseUrl(baseUrlEnv: Option<string>, portEnv: Option<string>): (url: string)
    ensures var base := ConfiguredBase(baseUrlEnv, portEnv);
      && (base == url || base == url + "/")
      && (base == url + "/" <==> (base != [] && base[|base| - 1] == '/'))
  {
    var base := ConfiguredBase(baseUrlEnv, portEnv);
    if base != [] && base[|base| - 1] == '/' then
      assert base == base[..|base| - 1] + "/";
      base[..|base| - 1]
    else base
  }

  /** Without BASE_URL the server is addressed on localhost, on PORT or 3000. */
  lemma BaseUrlDefault(baseUrlEnv: Option<string>, portEnv: Option<string>)
    requires !Js.Truthy(baseUrlEnv)
    requires !Js.Truthy(portEnv) || portEnv.value[|portEnv.value| - 1] != '/'
    ensures BaseUrl(baseUrlEnv, portEnv) == "http://localhost:" + (if Js.Truthy(portEnv) then portEnv.value else DefaultPort)
  {
    var base := ConfiguredBase(baseUrlEnv, portEnv);
    assert base[|base| - 1] != '/';
  }

  /** public/uploads under the working directory. */
  function UploadsDir(cwd: seq<string>): seq<string> {
    cwd + ["public", "uploads"]
  }

  /** '<ms timestamp>-<12 lower-case hex digits>-<original base name>'. */
  function StoredName(nowMs: nat, random: Bytes6, src: Path): (name: string)
    ensures |src.base| <= |name| && name[|name| - |src.base|..] == src.base
  {
    var name := Js.NatToString(nowMs) + "-" + Js.HexLower(random) + "-" + src.base;
    assert name == (Js.NatToString(nowMs) + "-" + Js.HexLower(random) + "-") + src.base;
    name
  }

  /** What follows the first occurrence of c in s. */
  function AfterFirst(s: string, c: char): (r: Option<string>)
    ensures r.None? <==> c !in s
    ensures r.Some? ==> |r.value| < |s| && r.value == s[|s| - |r.value|..]
  {
    if s == [] then None
    else if s[0] == c then Some(s[1..])
    else AfterFirst(s[1..], c)
  }

  lemma {:induction false} AfterFirstOf(x: string, c: char, y: string)
    requires c !in x
    ensures AfterFirst(x + [c] + y, c) == Some(y)
  {
    if x != [] {
      assert (x + [c] + y)[1..] == x[1..] + [c] + y;
      AfterFirstOf(x[1..], c, y);
    }
  }

  /** The original base name a stored name carries after its two dash-separated prefixes. */
  function OriginalName(name: string): Option<string> {
    match AfterFirst(name, '-')
    case None => None
    case Some(rest) => AfterFirst(rest, '-')
  }

  lemma DigitsHaveNoDash(s: string)
    requires Js.AllDigits(s)
    ensures '-' !in s
  {
    forall i | 0 <= i < |s| ensures s[i] != '-' {
      assert Js.IsDigit(s[i]);
    }
  }

  lemma HexHasNoDash(s: string)
    requires forall i :: 0 <= i < |s| ==> Js.IsHexDigit(s[i])
    ensures '-' !in s
  {
    forall i | 0 <= i < |s| ensures s[i] != '-' {
      assert Js.IsHexDigit(s[i]);
    }
  }

  /** Neither the timestamp nor the hex part contains a '-', so the original name is recoverable. */
  lemma OriginalNameOfStoredName(nowMs: nat, random: Bytes6, src: Path)
    ensures OriginalName(StoredName(nowMs, random, src)) == Some(src.base)
  {
    var digits := Js.NatToString(nowMs);
    var hex := Js.HexLower(random);
    DigitsHaveNoDash(digits);
    HexHasNoDash(hex);
    var rest := hex + ['-'] + src.base;
    assert StoredName(nowMs, random, src) == digits + ['-'] + rest;
    AfterFirstOf(digits, '-', rest);
    AfterFirstOf(hex, '-', src.base);
  }

  /** The staged copy's absolute path: UPLOADS_DIR joined with the stored name. */
  function Destination(cwd: seq<string>, name: string): (dest: Path)
    ensures dest.dir == cwd + ["public", "uploads"] && dest.base == name
  {
    Join(UploadsDir(cwd), name)
  }

  /** base + '/public/uploads/' + encodeURIComponent(name). */
  function PublicUrl(baseUrl: string, name: string): (url: string)
    ensures |baseUrl + UploadsRoute| <= |url| && url[..|baseUrl + UploadsRoute|] == baseUrl + UploadsRoute
  {
    baseUrl + UploadsRoute + Js.EncodeUriComponent(name)
  }

  /** The URL's last segment holds no '/', and percent-decoding it gives back the name's UTF-8 bytes. */
  lemma PublicUrlSegment(baseUrl: string, name: string)
    ensures var segment := PublicUrl(baseUrl, name)[|baseUrl + UploadsRoute|..];
      && '/' !in segment
      && Js.PercentDecode(segment) == Js.Utf8String(name)
  {
    assert PublicUrl(baseUrl, name)[|baseUrl + UploadsRoute|..] == Js.EncodeUriComponent(name);
    Js.DecodeEncodeUriComponent(name);
  }

  datatype StoredFile = StoredFile(url: string, absPath: Path)

  /** Where storeToUploads puts a file and what it returns, given the copy's outcome. */
  function StoreOutcome(cwd: seq<string>, baseUrlEnv: Option<string>, portEnv: Option<string>, nowMs: nat, random: Bytes6, src: Path,
                        copy: (Path, Path) -> Option<string>): (r: Result<StoredFile, string>)
  {
    var name := StoredName(nowMs, random, src);
    var dest := Destination(cwd, name);
    match copy(src, dest)
    case Some(message) => Err(message)
    case None => Ok(StoredFile(PublicUrl(BaseUrl(baseUrlEnv, portEnv), name), dest))
  }

  /** A stored file lies in public/uploads, keeps the source's base name at the end of its own, and is served from under the base URL. */
  lemma StoreOutcomeShape(cwd: seq<string>, baseUrlEnv: Option<string>, portEnv: Option<string>, nowMs: nat, random: Bytes6, src: Path,
                          copy: (Path, Path) -> Option<string>)
    ensures var r := StoreOutcome(cwd, baseUrlEnv, portEnv, nowMs, random, src, copy);
      && (r.Err? <==> copy(src, Destination(cwd, StoredName(nowMs, random, src))).Some?)
      && (r.Ok? ==>
            && r.value.absPath.dir == cwd + ["public", "uploads"]
            && OriginalName(r.value.absPath.base) == Some(src.base)
            && var prefix := BaseUrl(baseUrlEnv, portEnv) + UploadsRoute;
               |prefix| <= |r.value.url| && r.value.url[..|prefix|] == prefix)
  {
    var name := StoredName(nowMs, random, src);
    var dest := Destination(cwd, name);
    if copy(src, dest).None? {
      var url := PublicUrl(BaseUrl(baseUrlEnv, portEnv), name);
      assert StoreOutcome(cwd, baseUrlEnv, portEnv, nowMs, random, src, copy) == Ok(StoredFile(url, dest));
      assert OriginalName(dest.base) == Some(src.base) by {
        OriginalNameOfStoredName(nowMs, random, src);
      }
    }
  }

  /**
   * storeToUploads: copy (not move) src into public/uploads under a fresh
   * name. The source stays where it was; on success the copy exists too.
   */
  method StoreToUploads(disk: Disk, cwd: seq<string>, baseUrlEnv: Option<string>, portEnv: Option<string>, nowMs: nat, random: Bytes6, src: Path,
                        copy: (Path, Path) -> Option<string>) returns (r: Result<StoredFile, string>)
    modifies disk
    ensures r == StoreOutcome(cwd, baseUrlEnv, portEnv, nowMs, random, src, copy)
    ensures r.Ok? ==> disk.files == old(disk.files) + {r.value.absPath}
    ensures r.Err? ==> disk.files == old(disk.files)
  {
    var name := StoredName(nowMs, random, src);
    var dest := Destination(cwd, name);
    var failure := copy(src, dest);
    if failure.Some? {
      return Err(failure.value);
    }
    disk.files := disk.files + {dest};
    r := Ok(StoredFile(PublicUrl(BaseUrl(baseUrlEnv, portEnv), name), dest));
  }

  /** cleanupUpload: remove the file; a missing file is no error, so nothing is reported. */
  method CleanupUpload(disk: Disk, absPath: Path)
    modifies disk
    ensures disk.files == old(disk.files) - {absPath}
    ensures absPath !in old(disk.files) ==> disk.files == old(disk.files)
  {
    disk.files := disk.files - {absPath};
  }
}
