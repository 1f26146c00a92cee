/** Image storage: parsing a base64 data URL, choosing a file extension, naming the uploaded
    file, and finding a stored file's path in its public URL. The uploads and removals are
    I/O; their outcomes are parameters here. */
module StorageService {
  import opened Types
  import opened Strings

  /** The characters the MIME group of the data-URL pattern admits: `[A-Za-z-+\/]`. */
  predicate IsMimeChar(c: char) {
    ('A' <= c <= 'Z') || ('a' <= c <= 'z') || c == '-' || c == '+' || c == '/'
  }

  predicate AllMime(s: string) {
    forall i :: 0 <= i < |s| ==> IsMimeChar(s[i])
  }

  /** Text a regular-expression `.` run can cover: no line terminator. */
  predicate NoLineBreak(s: string) {
    forall i :: 0 <= i < |s| ==> !IsLineTerminator(s[i])
  }

  /** The length of the longest prefix of MIME characters. */
  function MimeRun(s: string): (n: nat)
    ensures n <= |s|
    ensures AllMime(s[..n])
    ensures n < |s| ==> !IsMimeChar(s[n])
  {
    if s == [] || !IsMimeChar(s[0]) then 0 else 1 + MimeRun(s[1..])
  }

  lemma {:induction false} MimeRunOf(m: string, rest: string)
    requires AllMime(m)
    requires rest == [] || !IsMimeChar(rest[0])
    ensures MimeRun(m + rest) == |m|
  {
    if m == [] {
      assert m + rest == rest;
    } else {
      assert (m + rest)[1..] == m[1..] + rest;
      MimeRunOf(m[1..], rest);
    }
  }

  /** A data URL's MIME type and payload. */
  datatype DataUrl = DataUrl(mime: string, data: string)

  /** `base64.match(/^data:([A-Za-z-+\/]+);base64,(.+)$/)`: the MIME group cannot hold `;`, so
      it is the whole run of MIME characters after `data:`; the payload is everything after
      `;base64,`, at least one character and no line break. */
  function ParseDataUrl(s: string): Option<DataUrl> {
    if !StartsWith(s, "data:") then None
    else
      var rest := s[5..];
      var n := MimeRun(rest);
      if n == 0 || !StartsWith(rest[n..], ";base64,") then None
      else
        var data := rest[n + 8..];
        if data == [] || !NoLineBreak(data) then None else Some(DataUrl(rest[..n], data))
  }

  /** What the pattern accepts: a MIME type of at least one admitted character and a payload
      of at least one character without line breaks. */
  predicate WellFormed(u: DataUrl) {
    |u.mime| > 0 && AllMime(u.mime) && |u.data| > 0 && NoLineBreak(u.data)
  }

  function Render(u: DataUrl): string {
    "data:" + u.mime + ";base64," + u.data
  }

  /** A parsed data URL is well formed and renders back to the text it came from. */
  lemma ParseSound(s: string)
    requires ParseDataUrl(s).Some?
    ensures WellFormed(ParseDataUrl(s).value)
    ensures Render(ParseDataUrl(s).value) == s
  {
    var rest := s[5..];
    var n := MimeRun(rest);
    assert s == s[..5] + rest[..n] + rest[n..n + 8] + rest[n + 8..];
  }

  /** Every well-formed data URL is accepted, with its own MIME type and payload. */
  lemma ParseComplete(u: DataUrl)
    requires WellFormed(u)
    ensures ParseDataUrl(Render(u)) == Some(u)
  {
    var s := Render(u);
    var rest := u.mime + ";base64," + u.data;
    assert s == "data:" + rest;
    assert s[5..] == rest;
    MimeRunOf(u.mime, ";base64," + u.data);
    assert rest == u.mime + (";base64," + u.data);
    assert rest[|u.mime|..] == ";base64," + u.data;
    assert rest[|u.mime|..][..8] == ";base64,";
    assert rest[|u.mime| + 8..] == u.data;
    assert rest[..|u.mime|] == u.mime;
    assert s[..5] == "data:";
  }

  /** `extMap[mimeType] || 'jpg'`. */
  function ExtFor(mime: string): (ext: string)
    ensures ext in {"jpg", "png", "gif", "webp", "avif"}
    ensures mime == "image/png" ==> ext == "png"
    ensures mime == "image/gif" ==> ext == "gif"
    ensures mime == "image/webp" ==> ext == "webp"
    ensures mime == "image/avif" ==> ext == "avif"
    ensures mime !in {"image/png", "image/gif", "image/webp", "image/avif"} ==> ext == "jpg"
  {
    if mime == "image/jpeg" then "jpg"
    else if mime == "image/png" then "png"
    else if mime == "image/gif" then "gif"
    else if mime == "image/webp" then "webp"
    else if mime == "image/avif" then "avif"
    else "jpg"
  }

  /** `name.split('.').pop()`: the text after the last `.`, or the whole name without one. */
  function FileExtension(name: string): (ext: string)
    ensures |ext| <= |name| && ext == name[|name| - |ext|..]
    ensures '.' !in ext
    ensures |ext| < |name| ==> name[|name| - |ext| - 1] == '.'
  {
    if name == [] then []
    else if name[|name| - 1] == '.' then []
    else FileExtension(name[..|name| - 1]) + [name[|name| - 1]]
  }

  /** A name without a dot is its own extension; otherwise the extension is what follows the
      last dot. */
  lemma FileExtensionSplit(stem: string, ext: string)
    requires '.' !in ext
    ensures FileExtension(ext) == ext
    ensures FileExtension(stem + "." + ext) == ext
  {
    var name := stem + "." + ext;
    assert name[|name| - |ext|..] == ext;
  }

  /** The storage path of an upload: `dishes/<ms>_<six base-36 characters>.<ext>`, the
      characters being 2 to 7 of the random number's base-36 text. */
  function UploadPath(nowMs: nat, random36: string, ext: string): (path: string)
    ensures StartsWith(path, "dishes/")
    ensures EndsWith(path, "." + ext)
  {
    var path := "dishes/" + Decimal(nowMs) + "_" + Slice(random36, 2, 8) + "." + ext;
    assert path[..7] == "dishes/";
    assert path[|path| - |"." + ext|..] == "." + ext;
    path
  }

  /** `uploadImage(file)`: null when unconfigured or when the upload fails; otherwise the
      file is stored under a path ending in the file name's extension, and the result is the
      public URL of that path (represented here by the path). */
  function UploadImage(configured: bool, fileName: string, nowMs: nat, random36: string, uploaded: bool)
    : (r: Option<string>)
    ensures !configured || !uploaded ==> r == None
    ensures configured && uploaded ==> r == Some(UploadPath(nowMs, random36, FileExtension(fileName)))
  {
    if !configured || !uploaded then None else Some(UploadPath(nowMs, random36, FileExtension(fileName)))
  }

  /** `uploadBase64Image(text)`: null when unconfigured, when the text is not a base64 data
      URL, or when the upload fails; otherwise the path carries the extension of the MIME type. */
  function UploadBase64Image(configured: bool, text: string, nowMs: nat, random36: string, uploaded: bool)
    : (r: Option<string>)
    ensures !configured || ParseDataUrl(text).None? || !uploaded ==> r == None
    ensures configured && uploaded && ParseDataUrl(text).Some? ==>
      r == Some(UploadPath(nowMs, random36, ExtFor(ParseDataUrl(text).value.mime)))
  {
    if !configured then None
    else match ParseDataUrl(text)
      case None => None
      case Some(u) => if uploaded then Some(UploadPath(nowMs, random36, ExtFor(u.mime))) else None
  }

  /** The marker a public URL's path carries before the stored file's path. */
  const Marker: string := "/storage/v1/object/public/dish-images/"

  /** The length of the longest prefix without line breaks. */
  function LineRun(s: string): (n: nat)
    ensures n <= |s| && NoLineBreak(s[..n])
    ensures n < |s| ==> IsLineTerminator(s[n])
  {
    if s == [] || IsLineTerminator(s[0]) then 0 else 1 + LineRun(s[1..])
  }

  /** `pathname.match(/\/storage\/v1\/object\/public\/dish-images\/(.+)/)` from position
      `from` on: the leftmost occurrence of the marker followed by at least one character that
      is not a line break; the group is the longest such run. */
  function MatchFrom(pathname: string, from: nat): (r: Option<string>)
    requires from <= |pathname|
    ensures r.Some? ==> |r.value| > 0 && NoLineBreak(r.value)
    decreases |pathname| - from
  {
    if from + |Marker| > |pathname| then None
    else if MarkerAt(pathname, from) && LineRun(pathname[from + |Marker|..]) > 0
    then Some(pathname[from + |Marker|..][..LineRun(pathname[from + |Marker|..])])
    else MatchFrom(pathname, from + 1)
  }

  /** The marker occurs in `s` at position `i`. */
  predicate MarkerAt(s: string, i: nat) {
    i + |Marker| <= |s| && s[i..i + |Marker|] == Marker
  }

  /** The stored file's path named by a public URL's path, if any. */
  function StoragePath(pathname: string): Option<string> {
    MatchFrom(pathname, 0)
  }

  /** A path without the marker names no stored file. */
  lemma {:induction false} NoMarkerNoPath(pathname: string, from: nat)
    requires from <= |pathname|
    requires forall i :: from <= i ==> !MarkerAt(pathname, i)
    ensures MatchFrom(pathname, from) == None
    decreases |pathname| - from
  {
    if from + |Marker| <= |pathname| {
      NoMarkerNoPath(pathname, from + 1);
    }
  }

  /** The public URL path of a stored file gives back the file's path: what `deleteImage`
      removes is what the upload stored. */
  lemma StoragePathOfPublic(path: string)
    requires |path| > 0 && NoLineBreak(path)
    ensures StoragePath(Marker + path) == Some(path)
  {
    var s := Marker + path;
    assert s[0..|Marker|] == Marker;
    assert MarkerAt(s, 0);
    assert s[|Marker|..] == path;
    LineRunAll(path);
    assert path[..|path|] == path;
  }

  lemma {:induction false} LineRunAll(s: string)
    requires NoLineBreak(s)
    ensures LineRun(s) == |s|
  {
    if s != [] {
      LineRunAll(s[1..]);
    }
  }

  /** A file uploaded from a data URL can be found again in its public URL: `deleteImage`
      on that URL removes exactly the file the upload stored. */
  lemma UploadThenDeleteFindsPath(nowMs: nat, random36: string, mime: string)
    requires NoLineBreak(random36)
    ensures StoragePath(Marker + UploadPath(nowMs, random36, ExtFor(mime)))
      == Some(UploadPath(nowMs, random36, ExtFor(mime)))
  {
    var digits := Decimal(nowMs);
    var part := Slice(random36, 2, 8);
    var ext := ExtFor(mime);
    var path := UploadPath(nowMs, random36, ext);
    assert path == "dishes/" + digits + "_" + part + "." + ext;
    forall i | 0 <= i < |path|
      ensures !IsLineTerminator(path[i])
    {
      if i < 7 + |digits| {
        assert i < 7 || IsDigit(path[i]);
      } else if 8 + |digits| <= i < 8 + |digits| + |part| {
        var j := i - 8 - |digits|;
        assert path[i] == part[j];
        assert part[j] == random36[2 + j];
      }
    }
    StoragePathOfPublic(path);
  }

  /** `deleteImage(url)`: false when unconfigured, when the URL does not parse (`pathname` is
      then None), when its path names no stored file, or when the removal fails. */
  function DeleteImage(configured: bool, pathname: Option<string>, removed: bool): (r: bool)
    ensures r <==> configured && pathname.Some? && StoragePath(pathname.value).Some? && removed
  {
    configured && pathname.Some? && StoragePath(pathname.value).Some? && removed
  }
}
