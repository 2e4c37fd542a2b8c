/** The image-upload file-name check (`allowed_file`) and the stored path of
    an accepted image. Lower-casing is ASCII-only; no non-ASCII character
    lower-cases onto the letters of an allowed extension except through
    multi-character mappings, which cannot produce one of the four names. */
module Uploads {
  import opened Results

  /** `ALLOWED_EXTENSIONS` of the application. */
  const AllowedExtensions: set<string> := {"png", "jpg", "jpeg", "gif"}

  /** The directory prefix recorded in `image_path` for a saved image. */
  const UploadsPrefix: string := "uploads/"

  function LowerChar(c: char): char
  {
    if 'A' <= c <= 'Z' then (c as int + 32) as char else c
  }

  function Lower(s: string): string
  {
    seq(|s|, i requires 0 <= i < |s| => LowerChar(s[i]))
  }

  /** The position of the last `c` in `s`, if any. */
  function LastIndexOf(s: string, c: char): (r: Option<nat>)
    ensures r.None? <==> c !in s
    ensures r.Some? ==> r.value < |s| && s[r.value] == c && c !in s[r.value + 1..]
  {
    if |s| == 0 then None
    else if s[|s| - 1] == c then Some(|s| - 1)
    else
      var r := LastIndexOf(s[..|s| - 1], c);
      assert s == s[..|s| - 1] + [s[|s| - 1]];
      if r.Some? then
        assert s[r.value + 1..] == s[..|s| - 1][r.value + 1..] + [s[|s| - 1]];
        r
      else r
  }

  /** The text after the last dot, when there is a dot (Python's
      `filename.rsplit('.', 1)[1]`). */
  function Extension(filename: string): Option<string>
  {
    match LastIndexOf(filename, '.')
    case None => None
    case Some(i) => Some(filename[i + 1..])
  }

  /** `allowed_file`: the name has a dot and its extension, lower-cased, is allowed. */
  predicate AllowedFile(filename: string)
  {
    match Extension(filename)
    case None => false
    case Some(ext) => Lower(ext) in AllowedExtensions
  }

  /** The last dot is the only dot with no dot after it. */
  lemma LastDotUnique(filename: string, i: nat)
    requires i < |filename| && filename[i] == '.' && '.' !in filename[i + 1..]
    ensures LastIndexOf(filename, '.') == Some(i)
  {
    var k := LastIndexOf(filename, '.').value;
  }

  /** A file name is accepted exactly when some dot in it is followed by
      dot-free text that lower-cases to an allowed extension. */
  lemma AllowedFileIff(filename: string)
    ensures AllowedFile(filename) <==>
      exists i :: 0 <= i < |filename| && filename[i] == '.' && '.' !in filename[i + 1..]
                  && Lower(filename[i + 1..]) in AllowedExtensions
  {
    if AllowedFile(filename) {
      var k := LastIndexOf(filename, '.').value;
      assert filename[k] == '.' && '.' !in filename[k + 1..];
    }
    if exists i :: 0 <= i < |filename| && filename[i] == '.' && '.' !in filename[i + 1..]
                  && Lower(filename[i + 1..]) in AllowedExtensions {
      var i :| 0 <= i < |filename| && filename[i] == '.' && '.' !in filename[i + 1..]
                  && Lower(filename[i + 1..]) in AllowedExtensions;
      LastDotUnique(filename, i);
    }
  }

  /** An accepted name is never empty, so the upload's truthiness test adds nothing. */
  lemma AllowedFileNonEmpty(filename: string)
    requires AllowedFile(filename)
    ensures |filename| >= 4
  {
    var k := LastIndexOf(filename, '.').value;
    assert |Lower(filename[k + 1..])| == |filename| - k - 1;
  }

  /** The image an upload may carry: the client's file name and the name the
      server derives from it (werkzeug's `secure_filename`, not modelled). */
  datatype ImageUpload = ImageUpload(filename: string, safeName: string)

  /** The `image_path` for an upload with an accepted file, or nothing:
      `uploads/` + timestamp prefix + sanitised name. */
  function AcceptedImagePath(image: Option<ImageUpload>, stamp: string): (r: Option<string>)
    ensures r.Some? <==> image.Some? && AllowedFile(image.value.filename)
    ensures r.Some? ==> r.value == UploadsPrefix + stamp + image.value.safeName
  {
    if image.Some? && |image.value.filename| > 0 && AllowedFile(image.value.filename) then
      Some(UploadsPrefix + stamp + image.value.safeName)
    else None
  }
}
