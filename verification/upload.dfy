/** `allowed_file` (backend-flask/app/extensions.py): the image-upload extension check. */
module Upload {
  import opened Wrappers
  import opened Text

  /** `ALLOWED_IMAGE_EXTENSIONS`. */
  const AllowedImageExtensions: set<string> := {"png", "jpg", "jpeg"}

  /** The index of the last occurrence of `c` in `s`. */
  function LastIndexOf(s: string, c: char): (r: Option<nat>)
    ensures r.None? <==> c !in s
    ensures r.Some? ==> r.value < |s| && s[r.value] == c && c !in s[r.value + 1..]
  {
    if s == [] then None
    else if s[|s| - 1] == c then Some(|s| - 1)
    else
      var r := LastIndexOf(s[..|s| - 1], c);
      assert s == s[..|s| - 1] + [s[|s| - 1]];
      if r.Some? then assert s[r.value + 1..] == s[..|s| - 1][r.value + 1..] + [s[|s| - 1]]; r
      else r
  }

  /** `filename.rsplit('.', 1)[1]`: the text after the last dot. */
  function Extension(filename: string): (ext: string)
    requires '.' in filename
    ensures '.' !in ext && |ext| < |filename|
    ensures filename == filename[..|filename| - |ext| - 1] + "." + ext
  {
    var i := LastIndexOf(filename, '.').value;
    assert filename == filename[..i] + "." + filename[i + 1..];
    filename[i + 1..]
  }

  /** `allowed_file`: there is a dot, and the text after the last one, lower-cased, is an image extension. */
  predicate AllowedFile(filename: string): (b: bool)
    ensures b ==> '.' in filename && 3 <= |Extension(filename)| <= 4
    ensures b ==> |filename| >= 4 && filename[|filename| - |Extension(filename)| - 1] == '.'
  {
    '.' in filename && Lower(Extension(filename)) in AllowedImageExtensions
  }

  /** The extension of `stem + "." + ext` is `ext`, whatever dots the stem holds. */
  lemma ExtensionOfJoin(stem: string, ext: string)
    requires '.' !in ext
    ensures Extension(stem + "." + ext) == ext
  {
    var f := stem + "." + ext;
    var e := Extension(f);
    assert f[..|f| - |e| - 1] + "." + e == f;
    assert f[|stem|] == '.';
    assert forall k :: 0 <= k < |e| ==> e[k] == f[|f| - |e| + k];
    assert forall k :: 0 <= k < |ext| ==> ext[k] == f[|stem| + 1 + k];
    assert e == f[|f| - |e|..];
  }

  /** A name is accepted exactly when it ends in a dot and an extension that lower-cases to png, jpg or jpeg. */
  lemma AllowedFileOfJoin(stem: string, ext: string)
    requires '.' !in ext
    ensures AllowedFile(stem + "." + ext) <==> Lower(ext) in AllowedImageExtensions
  {
    assert '.' in stem + "." + ext by { assert (stem + "." + ext)[|stem|] == '.'; }
    ExtensionOfJoin(stem, ext);
  }

  /** A name without a dot is refused. */
  lemma NoDotRefused(filename: string)
    requires '.' !in filename
    ensures !AllowedFile(filename)
  {
  }

  /** `a.tar.PNG` is accepted: only the last dot counts, and case does not. */
  lemma UpperCaseAfterLastDotAccepted()
    ensures AllowedFile("a.tar.PNG")
  {
    AllowedFileOfJoin("a.tar", "PNG");
    assert "a.tar" + "." + "PNG" == "a.tar.PNG";
    assert LowerChar('P') == 'p' && LowerChar('N') == 'n' && LowerChar('G') == 'g';
    assert Lower("PNG") == "png";
  }

  /** `file.` is refused: its extension is empty. */
  lemma TrailingDotRefused()
    ensures !AllowedFile("file.")
  {
    AllowedFileOfJoin("file", "");
    assert "file" + "." + "" == "file.";
    assert Lower("") !in AllowedImageExtensions;
  }

  /** `png` is refused: it has no dot. */
  lemma BareExtensionRefused()
    ensures !AllowedFile("png")
  {
    NoDotRefused("png");
  }
}
