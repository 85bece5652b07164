/** Upload checks of the server: `allowed_file` and the decision taken by the
    crop-problem route before it saves an uploaded image. */
module Uploads {
  import opened Text

  /** The configured `ALLOWED_EXTENSIONS`. */
  const AllowedExtensions: set<string> := {"png", "jpg", "jpeg", "mp4", "mov"}

  /** `i` is the position of the last '.' of `s`. */
  predicate IsLastDot(s: string, i: int) {
    0 <= i < |s| && s[i] == '.' && forall j :: i < j < |s| ==> s[j] != '.'
  }

  /** Position of the last '.' of `s`, if any: the split point of `s.rsplit('.', 1)`. */
  function LastDot(s: string): (r: Option<nat>)
    ensures r.None? <==> '.' !in s
    ensures r.Some? ==> IsLastDot(s, r.value)
  {
    if |s| == 0 then None
    else if s[|s| - 1] == '.' then Some(|s| - 1)
    else
      var r := LastDot(s[..|s| - 1]);
      assert forall c :: c in s <==> c in s[..|s| - 1] || c == s[|s| - 1];
      r
  }

  /** There is at most one last dot. */
  lemma LastDotUnique(s: string, i: int, k: int)
    requires IsLastDot(s, i) && IsLastDot(s, k)
    ensures i == k
  {
  }

  /** `allowed_file(filename)`: there is a '.' and the lower-cased text after the last
      '.' is an allowed extension. */
  function AllowedFile(filename: string): (ok: bool)
    ensures ok <==> exists i :: IsLastDot(filename, i) && Lower(filename[i + 1..]) in AllowedExtensions
    ensures ok ==> '.' in filename
  {
    var d := LastDot(filename);
    var ok := d.Some? && Lower(filename[d.value + 1..]) in AllowedExtensions;
    assert ok ==> IsLastDot(filename, d.value);
    assert (exists i :: IsLastDot(filename, i) && Lower(filename[i + 1..]) in AllowedExtensions) ==> ok by {
      forall i | IsLastDot(filename, i) && Lower(filename[i + 1..]) in AllowedExtensions
        ensures ok
      {
        assert '.' in filename;
        LastDotUnique(filename, i, d.value);
      }
    }
    ok
  }

  /** Only the last extension matters, in any case: "a.tar.PNG" is accepted. */
  lemma AcceptsUpperCaseLastExtension()
    ensures AllowedFile("a.tar.PNG")
  {
    assert IsLastDot("a.tar.PNG", 5);
    assert "a.tar.PNG"[6..] == "PNG";
    assert Lower("PNG") == "png";
  }

  /** A bare extension without a dot and a name ending in a dot are refused. */
  lemma RejectsNoDotAndEmptyExtension()
    ensures !AllowedFile("png")
    ensures !AllowedFile("file.")
  {
  }

  /** What the field `image` of the multipart request holds. */
  datatype ImageField = Missing | Present(filename: string)

  /** The answer of the crop-problem route to a POST. */
  datatype CropOutcome =
    | NoImageUploaded     // JSON error 'No image uploaded'
    | NoSelectedFile      // JSON error 'No selected file'
    | Analyse(name: string) // the file is saved and the mock analysis returned
    | ShowForm            // falls through to the page template

  /** The three checks of the crop-problem route, taken in order. */
  function CropUploadDecision(image: ImageField): (r: CropOutcome)
    ensures r == NoImageUploaded <==> image.Missing?
    ensures r == NoSelectedFile <==> image.Present? && image.filename == ""
    ensures r.Analyse? <==> image.Present? && AllowedFile(image.filename)
    ensures r.Analyse? ==> r.name == image.filename
    ensures r == ShowForm <==> image.Present? && image.filename != "" && !AllowedFile(image.filename)
  {
    match image
    case Missing => NoImageUploaded
    case Present(name) =>
      if name == "" then NoSelectedFile
      else if AllowedFile(name) then Analyse(name)
      else ShowForm
  }

  /** A file reaches the save step only when its last extension is allowed;
      in particular a file whose name has no dot is never saved. */
  lemma SavedFilesHaveAllowedExtension(image: ImageField)
    requires CropUploadDecision(image).Analyse?
    ensures image.Present? && '.' in image.filename
    ensures forall k :: IsLastDot(image.filename, k) ==> Lower(image.filename[k + 1..]) in AllowedExtensions
  {
  }
}
