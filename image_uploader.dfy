/** The upload area (components/ImageUploader.tsx): the drag highlight and the rule that
    decides whether a picked or dropped file reaches the page. */
module ImageUploader {
  import opened Wrappers
  import opened Types

  const ImageTypePrefix := "image/"

  /** What one drop or file-input event leads to: nothing, the page's `onImageSelected`
      called with a file, or the "Please upload a valid image file." alert. */
  datatype Upload = Ignored | Selected(file: File) | Rejected

  /** `handleFiles` (components/ImageUploader.tsx:35-42): only the first file is looked at,
      and it is passed on exactly when its type starts with `image/`. */
  function HandleFiles(files: seq<File>): (o: Upload)
    ensures !o.Ignored?
    ensures o.Selected? <==> |files| > 0 && ImageTypePrefix <= files[0].fileType
    ensures o.Selected? ==> o.file == files[0]
  {
    if |files| > 0 && ImageTypePrefix <= files[0].fileType then Selected(files[0]) else Rejected
  }

  /** Files after the first never change the decision. */
  lemma OnlyFirstFileExamined(first: File, rest: seq<File>, other: seq<File>)
    ensures HandleFiles([first] + rest) == HandleFiles([first] + other)
  {
  }

  /** The common test of `handleDrop` and `handleFileInput` (components/ImageUploader.tsx:24-26,
      30-32): a missing or empty file list is ignored before `handleFiles` is reached. */
  function ForwardFiles(files: Option<seq<File>>): (o: Upload)
    ensures o.Ignored? <==> files.None? || |files.value| == 0
    ensures !o.Ignored? ==> o == HandleFiles(files.value)
  {
    if files.Some? && |files.value| > 0 then HandleFiles(files.value) else Ignored
  }

  /** The uploader's one piece of state (components/ImageUploader.tsx:9). */
  class Uploader {
    var isDragging: bool

    constructor ()
      ensures !isDragging
    {
      isDragging := false;
    }

    /** `handleDragOver` (components/ImageUploader.tsx:12-15). */
    method DragOver()
      modifies this
      ensures isDragging
    {
      isDragging := true;
    }

    /** `handleDragLeave` (components/ImageUploader.tsx:17-19). */
    method DragLeave()
      modifies this
      ensures !isDragging
    {
      isDragging := false;
    }

    /** `handleDrop` (components/ImageUploader.tsx:21-27): the highlight is cleared whatever
        was dropped. */
    method Drop(files: Option<seq<File>>) returns (o: Upload)
      modifies this
      ensures !isDragging
      ensures o == ForwardFiles(files)
    {
      isDragging := false;
      o := ForwardFiles(files);
    }

    /** `handleFileInput` (components/ImageUploader.tsx:29-33): leaves the highlight alone. */
    method FileInput(files: Option<seq<File>>) returns (o: Upload)
      ensures o == ForwardFiles(files)
    {
      o := ForwardFiles(files);
    }
  }

  /** A drag over the area then a drop of a PNG: highlighted in between, cleared after,
      and the file is passed on. */
  method DragThenDrop(png: File) returns (during: bool, after: bool, o: Upload)
    requires png.fileType == "image/png"
    ensures during && !after && o == Selected(png)
  {
    var u := new Uploader();
    u.DragOver();
    during := u.isDragging;
    o := u.Drop(Some([png]));
    after := u.isDragging;
  }
}
