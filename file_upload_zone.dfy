/**
 * The document upload panel (frontend/app/components/file-upload-zone.tsx): the
 * list of files picked for upload, the error line, and the upload run that sends
 * the files one after another and stops at the first that fails.
 */
module FileUploadZone {
  import opened Wrappers
  import Text

  /** A browser `File` as far as the panel looks at it. */
  datatype UploadedFile = UploadedFile(name: string, mimeType: string)

  const PdfMime: string := "application/pdf"
  const DropRejected: string := "Please drop only PDF files"
  const UploadFailed: string := "Failed to upload files. Ensure you are logged in."

  predicate IsPdf(f: UploadedFile) {
    f.mimeType == PdfMime
  }

  /** `Array.from(files).filter(file => file.type === 'application/pdf')`. */
  function Pdfs(s: seq<UploadedFile>): (r: seq<UploadedFile>)
    ensures |r| <= |s|
    ensures forall k :: 0 <= k < |r| ==> IsPdf(r[k])
  {
    if s == [] then []
    else
      var rest := Pdfs(s[..|s| - 1]);
      var last := s[|s| - 1];
      if IsPdf(last) then rest + [last] else rest
  }

  /** The filter keeps exactly the PDFs of the list: every file it keeps was there, and every PDF is kept. */
  lemma {:induction false} PdfsSelects(s: seq<UploadedFile>)
    ensures forall f :: f in Pdfs(s) ==> f in s && IsPdf(f)
    ensures forall f :: f in s && IsPdf(f) ==> f in Pdfs(s)
    decreases |s|
  {
    if s != [] {
      var init := s[..|s| - 1];
      PdfsSelects(init);
      assert s == init + [s[|s| - 1]];
    }
  }

  /** Filtering keeps the relative order: the PDFs of `a + b` are those of `a`, then those of `b`. */
  lemma {:induction false} PdfsAppend(a: seq<UploadedFile>, b: seq<UploadedFile>)
    ensures Pdfs(a + b) == Pdfs(a) + Pdfs(b)
    decreases |b|
  {
    if b == [] {
      assert a + b == a;
    } else {
      var b' := b[..|b| - 1];
      assert (a + b)[..|a + b| - 1] == a + b';
      PdfsAppend(a, b');
    }
  }

  /** A list made only of PDFs passes the filter whole. */
  lemma {:induction false} PdfsKeepsPdfs(s: seq<UploadedFile>)
    requires forall k :: 0 <= k < |s| ==> IsPdf(s[k])
    ensures Pdfs(s) == s
    decreases |s|
  {
    if s != [] {
      var init := s[..|s| - 1];
      assert forall k :: 0 <= k < |init| ==> IsPdf(init[k]) by {
        forall k | 0 <= k < |init| ensures IsPdf(init[k]) {
          assert init[k] == s[k];
        }
      }
      PdfsKeepsPdfs(init);
      assert IsPdf(s[|s| - 1]);
      assert init + [s[|s| - 1]] == s;
    }
  }

  /** The label of the upload button. */
  function ButtonLabel(isUploading: bool, count: nat): (r: string)
    ensures isUploading ==> r == "Uploading..."
    ensures !isUploading ==> |r| > 7 && r[..7] == "Upload " && Text.Contains(r, " file")
    ensures !isUploading ==> (r[|r| - 1] == 's' <==> count != 1)
    ensures !isUploading ==>
      var digits := Text.NatToString(count);
      |r| >= 7 + |digits| && r[7..7 + |digits|] == digits && Text.DigitsValue(r[7..7 + |digits|]) == count &&
      r[7 + |digits|..] == " file" + (if count != 1 then "s" else "")
  {
    if isUploading then "Uploading..."
    else
      var r := "Upload " + Text.NatToString(count) + " file" + (if count != 1 then "s" else "");
      Text.ContainsAt(r, " file", 7 + |Text.NatToString(count)|);
      r
  }

  /** The label names the count: two different counts never give the same label. */
  lemma ButtonLabelNamesCount(a: nat, b: nat)
    requires ButtonLabel(false, a) == ButtonLabel(false, b)
    ensures a == b
  {
    var da := Text.NatToString(a);
    var db := Text.NatToString(b);
    var r := ButtonLabel(false, a);
    assert r == "Upload " + da + " file" + (if a != 1 then "s" else "");
    assert r == "Upload " + db + " file" + (if b != 1 then "s" else "");
    DigitsBeforeSpace(r, 7, da, db);
  }

  /** Two digit runs at the same place, each followed by a blank, are the same run. */
  lemma DigitsBeforeSpace(r: string, k: nat, d1: string, d2: string)
    requires Text.AllDigits(d1) && Text.AllDigits(d2)
    requires k + |d1| < |r| && r[k..k + |d1|] == d1 && r[k + |d1|] == ' '
    requires k + |d2| < |r| && r[k..k + |d2|] == d2 && r[k + |d2|] == ' '
    ensures d1 == d2
  {
  }

  /**
   * How many uploads of the first `count` files go through before one fails:
   * `count` when none fails, otherwise the index of the first failure.
   */
  function FirstFailure(count: nat, succeeds: nat -> bool): (n: nat)
    ensures n <= count
    ensures forall j :: 0 <= j < n ==> succeeds(j)
    ensures n < count ==> !succeeds(n)
  {
    if count == 0 then 0
    else
      var n := FirstFailure(count - 1, succeeds);
      if n < count - 1 then n
      else if succeeds(count - 1) then count
      else count - 1
  }

  class UploadZone {
    var files: seq<UploadedFile>
    var error: string
    var isUploading: bool
    var isDragging: bool

    constructor ()
      ensures files == [] && error == "" && !isUploading && !isDragging
    {
      files := [];
      error := "";
      isUploading := false;
      isDragging := false;
    }

    /**
     * A drop: the highlight goes off; a drop without any PDF sets the error and
     * leaves the list alone, otherwise the PDFs join the list and the error clears.
     */
    method HandleDrop(dropped: seq<UploadedFile>)
      modifies this
      ensures !isDragging && isUploading == old(isUploading)
      ensures Pdfs(dropped) == [] ==> files == old(files) && error == DropRejected
      ensures Pdfs(dropped) != [] ==> files == old(files) + Pdfs(dropped) && error == ""
    {
      isDragging := false;
      var pdfs := Pdfs(dropped);
      if |pdfs| == 0 {
        error := DropRejected;
        return;
      }
      files := files + pdfs;
      error := "";
    }

    /** The file dialog: its PDFs join the list; the error line is left as it is. */
    method HandleFileInput(selected: Option<seq<UploadedFile>>)
      modifies this
      ensures selected.None? ==> files == old(files)
      ensures selected.Some? ==> files == old(files) + Pdfs(selected.value)
      ensures error == old(error) && isUploading == old(isUploading) && isDragging == old(isDragging)
    {
      if selected.Some? {
        files := files + Pdfs(selected.value);
      }
    }

    /** `prev.filter((_, i) => i !== index)`: drops the file at `index`, if there is one. */
    method RemoveFile(index: int)
      modifies this
      ensures 0 <= index < |old(files)| ==> files == old(files)[..index] + old(files)[index + 1..]
      ensures !(0 <= index < |old(files)|) ==> files == old(files)
      ensures error == old(error) && isUploading == old(isUploading) && isDragging == old(isDragging)
    {
      if 0 <= index < |files| {
        files := files[..index] + files[index + 1..];
      }
    }

    /**
     * The upload run. `succeeds(i)` says whether the i-th call to `uploadPDF`
     * went through. The files are sent in list order and the run stops at the
     * first failure, leaving the whole list in place and the error set; when
     * every file went through the list is emptied and the panel closes.
     * `attempted` is what was sent.
     */
    method HandleUpload(succeeds: nat -> bool) returns (attempted: seq<UploadedFile>, closed: bool)
      modifies this
      ensures old(files) == [] ==> unchanged(this) && attempted == [] && !closed
      ensures old(files) != [] ==>
        var n := FirstFailure(|old(files)|, succeeds);
        && !isUploading && isDragging == old(isDragging)
        && (n == |old(files)| ==> attempted == old(files) && files == [] && error == "" && closed)
        && (n < |old(files)| ==> attempted == old(files)[..n + 1] && files == old(files)
                                 && error == UploadFailed && !closed)
    {
      attempted := [];
      closed := false;
      if |files| == 0 {
        return;
      }
      isUploading := true;
      error := "";
      var i := 0;
      while i < |files|
        invariant i <= |files| && files == old(files)
        invariant attempted == files[..i]
        invariant forall j :: 0 <= j < i ==> succeeds(j)
        invariant isUploading && error == "" && isDragging == old(isDragging)
      {
        attempted := attempted + [files[i]];
        if !succeeds(i) {
          FirstFailureAt(|files|, i, succeeds);
          error := UploadFailed;
          isUploading := false;
          return;
        }
        i := i + 1;
      }
      FirstFailureNone(|files|, succeeds);
      files := [];
      closed := true;
      isUploading := false;
    }
  }

  lemma FirstFailureAt(count: nat, i: nat, succeeds: nat -> bool)
    requires i < count && !succeeds(i)
    requires forall j :: 0 <= j < i ==> succeeds(j)
    ensures FirstFailure(count, succeeds) == i
  {
  }

  lemma FirstFailureNone(count: nat, succeeds: nat -> bool)
    requires forall j :: 0 <= j < count ==> succeeds(j)
    ensures FirstFailure(count, succeeds) == count
  {
  }
}
