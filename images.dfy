/**
 * `GET /api/images` (app/api/images/route.ts): creates the uploads directory
 * when it is missing, then keeps the names of its listing whose lower-cased
 * extension is an image extension and turns each into an `/uploads/` path.
 */
module Images {
  import opened Text
  import opened Storage
  import Upload

  const ImageExtensions := [".jpg", ".jpeg", ".png", ".gif", ".webp"]

  datatype Reply = ImageList(images: seq<string>) | Error(error: string)

  datatype Response = Response(status: int, reply: Reply)

  const ListError := "Failed to list images"

  /** Which file-system call throws, if any: `mkdirSync` or `readdirSync`. */
  datatype Fault = NoFault | MkdirFails | ReadFails

  /** The filter's test: `imageExtensions.includes(path.extname(file).toLowerCase())`. */
  predicate IsImageFile(name: string) {
    Lower(ExtName(name)) in ImageExtensions
  }

  /** `xs.filter(keep)`. */
  function Filter(xs: seq<string>, keep: string -> bool): (r: seq<string>)
    ensures forall x :: x in r <==> x in xs && keep(x)
    ensures |r| <= |xs|
  {
    if xs == [] then []
    else (if keep(xs[0]) then [xs[0]] else []) + Filter(xs[1..], keep)
  }

  /** `files.filter(...)` with the image test. */
  function KeepImages(files: seq<string>): (r: seq<string>)
    ensures forall x :: x in r <==> x in files && IsImageFile(x)
    ensures |r| <= |files|
  {
    Filter(files, IsImageFile)
  }

  /** `imageFiles.map(file => '/uploads/' + file)`. */
  function UploadPaths(names: seq<string>): (r: seq<string>)
    ensures |r| == |names|
    ensures forall i :: 0 <= i < |names| ==> r[i] == Upload.UrlOf(names[i])
  {
    if names == [] then [] else [Upload.UrlOf(names[0])] + UploadPaths(names[1..])
  }

  /** `a` is `b` with some elements left out, the rest in the same order. */
  predicate IsSubsequence(a: seq<string>, b: seq<string>)
    decreases |b|
  {
    if b == [] then a == []
    else (a != [] && a[0] == b[0] && IsSubsequence(a[1..], b[1..])) || IsSubsequence(a, b[1..])
  }

  lemma {:induction false} FilterInOrder(xs: seq<string>, keep: string -> bool)
    ensures IsSubsequence(Filter(xs, keep), xs)
  {
    if xs != [] {
      FilterInOrder(xs[1..], keep);
      if keep(xs[0]) {
        assert Filter(xs, keep)[1..] == Filter(xs[1..], keep);
      } else {
        assert Filter(xs, keep) == Filter(xs[1..], keep);
      }
    }
  }

  lemma {:induction false} FilterConcat(a: seq<string>, b: seq<string>, keep: string -> bool)
    ensures Filter(a + b, keep) == Filter(a, keep) + Filter(b, keep)
  {
    if a == [] {
      assert a + b == b;
    } else {
      assert (a + b)[1..] == a[1..] + b;
      FilterConcat(a[1..], b, keep);
    }
  }

  lemma {:induction false} FilterTwice(xs: seq<string>, keep: string -> bool)
    ensures Filter(Filter(xs, keep), keep) == Filter(xs, keep)
  {
    if xs != [] {
      FilterTwice(xs[1..], keep);
      var head := if keep(xs[0]) then [xs[0]] else [];
      FilterConcat(head, Filter(xs[1..], keep), keep);
    }
  }

  /** The kept names are the image names of the listing in the listing's order. */
  lemma KeepImagesInOrder(files: seq<string>)
    ensures IsSubsequence(KeepImages(files), files) && |KeepImages(files)| <= |files|
  {
    FilterInOrder(files, IsImageFile);
  }

  /** Filtering kept names again keeps them all. */
  lemma KeepImagesIdempotent(files: seq<string>)
    ensures KeepImages(KeepImages(files)) == KeepImages(files)
  {
    FilterTwice(files, IsImageFile);
  }

  /** The extension test ignores case: a name and its lower-cased form are listed alike. */
  lemma ExtensionCaseIgnored(name: string)
    ensures IsImageFile(Lower(name)) <==> IsImageFile(name)
  {
    ExtNameLower(name);
    LowerIdempotent(ExtName(name));
  }

  lemma EmptyIsNoImageExtension()
    ensures Lower("") !in ImageExtensions
  {
    assert Lower("") == "";
  }

  /** A name without an extension is never listed. */
  lemma NoExtensionNeverListed(name: string)
    ensures ExtName(name) == "" ==> !IsImageFile(name)
  {
    EmptyIsNoImageExtension();
  }

  lemma UpperCasePngListed()
    ensures IsImageFile("A.PNG")
  {
    var name := "A.PNG";
    assert SlashFree(name) by {
      assert forall i :: 0 <= i < |name| ==> name[i] in "A.PNG";
    }
    assert BaseName(name) == name;
    assert name[1] == '.';
    var e := ExtName(name);
    assert e == BaseExt(name);
    assert e == ".PNG";
    assert Lower(e) == ".png";
  }

  /** A successful upload shows in the gallery exactly when the name it was sent with has an image extension; the MIME type plays no part. */
  lemma UploadListedIffImageExtension(uuid: string, fileName: string)
    requires uuid != "" && DotFree(uuid) && SlashFree(uuid)
    ensures IsImageFile(Upload.StoredName(uuid, fileName)) <==> IsImageFile(fileName)
  {
    Upload.StoredNameKeepsExtension(uuid, fileName);
  }

  /** `listing` is what `readdirSync` gives for `names`: each name once, in some order. */
  ghost predicate ListingOf(listing: seq<string>, names: set<string>) {
    && (forall n :: n in listing <==> n in names)
    && (forall i, j :: 0 <= i < j < |listing| ==> listing[i] != listing[j])
  }

  /** The handler `GET`; `listing` is the directory's listing once it exists, and `fault` the file-system call that throws. */
  method Get(dir: UploadsDir, listing: seq<string>, fault: Fault) returns (resp: Response)
    requires dir.Valid() && ListingOf(listing, dir.files.Keys)
    modifies dir
    ensures dir.Valid() && dir.files == old(dir.files)
    ensures fault == MkdirFails && !old(dir.present) ==> resp == Response(500, Error(ListError)) && !dir.present
    ensures !(fault == MkdirFails && !old(dir.present)) ==> dir.present
    ensures fault == ReadFails ==> resp == Response(500, Error(ListError))
    ensures fault == NoFault || (fault == MkdirFails && old(dir.present)) ==>
      resp == Response(200, ImageList(UploadPaths(KeepImages(listing))))
    ensures fault == NoFault && !old(dir.present) ==> resp.reply.images == []
  {
    assert listing != [] ==> listing[0] in dir.files;
    if !dir.present {
      if fault == MkdirFails {
        return Response(500, Error(ListError));
      }
      dir.Mkdir();
    }
    if fault == ReadFails {
      return Response(500, Error(ListError));
    }
    var kept := KeepImages(listing);
    resp := Response(200, ImageList(UploadPaths(kept)));
  }
}
