/** The image lister `getImages`: the files of the images directory whose
    extension is an allowed image extension, sorted by name. */
module Listing {
  import opened Ordering

  /** One entry of `os.ReadDir`: its base name and whether it is a
      directory. */
  datatype DirEntry = DirEntry(name: string, isDir: bool)

  /** `filepath.Ext` with `/` as the path separator: the suffix from the last
      `.` of the final path element, or empty when that element has no dot. */
  function Ext(path: string): (ext: string)
    ensures |ext| <= |path| && ext == path[|path| - |ext|..]
    ensures |ext| > 0 ==> ext[0] == '.'
    ensures forall i :: 1 <= i < |ext| ==> ext[i] != '.' && ext[i] != '/'
    ensures |ext| == 0 ==> forall i :: 0 <= i < |path| && path[i] == '.' ==> '/' in path[i + 1..]
  {
    ExtBefore(path, |path|)
  }

  /** `filepath.Ext` scanning backwards from position `end`; the characters
      from `end` on have already been passed over. */
  function ExtBefore(path: string, end: nat): (ext: string)
    requires end <= |path|
    requires forall i :: end <= i < |path| ==> path[i] != '.' && path[i] != '/'
    ensures |ext| <= |path| && ext == path[|path| - |ext|..]
    ensures |ext| > 0 ==> ext[0] == '.'
    ensures forall i :: 1 <= i < |ext| ==> ext[i] != '.' && ext[i] != '/'
    ensures |ext| == 0 ==> forall i :: 0 <= i < end && path[i] == '.' ==> '/' in path[i + 1..]
  {
    if end == 0 then []
    else if path[end - 1] == '/' then []
    else if path[end - 1] == '.' then path[end - 1..]
    else ExtBefore(path, end - 1)
  }

  /** The extensions `getImages` accepts, compared case-sensitively. */
  const ImageExtensions: set<string> := {".jpg", ".jpeg", ".png", ".gif", ".bmp", ".webp"}

  /** An entry `getImages` lists. */
  predicate IsImageEntry(e: DirEntry) {
    !e.isDir && Ext(e.name) in ImageExtensions
  }

  /** Reference definition: the names of the listed entries, in directory
      order. */
  function ImageNames(entries: seq<DirEntry>): seq<string>
  {
    if |entries| == 0 then []
    else
      var rest := ImageNames(entries[..|entries| - 1]);
      var e := entries[|entries| - 1];
      if IsImageEntry(e) then rest + [e.name] else rest
  }

  /** A name is among the image names exactly when some entry with that name
      is a non-directory with an allowed extension. */
  lemma {:induction false} ImageNamesMembership(entries: seq<DirEntry>, name: string)
    ensures name in ImageNames(entries) <==> exists e :: e in entries && IsImageEntry(e) && e.name == name
  {
    if |entries| > 0 {
      var init := entries[..|entries| - 1];
      ImageNamesMembership(init, name);
      assert entries == init + [entries[|entries| - 1]];
    }
  }

  /** `getImages` on the entries of the images directory. */
  method GetImages(entries: seq<DirEntry>) returns (images: seq<string>)
    ensures Sorted(images)
    ensures multiset(images) == multiset(ImageNames(entries))
    ensures forall name :: name in images <==> exists e :: e in entries && IsImageEntry(e) && e.name == name
    ensures forall k :: 0 <= k < |images| ==> Ext(images[k]) in ImageExtensions
  {
    var found: seq<string> := [];
    for i := 0 to |entries|
      invariant found == ImageNames(entries[..i])
    {
      assert entries[..i + 1][..i] == entries[..i];
      var entry := entries[i];
      if !entry.isDir {
        var ext := Ext(entry.name);
        if ext in ImageExtensions {
          found := found + [entry.name];
        }
      }
    }
    assert entries[..|entries|] == entries;
    images := SortStrings(found);
    forall name
      ensures name in images <==> exists e :: e in entries && IsImageEntry(e) && e.name == name
    {
      assert name in images <==> name in multiset(images);
      ImageNamesMembership(entries, name);
    }
    forall k | 0 <= k < |images|
      ensures Ext(images[k]) in ImageExtensions
    {
      assert images[k] in images;
    }
  }

  /** An allowed extension after any stem is recognised. */
  lemma {:induction false} ExtOfSuffix(stem: string, ext: string)
    requires |ext| > 0 && ext[0] == '.'
    requires forall i :: 1 <= i < |ext| ==> ext[i] != '.' && ext[i] != '/'
    ensures Ext(stem + ext) == ext
  {
    var path := stem + ext;
    ExtBeforeSuffix(path, |stem|, |path|);
  }

  lemma {:induction false} ExtBeforeSuffix(path: string, dot: nat, end: nat)
    requires dot < end <= |path| && path[dot] == '.'
    requires forall i :: dot < i < |path| ==> path[i] != '.' && path[i] != '/'
    ensures ExtBefore(path, end) == path[dot..]
    decreases end
  {
    if end - 1 > dot {
      ExtBeforeSuffix(path, dot, end - 1);
    }
  }

  /** The comparison is case-sensitive, only the last extension counts, and a
      dot-file named like an extension is taken as having it. */
  lemma ExtensionExamples()
    ensures !IsImageEntry(DirEntry("cat.JPG", false))
    ensures IsImageEntry(DirEntry("archive.tar.png", false))
    ensures !IsImageEntry(DirEntry("photo.png.txt", false))
    ensures !IsImageEntry(DirEntry("album.png", true))
    ensures !IsImageEntry(DirEntry("png", false))
    ensures IsImageEntry(DirEntry(".png", false))
  {
    ExtOfSuffix("cat", ".JPG");
    assert "cat" + ".JPG" == "cat.JPG";
    ExtOfSuffix("archive.tar", ".png");
    assert "archive.tar" + ".png" == "archive.tar.png";
    ExtOfSuffix("photo.png", ".txt");
    assert "photo.png" + ".txt" == "photo.png.txt";
    ExtOfSuffix("", ".png");
    assert "" + ".png" == ".png";
    assert Ext("png") == [];
  }
}
