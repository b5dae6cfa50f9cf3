/**
 * The source image folder as the engine sees it: the directory listing in
 * `os.listdir` order and the text of the files that can be opened.
 */
module Folder {
  import opened Wrappers
  import opened Text

  datatype Folder = Folder(listing: seq<string>, files: map<string, seq<string>>)

  predicate EndsWith(s: string, suffix: string) {
    |suffix| <= |s| && s[|s| - |suffix|..] == suffix
  }

  /** `get_file_list`: the listed names ending in the extension, in listing order. */
  function FilesWithExtension(names: seq<string>, ext: string): (r: seq<string>)
    ensures forall i :: 0 <= i < |r| ==> EndsWith(r[i], ext) && r[i] in names
    ensures |r| <= |names|
    ensures forall x :: x in r <==> x in names && EndsWith(x, ext)
    ensures forall x :: multiset(r)[x] == if EndsWith(x, ext) then multiset(names)[x] else 0
  {
    if names == [] then []
    else
      var rest := FilesWithExtension(names[1..], ext);
      assert names == [names[0]] + names[1..];
      if EndsWith(names[0], ext) then [names[0]] + rest else rest
  }

  /** The metadata files of a capture folder. */
  function MetadataFiles(folder: Folder): seq<string> {
    FilesWithExtension(folder.listing, ".txt")
  }

  /** `open(path).readlines()`, failing when the file is not there. */
  function ReadLines(folder: Folder, name: string): (r: Result<seq<string>>)
    ensures r.Ok? <==> name in folder.files
  {
    if name in folder.files then Ok(folder.files[name]) else Err(FileNotFound)
  }
}
