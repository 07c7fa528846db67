/** lib.go: the local path queries, the centring of the banner title and
    the check of a 1-based menu index. */
module Lib {
  import opened Text

  /** What os.Stat finds at a local path. Special stands for anything that
      exists and is not a directory (device, socket, named pipe, ...). */
  datatype PathKind = Missing | RegularFile | Directory | Special

  /** The local file system as the program sees it during one run: a path
      that is not a key does not exist. */
  type FileSystem = map<string, PathKind>

  function KindOf(fs: FileSystem, path: string): PathKind
  {
    if path in fs then fs[path] else Missing
  }

  /** pathExists: false exactly when os.Stat reports that nothing is there. */
  predicate PathExists(fs: FileSystem, path: string)
  {
    KindOf(fs, path) != Missing
  }

  /** isFile: an existing path whose FileInfo is not a directory. */
  predicate IsFile(fs: FileSystem, path: string)
  {
    if !PathExists(fs, path) then false
    else KindOf(fs, path) != Directory
  }

  /** isDir: an existing path whose FileInfo is a directory. */
  predicate IsDir(fs: FileSystem, path: string)
  {
    if !PathExists(fs, path) then false
    else KindOf(fs, path) == Directory
  }

  /** The three queries partition the paths: a path that does not exist is
      neither a file nor a directory, and an existing one is exactly one of
      them (a special file counts as a file). */
  lemma PathQueriesPartition(fs: FileSystem, path: string)
    ensures !(IsFile(fs, path) && IsDir(fs, path))
    ensures !PathExists(fs, path) ==> !IsFile(fs, path) && !IsDir(fs, path)
    ensures PathExists(fs, path) ==> (IsFile(fs, path) <==> !IsDir(fs, path))
    ensures IsFile(fs, path) <==> KindOf(fs, path) in {RegularFile, Special}
  {
  }

  /** alignCenter: centres s in fullSize columns, the odd column of padding
      going to the right; a string at least that long is returned as is. */
  function AlignCenter(s: string, fullSize: int): (r: string)
    ensures |s| >= fullSize ==> r == s
    ensures |s| < fullSize ==>
      var left := (fullSize - |s|) / 2;
      var right := fullSize - |s| - left;
      |r| == fullSize
      && (forall i :: 0 <= i < left ==> r[i] == ' ')
      && r[left..left + |s|] == s
      && (forall i :: left + |s| <= i < |r| ==> r[i] == ' ')
      && left <= right <= left + 1
  {
    var strSize := |s|;
    if strSize >= fullSize then s
    else
      var emptySize := fullSize - strSize;
      var div := emptySize / 2;
      var r := Repeat(' ', div) + s + Repeat(' ', emptySize - div);
      RepeatIsAll(' ', div);
      RepeatIsAll(' ', emptySize - div);
      assert r[div..div + |s|] == s;
      r
  }

  /** isValidIndex: k is a position of an n-element list counted from 1,
      so k - 1 is a position counted from 0. */
  predicate IsValidIndex(selected: int, arrayLen: int)
  {
    !(selected < 1 || selected > arrayLen)
  }

  lemma ValidIndexIsPosition(selected: int, arrayLen: int)
    ensures IsValidIndex(selected, arrayLen) <==> 0 <= selected - 1 < arrayLen
  {
  }
}
