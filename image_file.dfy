/**
 * Loading the chosen image: the `File` record pairing a path with an
 * in-memory byte stream whose read cursor is shared by every send, and
 * `get_file` / `random_image` over an abstract image directory.
 */
module ImageFile {
  import opened Wrappers
  import opened Selection

  type Byte = bv8

  /**
   * The image directory as one call sees it: the names directly under it, in
   * the order glob yields them, and the contents of each file that can be read.
   */
  datatype Directory = Directory(listing: seq<string>, read: string -> Option<seq<Byte>>)

  /** A loaded image: its path and a byte stream with a read cursor (`io.BytesIO`). */
  class File {
    const path: string
    const content: seq<Byte>
    var pos: nat

    constructor (path: string, content: seq<Byte>)
      ensures this.path == path && this.content == content && pos == 0
    {
      this.path := path;
      this.content := content;
      pos := 0;
    }

    /** `content.seek(offset)`: moves the cursor, past the end included. */
    method Seek(offset: nat)
      modifies this
      ensures pos == offset
    {
      pos := offset;
    }

    /** `content.read()`: everything from the cursor on; the cursor ends at the end (or stays beyond it). */
    method Read() returns (data: seq<Byte>)
      modifies this
      ensures old(pos) < |content| ==> data == content[old(pos)..] && pos == |content|
      ensures old(pos) >= |content| ==> data == [] && pos == old(pos)
    {
      if pos < |content| {
        data := content[pos..];
        pos := |content|;
      } else {
        data := [];
      }
    }
  }

  /** `get_file`: reads the whole file into a fresh stream positioned at its start. */
  method GetFile(dir: Directory, name: string) returns (r: Result<File, ImageError>)
    ensures dir.read(name).None? ==> r == Failure(Unreadable(name))
    ensures dir.read(name).Some? ==>
      r.Success? && fresh(r.value) && r.value.path == name
      && r.value.content == dir.read(name).value && r.value.pos == 0
  {
    match dir.read(name)
    case None =>
      r := Failure(Unreadable(name));
    case Some(bytes) =>
      var f := new File(name, bytes);
      f.Seek(0);
      r := Success(f);
  }

  /**
   * What `random_image` yields for a directory and a choice of index: the chosen
   * name and its bytes, or the error it raises.
   */
  function Select(dir: Directory, choice: nat): (r: Result<(string, seq<Byte>), ImageError>)
    requires ValidChoice(dir.listing, choice)
    ensures r.Success? ==> r.value.0 in dir.listing && IsImageName(r.value.0)
    ensures r.Success? ==> dir.read(r.value.0) == Some(r.value.1)
    ensures r == Failure(NoImages) <==> Candidates(dir.listing) == []
    ensures r.Failure? && r.error.Unreadable? ==>
      r.error.name in dir.listing && IsImageName(r.error.name) && dir.read(r.error.name).None?
    ensures Candidates(dir.listing) != [] ==>
      var n := Candidates(dir.listing)[choice];
      r == (if dir.read(n).Some? then Success((n, dir.read(n).value)) else Failure(Unreadable(n)))
  {
    match Pick(Candidates(dir.listing), choice)
    case Failure(e) => Failure(e)
    case Success(name) =>
      CandidateMembership(dir.listing, name);
      match dir.read(name)
      case None => Failure(Unreadable(name))
      case Some(bytes) => Success((name, bytes))
  }

  /**
   * Every listed image can come out of `random_image`: each of the
   * `multiset(listing)[x]` indices that choose it loads that file, or fails on
   * that very file when it cannot be read.
   */
  lemma SelectReachesEveryImage(dir: Directory, x: string, choice: nat)
    requires x in dir.listing && IsImageName(x)
    requires choice in ChoicesFor(Candidates(dir.listing), x)
    ensures |ChoicesFor(Candidates(dir.listing), x)| == multiset(dir.listing)[x]
    ensures ValidChoice(dir.listing, choice)
    ensures dir.read(x).Some? ==> Select(dir, choice) == Success((x, dir.read(x).value))
    ensures dir.read(x).None? ==> Select(dir, choice) == Failure(Unreadable(x))
  {
    ChoicesOfImage(dir.listing, x);
  }

  /** `random_image`: gathers the candidates, picks one, loads it. */
  method RandomImage(dir: Directory, choice: nat) returns (r: Result<File, ImageError>)
    requires ValidChoice(dir.listing, choice)
    ensures r.Failure? ==> Select(dir, choice) == Failure(r.error)
    ensures r.Success? ==>
      fresh(r.value) && r.value.pos == 0
      && Select(dir, choice) == Success((r.value.path, r.value.content))
  {
    var images := CollectImages(dir.listing);
    var picked := Pick(images, choice);
    if picked.Failure? {
      return Failure(picked.error);
    }
    r := GetFile(dir, picked.value);
  }
}
