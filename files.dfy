/**
 * The part of the filesystem the pipeline touches: files as a map from path
 * strings to their bytes, `/` to join a directory and a file name, and
 * `Path.stem`.
 */
module Files {
  import opened Wrappers
  import opened Bytes
  import opened Text

  type Path = string

  /** `Path(dir) / name`, as its string. */
  function JoinPath(dir: Path, name: string): Path
  {
    dir + "/" + name
  }

  /** `Path(p).name`: the text after the last `/`. */
  function Name(p: Path): string
  {
    p[LastIndexOf(p, '/') + 1..]
  }

  /**
   * `Path(p).stem`: the name without its final suffix; a name whose only
   * dot is its first or its last character keeps it.
   */
  function Stem(p: Path): string
  {
    var name := Name(p);
    var i := LastIndexOf(name, '.');
    if 0 < i < |name| - 1 then name[..i] else name
  }

  /** A file written under a directory has, as its stem, its name up to the `.jpg`. */
  lemma {:induction false} StemOfJpg(dir: Path, base: string)
    requires base != [] && '/' !in base
    ensures Stem(JoinPath(dir, base + ".jpg")) == base
  {
    var p := JoinPath(dir, base + ".jpg");
    var name := base + ".jpg";
    assert p == (dir + "/") + name;
    LastSlash(dir + "/", name);
    assert Name(p) == name;
    assert name[..|name| - 1] == base + ".jp";
    assert LastIndexOf(name, '.') == |base| by {
      assert name[|name| - 1] == 'g';
      assert name[|name| - 2] == 'p';
      assert name[|name| - 3] == 'j';
      assert name[|name| - 4] == '.';
      assert name[..|name| - 1][..|name| - 2] == base + ".j";
      assert name[..|name| - 1][..|name| - 2][..|name| - 3] == base + ".";
    }
    assert name[..|base|] == base;
  }

  lemma {:induction false} LastSlash(prefix: string, name: string)
    requires prefix != [] && prefix[|prefix| - 1] == '/' && '/' !in name
    ensures LastIndexOf(prefix + name, '/') == |prefix| - 1
    decreases |name|
  {
    var s := prefix + name;
    if name == [] {
      assert s == prefix;
    } else {
      assert s[|s| - 1] == name[|name| - 1];
      assert s[..|s| - 1] == prefix + name[..|name| - 1];
      LastSlash(prefix, name[..|name| - 1]);
    }
  }

  /** The files on disk, updated in place by writes and deletions. */
  class Disk {
    var files: map<Path, seq<Byte>>

    constructor (initial: map<Path, seq<Byte>>)
      ensures files == initial
    {
      files := initial;
    }

    /** `open(p, 'wb').write(data)`: creates or overwrites. */
    method Write(p: Path, data: seq<Byte>)
      modifies this
      ensures files == old(files)[p := data]
    {
      files := files[p := data];
    }

    /** `Path(p).unlink()` of a file that exists. */
    method Unlink(p: Path)
      requires p in files
      modifies this
      ensures files == old(files) - {p}
    {
      files := files - {p};
    }

    /** `Path(p).read_bytes()`; `None` where Python raises for a missing file. */
    method ReadBytes(p: Path) returns (r: Option<seq<Byte>>)
      ensures r.Some? <==> p in files
      ensures r.Some? ==> r.value == files[p]
    {
      if p in files {
        r := Some(files[p]);
      } else {
        r := None;
      }
    }
  }
}
