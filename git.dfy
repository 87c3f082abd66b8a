/**
 * The parts of the git object store (go-git) the relations and scanners consume: files of a tree,
 * commits, hash validation and the iterators that walk them. Reading objects from disk is not part
 * of this model; what the object store yields is given as values.
 */
module Git {
  import opened Wrappers

  /** go-git's filemode.FileMode, one constructor per named mode. */
  datatype FileMode = Empty | Dir | Regular | Deprecated | Executable | Symlink | Submodule {

    /** FileMode.IsFile: regular, deprecated, executable files and symbolic links. */
    predicate IsFile() {
      this == Regular || this == Deprecated || this == Executable || this == Symlink
    }

    /** FileMode.String: the mode as seven octal digits. */
    function String(): (s: string)
      ensures |s| == 7
    {
      match this
      case Empty => "0000000"
      case Dir => "0040000"
      case Regular => "0100644"
      case Deprecated => "0100664"
      case Executable => "0100755"
      case Symlink => "0120000"
      case Submodule => "0160000"
    }
  }

  /** The string form of a mode determines the mode: nothing is lost when a fact records it. */
  lemma ModeStringInjective(a: FileMode, b: FileMode)
    requires a.String() == b.String()
    ensures a == b
  {
    assert a.String()[2] == b.String()[2] && a.String()[4] == b.String()[4] && a.String()[5] == b.String()[5];
  }

  /** object.File: a slash-separated path in the tree, its mode and the hash of its blob. */
  datatype File = File(name: string, mode: FileMode, hash: string)

  /** Author timestamps, as an instant on a discrete time line. */
  type Time = int

  /** object.Commit, restricted to the columns of the commits relation. */
  datatype Commit = Commit(hash: string, message: string, authorName: string, authorEmail: string,
                           authorWhen: Time, parents: nat)

  predicate IsHexDigit(c: char) {
    '0' <= c <= '9' || 'a' <= c <= 'f' || 'A' <= c <= 'F'
  }

  /** plumbing.IsHash: exactly 40 hexadecimal digits, in either case. */
  predicate IsHash(s: string) {
    |s| == 40 && forall i :: 0 <= i < |s| ==> IsHexDigit(s[i])
  }

  /** The textual form of the zero hash. */
  const ZeroHash: string := seq(40, _ => '0')

  /** One result of an object iterator's Next: an item, io.EOF, plumbing.ErrObjectNotFound, or another error. */
  datatype Step<+T> = Item(item: T) | Eof | NotFound | Failed(error: Error)

  /**
   * What an iterator run to the end yields: its items, then io.EOF (`end == None`) or the error
   * that stopped it.
   */
  datatype Listing<+T> = Listing(items: seq<T>, end: Option<Error>)

  /** object.CommitIter: hands out the steps it was built over, then io.EOF for ever. */
  class CommitIter {
    var pending: seq<Step<Commit>>
    var closed: bool

    constructor (steps: seq<Step<Commit>>)
      ensures pending == steps && !closed
    {
      pending := steps;
      closed := false;
    }

    method Next() returns (step: Step<Commit>)
      modifies this
      ensures step == if old(pending) == [] then Eof else old(pending)[0]
      ensures pending == if old(pending) == [] then [] else old(pending)[1..]
      ensures closed == old(closed)
    {
      if pending == [] {
        step := Eof;
      } else {
        step := pending[0];
        pending := pending[1..];
      }
    }

    method Close()
      modifies this
      ensures closed && pending == old(pending)
    {
      closed := true;
    }
  }
}
