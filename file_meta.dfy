/**
 * The file meta scanner (pkg/scanner/meta/files): one fact recording the name and mode of any
 * file it is given.
 */
module FileMetaScanner {
  import opened Wrappers
  import opened Git
  import opened Scanner

  const MetaKey: string := "@files/meta"

  /** Supports: every file. */
  predicate Supports(file: File) {
    true
  }

  /** Scan: the file's meta fact, never an error. */
  function Scan(file: File): Scanned {
    Scanned([Fact(MetaKey, map["name" := Str(file.name), "mode" := Str(file.mode.String())])], None)
  }

  /** Parses the seven-digit form of a mode back into the mode. */
  function ModeOf(s: string): Option<FileMode> {
    if s == Empty.String() then Some(Empty)
    else if s == Dir.String() then Some(Dir)
    else if s == Regular.String() then Some(Regular)
    else if s == Deprecated.String() then Some(Deprecated)
    else if s == Executable.String() then Some(Executable)
    else if s == Symlink.String() then Some(Symlink)
    else if s == Submodule.String() then Some(Submodule)
    else None
  }

  /** Reads the file name and mode back from a meta fact. */
  function MetaOf(fact: Fact): Option<(string, FileMode)> {
    var v := fact.value;
    if fact.key == MetaKey && "name" in v && "mode" in v && v["name"].Str? && v["mode"].Str?
       && ModeOf(v["mode"].text).Some?
    then Some((v["name"].text, ModeOf(v["mode"].text).value))
    else None
  }

  /**
   * Every file is supported and yields exactly one fact and no error, and the fact records the
   * file's name and mode without loss.
   */
  lemma MetaRoundTrip(file: File)
    ensures Supports(file)
    ensures |Scan(file).facts| == 1 && Scan(file).err == None
    ensures MetaOf(Scan(file).facts[0]) == Some((file.name, file.mode))
  {
    var v := Scan(file).facts[0].value;
    assert v["name"] == Str(file.name) && v["mode"] == Str(file.mode.String());
    match file.mode {
      case Empty =>
      case Dir =>
      case Regular =>
      case Deprecated =>
      case Executable =>
      case Symlink =>
      case Submodule =>
    }
  }
}
