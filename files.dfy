/**
 * What the engine sees of the file system: readable files as a map from path to
 * text, directory listings as sequences of entries, and path joining.
 */
module Files {
  import opened Text

  /** A file system snapshot: the paths that can be read, with their contents. */
  type FileSystem = map<String, String>

  /** One entry of a directory listing (os.DirEntry), with its modification time already formatted. */
  datatype DirEntry = DirEntry(name: String, isDir: bool, modTime: String)

  /**
   * filepath.Join of two non-empty-or-empty elements: an empty head adds nothing;
   * otherwise the two are joined by one slash.
   */
  function PathJoin(dir: String, elem: String): (p: String)
    ensures dir == [] ==> p == elem
    ensures dir != [] ==> p == dir + "/" + elem && HasPrefix(p, dir)
  {
    if dir == [] then elem else dir + "/" + elem
  }

  /** Joining one element after another is joining their slash-joined form. */
  lemma PathJoinAssoc(dir: String, a: String, b: String)
    requires dir != [] && a != []
    ensures PathJoin(PathJoin(dir, a), b) == PathJoin(dir, a + "/" + b)
  {
  }
}
