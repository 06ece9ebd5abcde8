/** File names of the IR-to-object cache and the paths they stand for. */
module CacheNames {

  /** A name the cache protocol can touch: the entry of a hash, a temporary file
      beside an entry, or any other path (in particular an output file). */
  datatype Name =
    | Entry(hash: string)
    | Temp(hash: string, suffix: string)
    | Other(path: string)

  /** The cache directory and the object file extension of the target. */
  datatype CacheDir = CacheDir(dir: string, ext: string)

  const HASH_LENGTH := 32   // an MD5 digest in hexadecimal
  const SUFFIX_LENGTH := 7  // the seven random characters of a temporary name

  function Base(c: CacheDir): string {
    if c.dir != "" && c.dir[|c.dir| - 1] == '/' then c.dir else c.dir + "/"
  }

  function EntryPath(c: CacheDir, hash: string): string {
    Base(c) + "ircache_" + hash + "." + c.ext
  }

  function TempPath(c: CacheDir, hash: string, suffix: string): string {
    EntryPath(c, hash) + ".tmp" + suffix
  }

  /** Names as the compiler and the pruner form them; every other path is one
      that is neither an entry path nor a temporary path. */
  ghost predicate WellFormed(c: CacheDir, n: Name) {
    match n
    case Entry(h) => |h| == HASH_LENGTH
    case Temp(h, t) => |h| == HASH_LENGTH && |t| == SUFFIX_LENGTH
    case Other(p) =>
      && (forall h :: |h| == HASH_LENGTH ==> p != EntryPath(c, h))
      && (forall h, t :: |h| == HASH_LENGTH && |t| == SUFFIX_LENGTH ==> p != TempPath(c, h, t))
  }

  function Path(c: CacheDir, n: Name): string {
    match n
    case Entry(h) => EntryPath(c, h)
    case Temp(h, t) => TempPath(c, h, t)
    case Other(p) => p
  }

  lemma EntryPathInjective(c: CacheDir, g: string, h: string)
    requires |g| == |h| == HASH_LENGTH
    requires EntryPath(c, g) == EntryPath(c, h)
    ensures g == h
  {
    var k := |Base(c) + "ircache_"|;
    assert EntryPath(c, g)[k..k + HASH_LENGTH] == g;
    assert EntryPath(c, h)[k..k + HASH_LENGTH] == h;
  }

  /** Distinct names are distinct paths: the protocol may treat names as atoms. */
  lemma PathInjective(c: CacheDir, a: Name, b: Name)
    requires WellFormed(c, a) && WellFormed(c, b)
    ensures Path(c, a) == Path(c, b) <==> a == b
  {
    if Path(c, a) == Path(c, b) {
      match (a, b) {
        case (Entry(g), Entry(h)) => EntryPathInjective(c, g, h);
        case (Temp(g, t), Temp(h, u)) =>
          var p := Path(c, a);
          var k := |p| - SUFFIX_LENGTH - 4;
          assert |EntryPath(c, g)| == |EntryPath(c, h)| == k;
          assert EntryPath(c, g) == p[..k] == EntryPath(c, h);
          assert t == p[k + 4..] == u;
          EntryPathInjective(c, g, h);
        case _ =>
      }
    }
  }

  // ----- the pruner's patterns

  /** The file name matches ircache_????????????????????????????????.{o,obj}. */
  predicate MatchesEntry(f: string) {
    |f| > 41 && f[..8] == "ircache_" && f[40] == '.' && (f[41..] == "o" || f[41..] == "obj")
  }

  /** The same followed by .tmp???????. */
  predicate MatchesTemp(f: string) {
    |f| > 11 && MatchesEntry(f[..|f| - 11]) && f[|f| - 11..|f| - 7] == ".tmp"
  }

  /** In the cache directory the pruner's first pattern finds exactly the entries. */
  lemma PrunerFindsEntries(c: CacheDir, f: string)
    requires c.ext == "o" || c.ext == "obj"
    ensures MatchesEntry(f) && f[41..] == c.ext <==> exists h :: |h| == HASH_LENGTH && Base(c) + f == EntryPath(c, h)
  {
    if MatchesEntry(f) && f[41..] == c.ext {
      assert f == f[..8] + f[8..40] + [f[40]] + f[41..];
      assert Base(c) + f == EntryPath(c, f[8..40]);
    }
    if h :| |h| == HASH_LENGTH && Base(c) + f == EntryPath(c, h) {
      assert EntryPath(c, h) == Base(c) + ("ircache_" + h + "." + c.ext);
      SameTail(Base(c), f, "ircache_" + h + "." + c.ext);
      assert f[..8] == "ircache_" && f[40] == '.' && f[41..] == c.ext;
    }
  }

  /** Its second pattern finds exactly the temporary files. */
  lemma PrunerFindsTemps(c: CacheDir, f: string)
    requires c.ext == "o" || c.ext == "obj"
    ensures MatchesTemp(f) && f[..|f| - 11][41..] == c.ext <==>
      exists h, t :: |h| == HASH_LENGTH && |t| == SUFFIX_LENGTH && Base(c) + f == TempPath(c, h, t)
  {
    hide EntryPath;
    if MatchesTemp(f) && f[..|f| - 11][41..] == c.ext {
      var e, t := f[..|f| - 11], f[|f| - 7..];
      PrunerFindsEntries(c, e);
      var h :| |h| == HASH_LENGTH && Base(c) + e == EntryPath(c, h);
      assert f == e + f[|f| - 11..|f| - 7] + t;
      assert Base(c) + f == TempPath(c, h, t);
    }
    if h, t :| |h| == HASH_LENGTH && |t| == SUFFIX_LENGTH && Base(c) + f == TempPath(c, h, t) {
      EntryFile(c, h);
      var e := "ircache_" + h + "." + c.ext;
      assert TempPath(c, h, t) == Base(c) + (e + ".tmp" + t);
      SameTail(Base(c), f, e + ".tmp" + t);
      assert f[..|f| - 11] == e && f[|f| - 11..|f| - 7] == ".tmp";
      PrunerFindsEntries(c, e);
    }
  }

  lemma EntryFile(c: CacheDir, h: string)
    ensures EntryPath(c, h) == Base(c) + ("ircache_" + h + "." + c.ext)
  {
  }

  lemma SameTail(a: string, x: string, y: string)
    requires a + x == a + y
    ensures x == y
  {
    assert (a + x)[|a|..] == x && (a + y)[|a|..] == y;
  }
}
