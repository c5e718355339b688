/** The parts of Node's POSIX `path` module the pipeline uses: `join` of a
    directory and a name, `basename`, and the `name` field of `path.parse`
    (the base name without its last extension). */
module Paths {
  import opened Wrappers
  import Strings

  /** `path.join(dir, name)` without normalisation of `.` and `..` segments. */
  function Join(dir: string, name: string): string {
    dir + "/" + name
  }

  /** `path.basename(p)`: trailing slashes are ignored, then the text after
      the last slash is taken. */
  function Basename(p: string): (b: string)
    ensures '/' !in b
  {
    Strings.LastSegment(Strings.TrimTrailing(p, '/'), '/')
  }

  /** Where the extension of a base name starts: at its last dot, unless that
      dot is the first character (`.bashrc`) or the name is `..`. */
  function ExtensionStart(base: string): (r: Option<nat>)
    ensures r.Some? ==> 0 < r.value < |base| && base[r.value] == '.' && '.' !in base[r.value + 1..]
    ensures r.None? <==> '.' !in base || base == ".." || Strings.LastIndexOf(base, '.') == Some(0)
  {
    match Strings.LastIndexOf(base, '.')
    case None => None
    case Some(k) => if k == 0 || base == ".." then None else Some(k)
  }

  /** The `name` part of a base name. */
  function StemOf(base: string): string {
    var e := ExtensionStart(base);
    if e.Some? then base[..e.value] else base
  }

  /** The `ext` part of a base name. */
  function ExtensionOf(base: string): string {
    var e := ExtensionStart(base);
    if e.Some? then base[e.value..] else ""
  }

  /** `path.parse(p).name`. */
  function Stem(p: string): string {
    StemOf(Basename(p))
  }

  /** `path.parse(p).ext`. */
  function Extension(p: string): string {
    ExtensionOf(Basename(p))
  }

  /** The stem and the extension split the base name; the extension is empty
      or a single dot-led suffix, and the stem carries no slash. */
  lemma StemAndExtension(p: string)
    ensures Stem(p) + Extension(p) == Basename(p)
    ensures Extension(p) == "" || (Extension(p)[0] == '.' && '.' !in Extension(p)[1..])
    ensures '/' !in Stem(p)
  {
    var base := Basename(p);
    StemThenExtension(base);
    ExtensionShape(base);
    StemHasNoSlash(base);
  }

  lemma StemThenExtension(base: string)
    ensures StemOf(base) + ExtensionOf(base) == base
  {
    var e := ExtensionStart(base);
    if e.Some? {
      assert base[..e.value] + base[e.value..] == base;
    }
  }

  lemma ExtensionShape(base: string)
    ensures ExtensionOf(base) == "" || (ExtensionOf(base)[0] == '.' && '.' !in ExtensionOf(base)[1..])
  {
    var e := ExtensionStart(base);
    if e.Some? {
      assert base[e.value..][1..] == base[e.value + 1..];
    }
  }

  lemma StemHasNoSlash(base: string)
    requires '/' !in base
    ensures '/' !in StemOf(base)
  {
    var e := ExtensionStart(base);
    if e.Some? {
      var k := e.value;
      forall i | 0 <= i < k
        ensures base[..k][i] != '/'
      {
        assert base[..k][i] == base[i];
      }
    }
  }

  /** A name with no slash, not ending in a slash, is its own base name once
      joined under any directory. */
  lemma BasenameOfJoin(dir: string, name: string)
    requires |name| > 0 && '/' !in name
    ensures Basename(Join(dir, name)) == name
  {
    var p := Join(dir, name);
    assert p == dir + ['/'] + name;
    assert p[|p| - 1] == name[|name| - 1];
    Strings.LastSegmentAfterSeparator(dir, '/', name);
  }
}
