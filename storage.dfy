/**
 * The `public/uploads` directory that the upload and image handlers share,
 * and the POSIX `path.extname` they use on file names.
 */
module Storage {
  import opened Wrappers
  import opened Text

  /** The uploads directory: whether it exists, and its files by name. */
  class UploadsDir {
    var present: bool
    var files: map<string, seq<bv8>>

    /** A directory that does not exist holds no files. */
    ghost predicate Valid()
      reads this
    {
      !present ==> files == map[]
    }

    constructor ()
      ensures Valid() && !present
    {
      present := false;
      files := map[];
    }

    /** `mkdir(dir, { recursive: true })`: creates the directory if missing, keeps its files otherwise. */
    method Mkdir()
      requires Valid()
      modifies this
      ensures Valid() && present && files == old(files)
    {
      present := true;
    }

    /** `writeFile(dir/name, bytes)`: creates or replaces one file. */
    method WriteFile(name: string, bytes: seq<bv8>)
      requires Valid() && present
      modifies this
      ensures Valid() && present && files == old(files)[name := bytes]
    {
      files := files[name := bytes];
    }
  }

  /** `name` without the `/` characters it ends with. */
  function TrimTrailingSlashes(name: string): (t: string)
    ensures |t| <= |name| && t == name[..|t|]
    ensures t == "" || t[|t| - 1] != '/'
    ensures forall i :: |t| <= i < |name| ==> name[i] == '/'
  {
    if name != [] && name[|name| - 1] == '/' then TrimTrailingSlashes(name[..|name| - 1]) else name
  }

  /** A name with no `/` in it. */
  predicate SlashFree(s: string) {
    forall i :: 0 <= i < |s| ==> s[i] != '/'
  }

  /** Where the text after the last `/` of `t` starts: just past that `/`, or 0 when there is none. */
  function SlashCut(t: string): (j: nat)
    ensures j <= |t| && (j == 0 || t[j - 1] == '/')
    ensures forall i :: j <= i < |t| ==> t[i] != '/'
  {
    match LastIndexOf(t, '/')
    case None => 0
    case Some(k) => k + 1
  }

  /** The text after the last `/`, or all of `t` when it has none. */
  function AfterLastSlash(t: string): (b: string)
    ensures SlashFree(b)
    ensures |b| <= |t| && b == t[|t| - |b|..] && (|b| == |t| || t[|t| - |b| - 1] == '/')
  {
    var j := SlashCut(t);
    assert |t| - |t[j..]| == j;
    t[j..]
  }

  /** The last component of a POSIX path: trailing slashes dropped, then the text after the last `/`. */
  function BaseName(name: string): (b: string)
    ensures SlashFree(b)
    ensures SlashFree(name) ==> b == name
    ensures var t := TrimTrailingSlashes(name);
      |b| <= |t| && b == t[|t| - |b|..] && (|b| == |t| || t[|t| - |b| - 1] == '/')
  {
    var t := TrimTrailingSlashes(name);
    if SlashFree(name) then
      assert t == name;
      assert LastIndexOf(t, '/').None?;
      t
    else
      AfterLastSlash(t)
  }

  /**
   * The extension of a base name: the text from the last `.` to the end, or
   * "" when there is no `.`, when the only one starts the name, or when the
   * name is `..`.
   */
  function BaseExt(base: string): (e: string)
    ensures |e| <= |base| && e == base[|base| - |e|..]
    ensures e != "" ==> e[0] == '.' && forall i :: 0 < i < |e| ==> e[i] != '.'
    ensures e == "" <==> base == ".." || forall i :: 0 < i < |base| ==> base[i] != '.'
  {
    match LastIndexOf(base, '.')
    case None => ""
    case Some(k) =>
      if k == 0 || base == ".." then ""
      else
        assert base[k..][0] == '.';
        base[k..]
  }

  /** `path.extname(name)` (POSIX): the extension of the base name. */
  function ExtName(name: string): (e: string)
    ensures SlashFree(e)
    ensures e != "" ==> e[0] == '.' && forall i :: 0 < i < |e| ==> e[i] != '.'
    ensures e == BaseExt(BaseName(name))
  {
    BaseExt(BaseName(name))
  }

  /** A `.` in a directory part is not an extension: `a.b/c` has none. */
  lemma DirectoryDotIsNoExtension()
    ensures ExtName("a.b/c") == ""
  {
    var t := TrimTrailingSlashes("a.b/c");
    assert t == "a.b/c";
    var k := LastIndexOf(t, '/');
    assert t[3] == '/';
    assert k == Some(3);
    assert BaseName("a.b/c") == "c";
  }

  /** A name with no `.` in it, such as a v4 uuid. */
  predicate DotFree(s: string) {
    forall i :: 0 <= i < |s| ==> s[i] != '.'
  }

  /** A non-empty dot-free prefix does not change an extension put after it. */
  lemma BaseExtAfterPrefix(prefix: string, e: string)
    requires prefix != "" && DotFree(prefix)
    requires e != "" ==> e[0] == '.' && forall i :: 0 < i < |e| ==> e[i] != '.'
    ensures BaseExt(prefix + e) == e
  {
    var s := prefix + e;
    if e == "" {
      assert s == prefix;
    } else {
      assert s[|prefix|] == '.';
      assert s != ".." by { assert s[0] != '.'; }
      var k := LastIndexOf(s, '.');
      assert k.Some?;
      assert k.value == |prefix|;
      assert s[|prefix|..] == e;
    }
  }

  /** A non-empty prefix free of `.` and `/` does not change the extension of what follows when that is itself an extension. */
  lemma ExtNameAfterPrefix(prefix: string, name: string)
    requires prefix != "" && DotFree(prefix) && SlashFree(prefix)
    ensures ExtName(prefix + ExtName(name)) == ExtName(name)
  {
    var e := ExtName(name);
    var s := prefix + e;
    assert SlashFree(s) by {
      assert forall i :: 0 <= i < |s| ==> s[i] == if i < |prefix| then prefix[i] else e[i - |prefix|];
    }
    assert BaseName(s) == s;
    BaseExtAfterPrefix(prefix, e);
  }

  // ---- extensions and letter case --------------------------------------------

  lemma LowerSlice(s: string, a: nat, b: nat)
    requires a <= b <= |s|
    ensures Lower(s)[a..b] == Lower(s[a..b])
  {
  }

  lemma LowerIdempotent(s: string)
    ensures Lower(Lower(s)) == Lower(s)
  {
  }

  /** Lower-casing never makes or removes a `.` or a `/`, so their positions stay. */
  lemma LastIndexOfLower(s: string, c: char)
    requires c == '.' || c == '/'
    ensures LastIndexOf(Lower(s), c) == LastIndexOf(s, c)
  {
    var r, r' := LastIndexOf(Lower(s), c), LastIndexOf(s, c);
    assert forall i :: 0 <= i < |s| ==> (Lower(s)[i] == c <==> s[i] == c);
    if r.Some? && r'.Some? {
      assert !(r.value < r'.value) && !(r'.value < r.value);
    }
  }

  lemma {:induction false} TrimLower(s: string)
    ensures TrimTrailingSlashes(Lower(s)) == Lower(TrimTrailingSlashes(s))
  {
    if s != [] && s[|s| - 1] == '/' {
      LowerSlice(s, 0, |s| - 1);
      TrimLower(s[..|s| - 1]);
    }
  }

  lemma AfterLastSlashLower(t: string)
    ensures AfterLastSlash(Lower(t)) == Lower(AfterLastSlash(t))
  {
    LastIndexOfLower(t, '/');
    assert SlashCut(Lower(t)) == SlashCut(t);
    LowerSlice(t, SlashCut(t), |t|);
  }

  lemma BaseNameLower(s: string)
    ensures BaseName(Lower(s)) == Lower(BaseName(s))
  {
    TrimLower(s);
    AfterLastSlashLower(TrimTrailingSlashes(s));
  }

  lemma BaseExtLower(b: string)
    ensures BaseExt(Lower(b)) == Lower(BaseExt(b))
  {
    LastIndexOfLower(b, '.');
    assert Lower(b) == ".." <==> b == "..";
    match LastIndexOf(b, '.')
    case None =>
    case Some(k) => LowerSlice(b, k, |b|);
  }

  /** The extension of a lower-cased name is the lower-cased extension. */
  lemma ExtNameLower(name: string)
    ensures ExtName(Lower(name)) == Lower(ExtName(name))
  {
    BaseNameLower(name);
    BaseExtLower(BaseName(name));
  }
}
