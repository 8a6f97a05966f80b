/** The parts of `pathlib.PurePosixPath` the pipeline uses: the final component
    (`name`), its `suffix` and `stem`, and `with_suffix`. */
module PurePaths {
  import opened Strings

  predicate IsSlash(c: char) {
    c == '/'
  }

  predicate NoSlash(s: string) {
    forall i | 0 <= i < |s| :: s[i] != '/'
  }

  /** The components of a path as `PurePosixPath` keeps them: the pieces between
      slashes, without empty pieces and without `.`. */
  function Components(p: string): (r: seq<string>)
    ensures forall k | 0 <= k < |r| :: r[k] != "" && r[k] != "." && NoSlash(r[k])
    decreases |p|
  {
    if p == [] then []
    else
      var n := Span(p, IsSlash);
      Piece(p[..n]) + (if n < |p| then Components(p[n + 1..]) else [])
  }

  /** `PurePosixPath(p).name`: the last component, or "" when there is none. */
  function Name(p: string): (r: string)
    ensures NoSlash(r) && r != "."
  {
    var parts := Components(p);
    if parts == [] then "" else parts[|parts| - 1]
  }

  /** A plain file name is its own `name`. */
  lemma NameOfPlain(n: string)
    requires n != "" && n != "." && NoSlash(n)
    ensures Name(n) == n
  {
    var k := Span(n, IsSlash);
    assert k == |n|;
    assert n[..k] == n;
  }

  /** The components contributed by the piece before the first slash. */
  function Piece(part: string): seq<string> {
    if part == "" || part == "." then [] else [part]
  }

  /** Unfolds `Components` at a slash. */
  lemma ComponentsSplit(p: string, n: nat)
    requires n == Span(p, IsSlash) < |p|
    ensures Components(p) == Piece(p[..n]) + Components(p[n + 1..])
  {
  }

  /** The first piece of `a + "/" + b` is the first piece of `a` (all of `a` when it has no slash). */
  lemma SpanJoin(a: string, b: string)
    ensures Span(a + "/" + b, IsSlash) == Span(a, IsSlash)
  {
    var t := "/" + b;
    assert a + "/" + b == a + t;
    assert IsSlash(t[0]);
    SpanConcat(a, t, IsSlash);
  }

  lemma SliceOfJoin(a: string, b: string, k: nat)
    requires k <= |a|
    ensures (a + "/" + b)[..k] == a[..k]
    ensures (a + "/" + b)[k..] == a[k..] + "/" + b
  {
  }

  /** `ComponentsConcat` when `a` holds no slash. */
  lemma ComponentsConcatPiece(a: string, b: string)
    requires a != [] && Span(a, IsSlash) == |a|
    ensures Components(a + "/" + b) == Components(a) + Components(b)
  {
    var s := a + "/" + b;
    var n := |a|;
    SpanJoin(a, b);
    ComponentsSplit(s, n);
    SliceOfJoin(a, b, n);
    assert s[n + 1..] == b;
    assert a[..n] == a && a[n..] == [];
    assert Components(a) == Piece(a);
  }

  /** `ComponentsConcat` when `a` has a slash: the first piece is peeled off. */
  lemma {:induction false} ComponentsConcatSlash(a: string, b: string)
    requires Span(a, IsSlash) < |a|
    ensures Components(a + "/" + b) == Components(a) + Components(b)
    decreases |a|, 0
  {
    var s := a + "/" + b;
    var n := Span(a, IsSlash);
    SpanJoin(a, b);
    ComponentsSplit(s, n);
    ComponentsSplit(a, n);
    SliceOfJoin(a, b, n + 1);
    SliceOfJoin(a, b, n);
    ComponentsConcat(a[n + 1..], b);
    Associative(Piece(a[..n]), Components(a[n + 1..]), Components(b));
  }

  /** Joining two paths with a slash concatenates their components. */
  lemma {:induction false} ComponentsConcat(a: string, b: string)
    ensures Components(a + "/" + b) == Components(a) + Components(b)
    decreases |a|, 1
  {
    if a == [] {
      var s := a + "/" + b;
      ComponentsSplit(s, 0);
      assert s[1..] == b;
    } else if Span(a, IsSlash) < |a| {
      ComponentsConcatSlash(a, b);
    } else {
      ComponentsConcatPiece(a, b);
    }
  }

  /** A plain file name is a single component. */
  lemma ComponentsOfPlain(n: string)
    requires n != "" && n != "." && NoSlash(n)
    ensures Components(n) == [n]
  {
    var k := Span(n, IsSlash);
    assert k == |n|;
    assert n[..k] == n;
  }

  /** `str(Path(dir) / name)`, for the text of a normalised directory path; the current
      directory, written `""` or `.`, adds nothing. */
  function PathJoin(dir: string, name: string): string {
    if dir == "" || dir == "." then name
    else if EndsWith(dir, "/") then dir + name
    else dir + "/" + name
  }

  /** The `name` of a file put in a directory is the file name. */
  lemma NameOfJoin(dir: string, name: string)
    requires name != "" && name != "." && NoSlash(name)
    ensures Name(PathJoin(dir, name)) == name
  {
    ComponentsOfPlain(name);
    if dir == "" || dir == "." {
    } else if EndsWith(dir, "/") {
      var d := dir[..|dir| - 1];
      assert dir == d + "/";
      assert dir + name == d + "/" + name;
      ComponentsConcat(d, name);
    } else {
      ComponentsConcat(dir, name);
    }
  }

  /** `Path(name).suffix`: from the last dot on, unless that dot is the first or the last character. */
  function Suffix(name: string): string {
    var i := RFind(name, '.');
    if 0 < i < |name| - 1 then name[i..] else ""
  }

  /** `Path(name).stem`: the name without its suffix. */
  function Stem(name: string): string {
    var i := RFind(name, '.');
    if 0 < i < |name| - 1 then name[..i] else name
  }

  /** The stem and the suffix put back together give the name. */
  lemma StemSuffix(name: string)
    ensures Stem(name) + Suffix(name) == name
    ensures Stem(name) == [] <==> name == []
  {
  }

  /** `Path(name).with_suffix(ext)` (Python refuses an empty name). */
  function WithSuffix(name: string, ext: string): string
    requires name != []
  {
    Stem(name) + ext
  }

  /** A proper extension (a dot, at least one more character, no further dot). */
  predicate ProperExtension(ext: string) {
    |ext| >= 2 && ext[0] == '.' && '.' !in ext[1..]
  }

  /** Appending a proper extension to a non-empty name gives that suffix and that stem. */
  lemma AppendedExtension(base: string, ext: string)
    requires base != [] && ProperExtension(ext)
    ensures Suffix(base + ext) == ext
    ensures Stem(base + ext) == base
  {
    var w := base + ext;
    var i := RFind(w, '.');
    assert w[|base|] == '.';
    forall j | |base| < j < |w| ensures w[j] != '.' {
      assert w[j] == ext[1..][j - |base| - 1];
    }
    assert i == |base|;
    assert w[i..] == ext && w[..i] == base;
  }

  /** Replacing the suffix by a proper one is undone by `suffix` and `stem`. */
  lemma WithSuffixRoundTrip(name: string, ext: string)
    requires name != [] && ProperExtension(ext)
    ensures Suffix(WithSuffix(name, ext)) == ext
    ensures Stem(WithSuffix(name, ext)) == Stem(name)
  {
    StemSuffix(name);
    AppendedExtension(Stem(name), ext);
  }
}
