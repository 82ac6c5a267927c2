// cimfs/src/object.rs: an object to add to an image, the fold that turns its source path
// into an in-image relative path, and the set of ancestor objects that must exist first.
// canonicalize() and is_file() ask the filesystem; they are answered by a FileSystem value.
module Objects {
  import opened Core
  import opened Paths

  /** The filesystem state the resolver consults. */
  datatype FileSystem = FileSystem(canonical: map<SrcPath, SrcPath>, files: set<RelPath>) {
    /** Path::canonicalize succeeds for this path. */
    predicate Canonicalizes(p: SrcPath) {
      p in canonical
    }

    /** Path::canonicalize, with its io::Error mapped to E_INVALIDARG as both callers do. */
    function Canonicalize(p: SrcPath): (r: Result<SrcPath>)
      ensures r.Ok? <==> Canonicalizes(p)
      ensures r.Ok? ==> r.value == canonical[p]
      ensures r.Err? ==> r.error == INVALID_ARG
    {
      if p in canonical then Ok(canonical[p]) else Err(INVALID_ARG)
    }

    /** Path::is_file, asked of a relative path (so resolved against the working directory). */
    predicate IsFile(p: RelPath) {
      p in files
    }
  }

  const INVALID_ARG: Error := Error(E_INVALIDARG)

  // ---------------------------------------------------------------------------------------
  // Folding the components of a source path

  /** PathBuf::join of one name: an empty name leaves the components unchanged. */
  function Name(n: string): (p: RelPath)
    ensures n == "" ==> p == []
    ensures n != "" ==> p == [n]
  {
    if n == "" then [] else [n]
  }

  /**
   * What one component adds to the relative path: a Normal name, the payload of a Verbatim
   * prefix and the share of a (Verbatim)UNC prefix. Everything else adds nothing.
   */
  function Contribution(c: Component): RelPath {
    match c
    case Prefix(Verbatim(p)) => Name(p)
    case Prefix(VerbatimUNC(_, share)) => Name(share)
    case Prefix(UNC(_, share)) => Name(share)
    case Normal(n) => Name(n)
    case _ => []
  }

  /** The relative path resolve_relative_path builds from the components of src, left to right. */
  function Resolved(src: SrcPath): RelPath {
    if src == [] then [] else Resolved(src[..|src| - 1]) + Contribution(src[|src| - 1])
  }

  /** Every name in a resolved path is non-empty: empty payloads are skipped, not joined. */
  lemma {:induction false} ResolvedNamesNonEmpty(src: SrcPath)
    ensures forall i :: 0 <= i < |Resolved(src)| ==> Resolved(src)[i] != ""
  {
    if src != [] {
      ResolvedNamesNonEmpty(src[..|src| - 1]);
    }
  }

  /** A component that (re)starts the root accumulator: a disk-like prefix or the root directory. */
  predicate SetsRoot(c: Component) {
    || c == RootDir
    || (c.Prefix? && (c.kind.VerbatimDisk? || c.kind.DeviceNS? || c.kind.Disk?))
  }

  /** A `.` or `..` component, which the resolver appends to the root accumulator. */
  predicate IsDot(c: Component) {
    c == CurDir || c == ParentDir
  }

  /** One step of the root accumulator. */
  function StepRoot(root: Option<SrcPath>, c: Component): Option<SrcPath> {
    match c
    case Prefix(k) =>
      if k.VerbatimDisk? || k.DeviceNS? || k.Disk? then Some([c]) else root
    case RootDir => Some([RootDir])
    case CurDir | ParentDir => (if root.Some? then Some(root.value + [c]) else Some([c]))
    case Normal(_) => root
  }

  /** The root accumulator after all of src's components. */
  function Root(src: SrcPath): Option<SrcPath> {
    if src == [] then None else StepRoot(Root(src[..|src| - 1]), src[|src| - 1])
  }

  // An independent description of the root: the last component that set it, followed by
  // every `.` and `..` after it; with no such component, the `.` and `..` components alone.

  /** The `.` and `..` components of s, in order. */
  function Dots(s: SrcPath): SrcPath {
    if s == [] then []
    else Dots(s[..|s| - 1]) + (if IsDot(s[|s| - 1]) then [s[|s| - 1]] else [])
  }

  lemma {:induction false} DotsAreDots(s: SrcPath)
    ensures forall i :: 0 <= i < |Dots(s)| ==> IsDot(Dots(s)[i])
  {
    if s != [] {
      DotsAreDots(s[..|s| - 1]);
    }
  }

  /** The index of the last component of s that sets the root, if any. */
  function LastRootSetter(s: SrcPath): (k: Option<nat>)
    ensures k.Some? ==> k.value < |s| && SetsRoot(s[k.value])
  {
    if s == [] then None
    else if SetsRoot(s[|s| - 1]) then Some(|s| - 1)
    else LastRootSetter(s[..|s| - 1])
  }

  function RootSpec(s: SrcPath): Option<SrcPath> {
    match LastRootSetter(s)
    case Some(k) => Some([s[k]] + Dots(s[k + 1..]))
    case None => if Dots(s) == [] then None else Some(Dots(s))
  }

  /** The accumulator the loop maintains is exactly the last root setter followed by the dots after it. */
  lemma {:induction false} RootIsLastSetterThenDots(src: SrcPath)
    ensures Root(src) == RootSpec(src)
  {
    if src != [] {
      var init, c := src[..|src| - 1], src[|src| - 1];
      assert src == init + [c];
      RootIsLastSetterThenDots(init);
      RootSnoc(init, c);
      RootSpecSnoc(init, c);
    }
  }

  /** RootSpec takes the same step as the accumulator. */
  lemma RootSpecSnoc(s: SrcPath, c: Component)
    ensures RootSpec(s + [c]) == StepRoot(RootSpec(s), c)
  {
    LastRootSetterSnoc(s, c);
    if SetsRoot(c) {
      assert (s + [c])[|s|] == c;
      SetterSpec(s + [c]);
    } else if LastRootSetter(s).Some? {
      AfterSetterSpec(s, c, LastRootSetter(s).value);
    } else {
      DotsSnoc(s, c);
      if !IsDot(c) {
        assert Dots(s) + [] == Dots(s);
      } else if Dots(s) == [] {
        assert Dots(s) + [c] == [c];
      }
    }
  }

  lemma SetterSpec(t: SrcPath)
    requires t != [] && SetsRoot(t[|t| - 1])
    ensures RootSpec(t) == Some([t[|t| - 1]])
  {
    assert LastRootSetter(t) == Some(|t| - 1);
    assert t[|t|..] == [] && Dots([]) == [];
    assert [t[|t| - 1]] + [] == [t[|t| - 1]];
  }

  lemma AfterSetterSpec(s: SrcPath, c: Component, k: nat)
    requires !SetsRoot(c) && LastRootSetter(s) == Some(k) && LastRootSetter(s + [c]) == Some(k)
    ensures RootSpec(s + [c]) == StepRoot(RootSpec(s), c)
  {
    var t, tail := s + [c], s[k + 1..];
    assert RootSpec(t) == Some([t[k]] + Dots(t[k + 1..]));
    assert RootSpec(s) == Some([s[k]] + Dots(tail));
    assert t[k] == s[k] && t[k + 1..] == tail + [c];
    DotsSnoc(tail, c);
    StepRootKeeps(RootSpec(s), c);
    if IsDot(c) {
      AppendAssoc([s[k]], Dots(tail), [c]);
    } else {
      AppendLast(Dots(tail), []);
    }
  }

  /** A component that does not set the root appends itself when it is a dot, and is ignored otherwise. */
  lemma StepRootKeeps(root: Option<SrcPath>, c: Component)
    requires !SetsRoot(c)
    ensures IsDot(c) && root.Some? ==> StepRoot(root, c) == Some(root.value + [c])
    ensures IsDot(c) && root.None? ==> StepRoot(root, c) == Some([c])
    ensures !IsDot(c) ==> StepRoot(root, c) == root
  {
  }

  lemma RootSnoc(s: SrcPath, c: Component)
    ensures Root(s + [c]) == StepRoot(Root(s), c)
  {
    assert (s + [c])[..|s|] == s;
  }

  lemma LastRootSetterSnoc(s: SrcPath, c: Component)
    ensures LastRootSetter(s + [c]) == if SetsRoot(c) then Some(|s|) else LastRootSetter(s)
  {
    assert (s + [c])[..|s|] == s;
  }

  lemma DotsSnoc(s: SrcPath, c: Component)
    ensures Dots(s + [c]) == Dots(s) + (if IsDot(c) then [c] else [])
  {
    assert (s + [c])[..|s|] == s;
  }

  /** Nothing in the root accumulator contributes to a relative path. */
  lemma {:induction false} RootContributesNothing(src: SrcPath)
    requires Root(src).Some?
    ensures Resolved(Root(src).value) == []
  {
    RootIsLastSetterThenDots(src);
    var r := Root(src).value;
    match LastRootSetter(src) {
      case Some(k) =>
        DotsAreDots(src[k + 1..]);
        assert r == [src[k]] + Dots(src[k + 1..]);
      case None =>
        DotsAreDots(src);
    }
    assert forall i :: 0 <= i < |r| ==> SetsRoot(r[i]) || IsDot(r[i]);
    RootishResolvesEmpty(r);
  }

  lemma {:induction false} RootishResolvesEmpty(s: SrcPath)
    requires forall i :: 0 <= i < |s| ==> SetsRoot(s[i]) || IsDot(s[i])
    ensures Resolved(s) == []
  {
    if s != [] {
      RootishResolvesEmpty(s[..|s| - 1]);
    }
  }

  /** Resolution distributes over concatenation: the relative path is the in-order join of contributions. */
  lemma {:induction false} ResolvedAppend(s: SrcPath, t: SrcPath)
    ensures Resolved(s + t) == Resolved(s) + Resolved(t)
    decreases |t|
  {
    if t != [] {
      var t', c := t[..|t| - 1], t[|t| - 1];
      assert (s + t)[..|s + t| - 1] == s + t';
      assert (s + t)[|s + t| - 1] == c;
      assert Resolved(s + t) == Resolved(s + t') + Contribution(c);
      assert Resolved(t) == Resolved(t') + Contribution(c);
      ResolvedAppend(s, t');
    } else {
      assert s + t == s;
    }
  }

  /** `.`, `..`, the root directory and disk-like prefixes can be dropped without changing the result. */
  lemma NonContributingDropped(s: SrcPath, c: Component, t: SrcPath)
    requires SetsRoot(c) || IsDot(c)
    ensures Resolved(s + [c] + t) == Resolved(s + t)
  {
    ResolvedSnoc(s, c);
    ResolvedAppend(s + [c], t);
    ResolvedAppend(s, t);
  }

  lemma ResolvedSnoc(s: SrcPath, c: Component)
    ensures Resolved(s + [c]) == Resolved(s) + Contribution(c)
  {
    assert (s + [c])[..|s|] == s;
  }

  /** `../src/file.txt` resolves to `src/file.txt`. */
  lemma ParentDirExample()
    ensures Resolved([ParentDir, Normal("src"), Normal("file.txt")]) == ["src", "file.txt"]
  {
    var s1: SrcPath := [ParentDir];
    var s2: SrcPath := [ParentDir, Normal("src")];
    var s3: SrcPath := [ParentDir, Normal("src"), Normal("file.txt")];
    assert s1[..0] == [];
    assert Resolved(s1) == [];
    assert s2[..1] == s1;
    assert Resolved(s2) == ["src"];
    assert s3[..2] == s2;
  }

  /** A relative path turned back into Normal components resolves to itself. */
  lemma {:induction false} ResolvedAsComponents(p: RelPath)
    requires forall i :: 0 <= i < |p| ==> p[i] != ""
    ensures Resolved(AsComponents(p)) == p
  {
    if p != [] {
      var s, init := AsComponents(p), p[..|p| - 1];
      assert s == AsComponents(init) + [Normal(p[|p| - 1])];
      assert s[..|s| - 1] == AsComponents(init);
      assert Contribution(s[|s| - 1]) == [p[|p| - 1]];
      ResolvedAsComponents(init);
      LastSplit(p);
    }
  }

  // ---------------------------------------------------------------------------------------
  // The value an Object is compared by

  /** The fields of an Object in declaration order, which the derived Eq and Ord compare. */
  datatype ObjectKey = ObjectKey(relativePath: RelPath, src: SrcPath)

  /** The derived Ord: relative paths first, then source paths. */
  predicate KeyLess(x: ObjectKey, y: ObjectKey) {
    PathLess(x.relativePath, y.relativePath)
    || (x.relativePath == y.relativePath && SrcLess(x.src, y.src))
  }

  /** The derived Ord on objects is a strict total order: BTreeSet<Object> keeps them sorted by it. */
  lemma KeyLessIsStrictTotalOrder()
    ensures Irreflexive(KeyLess) && Transitive(KeyLess) && Trichotomous(KeyLess)
  {
    PathLessIsStrictTotalOrder();
    SrcLessIsStrictTotalOrder();
    forall x: ObjectKey, y: ObjectKey ensures x == y || KeyLess(x, y) || KeyLess(y, x) {
      if x.relativePath == y.relativePath && x.src == y.src {
        assert x == y;
      }
    }
  }

  /** Objects with different relative paths are always ordered, and by their relative paths alone. */
  lemma KeyLessByRelativePath(x: ObjectKey, y: ObjectKey)
    requires x.relativePath != y.relativePath
    ensures KeyLess(x, y) || KeyLess(y, x)
    ensures KeyLess(x, y) <==> PathLess(x.relativePath, y.relativePath)
  {
    PathLessIsStrictTotalOrder();
  }

  // ---------------------------------------------------------------------------------------
  // The ancestor set

  /** The deepest j in 1..k whose prefix rel[..j] is a file, or 0 when there is none. */
  function DeepestFile(fs: FileSystem, rel: RelPath, k: nat): (j: nat)
    requires k <= |rel|
    ensures j <= k
    ensures j > 0 ==> fs.IsFile(rel[..j])
    ensures forall i :: j < i <= k ==> !fs.IsFile(rel[..i])
  {
    if k == 0 then 0 else if fs.IsFile(rel[..k]) then k else DeepestFile(fs, rel, k - 1)
  }

  /** The deepest strict ancestor depth: |rel| - 1, or 0 for the empty path. */
  function TopDepth(rel: RelPath): nat {
    if rel == [] then 0 else |rel| - 1
  }

  /** The source path an ancestor object is created from: the root accumulator joined with the ancestor. */
  function AncestorSrc(base: SrcPath, a: RelPath): (s: SrcPath)
    ensures |s| == |base| + |a|
  {
    base + AsComponents(a)
  }

  /** The ancestor object at depth j, once it has resolved its own relative path. */
  function AncestorKey(base: SrcPath, rel: RelPath, j: nat): ObjectKey
    requires j <= |rel|
  {
    var s := AncestorSrc(base, rel[..j]);
    ObjectKey(Resolved(s), s)
  }

  /**
   * The ancestor set resolve_relative_path(true) returns for relative path rel and root base:
   * the strict, non-empty ancestors below the deepest one that is a file, each resolved on
   * its own; E_INVALIDARG if any of those fails to canonicalize.
   */
  function Ancestors(fs: FileSystem, rel: RelPath, base: SrcPath): Result<set<ObjectKey>> {
    var stop := DeepestFile(fs, rel, TopDepth(rel));
    if CanonicalAbove(fs, rel, base, stop) then Ok(AncestorRange(base, rel, stop)) else Err(INVALID_ARG)
  }

  /** Every ancestor source at a depth strictly between k and |rel| canonicalizes. */
  predicate CanonicalAbove(fs: FileSystem, rel: RelPath, base: SrcPath, k: nat)
    decreases |rel| - k
  {
    k + 1 >= |rel| || (fs.Canonicalizes(AncestorSrc(base, rel[..k + 1])) && CanonicalAbove(fs, rel, base, k + 1))
  }

  lemma {:induction false} CanonicalAboveMeans(fs: FileSystem, rel: RelPath, base: SrcPath, k: nat)
    ensures CanonicalAbove(fs, rel, base, k) <==>
            forall j :: k < j < |rel| ==> fs.Canonicalizes(AncestorSrc(base, rel[..j]))
    decreases |rel| - k
  {
    if k + 1 < |rel| {
      CanonicalAboveMeans(fs, rel, base, k + 1);
    }
  }

  /** The ancestor keys strictly between depth k and the path itself, collected deepest first. */
  function AncestorRange(base: SrcPath, rel: RelPath, k: nat): set<ObjectKey>
    decreases |rel| - k
  {
    if k + 1 >= |rel| then {} else AncestorRange(base, rel, k + 1) + {AncestorKey(base, rel, k + 1)}
  }

  /** Every key in the range was made for a depth strictly between k and |rel|. */
  lemma {:induction false} AncestorRangeDepth(base: SrcPath, rel: RelPath, k: nat, x: ObjectKey) returns (j: nat)
    requires x in AncestorRange(base, rel, k)
    ensures k < j < |rel| && x == AncestorKey(base, rel, j)
    decreases |rel| - k
  {
    if x == AncestorKey(base, rel, k + 1) {
      j := k + 1;
    } else {
      j := AncestorRangeDepth(base, rel, k + 1, x);
    }
  }

  /** Every depth strictly between k and |rel| has its key in the range. */
  lemma {:induction false} AncestorRangeHasDepth(base: SrcPath, rel: RelPath, k: nat, j: nat)
    requires k < j < |rel|
    ensures AncestorKey(base, rel, j) in AncestorRange(base, rel, k)
    decreases |rel| - k
  {
    if j > k + 1 {
      AncestorRangeHasDepth(base, rel, k + 1, j);
    }
  }

  /** The ancestor set of the object with source src, as resolve_relative_path(true) computes it. */
  function AncestorsOf(fs: FileSystem, src: SrcPath): Result<set<ObjectKey>> {
    Ancestors(fs, Resolved(src), Root(src).GetOr([]))
  }

  /** Whether resolving a fresh object for src succeeds. */
  predicate ResolutionSucceeds(fs: FileSystem, src: SrcPath, parseAncestors: bool) {
    fs.Canonicalizes(src) && (parseAncestors ==> AncestorsOf(fs, src).Ok?)
  }

  /** The ancestor at depth j of a resolved path resolves back to the prefix of that depth. */
  lemma AncestorResolvesToItself(src: SrcPath, j: nat)
    requires j <= |Resolved(src)|
    ensures AncestorKey(Root(src).GetOr([]), Resolved(src), j).relativePath == Resolved(src)[..j]
  {
    var rel, base := Resolved(src), Root(src).GetOr([]);
    if Root(src).Some? {
      RootContributesNothing(src);
    }
    ResolvedAppend(base, AsComponents(rel[..j]));
    ResolvedNamesNonEmpty(src);
    ResolvedAsComponents(rel[..j]);
  }

  /** The depth an ancestor key was made for. */
  lemma AncestorDepth(src: SrcPath, fs: FileSystem, x: ObjectKey) returns (j: nat)
    requires AncestorsOf(fs, src).Ok? && x in AncestorsOf(fs, src).value
    ensures DeepestFile(fs, Resolved(src), TopDepth(Resolved(src))) < j < |Resolved(src)|
    ensures x == AncestorKey(Root(src).GetOr([]), Resolved(src), j)
    ensures x.relativePath == Resolved(src)[..j]
  {
    var rel, base := Resolved(src), Root(src).GetOr([]);
    j := AncestorRangeDepth(base, rel, DeepestFile(fs, rel, TopDepth(rel)), x);
    AncestorResolvesToItself(src, j);
  }

  /** Each ancestor is a strict, non-empty prefix of the path, and is the root joined with that prefix. */
  lemma AncestorsAreResolvedPrefixes(fs: FileSystem, src: SrcPath, x: ObjectKey)
    requires AncestorsOf(fs, src).Ok? && x in AncestorsOf(fs, src).value
    ensures 0 < |x.relativePath| < |Resolved(src)|
    ensures x.relativePath == Resolved(src)[..|x.relativePath|]
    ensures x.src == Root(src).GetOr([]) + AsComponents(x.relativePath)
    ensures Resolved(x.src) == x.relativePath
  {
    var j := AncestorDepth(src, fs, x);
  }

  /** No ancestor is a file, and none lies at or above a depth whose prefix is a file. */
  lemma AncestorsStopAtFirstFile(fs: FileSystem, src: SrcPath, x: ObjectKey, d: nat)
    requires AncestorsOf(fs, src).Ok? && x in AncestorsOf(fs, src).value
    requires 0 < d < |Resolved(src)| && fs.IsFile(Resolved(src)[..d])
    ensures d < |x.relativePath| && !fs.IsFile(x.relativePath)
  {
    var j := AncestorDepth(src, fs, x);
  }

  /** Within one ancestor set the derived order is the order of depth: parents before children. */
  lemma AncestorsOrderedByDepth(fs: FileSystem, src: SrcPath, x: ObjectKey, y: ObjectKey)
    requires AncestorsOf(fs, src).Ok?
    requires x in AncestorsOf(fs, src).value && y in AncestorsOf(fs, src).value
    ensures KeyLess(x, y) <==> |x.relativePath| < |y.relativePath|
  {
    var i := AncestorDepth(src, fs, x);
    var j := AncestorDepth(src, fs, y);
    PrefixKeysOrdered(Resolved(src), x, y, i, j);
  }

  /** Keys at two prefixes of one path, the same key when the prefixes are, are ordered by the prefixes' lengths. */
  lemma PrefixKeysOrdered(rel: RelPath, x: ObjectKey, y: ObjectKey, i: nat, j: nat)
    requires i <= |rel| && j <= |rel| && x.relativePath == rel[..i] && y.relativePath == rel[..j]
    requires i == j ==> x == y
    ensures KeyLess(x, y) <==> i < j
  {
    if i < j {
      ParentSortsFirst(rel[..i], rel[..j]);
    } else if j < i {
      ParentSortsFirst(rel[..j], rel[..i]);
      PathLessAsymmetric(rel[..j], rel[..i]);
    } else {
      KeyLessIsStrictTotalOrder();
    }
  }

  /** The set holds one object per depth between the deepest file and the path itself. */
  lemma AncestorCount(fs: FileSystem, rel: RelPath, base: SrcPath)
    requires Ancestors(fs, rel, base).Ok?
    ensures |Ancestors(fs, rel, base).value| == TopDepth(rel) - DeepestFile(fs, rel, TopDepth(rel))
  {
    var stop := DeepestFile(fs, rel, TopDepth(rel));
    if rel != [] {
      RangeCount(rel, base, stop);
    } else {
      assert AncestorRange(base, rel, stop) == {};
    }
  }

  lemma {:induction false} RangeCount(rel: RelPath, base: SrcPath, lo: nat)
    requires lo < |rel|
    ensures |AncestorRange(base, rel, lo)| == |rel| - lo - 1
    decreases |rel| - lo
  {
    if lo + 1 < |rel| {
      RangeCount(rel, base, lo + 1);
      var k := AncestorKey(base, rel, lo + 1);
      if k in AncestorRange(base, rel, lo + 1) {
        var j := AncestorRangeDepth(base, rel, lo + 1, k);
        assert false;
      }
    }
  }

  lemma AncestorsOnceStopped(fs: FileSystem, rel: RelPath, base: SrcPath, k: nat)
    requires k <= TopDepth(rel)
    requires k == 0 || fs.IsFile(rel[..k])
    requires DeepestFile(fs, rel, TopDepth(rel)) == DeepestFile(fs, rel, k)
    requires CanonicalAbove(fs, rel, base, k)
    ensures Ancestors(fs, rel, base) == Ok(AncestorRange(base, rel, k))
  {
    assert DeepestFile(fs, rel, k) == k;
  }

  lemma AncestorsOnFailure(fs: FileSystem, rel: RelPath, base: SrcPath, k: nat)
    requires 0 < k <= TopDepth(rel)
    requires !fs.IsFile(rel[..k])
    requires DeepestFile(fs, rel, TopDepth(rel)) == DeepestFile(fs, rel, k)
    requires !fs.Canonicalizes(AncestorSrc(base, rel[..k]))
    ensures Ancestors(fs, rel, base) == Err(INVALID_ARG)
  {
    var stop := DeepestFile(fs, rel, k);
    assert stop == DeepestFile(fs, rel, k - 1) < k;
    CanonicalAboveMeans(fs, rel, base, stop);
  }

  /** One more depth that is not a file and canonicalizes: the loop's invariants hold one level up. */
  lemma AncestorStep(fs: FileSystem, rel: RelPath, base: SrcPath, k: nat)
    requires 0 < k <= TopDepth(rel)
    requires !fs.IsFile(rel[..k]) && fs.Canonicalizes(AncestorSrc(base, rel[..k]))
    requires DeepestFile(fs, rel, TopDepth(rel)) == DeepestFile(fs, rel, k)
    requires CanonicalAbove(fs, rel, base, k)
    ensures DeepestFile(fs, rel, TopDepth(rel)) == DeepestFile(fs, rel, k - 1)
    ensures CanonicalAbove(fs, rel, base, k - 1)
    ensures AncestorRange(base, rel, k - 1) == AncestorRange(base, rel, k) + {ObjectKey(Resolved(AncestorSrc(base, rel[..k])), AncestorSrc(base, rel[..k]))}
  {
  }

  // ---------------------------------------------------------------------------------------
  // The object

  class Object {
    /** Relative path to use in the image; empty until resolution succeeds. */
    var relativePath: RelPath
    /** Path to the source object. */
    var src: SrcPath

    /** Object::new: the given source, with an empty relative path. */
    constructor (src: SrcPath)
      ensures this.src == src && relativePath == []
    {
      this.src := src;
      relativePath := [];
    }

    function Key(): (k: ObjectKey)
      reads this
      ensures k.relativePath == relativePath && k.src == src
    {
      ObjectKey(relativePath, src)
    }

    /** get_relative_path: the relative path once it is non-empty, E_INVALIDARG before. */
    function GetRelativePath(): (r: Result<RelPath>)
      reads this
      ensures r.Ok? <==> relativePath != []
      ensures r.Ok? ==> r.value == relativePath
      ensures r.Err? ==> r.error == INVALID_ARG
    {
      if relativePath == [] then Err(INVALID_ARG) else Ok(relativePath)
    }

    /** get_src_path: canonicalizes the source again, against the filesystem as it is now. */
    function GetSrcPath(fs: FileSystem): (r: Result<SrcPath>)
      reads this
      ensures r.Ok? <==> fs.Canonicalizes(src)
      ensures r.Ok? ==> r.value == fs.canonical[src]
      ensures r.Err? ==> r.error == INVALID_ARG
    {
      fs.Canonicalize(src)
    }

    /**
     * resolve_relative_path. An object that already has a relative path is left alone and
     * gets an empty ancestor set. Otherwise the source must canonicalize (E_INVALIDARG and no
     * change if not); the relative path becomes the fold of the source's components, and
     * with parseAncestors the ancestor set is computed. If an ancestor fails to resolve the
     * error is returned, but the relative path has already been stored.
     */
    method ResolveRelativePath(fs: FileSystem, parseAncestors: bool) returns (r: Result<set<ObjectKey>>)
      modifies this
      decreases if parseAncestors then 3 else 0
      ensures src == old(src)
      ensures old(relativePath) != [] ==> relativePath == old(relativePath) && r == Ok({})
      ensures old(relativePath) == [] && !fs.Canonicalizes(src) ==> relativePath == [] && r == Err(INVALID_ARG)
      ensures old(relativePath) == [] && fs.Canonicalizes(src) ==> relativePath == Resolved(src)
      ensures old(relativePath) == [] && fs.Canonicalizes(src) && !parseAncestors ==> r == Ok({})
      ensures old(relativePath) == [] && fs.Canonicalizes(src) && parseAncestors ==> r == AncestorsOf(fs, src)
    {
      r := Ok({});
      if relativePath == [] {
        if !fs.Canonicalizes(src) {
          return Err(INVALID_ARG);
        }
        var rel, root := FoldComponents(src);
        relativePath := rel;
        if parseAncestors {
          r := CollectAncestors(fs, rel, root.GetOr([]));
        }
      }
    }
  }

  /**
   * The loop over the components of the source path in resolve_relative_path: names go to
   * the relative path, disk-like prefixes, the root directory, `.` and `..` to the root.
   */
  method FoldComponents(src: SrcPath) returns (rel: RelPath, root: Option<SrcPath>)
    ensures rel == Resolved(src) && root == Root(src)
  {
    rel := [];
    root := None;
    for i := 0 to |src|
      invariant rel == Resolved(src[..i])
      invariant root == Root(src[..i])
    {
      var c := src[i];
      match c {
        case Prefix(kind) =>
          match kind {
            case Verbatim(p) => rel := rel + Name(p);
            case VerbatimUNC(_, share) => rel := rel + Name(share);
            case UNC(_, share) => rel := rel + Name(share);
            case VerbatimDisk(_) => root := Some([c]);
            case DeviceNS(_) => root := Some([c]);
            case Disk(_) => root := Some([c]);
          }
        case RootDir => root := Some([c]);
        case CurDir | ParentDir =>
          if root.Some? {
            root := Some(root.value + [c]);
          } else {
            root := Some([c]);
          }
        case Normal(p) => rel := rel + Name(p);
      }
      assert src[..i + 1][..i] == src[..i];
    }
    assert src[..|src|] == src;
  }

  /** One step of the ancestor walk: a new object for src, resolved without its own ancestors. */
  method ResolveAncestor(fs: FileSystem, src: SrcPath) returns (r: Result<ObjectKey>)
    decreases 1
    ensures r.Ok? <==> fs.Canonicalizes(src)
    ensures r.Ok? ==> r.value == ObjectKey(Resolved(src), src)
    ensures r.Err? ==> r.error == INVALID_ARG
  {
    var a := new Object(src);
    var ar := a.ResolveRelativePath(fs, false);
    if ar.Err? {
      return Err(ar.error);
    }
    r := Ok(a.Key());
  }

  /**
   * The ancestor walk of resolve_relative_path: from the deepest strict ancestor of rel up,
   * stopping at the first one that is a file, each resolved as a new object from the root
   * joined with it (without parsing its own ancestors).
   */
  method CollectAncestors(fs: FileSystem, rel: RelPath, base: SrcPath) returns (r: Result<set<ObjectKey>>)
    decreases 2
    ensures r == Ancestors(fs, rel, base)
  {
    var ancestors: set<ObjectKey> := {};
    var k: nat := TopDepth(rel);
    while k > 0
      invariant k <= TopDepth(rel)
      invariant DeepestFile(fs, rel, TopDepth(rel)) == DeepestFile(fs, rel, k)
      invariant CanonicalAbove(fs, rel, base, k)
      invariant ancestors == AncestorRange(base, rel, k)
    {
      if fs.IsFile(rel[..k]) {
        AncestorsOnceStopped(fs, rel, base, k);
        return Ok(ancestors);
      }
      var a := ResolveAncestor(fs, AncestorSrc(base, rel[..k]));
      if a.Err? {
        AncestorsOnFailure(fs, rel, base, k);
        return Err(a.error);
      }
      AncestorStep(fs, rel, base, k);
      ancestors := ancestors + {a.value};
      k := k - 1;
    }
    AncestorsOnceStopped(fs, rel, base, 0);
    r := Ok(ancestors);
  }
}
