// Windows paths as Rust's std::path sees them: a source path is its sequence of components,
// an in-image relative path is its sequence of names. The ordering is the one PathBuf's Ord
// uses: component-wise lexicographic, with the derived order on Component and Prefix.
module Paths {
  import opened Core

  /** std::path::Prefix. */
  datatype PrefixKind =
    | Verbatim(name: string)
    | VerbatimUNC(server: string, share: string)
    | VerbatimDisk(drive: byte)
    | DeviceNS(device: string)
    | UNC(server: string, share: string)
    | Disk(drive: byte)

  /** std::path::Component. */
  datatype Component =
    | Prefix(kind: PrefixKind)
    | RootDir
    | CurDir
    | ParentDir
    | Normal(name: string)

  /** A source path, as the sequence of components PathBuf::components yields. */
  type SrcPath = seq<Component>

  /** A relative path in the image: the names of its Normal components, in order. */
  type RelPath = seq<string>

  /** Joining single names onto the empty base turns a relative path back into components. */
  function AsComponents(p: RelPath): (s: SrcPath)
    ensures |s| == |p|
    ensures forall i :: 0 <= i < |p| ==> s[i] == Normal(p[i])
  {
    if p == [] then [] else AsComponents(p[..|p| - 1]) + [Normal(p[|p| - 1])]
  }

  // ---------------------------------------------------------------------------------------
  // Lexicographic order

  /** Lexicographic order on sequences built from an element order; a proper prefix comes first. */
  predicate LexLess<T(==)>(a: seq<T>, b: seq<T>, less: (T, T) -> bool)
    decreases |a|
  {
    if a == [] then b != []
    else if b == [] then false
    else less(a[0], b[0]) || (a[0] == b[0] && LexLess(a[1..], b[1..], less))
  }

  ghost predicate Irreflexive<T(!new)>(less: (T, T) -> bool) {
    forall x :: !less(x, x)
  }

  ghost predicate Transitive<T(!new)>(less: (T, T) -> bool) {
    forall x, y, z :: less(x, y) && less(y, z) ==> less(x, z)
  }

  ghost predicate Trichotomous<T(!new)>(less: (T, T) -> bool) {
    forall x, y :: x == y || less(x, y) || less(y, x)
  }

  lemma {:induction false} LexIrreflexive<T(!new)>(a: seq<T>, less: (T, T) -> bool)
    requires Irreflexive(less)
    ensures !LexLess(a, a, less)
    decreases |a|
  {
    if a != [] {
      assert !less(a[0], a[0]);
      LexIrreflexive(a[1..], less);
    }
  }

  lemma {:induction false} LexTransitive<T(!new)>(a: seq<T>, b: seq<T>, c: seq<T>, less: (T, T) -> bool)
    requires Transitive(less)
    requires LexLess(a, b, less) && LexLess(b, c, less)
    ensures LexLess(a, c, less)
    decreases |a|
  {
    if a != [] && b != [] && c != [] && a[0] == b[0] && b[0] == c[0]
       && LexLess(a[1..], b[1..], less) && LexLess(b[1..], c[1..], less)
    {
      LexTransitive(a[1..], b[1..], c[1..], less);
    }
  }

  lemma {:induction false} LexTrichotomous<T(!new)>(a: seq<T>, b: seq<T>, less: (T, T) -> bool)
    requires Trichotomous(less)
    ensures a == b || LexLess(a, b, less) || LexLess(b, a, less)
    decreases |a|
  {
    if a != [] && b != [] && a[0] == b[0] {
      LexTrichotomous(a[1..], b[1..], less);
      if a[1..] == b[1..] {
        assert a == [a[0]] + a[1..] && b == [b[0]] + b[1..];
      }
    }
  }

  /** A sequence sorts before every proper extension of it. */
  lemma {:induction false} LexPrefixFirst<T(!new)>(a: seq<T>, b: seq<T>, less: (T, T) -> bool)
    requires b != []
    ensures LexLess(a, a + b, less)
    decreases |a|
  {
    if a != [] {
      assert (a + b)[0] == a[0] && (a + b)[1..] == a[1..] + b;
      LexPrefixFirst(a[1..], b, less);
    }
  }

  // ---------------------------------------------------------------------------------------
  // The orders PathBuf's Ord relies on

  /** OsStr comparison, modelled as comparison of character codes. */
  predicate CharLess(x: char, y: char) {
    x < y
  }

  predicate NameLess(s: string, t: string) {
    LexLess(s, t, CharLess)
  }

  /** Ord on an in-image relative path: its names compared lexicographically. */
  predicate PathLess(p: RelPath, q: RelPath) {
    LexLess(p, q, NameLess)
  }

  lemma NameLessIsStrictTotalOrder()
    ensures Irreflexive(NameLess) && Transitive(NameLess) && Trichotomous(NameLess)
  {
    forall s: string ensures !NameLess(s, s) {
      LexIrreflexive(s, CharLess);
    }
    forall s: string, t: string, u: string | NameLess(s, t) && NameLess(t, u) ensures NameLess(s, u) {
      LexTransitive(s, t, u, CharLess);
    }
    forall s: string, t: string ensures s == t || NameLess(s, t) || NameLess(t, s) {
      LexTrichotomous(s, t, CharLess);
    }
  }

  /** Path ordering is a strict total order on relative paths. */
  lemma PathLessIsStrictTotalOrder()
    ensures Irreflexive(PathLess) && Transitive(PathLess) && Trichotomous(PathLess)
  {
    NameLessIsStrictTotalOrder();
    forall p: RelPath ensures !PathLess(p, p) {
      LexIrreflexive(p, NameLess);
    }
    forall p: RelPath, q: RelPath, r: RelPath | PathLess(p, q) && PathLess(q, r) ensures PathLess(p, r) {
      LexTransitive(p, q, r, NameLess);
    }
    forall p: RelPath, q: RelPath ensures p == q || PathLess(p, q) || PathLess(q, p) {
      LexTrichotomous(p, q, NameLess);
    }
  }

  /** Path ordering is asymmetric, so in particular it never relates a path to itself. */
  lemma PathLessAsymmetric(p: RelPath, q: RelPath)
    requires PathLess(p, q)
    ensures !PathLess(q, p) && p != q
  {
    PathLessIsStrictTotalOrder();
  }

  /** A directory sorts before everything beneath it. */
  lemma ParentSortsFirst(parent: RelPath, descendant: RelPath)
    requires |parent| < |descendant| && descendant[..|parent|] == parent
    ensures PathLess(parent, descendant)
  {
    assert descendant == parent + descendant[|parent|..];
    LexPrefixFirst(parent, descendant[|parent|..], NameLess);
  }

  /**
   * The derived order on Component (and on the Prefix inside it) as a sequence of integers:
   * the variant's position in its declaration first, then its fields in order, each character
   * shifted up by one and fields separated by 0 so that a shorter field sorts first.
   */
  function ComponentCode(c: Component): seq<int> {
    match c
    case Prefix(k) => [0, PrefixTag(k)] + PrefixFields(k)
    case RootDir => [1]
    case CurDir => [2]
    case ParentDir => [3]
    case Normal(n) => [4] + NameCode(n)
  }

  /** The position of a Prefix variant in its declaration. */
  function PrefixTag(k: PrefixKind): int {
    match k
    case Verbatim(_) => 0
    case VerbatimUNC(_, _) => 1
    case VerbatimDisk(_) => 2
    case DeviceNS(_) => 3
    case UNC(_, _) => 4
    case Disk(_) => 5
  }

  /** The fields of a Prefix variant, in order. */
  function PrefixFields(k: PrefixKind): seq<int> {
    match k
    case Verbatim(n) => NameCode(n)
    case VerbatimUNC(server, share) => NameCode(server) + [0] + NameCode(share)
    case VerbatimDisk(d) => [d as int]
    case DeviceNS(n) => NameCode(n)
    case UNC(server, share) => NameCode(server) + [0] + NameCode(share)
    case Disk(d) => [d as int]
  }

  function NameCode(s: string): (code: seq<int>)
    ensures |code| == |s|
    ensures forall i :: 0 <= i < |s| ==> code[i] == s[i] as int + 1
  {
    if s == [] then [] else [s[0] as int + 1] + NameCode(s[1..])
  }

  predicate IntLess(x: int, y: int) {
    x < y
  }

  predicate ComponentLess(c: Component, d: Component) {
    LexLess(ComponentCode(c), ComponentCode(d), IntLess)
  }

  /** Ord on a source path: its components compared lexicographically. */
  predicate SrcLess(p: SrcPath, q: SrcPath) {
    LexLess(p, q, ComponentLess)
  }

  lemma NameCodeInjective(s: string, t: string)
    requires NameCode(s) == NameCode(t)
    ensures s == t
  {
    forall i | 0 <= i < |s|
      ensures s[i] == t[i]
    {
      assert NameCode(s)[i] == NameCode(t)[i];
    }
  }

  /** Equal concatenations whose first parts have the same length have equal parts. */
  lemma SameSplit(a1: seq<int>, b1: seq<int>, a2: seq<int>, b2: seq<int>)
    requires |a1| == |a2| && a1 + b1 == a2 + b2
    ensures a1 == a2 && b1 == b2
  {
    var x := a1 + b1;
    assert a1 == x[..|a1|] && a2 == x[..|a2|];
    assert b1 == x[|a1|..] && b2 == x[|a2|..];
  }

  predicate Positive(a: seq<int>) {
    forall i :: 0 <= i < |a| ==> a[i] > 0
  }

  lemma NameCodePositive(s: string)
    ensures Positive(NameCode(s))
  {
    forall i | 0 <= i < |NameCode(s)|
      ensures NameCode(s)[i] > 0
    {
      assert NameCode(s)[i] == s[i] as int + 1;
    }
  }

  /** In a code with no 0 before the separator, the separator cannot come earlier in an equal code. */
  lemma NotBefore(a1: seq<int>, b1: seq<int>, a2: seq<int>, b2: seq<int>)
    requires Positive(a2) && a1 + [0] + b1 == a2 + [0] + b2
    ensures |a2| <= |a1|
  {
    if |a1| < |a2| {
      JoinAt(a1, b1, a2, b2);
      assert false;
    }
  }

  lemma JoinAt(a1: seq<int>, b1: seq<int>, a2: seq<int>, b2: seq<int>)
    ensures |a1| < |a2| ==> (a1 + [0] + b1)[|a1|] == 0 && (a2 + [0] + b2)[|a1|] == a2[|a1|]
  {
  }

  /** Two positive codes joined by the 0 separator are recovered from the joined code. */
  lemma SeparatorSplit(a1: seq<int>, b1: seq<int>, a2: seq<int>, b2: seq<int>)
    requires Positive(a1) && Positive(a2) && a1 + [0] + b1 == a2 + [0] + b2
    ensures a1 == a2 && b1 == b2
  {
    NotBefore(a1, b1, a2, b2);
    NotBefore(a2, b2, a1, b1);
    AppendAssoc(a1, [0], b1);
    AppendAssoc(a2, [0], b2);
    SameSplit(a1, [0] + b1, a2, [0] + b2);
    SameSplit([0], b1, [0], b2);
  }

  /** Two names joined by the 0 separator are recovered from the joined code. */
  lemma PairCodeInjective(s1: string, h1: string, s2: string, h2: string)
    requires NameCode(s1) + [0] + NameCode(h1) == NameCode(s2) + [0] + NameCode(h2)
    ensures s1 == s2 && h1 == h2
  {
    NameCodePositive(s1);
    NameCodePositive(s2);
    SeparatorSplit(NameCode(s1), NameCode(h1), NameCode(s2), NameCode(h2));
    NameCodeInjective(s1, s2);
    NameCodeInjective(h1, h2);
  }

  lemma PrefixCodeInjective(k: PrefixKind, l: PrefixKind)
    requires ComponentCode(Prefix(k)) == ComponentCode(Prefix(l))
    ensures k == l
  {
    SameSplit([0, PrefixTag(k)], PrefixFields(k), [0, PrefixTag(l)], PrefixFields(l));
    assert PrefixTag(k) == [0, PrefixTag(k)][1];
    PrefixFieldsInjective(k, l);
  }

  /** A Prefix is fixed by its tag and its fields. */
  lemma PrefixFieldsInjective(k: PrefixKind, l: PrefixKind)
    requires PrefixTag(k) == PrefixTag(l) && PrefixFields(k) == PrefixFields(l)
    ensures k == l
  {
    if k.Verbatim? || k.DeviceNS? {
      NamePrefixInjective(k, l);
    } else if k.VerbatimUNC? || k.UNC? {
      SharePrefixInjective(k, l);
    } else {
      DrivePrefixInjective(k, l);
    }
  }

  lemma NamePrefixInjective(k: PrefixKind, l: PrefixKind)
    requires k.Verbatim? || k.DeviceNS?
    requires PrefixTag(k) == PrefixTag(l) && PrefixFields(k) == PrefixFields(l)
    ensures k == l
  {
    if k.Verbatim? {
      NameCodeInjective(k.name, l.name);
    } else {
      NameCodeInjective(k.device, l.device);
    }
  }

  lemma SharePrefixInjective(k: PrefixKind, l: PrefixKind)
    requires k.VerbatimUNC? || k.UNC?
    requires PrefixTag(k) == PrefixTag(l) && PrefixFields(k) == PrefixFields(l)
    ensures k == l
  {
    PairCodeInjective(k.server, k.share, l.server, l.share);
  }

  lemma DrivePrefixInjective(k: PrefixKind, l: PrefixKind)
    requires k.VerbatimDisk? || k.Disk?
    requires PrefixTag(k) == PrefixTag(l) && PrefixFields(k) == PrefixFields(l)
    ensures k == l
  {
    assert PrefixFields(k)[0] == PrefixFields(l)[0];
  }

  /** Different components have different codes, so the derived order tells them apart. */
  lemma ComponentCodeInjective(c: Component, d: Component)
    requires ComponentCode(c) == ComponentCode(d)
    ensures c == d
  {
    assert ComponentCode(c)[0] == ComponentCode(d)[0];
    match c
    case Prefix(k) =>
      PrefixCodeInjective(k, d.kind);
    case Normal(n) =>
      SameSplit([4], NameCode(n), [4], NameCode(d.name));
      NameCodeInjective(n, d.name);
    case _ =>
  }

  /** The derived order on Component is a strict total order. */
  lemma ComponentLessIsStrictTotalOrder()
    ensures Irreflexive(ComponentLess) && Transitive(ComponentLess) && Trichotomous(ComponentLess)
  {
    forall x: int, y: int ensures x == y || IntLess(x, y) || IntLess(y, x) {
    }
    forall c: Component ensures !ComponentLess(c, c) {
      LexIrreflexive(ComponentCode(c), IntLess);
    }
    forall c: Component, d: Component, e: Component | ComponentLess(c, d) && ComponentLess(d, e)
      ensures ComponentLess(c, e)
    {
      LexTransitive(ComponentCode(c), ComponentCode(d), ComponentCode(e), IntLess);
    }
    forall c: Component, d: Component ensures c == d || ComponentLess(c, d) || ComponentLess(d, c) {
      LexTrichotomous(ComponentCode(c), ComponentCode(d), IntLess);
      if ComponentCode(c) == ComponentCode(d) {
        ComponentCodeInjective(c, d);
      }
    }
  }

  /** The derived order on source paths is a strict total order, as PathBuf's Ord is. */
  lemma SrcLessIsStrictTotalOrder()
    ensures Irreflexive(SrcLess) && Transitive(SrcLess) && Trichotomous(SrcLess)
  {
    ComponentLessIsStrictTotalOrder();
    forall p: SrcPath ensures !SrcLess(p, p) {
      LexIrreflexive(p, ComponentLess);
    }
    forall p: SrcPath, q: SrcPath, r: SrcPath | SrcLess(p, q) && SrcLess(q, r) ensures SrcLess(p, r) {
      LexTransitive(p, q, r, ComponentLess);
    }
    forall p: SrcPath, q: SrcPath ensures p == q || SrcLess(p, q) || SrcLess(q, p) {
      LexTrichotomous(p, q, ComponentLess);
    }
  }
}
