// What every build of the New and Fork commands satisfies, whatever the host replies:
// CimCreateImage comes first, CimCommitImage only last and only once every object was added,
// each object is created in the new image at its own relative path, in argument order, and
// every byte written to the image was read from a source file.
module BuildTrace {
  import opened Core
  import opened Raw
  import opened Paths
  import opened Environment
  import opened Objects
  import opened Images
  import opened ImageTrace
  import opened Builds

  /** a is an initial part of b. */
  predicate IsPrefix<T(==)>(a: seq<T>, b: seq<T>) {
    |a| <= |b| && b[..|a|] == a
  }

  /** Where each object is to be created: this image and the object's relative path, in order. */
  function Targets(image: ImageHandle, os: seq<ObjectKey>): seq<(ImageHandle, RelPath)> {
    seq(|os|, i requires 0 <= i < |os| => (image, os[i].relativePath))
  }

  /** Every call of the run is a call create_file may make. */
  predicate FileCallsOnly(run: Run) {
    forall k :: 0 <= k < |run.events| ==> IsFileCall(run.events[k])
  }

  /** The run calls CimCreateFile at most once, and only for t; it succeeds only after that call. */
  predicate CreatesAtMost(run: Run, t: (ImageHandle, RelPath)) {
    && (Creations(run.events) == [] || Creations(run.events) == [t])
    && (run.result.Ok? ==> Creations(run.events) == [t])
  }

  /** The run writes to the image exactly the bytes it read, in order. */
  predicate CopiesFaithfully(run: Run) {
    BytesWritten(run.events) == BytesRead(run.events)
  }

  // ---------------------------------------------------------------------------------------
  // One object

  /**
   * Adding one object makes only calls of create_file, calls CimCreateFile at most once and
   * only for this image and the object's relative path (and succeeds only after that call),
   * and writes exactly the bytes it read.
   */
  lemma AddObjectCalls(image: ImageHandle, fs: FileSystem, o: ObjectKey, w: Replies)
    ensures FileCallsOnly(AddObject(image, fs, o, w))
    ensures CreatesAtMost(AddObject(image, fs, o, w), (image, o.relativePath))
    ensures CopiesFaithfully(AddObject(image, fs, o, w))
  {
    if o.relativePath != [] && fs.Canonicalizes(o.src) {
      OnlyFileCalls(image, o.relativePath, fs.canonical[o.src], w);
      CreatesOnce(image, o.relativePath, fs.canonical[o.src], w);
      WrittenEqualsRead(image, o.relativePath, fs.canonical[o.src], w);
    }
  }

  /** AddObjectCalls for every object a build added. */
  lemma AddedRuns(image: ImageHandle, fs: FileSystem, os: seq<ObjectKey>, ws: seq<Replies>, runs: seq<Run>)
    requires AddedBy(image, fs, os, ws, runs)
    ensures forall i :: 0 <= i < |runs| ==>
      && FileCallsOnly(runs[i]) && CopiesFaithfully(runs[i])
      && CreatesAtMost(runs[i], Targets(image, os)[i])
  {
    forall i | 0 <= i < |runs|
      ensures FileCallsOnly(runs[i]) && CopiesFaithfully(runs[i]) && CreatesAtMost(runs[i], Targets(image, os)[i])
    {
      assert ws[i] == ws[i];
      AddObjectCalls(image, fs, os[i], ws[i]);
    }
  }

  // ---------------------------------------------------------------------------------------
  // Runs one after another

  /** The runs succeed one after another exactly when each of them succeeds. */
  lemma {:induction false} ChainOk(runs: seq<Run>)
    ensures Chain(runs).result.Ok? <==> forall i :: 0 <= i < |runs| ==> runs[i].result.Ok?
    decreases |runs|
  {
    if runs != [] {
      var n := |runs| - 1;
      ChainOk(runs[..n]);
      assert forall i :: 0 <= i < n ==> runs[..n][i] == runs[i];
    }
  }

  lemma {:induction false} ChainFileCalls(runs: seq<Run>)
    requires forall i :: 0 <= i < |runs| ==> FileCallsOnly(runs[i])
    ensures FileCallsOnly(Chain(runs))
    decreases |runs|
  {
    if runs != [] {
      var n := |runs| - 1;
      assert forall i :: 0 <= i < n ==> runs[..n][i] == runs[i];
      ChainFileCalls(runs[..n]);
    }
  }

  /**
   * Runs that each call CimCreateFile at most for their own target call it for the targets
   * in order, and for all of them when every run succeeded.
   */
  lemma {:induction false} ChainCreations(runs: seq<Run>, ts: seq<(ImageHandle, RelPath)>)
    requires |ts| == |runs| && forall i :: 0 <= i < |runs| ==> CreatesAtMost(runs[i], ts[i])
    ensures IsPrefix(Creations(Chain(runs).events), ts)
    ensures Chain(runs).result.Ok? ==> Creations(Chain(runs).events) == ts
    decreases |runs|
  {
    if runs != [] {
      var n := |runs| - 1;
      assert forall i :: 0 <= i < n ==> runs[..n][i] == runs[i] && ts[..n][i] == ts[i];
      ChainCreations(runs[..n], ts[..n]);
      var prev := Chain(runs[..n]);
      var c := Creations(prev.events);
      if prev.result.Err? {
        assert ts[..|c|] == ts[..n][..|c|];
      } else {
        assert c == ts[..n];
        var last := runs[n];
        CreationsAppend(prev.events, last.events);
        assert Creations(Chain(runs).events) == c + Creations(last.events);
        assert CreatesAtMost(last, ts[n]);
        if Creations(last.events) == [] {
          assert c + [] == c;
        } else {
          LastSplit(ts);
        }
      }
    }
  }

  lemma {:induction false} ChainCopies(runs: seq<Run>)
    requires forall i :: 0 <= i < |runs| ==> CopiesFaithfully(runs[i])
    ensures CopiesFaithfully(Chain(runs))
    decreases |runs|
  {
    if runs != [] {
      var n := |runs| - 1;
      assert forall i :: 0 <= i < n ==> runs[..n][i] == runs[i];
      ChainCopies(runs[..n]);
      var prev := Chain(runs[..n]);
      if prev.result.Ok? {
        BytesAppend(prev.events, runs[n].events);
      }
    }
  }

  // ---------------------------------------------------------------------------------------
  // The build

  /** With the replies fitting the objects, the runs cover every object once they all succeed. */
  lemma AllReached(fs: FileSystem, keys: seq<ObjectKey>, b: BuildReplies)
    requires Fits(fs, keys, b) && !IsErr(b.createStatus)
    ensures AddedBy(b.handle, fs, keys[..|b.adds|], b.adds, b.runs)
    ensures Chain(b.runs).result.Ok? ==> |b.runs| == |keys| && keys[..|b.adds|] == keys
  {
  }

  /**
   * A build calls CimCreateImage first, with the root, the image to fork from and the name;
   * every later call is a call of create_file, except a final CimCommitImage on the handle
   * CimCreateImage returned, which is made exactly when the image was created and every
   * object was added.
   */
  lemma BuildOrder(root: SrcPath, existing: Option<string>, name: string, fs: FileSystem, keys: seq<ObjectKey>, b: BuildReplies)
    requires Fits(fs, keys, b)
    ensures var es := BuildRun(root, existing, name, b).events;
      && es != [] && es[0] == Event.CreateImage(root, existing, name, b.createStatus, b.handle)
      && (forall k :: 0 < k < |es| ==>
            IsFileCall(es[k]) || (k == |es| - 1 && es[k] == Event.CommitImage(b.handle, b.commitStatus)))
      && (es[|es| - 1].CommitImage? <==>
            !IsErr(b.createStatus) && |b.runs| == |keys| && forall i :: 0 <= i < |b.runs| ==> b.runs[i].result.Ok?)
  {
    ChainOk(b.runs);
    if !IsErr(b.createStatus) {
      AllReached(fs, keys, b);
      AddedRuns(b.handle, fs, keys[..|b.adds|], b.adds, b.runs);
      ChainFileCalls(b.runs);
      var created := [Event.CreateImage(root, existing, name, b.createStatus, b.handle)];
      var chained := Chain(b.runs).events;
      var es := BuildRun(root, existing, name, b).events;
      forall k | 0 < k < |es|
        ensures IsFileCall(es[k]) || (k == |es| - 1 && es[k] == Event.CommitImage(b.handle, b.commitStatus))
      {
        if k <= |chained| {
          assert es[k] == chained[k - 1];
        }
      }
    }
  }

  /**
   * The build's result is Ok exactly when the image was created, every object's
   * create_file succeeded and the commit succeeded.
   */
  lemma BuildResult(root: SrcPath, existing: Option<string>, name: string, fs: FileSystem, keys: seq<ObjectKey>, b: BuildReplies)
    requires Fits(fs, keys, b)
    ensures BuildRun(root, existing, name, b).result.Ok? <==>
      && !IsErr(b.createStatus) && |b.runs| == |keys|
      && (forall i :: 0 <= i < |b.runs| ==> b.runs[i].result.Ok?)
      && !IsErr(b.commitStatus)
  {
    ChainOk(b.runs);
    if !IsErr(b.createStatus) {
      AllReached(fs, keys, b);
    }
  }

  /**
   * CimCreateFile is called on the new image's handle for the objects in order, each at its
   * own relative path, and for every object when the build succeeds.
   */
  lemma BuildCreations(root: SrcPath, existing: Option<string>, name: string, fs: FileSystem, keys: seq<ObjectKey>, b: BuildReplies)
    requires Fits(fs, keys, b)
    ensures IsPrefix(Creations(BuildRun(root, existing, name, b).events), Targets(b.handle, keys))
    ensures BuildRun(root, existing, name, b).result.Ok? ==>
      Creations(BuildRun(root, existing, name, b).events) == Targets(b.handle, keys)
  {
    var created := [Event.CreateImage(root, existing, name, b.createStatus, b.handle)];
    assert created[..0] == [];
    assert Creations(created) == [];
    if !IsErr(b.createStatus) {
      AllReached(fs, keys, b);
      var n := |b.adds|;
      AddedCreations(b.handle, fs, keys[..n], b.adds, b.runs);
      TargetsPrefix(b.handle, keys, n);
      var added := Chain(b.runs);
      CreationsAppend(created, added.events);
      if added.result.Ok? {
        var commit := [Event.CommitImage(b.handle, b.commitStatus)];
        assert commit[..0] == [];
        CreationsAppend(created + added.events, commit);
      }
    }
  }

  /** The objects a build added are created at their targets in order, all of them when every addition succeeded. */
  lemma AddedCreations(image: ImageHandle, fs: FileSystem, os: seq<ObjectKey>, ws: seq<Replies>, runs: seq<Run>)
    requires AddedBy(image, fs, os, ws, runs)
    ensures IsPrefix(Creations(Chain(runs).events), Targets(image, os))
    ensures Chain(runs).result.Ok? ==> Creations(Chain(runs).events) == Targets(image, os)
  {
    AddedRuns(image, fs, os, ws, runs);
    ChainCreations(runs, Targets(image, os));
  }

  /** The targets of a prefix of the objects are that prefix of the targets, and a prefix of them. */
  lemma TargetsPrefix(image: ImageHandle, os: seq<ObjectKey>, n: nat)
    requires n <= |os|
    ensures Targets(image, os[..n]) == Targets(image, os)[..n]
    ensures forall c :: IsPrefix(c, Targets(image, os[..n])) ==> IsPrefix(c, Targets(image, os))
  {
    assert Targets(image, os[..n]) == Targets(image, os)[..n];
    forall c | IsPrefix(c, Targets(image, os[..n]))
      ensures IsPrefix(c, Targets(image, os))
    {
      assert Targets(image, os)[..|c|] == Targets(image, os)[..n][..|c|];
    }
  }

  /** Every byte a build writes to the image is a byte it read from a source file, in order. */
  lemma BuildCopies(root: SrcPath, existing: Option<string>, name: string, fs: FileSystem, keys: seq<ObjectKey>, b: BuildReplies)
    requires Fits(fs, keys, b)
    ensures BytesWritten(BuildRun(root, existing, name, b).events) == BytesRead(BuildRun(root, existing, name, b).events)
  {
    var created := [Event.CreateImage(root, existing, name, b.createStatus, b.handle)];
    assert created[..0] == [];
    TailCarriesNoBytes(created);
    if !IsErr(b.createStatus) {
      AllReached(fs, keys, b);
      AddedRuns(b.handle, fs, keys[..|b.adds|], b.adds, b.runs);
      ChainCopies(b.runs);
      var added := Chain(b.runs);
      BytesAppend(created, added.events);
      if added.result.Ok? {
        var commit := [Event.CommitImage(b.handle, b.commitStatus)];
        TailCarriesNoBytes(commit);
        BytesAppend(created + added.events, commit);
      }
    }
  }
}
