// The New and Fork commands of cimfs/src/bin/cimutil.rs after their arguments are checked:
// create the image (from scratch or forked from an existing one), add every parsed object in
// argument order through create_file, stopping at the first failure, and commit the image
// once every object was added.
module Builds {
  import opened Core
  import opened Raw
  import opened Paths
  import opened Environment
  import opened Objects
  import opened Images
  import opened ObjectArgs

  /** Replies for an object whose create_file never ran. */
  const NO_REPLIES: Replies := Replies(
    Queries(Err(INVALID_ARG), Err(INVALID_ARG), Err(INVALID_ARG), Err(INVALID_ARG), Err(INVALID_ARG)),
    0, NullStream, Copy([], None, Ok(())))

  /**
   * One object of the loop: its relative path must be non-empty and its source must
   * canonicalize (both E_INVALIDARG otherwise, with no call made); then create_file runs on
   * the relative path and the canonical source.
   */
  function AddObject(image: ImageHandle, fs: FileSystem, o: ObjectKey, w: Replies): Run {
    if o.relativePath == [] then Run([], Err(INVALID_ARG))
    else if !fs.Canonicalizes(o.src) then Run([], Err(INVALID_ARG))
    else CreateFileRun(image, o.relativePath, fs.canonical[o.src], w)
  }

  /**
   * runs[i] is what adding os[i] with the replies ws[i] does, for every i. (An instance is
   * taken only where ws[i] is mentioned, so that a proof unfolds create_file only for the
   * objects it looks at.)
   */
  predicate AddedBy(image: ImageHandle, fs: FileSystem, os: seq<ObjectKey>, ws: seq<Replies>, runs: seq<Run>) {
    && |ws| == |os| && |runs| == |os|
    && forall i {:trigger ws[i]} :: 0 <= i < |os| ==> runs[i] == AddObject(image, fs, os[i], ws[i])
  }

  /** Runs one after another, up to and including the first that fails. */
  function Chain(runs: seq<Run>): Run {
    if runs == [] then Run([], Ok(())) else
    var prev := Chain(runs[..|runs| - 1]);
    if prev.result.Err? then prev else
    Run(prev.events + runs[|runs| - 1].events, runs[|runs| - 1].result)
  }

  /**
   * The objects a build reached: a prefix of them, each added with its replies, and a
   * shorter prefix only when the additions failed.
   */
  predicate Reached(image: ImageHandle, fs: FileSystem, os: seq<ObjectKey>, ws: seq<Replies>, runs: seq<Run>) {
    && |ws| <= |os| && AddedBy(image, fs, os[..|ws|], ws, runs)
    && (|ws| < |os| ==> Chain(runs).result.Err?)
  }

  /**
   * The replies a build gets: CimCreateImage's status and handle, the replies of each object
   * it reached and what adding it did, and CimCommitImage's status.
   */
  datatype BuildReplies = BuildReplies(createStatus: HResult, handle: ImageHandle, adds: seq<Replies>, runs: seq<Run>, commitStatus: HResult)

  /** The replies of a build that was never started (the create status is E_FAIL). */
  const NOT_STARTED: BuildReplies := BuildReplies(HResultOf(0x8000_4005), NullImage, [], [], 0)

  /**
   * The replies fit the objects: when the image was created, the objects reached are a prefix
   * of keys, each added with its replies; when it was not, no object was reached.
   */
  predicate Fits(fs: FileSystem, keys: seq<ObjectKey>, b: BuildReplies) {
    if IsErr(b.createStatus) then b.adds == [] && b.runs == []
    else Reached(b.handle, fs, keys, b.adds, b.runs)
  }

  /**
   * Everything a build does: CimCreateImage; if it succeeds, the objects in order up to the
   * first that fails; if every object was added, CimCommitImage on the new handle, whose
   * status is the result.
   */
  function BuildRun(root: SrcPath, existing: Option<string>, name: string, b: BuildReplies): Run {
    var created := [Event.CreateImage(root, existing, name, b.createStatus, b.handle)];
    if IsErr(b.createStatus) then Run(created, Err(Error(b.createStatus))) else
    var added := Chain(b.runs);
    if added.result.Err? then Run(created + added.events, added.result) else
    Run(created + added.events + [Event.CommitImage(b.handle, b.commitStatus)], StatusResult(b.commitStatus))
  }

  /** Adding one more object extends AddedBy. */
  lemma AddedBySnoc(image: ImageHandle, fs: FileSystem, os: seq<ObjectKey>, ws: seq<Replies>, runs: seq<Run>,
                    key: ObjectKey, w: Replies, run: Run)
    requires |ws| < |os| && AddedBy(image, fs, os[..|ws|], ws, runs)
    requires os[|ws|] == key && run == AddObject(image, fs, key, w)
    ensures AddedBy(image, fs, os[..|ws| + 1], ws + [w], runs + [run])
  {
    var k := |ws|;
    forall i | 0 <= i < k + 1
      ensures (runs + [run])[i] == AddObject(image, fs, os[..k + 1][i], (ws + [w])[i])
    {
      if i < k {
        assert (ws + [w])[i] == ws[i] && os[..k + 1][i] == os[..k][i];
      }
    }
  }

  /** The loop body of the build: get_relative_path, get_src_path, then create_file. */
  method AddObjectTo(host: Host, image: Image, fs: FileSystem, o: Object) returns (r: Result<()>, ghost run: Run, ghost w: Replies)
    modifies host
    ensures run == AddObject(image.imageHandle, fs, old(o.Key()), w)
    ensures host.log == old(host.log) + run.events && r == run.result
  {
    var rel := o.GetRelativePath();
    if rel.Err? {
      return Err(rel.error), Run([], Err(rel.error)), NO_REPLIES;
    }
    var src := o.GetSrcPath(fs);
    if src.Err? {
      return Err(src.error), Run([], Err(src.error)), NO_REPLIES;
    }
    r, w := image.CreateFile(host, rel.value, src.value);
    run := CreateFileRun(image.imageHandle, rel.value, src.value, w);
  }

  /**
   * One pass of the loop: the next object is added, and the runs so far grow by what adding
   * it did.
   */
  method AddNext(host: Host, image: Image, fs: FileSystem, o: Object,
                 ghost keys: seq<ObjectKey>, ghost log0: seq<Event>, ghost ws: seq<Replies>, ghost runs: seq<Run>)
    returns (added: Result<()>, ghost ws': seq<Replies>, ghost runs': seq<Run>)
    modifies host
    requires |ws| < |keys| && keys[|ws|] == o.Key()
    requires AddedBy(image.imageHandle, fs, keys[..|ws|], ws, runs)
    requires host.log == log0 + Chain(runs).events && Chain(runs).result.Ok?
    ensures |ws'| == |ws| + 1 && AddedBy(image.imageHandle, fs, keys[..|ws'|], ws', runs')
    ensures host.log == log0 + Chain(runs').events && added == Chain(runs').result
  {
    ghost var run, w;
    added, run, w := AddObjectTo(host, image, fs, o);
    AddedBySnoc(image.imageHandle, fs, keys, ws, runs, keys[|ws|], w, run);
    assert (runs + [run])[..|ws|] == runs;
    ws', runs' := ws + [w], runs + [run];
  }

  /** The loop over the objects: each added in order, stopping at the first that fails. */
  method AddAll(host: Host, image: Image, fs: FileSystem, objects: seq<Object>, ghost keys: seq<ObjectKey>)
    returns (r: Result<()>, ghost ws: seq<Replies>, ghost runs: seq<Run>)
    modifies host
    requires keys == Keys(objects)
    ensures Reached(image.imageHandle, fs, keys, ws, runs)
    ensures host.log == old(host.log) + Chain(runs).events && r == Chain(runs).result
  {
    ghost var log0 := host.log;
    ws, runs := [], [];
    var i := 0;
    while i < |objects|
      invariant 0 <= i <= |objects| && |ws| == i
      invariant AddedBy(image.imageHandle, fs, keys[..i], ws, runs)
      invariant host.log == log0 + Chain(runs).events
      invariant Chain(runs).result.Ok?
    {
      var added;
      added, ws, runs := AddNext(host, image, fs, objects[i], keys, log0, ws, runs);
      if added.Err? {
        return added, ws, runs;
      }
      i := i + 1;
    }
    assert keys[..i] == keys;
    r := Ok(());
    assert Chain(runs).result.value == ();
  }

  /**
   * Image::create, then every object in order, then Image::commit: the calls made and the
   * result are those of BuildRun for the replies the host gave.
   */
  method Build(host: Host, fs: FileSystem, image: Image, existing: Option<string>, objects: seq<Object>, ghost keys: seq<ObjectKey>)
    returns (r: Result<()>, ghost b: BuildReplies)
    modifies host, image
    requires keys == Keys(objects)
    ensures Fits(fs, keys, b)
    ensures host.log == old(host.log) + BuildRun(image.rootFolder, existing, image.name, b).events
    ensures r == BuildRun(image.rootFolder, existing, image.name, b).result
  {
    var log0 := host.log;
    r := image.Create(host, existing);
    ghost var e := host.log[|log0|];
    assert host.log == log0 + [e];
    if r.Err? {
      b := BuildReplies(e.status, e.image, [], [], 0);
      return;
    }
    ghost var ws, runs;
    r, ws, runs := AddAll(host, image, fs, objects, keys);
    if r.Err? {
      b := BuildReplies(e.status, e.image, ws, runs, 0);
      return;
    }
    var log2 := host.log;
    r := image.Commit(host);
    b := BuildReplies(e.status, e.image, ws, runs, host.log[|log2|].status);
  }
}
