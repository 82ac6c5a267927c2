// cimfs/src/bin/cimutil.rs: the command-line front end. Each command is checked before any
// image call is made; New and Fork create an image, add every object in argument order and
// commit it once; Mount mounts an image and prints the volume path; Dismount normalises the
// volume id it is given and dismounts that volume. Parsing a GUID from text and formatting
// one as text are library code and are taken as the functions parse and show.
module CimUtil {
  import opened Core
  import opened Raw
  import opened Paths
  import opened Environment
  import opened Objects
  import opened Images
  import opened ImageTrace
  import opened VolumeIds
  import opened ObjectArgs
  import opened Builds
  import opened BuildTrace

  // ---------------------------------------------------------------------------------------
  // Commands

  datatype Command =
    | New(name: string, objects: seq<SrcPath>)
    | Fork(from: string, to: string, objects: seq<SrcPath>)
    | Mount(image: string, volume: Option<string>, mountvol: Option<string>)
    | Dismount(volumeId: string)

  /** The empty-name checks each command makes before anything else. */
  predicate BadArguments(command: Command) {
    match command
    case New(name, _) => name == []
    case Fork(from, to, _) => from == [] || to == []
    case Mount(image, _, _) => image == []
    case Dismount(_) => false
  }

  /** The root directory check: every command but Dismount needs a root that canonicalizes. */
  predicate RootRejected(fs: FileSystem, root: SrcPath, command: Command) {
    !command.Dismount? && !fs.Canonicalizes(root)
  }

  /** Every object argument resolves. */
  predicate ObjectsResolve(fs: FileSystem, list: seq<SrcPath>, parseAncestors: bool) {
    forall i :: 0 <= i < |list| ==> ResolutionSucceeds(fs, list[i], parseAncestors)
  }

  /**
   * The replies a command gets: those of a build, MountImage's GUID, mount_volume's result,
   * and CimDismountImage's status.
   */
  datatype CliReplies = CliReplies(build: BuildReplies, mounted: Result<Guid>, mountVolume: Result<()>, dismountStatus: HResult)

  // ---------------------------------------------------------------------------------------
  // What each command does

  /**
   * New and Fork once their names are checked: the objects are parsed first, and a build is
   * started only when every one of them resolves.
   */
  function BuildCommandRun(fs: FileSystem, root: SrcPath, existing: Option<string>, name: string,
                           list: seq<SrcPath>, parseAncestors: bool, b: BuildReplies): Run {
    if !ObjectsResolve(fs, list, parseAncestors) then Run([], Err(INVALID_ARG))
    else BuildRun(root, existing, name, b)
  }

  /**
   * Mount once its name is checked: mount the image; on success print the volume path, then
   * set the mount point when one was given, whose result is the command's.
   */
  function MountRun(root: SrcPath, name: string, volume: Option<string>, mountvol: Option<string>,
                    show: Guid -> string, mounted: Result<Guid>, mountVolume: Result<()>): Run {
    var mounting := [Event.MountImage(root, name, volume, mounted)];
    if mounted.Err? then Run(mounting, Err(mounted.error)) else
    var printed := mounting + [Event.PrintLine(VolumePath(show(mounted.value)))];
    if mountvol.None? then Run(printed, Ok(()))
    else Run(printed + [Event.MountVolume(root, name, mountvol.value, mountVolume)], mountVolume)
  }

  /**
   * Dismount: the normalised id must parse as a GUID (E_INVALIDARG otherwise, with no call
   * made); then CimDismountImage on it, whose status is the result.
   */
  function DismountRun(volumeId: string, parse: string -> Option<Guid>, status: HResult): Run {
    match parse(TrimVolumeId(volumeId))
    case None => Run([], Err(INVALID_ARG))
    case Some(g) => Run([Event.DismountImage(g, status)], StatusResult(status))
  }

  /** Everything main does for a command, for the given replies. */
  function CommandRun(fs: FileSystem, root: SrcPath, command: Command, parseAncestors: bool,
                      parse: string -> Option<Guid>, show: Guid -> string, c: CliReplies): Run {
    if RootRejected(fs, root, command) || BadArguments(command) then Run([], Err(INVALID_ARG)) else
    match command
    case New(name, list) => BuildCommandRun(fs, fs.canonical[root], None, name, list, parseAncestors, c.build)
    case Fork(from, to, list) => BuildCommandRun(fs, fs.canonical[root], Some(from), to, list, parseAncestors, c.build)
    case Mount(image, volume, mountvol) => MountRun(fs.canonical[root], image, volume, mountvol, show, c.mounted, c.mountVolume)
    case Dismount(volumeId) => DismountRun(volumeId, parse, c.dismountStatus)
  }

  /**
   * The replies of a build fit the objects the command names, added against later, the
   * filesystem as the build finds it.
   */
  predicate RepliesFit(later: FileSystem, command: Command, c: CliReplies) {
    (command.New? || command.Fork?) ==> Fits(later, ResolvedKeys(command.objects), c.build)
  }

  /** The commands rejected before any call: the root check, the name checks, the object arguments and the GUID. */
  predicate Rejected(fs: FileSystem, root: SrcPath, command: Command, parseAncestors: bool, parse: string -> Option<Guid>) {
    || RootRejected(fs, root, command) || BadArguments(command)
    || ((command.New? || command.Fork?) && !ObjectsResolve(fs, command.objects, parseAncestors))
    || (command.Dismount? && parse(TrimVolumeId(command.volumeId)).None?)
  }

  // ---------------------------------------------------------------------------------------
  // The methods

  /**
   * New and Fork after the name checks: parse_objects_from_args against fs, Image::new, then
   * the build, whose get_src_path calls see the filesystem as it is by then, later.
   */
  method RunBuild(host: Host, fs: FileSystem, later: FileSystem, root: SrcPath, existing: Option<string>,
                  name: string, list: seq<SrcPath>, parseAncestors: bool)
    returns (r: Result<()>, ghost b: BuildReplies)
    modifies host
    ensures Fits(later, ResolvedKeys(list), b)
    ensures host.log == old(host.log) + BuildCommandRun(fs, root, existing, name, list, parseAncestors, b).events
    ensures r == BuildCommandRun(fs, root, existing, name, list, parseAncestors, b).result
  {
    var objects := ParseObjectsFromArgs(fs, list, parseAncestors);
    if objects.Err? {
      return Err(objects.error), NOT_STARTED;
    }
    var image := new Image(root, name);
    r, b := Build(host, later, image, existing, objects.value, ResolvedKeys(list));
  }

  /** Mount after the name check: Image::mount, the printed volume path, then mount_volume if asked for. */
  method RunMount(host: Host, root: SrcPath, name: string, volume: Option<string>, mountvol: Option<string>,
                  show: Guid -> string)
    returns (r: Result<()>, ghost mounted: Result<Guid>, ghost mountVolume: Result<()>)
    modifies host
    ensures host.log == old(host.log) + MountRun(root, name, volume, mountvol, show, mounted, mountVolume).events
    ensures r == MountRun(root, name, volume, mountvol, show, mounted, mountVolume).result
  {
    var guid := host.MountImage(root, name, volume);
    mounted, mountVolume := guid, Ok(());
    if guid.Err? {
      return Err(guid.error), mounted, mountVolume;
    }
    host.PrintLine(VolumePath(show(guid.value)));
    if mountvol.Some? {
      var status := host.MountVolume(root, name, mountvol.value);
      mountVolume := status;
      r := status;
    } else {
      r := Ok(());
    }
  }

  /** Dismount: the id normalised and parsed, then CimDismountImage. */
  method RunDismount(host: Host, volumeId: string, parse: string -> Option<Guid>)
    returns (r: Result<()>, status: HResult)
    modifies host
    ensures host.log == old(host.log) + DismountRun(volumeId, parse, status).events
    ensures r == DismountRun(volumeId, parse, status).result
  {
    var guid := parse(TrimVolumeId(volumeId));
    if guid.None? {
      return Err(INVALID_ARG), 0;
    }
    status := host.CimDismountImage(guid.value);
    r := StatusResult(status);
  }

  /**
   * main: the root check (skipped for Dismount), then the command. The root check and the
   * object arguments see the filesystem fs; the objects are added against later.
   */
  method RunCommand(host: Host, fs: FileSystem, later: FileSystem, root: SrcPath, command: Command,
                    parseAncestors: bool, parse: string -> Option<Guid>, show: Guid -> string)
    returns (r: Result<()>, ghost c: CliReplies)
    modifies host
    ensures RepliesFit(later, command, c)
    ensures host.log == old(host.log) + CommandRun(fs, root, command, parseAncestors, parse, show, c).events
    ensures r == CommandRun(fs, root, command, parseAncestors, parse, show, c).result
  {
    c := CliReplies(NOT_STARTED, Err(INVALID_ARG), Ok(()), 0);
    var canonicalRoot := root;
    if !command.Dismount? {
      var canonical := fs.Canonicalize(root);
      if canonical.Err? {
        return Err(INVALID_ARG), c;
      }
      canonicalRoot := canonical.value;
    }
    match command
    case New(name, list) =>
      if name == [] {
        return Err(INVALID_ARG), c;
      }
      ghost var b;
      r, b := RunBuild(host, fs, later, canonicalRoot, None, name, list, parseAncestors);
      c := c.(build := b);
    case Fork(from, to, list) =>
      if from == [] || to == [] {
        return Err(INVALID_ARG), c;
      }
      ghost var b;
      r, b := RunBuild(host, fs, later, canonicalRoot, Some(from), to, list, parseAncestors);
      c := c.(build := b);
    case Mount(image, volume, mountvol) =>
      if image == [] {
        return Err(INVALID_ARG), c;
      }
      ghost var mounted, mountVolume;
      r, mounted, mountVolume := RunMount(host, canonicalRoot, image, volume, mountvol, show);
      c := c.(mounted := mounted, mountVolume := mountVolume);
    case Dismount(volumeId) =>
      ghost var status;
      r, status := RunDismount(host, volumeId, parse);
      c := c.(dismountStatus := status);
  }

  // ---------------------------------------------------------------------------------------
  // What every run of main satisfies

  /**
   * A command makes no call at all exactly when it is rejected by its checks: a root that
   * does not canonicalize (for all but Dismount), an empty name, an object that does not
   * resolve, or a volume id that does not parse. A rejected command fails with E_INVALIDARG.
   */
  lemma NoCallUnlessAccepted(fs: FileSystem, root: SrcPath, command: Command, parseAncestors: bool,
                             parse: string -> Option<Guid>, show: Guid -> string, c: CliReplies)
    ensures CommandRun(fs, root, command, parseAncestors, parse, show, c).events == []
        <==> Rejected(fs, root, command, parseAncestors, parse)
    ensures Rejected(fs, root, command, parseAncestors, parse) ==>
      CommandRun(fs, root, command, parseAncestors, parse, show, c).result == Err(INVALID_ARG)
  {
    if !Rejected(fs, root, command, parseAncestors, parse) && (command.New? || command.Fork?) {
      assert BuildRun(fs.canonical[root], if command.New? then None else Some(command.from),
                      if command.New? then command.name else command.to, c.build).events != [];
    }
  }

  /**
   * An accepted New or Fork calls CimCreateImage first, on the canonical root, with the
   * image to fork from and the new name; it then calls CimCreateFile on the handle that
   * call returned, once per object in argument order and at the relative path the
   * argument resolves to, for every object when it succeeds; it commits only as its last
   * call; and every byte it writes to the image is a byte it read from a source. The
   * objects are added against later, which need not be the filesystem they were parsed in.
   */
  lemma BuildCommandCalls(fs: FileSystem, later: FileSystem, root: SrcPath, command: Command, parseAncestors: bool,
                          parse: string -> Option<Guid>, show: Guid -> string, c: CliReplies)
    requires command.New? || command.Fork?
    requires RepliesFit(later, command, c) && !Rejected(fs, root, command, parseAncestors, parse)
    ensures var es := CommandRun(fs, root, command, parseAncestors, parse, show, c).events;
      var existing := if command.New? then None else Some(command.from);
      var name := if command.New? then command.name else command.to;
      && es != [] && es[0] == Event.CreateImage(fs.canonical[root], existing, name, c.build.createStatus, c.build.handle)
      && forall k :: 0 <= k < |es| - 1 ==> !es[k].CommitImage?
    ensures var run := CommandRun(fs, root, command, parseAncestors, parse, show, c);
      var made := Creations(run.events);
      && |made| <= |command.objects|
      && (forall i :: 0 <= i < |made| ==> made[i] == (c.build.handle, Resolved(command.objects[i])))
      && (run.result.Ok? ==> |made| == |command.objects|)
    ensures BytesWritten(CommandRun(fs, root, command, parseAncestors, parse, show, c).events)
         == BytesRead(CommandRun(fs, root, command, parseAncestors, parse, show, c).events)
  {
    var existing := if command.New? then None else Some(command.from);
    var name := if command.New? then command.name else command.to;
    var keys := ResolvedKeys(command.objects);
    var croot := fs.canonical[root];
    assert CommandRun(fs, root, command, parseAncestors, parse, show, c) == BuildRun(croot, existing, name, c.build);
    BuildOrder(croot, existing, name, later, keys, c.build);
    BuildCreations(croot, existing, name, later, keys, c.build);
    BuildCopies(croot, existing, name, later, keys, c.build);
    var made := Creations(BuildRun(croot, existing, name, c.build).events);
    forall i | 0 <= i < |made|
      ensures made[i] == (c.build.handle, Resolved(command.objects[i]))
    {
      assert made[i] == Targets(c.build.handle, keys)[i];
    }
  }

  /**
   * An accepted Mount calls MountImage first; the volume path is printed exactly when that
   * succeeded, before any mount point is set; a failure to set the mount point is the
   * command's result but leaves the volume mounted: nothing is dismounted.
   */
  lemma MountCalls(fs: FileSystem, root: SrcPath, command: Command, parseAncestors: bool,
                   parse: string -> Option<Guid>, show: Guid -> string, c: CliReplies)
    requires command.Mount? && !Rejected(fs, root, command, parseAncestors, parse)
    ensures var es := CommandRun(fs, root, command, parseAncestors, parse, show, c).events;
      && es != [] && es[0] == Event.MountImage(fs.canonical[root], command.image, command.volume, c.mounted)
      && (forall k :: 0 <= k < |es| ==> !es[k].DismountImage? && (es[k].PrintLine? <==> k == 1 && c.mounted.Ok?))
      && (c.mounted.Ok? ==> es[1] == Event.PrintLine(VolumePath(show(c.mounted.value))))
      && (forall k :: 0 <= k < |es| && es[k].MountVolume? ==> k == 2 && c.mounted.Ok?)
    ensures var run := CommandRun(fs, root, command, parseAncestors, parse, show, c);
      && (c.mounted.Err? ==> run.result == Err(c.mounted.error))
      && (c.mounted.Ok? && command.mountvol.Some? ==> run.result == c.mountVolume)
      && (c.mounted.Ok? && command.mountvol.None? ==> run.result.Ok?)
  {
  }

  /**
   * The volume path Mount prints, without its `\\?\` prefix, names the mounted volume to
   * Dismount: given that path, Dismount calls CimDismountImage on the GUID that was mounted,
   * whatever the root and the filesystem. This holds whenever the GUID's text has no braces
   * and parses back to the GUID.
   */
  lemma PrintedPathDismountsMounted(fs: FileSystem, root: SrcPath, command: Command, parseAncestors: bool,
                                    parse: string -> Option<Guid>, show: Guid -> string, c: CliReplies,
                                    fs': FileSystem, root': SrcPath, c': CliReplies)
    requires command.Mount? && !Rejected(fs, root, command, parseAncestors, parse) && c.mounted.Ok?
    requires Braceless(show(c.mounted.value)) && parse(show(c.mounted.value)) == Some(c.mounted.value)
    ensures var printed := CommandRun(fs, root, command, parseAncestors, parse, show, c).events[1];
      && printed.PrintLine? && |printed.text| >= 4
      && CommandRun(fs', root', Dismount(printed.text[4..]), parseAncestors, parse, show, c').events
         == [Event.DismountImage(c.mounted.value, c'.dismountStatus)]
  {
    var text := show(c.mounted.value);
    PrintedPathDismounts(text);
  }

  /**
   * The three documented forms of the dismount argument, `Volume{g}`, `{g}` and `g`, make the
   * same calls with the same result.
   */
  lemma DismountFormsSame(fs: FileSystem, root: SrcPath, parseAncestors: bool, parse: string -> Option<Guid>,
                          show: Guid -> string, c: CliReplies, g: string)
    requires Braceless(g)
    ensures CommandRun(fs, root, Dismount("Volume{" + g + "}"), parseAncestors, parse, show, c)
         == CommandRun(fs, root, Dismount(g), parseAncestors, parse, show, c)
    ensures CommandRun(fs, root, Dismount("{" + g + "}"), parseAncestors, parse, show, c)
         == CommandRun(fs, root, Dismount(g), parseAncestors, parse, show, c)
  {
    DismountFormsAgree(g);
    SameVolumeSameRun(fs, root, "Volume{" + g + "}", g, parseAncestors, parse, show, c);
    SameVolumeSameRun(fs, root, "{" + g + "}", g, parseAncestors, parse, show, c);
  }

  /** Two dismount arguments that normalise to the same id make the same calls with the same result. */
  lemma SameVolumeSameRun(fs: FileSystem, root: SrcPath, v1: string, v2: string, parseAncestors: bool,
                          parse: string -> Option<Guid>, show: Guid -> string, c: CliReplies)
    requires TrimVolumeId(v1) == TrimVolumeId(v2)
    ensures CommandRun(fs, root, Dismount(v1), parseAncestors, parse, show, c)
         == CommandRun(fs, root, Dismount(v2), parseAncestors, parse, show, c)
  {
    assert DismountRun(v1, parse, c.dismountStatus) == DismountRun(v2, parse, c.dismountStatus);
  }
}
