// parse_objects_from_args of cimfs/src/bin/cimutil.rs: turning the object arguments into
// resolved objects before any image call is made.
module ObjectArgs {
  import opened Core
  import opened Paths
  import opened Objects

  /** The objects a successful parse_objects_from_args yields, as keys: each source resolved, in order. */
  function ResolvedKeys(list: seq<SrcPath>): (keys: seq<ObjectKey>)
    ensures |keys| == |list|
    ensures forall i :: 0 <= i < |list| ==> keys[i] == ObjectKey(Resolved(list[i]), list[i])
  {
    if list == [] then [] else ResolvedKeys(list[..|list| - 1]) + [ObjectKey(Resolved(list[|list| - 1]), list[|list| - 1])]
  }

  function Keys(objects: seq<Object>): (keys: seq<ObjectKey>)
    reads objects
    ensures |keys| == |objects|
    ensures forall i :: 0 <= i < |objects| ==> keys[i] == objects[i].Key()
  {
    if objects == [] then [] else Keys(objects[..|objects| - 1]) + [objects[|objects| - 1].Key()]
  }

  /** One argument: a new object for src, resolved. */
  method ResolveArgument(fs: FileSystem, src: SrcPath, parseAncestors: bool) returns (o: Object, r: Result<set<ObjectKey>>)
    ensures fresh(o)
    ensures r.Ok? <==> ResolutionSucceeds(fs, src, parseAncestors)
    ensures r.Err? ==> r.error == INVALID_ARG
    ensures r.Ok? ==> o.Key() == ObjectKey(Resolved(src), src)
  {
    o := new Object(src);
    r := o.ResolveRelativePath(fs, parseAncestors);
  }

  /** Every source in list resolves. */
  predicate AllResolve(fs: FileSystem, list: seq<SrcPath>, parseAncestors: bool) {
    list == [] || (AllResolve(fs, list[..|list| - 1], parseAncestors) && ResolutionSucceeds(fs, list[|list| - 1], parseAncestors))
  }

  lemma {:induction false} AllResolveIff(fs: FileSystem, list: seq<SrcPath>, parseAncestors: bool)
    ensures AllResolve(fs, list, parseAncestors) <==> forall i :: 0 <= i < |list| ==> ResolutionSucceeds(fs, list[i], parseAncestors)
  {
    if list != [] {
      var init := list[..|list| - 1];
      AllResolveIff(fs, init, parseAncestors);
      assert forall i :: 0 <= i < |init| ==> init[i] == list[i];
    }
  }

  lemma KeysSnoc(objects: seq<Object>, o: Object)
    ensures Keys(objects + [o]) == Keys(objects) + [o.Key()]
  {
    assert (objects + [o])[..|objects|] == objects;
  }

  /** One more argument: its key is appended, and it must resolve too. */
  lemma ArgsSnoc(fs: FileSystem, list: seq<SrcPath>, parseAncestors: bool, i: nat)
    requires i < |list|
    ensures ResolvedKeys(list[..i + 1]) == ResolvedKeys(list[..i]) + [ObjectKey(Resolved(list[i]), list[i])]
    ensures AllResolve(fs, list[..i + 1], parseAncestors) <==>
      AllResolve(fs, list[..i], parseAncestors) && ResolutionSucceeds(fs, list[i], parseAncestors)
  {
    assert list[..i + 1][..i] == list[..i];
  }

  /**
   * parse_objects_from_args: a new object per argument, in order, each resolved; the first
   * one that fails to resolve ends the parse with its error, E_INVALIDARG.
   */
  method ParseObjectsFromArgs(fs: FileSystem, list: seq<SrcPath>, parseAncestors: bool) returns (r: Result<seq<Object>>)
    ensures r.Ok? <==> forall i :: 0 <= i < |list| ==> ResolutionSucceeds(fs, list[i], parseAncestors)
    ensures r.Err? ==> r.error == INVALID_ARG
    ensures r.Ok? ==> Keys(r.value) == ResolvedKeys(list)
  {
    var objects: seq<Object> := [];
    for i := 0 to |list|
      invariant |objects| == i
      invariant AllResolve(fs, list[..i], parseAncestors)
      invariant Keys(objects) == ResolvedKeys(list[..i])
    {
      var o, resolved := ResolveArgument(fs, list[i], parseAncestors);
      if resolved.Err? {
        AllResolveIff(fs, list, parseAncestors);
        return Err(resolved.error);
      }
      ArgsSnoc(fs, list, parseAncestors, i);
      KeysSnoc(objects, o);
      objects := objects + [o];
    }
    assert list[..|list|] == list;
    AllResolveIff(fs, list, parseAncestors);
    r := Ok(objects);
  }
}
