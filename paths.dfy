/** The string helpers of the recorder: prim paths, camera names and picked file paths. */
module Paths {
  import opened Wrappers

  /** The parent prim under which playback cameras are created. */
  const WorldPath: string := "/World"

  /** The name prefix of every playback camera prim. */
  const RecordedCamPrefix: string := "Recorded_Cam"

  predicate StartsWith(s: string, prefix: string)
  {
    |prefix| <= |s| && s[..|prefix|] == prefix
  }

  /**
   * The paths the cleanup deletes: for every child of /World whose name starts with
   * "Recorded_Cam", its path "/World/<name>", in child order.
   */
  function RecordedCamPaths(children: seq<string>): (r: seq<string>)
    ensures |r| <= |children|
    ensures forall p :: p in r ==> exists c :: c in children && StartsWith(c, RecordedCamPrefix) && p == WorldPath + "/" + c
    ensures forall c :: c in children && StartsWith(c, RecordedCamPrefix) ==> WorldPath + "/" + c in r
  {
    if children == [] then []
    else
      var rest := RecordedCamPaths(children[1..]);
      if StartsWith(children[0], RecordedCamPrefix) then [WorldPath + "/" + children[0]] + rest else rest
  }

  /** Filtering a list of children splits over concatenation, so child order is kept. */
  lemma {:induction false} RecordedCamPathsAppend(a: seq<string>, b: seq<string>)
    ensures RecordedCamPaths(a + b) == RecordedCamPaths(a) + RecordedCamPaths(b)
    decreases |a|
  {
    if a == [] {
      assert a + b == b;
    } else {
      assert (a + b)[1..] == a[1..] + b;
      RecordedCamPathsAppend(a[1..], b);
    }
  }

  /** One child gives its own path exactly when its name has the "Recorded_Cam" prefix. */
  lemma RecordedCamPathsOfOne(c: string)
    ensures RecordedCamPaths([c]) == if StartsWith(c, RecordedCamPrefix) then [WorldPath + "/" + c] else []
  {
    assert [c][1..] == [];
  }

  /**
   * The last '/'-separated segment of `path`, `path.split("/")[-1]`: the suffix after the last
   * '/', or the whole path when it has none.
   */
  function LastSegment(path: string): (r: string)
    ensures '/' !in r
    ensures |r| <= |path| && path[|path| - |r|..] == r
    ensures |r| < |path| ==> path[|path| - |r| - 1] == '/'
  {
    if path == [] then []
    else if path[|path| - 1] == '/' then []
    else LastSegment(path[..|path| - 1]) + [path[|path| - 1]]
  }

  /** The camera name the viewport switch logs: `path.split("/")[-1] if "/" in path else path`. */
  function CameraName(path: string): (r: string)
    ensures '/' !in path ==> r == path
  {
    if '/' in path then LastSegment(path) else path
  }

  /** The guard on CameraName is redundant: a path without '/' is its own last segment. */
  lemma CameraNameIsLastSegment(path: string)
    ensures CameraName(path) == LastSegment(path)
  {
    if '/' !in path {
      assert |LastSegment(path)| == |path|;
    }
  }

  /** Every backslash replaced by a forward slash, `.replace("\\", "/")`. */
  function NormalizeSlashes(s: string): (r: string)
    ensures |r| == |s|
    ensures '\\' !in r
    ensures forall k :: 0 <= k < |s| ==> r[k] == (if s[k] == '\\' then '/' else s[k])
  {
    if s == [] then [] else [if s[0] == '\\' then '/' else s[0]] + NormalizeSlashes(s[1..])
  }

  /**
   * The file path a file-picker selection sets: nothing when no file name was picked, otherwise
   * "<dirname>/<filename>" with forward slashes only.
   */
  function PickedPath(filename: string, dirname: string): (r: Option<string>)
    ensures r.None? <==> filename == ""
    ensures r.Some? ==>
      && '\\' !in r.value
      && |r.value| == |dirname| + 1 + |filename|
      && r.value[|dirname|] == '/'
      && r.value[|dirname| + 1..] == NormalizeSlashes(filename)
      && r.value[..|dirname|] == NormalizeSlashes(dirname)
  {
    if filename == "" then None else Some(NormalizeSlashes(dirname + "/" + filename))
  }
}
