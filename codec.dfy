/**
 * The record-level mapping of save and load: a pose becomes the record
 * `{"p": [x, y, z], "r": [w, i0, i1, i2]}`, quaternion real part first, and a parsed JSON
 * document becomes a recording log again. Turning records into JSON text and back is not modelled.
 */
module Codec {
  import opened Wrappers
  import opened Poses

  /**
   * The values `json.loads` produces, as far as decoding tells them apart: numbers (integers and
   * floats), strings, arrays, objects, and `Other` for null, true and false.
   */
  datatype Json = Num(n: real) | Str(s: string) | Arr(items: seq<Json>) | Obj(fields: map<string, Json>) | Other

  /** Why a save produced no records. */
  datatype SaveError = EmptyLog

  /** The save record of one pose. */
  function EncodePose(p: Pose): (j: Json)
    ensures j.Obj? && j.fields.Keys == {"p", "r"}
    ensures DecodeVec3(j.fields["p"]) == Some(p.pos)
    ensures DecodeQuat(j.fields["r"]) == Some(p.rot) && |j.fields["r"].items| == 4
  {
    Obj(map[
      "p" := Arr([Num(p.pos.x), Num(p.pos.y), Num(p.pos.z)]),
      "r" := Arr([Num(p.rot.re), Num(p.rot.im.x), Num(p.rot.im.y), Num(p.rot.im.z)])])
  }

  /** The records of a whole log, in log order. */
  function Encode(log: seq<Pose>): (r: seq<Json>)
    ensures |r| == |log|
    ensures forall k :: 0 <= k < |log| ==> r[k] == EncodePose(log[k])
  {
    seq(|log|, k requires 0 <= k < |log| => EncodePose(log[k]))
  }

  /** Saving refuses an empty log; otherwise it writes one record per sample. */
  function Save(log: seq<Pose>): (r: Result<seq<Json>, SaveError>)
    ensures r.Failure? <==> log == []
    ensures r.Success? ==> |r.value| == |log| && forall k :: 0 <= k < |log| ==> r.value[k] == EncodePose(log[k])
  {
    if log == [] then Failure(EmptyLog) else Success(Encode(log))
  }

  /** `Gf.Vec3d(*p)`: the position field must be an array of exactly three numbers. */
  function DecodeVec3(j: Json): (r: Option<Vec3>)
    ensures r.Some? <==> j.Arr? && |j.items| == 3 && forall k :: 0 <= k < 3 ==> j.items[k].Num?
    ensures r.Some? ==> j == Arr([Num(r.value.x), Num(r.value.y), Num(r.value.z)])
  {
    if j.Arr? && |j.items| == 3 && j.items[0].Num? && j.items[1].Num? && j.items[2].Num?
    then Some(Vec3(j.items[0].n, j.items[1].n, j.items[2].n))
    else None
  }

  /**
   * `Gf.Quatd(r[0], Gf.Vec3d(r[1], r[2], r[3]))`: the rotation field must be an array whose first
   * four entries are numbers; entries after the fourth are never read.
   */
  function DecodeQuat(j: Json): (r: Option<Quat>)
    ensures r.Some? <==> j.Arr? && |j.items| >= 4 && forall k :: 0 <= k < 4 ==> j.items[k].Num?
    ensures r.Some? ==> j.items[..4] == [Num(r.value.re), Num(r.value.im.x), Num(r.value.im.y), Num(r.value.im.z)]
  {
    if j.Arr? && |j.items| >= 4 && j.items[0].Num? && j.items[1].Num? && j.items[2].Num? && j.items[3].Num?
    then Some(Quat(j.items[0].n, Vec3(j.items[1].n, j.items[2].n, j.items[3].n)))
    else None
  }

  /**
   * One record back into a pose; None stands for the KeyError, TypeError or IndexError that
   * aborts the load.
   */
  function DecodeItem(j: Json): (r: Option<Pose>)
    ensures r.Some? <==>
      && j.Obj? && "p" in j.fields && "r" in j.fields
      && DecodeVec3(j.fields["p"]).Some? && DecodeQuat(j.fields["r"]).Some?
    ensures r.Some? ==> r.value.pos == DecodeVec3(j.fields["p"]).value && r.value.rot == DecodeQuat(j.fields["r"]).value
  {
    if j.Obj? && "p" in j.fields && "r" in j.fields then
      match (DecodeVec3(j.fields["p"]), DecodeQuat(j.fields["r"]))
      case (Some(pos), Some(rot)) => Some(Pose(pos, rot))
      case _ => None
    else None
  }

  /**
   * The poses the load loop appends before it stops: the longest prefix of `items` whose every
   * record decodes. It stops at the first record that does not.
   */
  function DecodePrefix(items: seq<Json>): (r: seq<Pose>)
    ensures |r| <= |items|
    ensures forall k :: 0 <= k < |r| ==> DecodeItem(items[k]) == Some(r[k])
    ensures |r| < |items| ==> DecodeItem(items[|r|]).None?
  {
    if items == [] then []
    else
      match DecodeItem(items[0])
      case None => []
      case Some(p) => [p] + DecodePrefix(items[1..])
  }

  /** The postconditions of DecodePrefix determine its result. */
  lemma DecodePrefixUnique(items: seq<Json>, r: seq<Pose>)
    requires |r| <= |items|
    requires forall k :: 0 <= k < |r| ==> DecodeItem(items[k]) == Some(r[k])
    requires |r| < |items| ==> DecodeItem(items[|r|]).None?
    ensures r == DecodePrefix(items)
  {
    var d := DecodePrefix(items);
    assert |r| == |d|;
  }

  /** What a load leaves in the log, and whether it completed without an exception. */
  datatype Loaded = Loaded(log: seq<Pose>, complete: bool)

  /**
   * The log after `for d in data` over the parsed document `data`. An array is decoded record by
   * record, so a malformed record leaves the records before it loaded. Iterating an object or
   * a string yields strings, which no record lookup accepts, so only an empty one completes; a
   * number, null or boolean is not iterable. The log is cleared before the loop in every case.
   */
  function LoadedLog(data: Json): (r: Loaded)
    ensures data.Arr? ==> r.log == DecodePrefix(data.items) && (r.complete <==> |r.log| == |data.items|)
    ensures !data.Arr? ==> r.log == []
    ensures data.Obj? ==> (r.complete <==> data.fields == map[])
    ensures data.Str? ==> (r.complete <==> data.s == "")
    ensures data.Num? || data.Other? ==> !r.complete
  {
    match data
    case Arr(items) =>
      var poses := DecodePrefix(items);
      Loaded(poses, |poses| == |items|)
    case Obj(fields) => Loaded([], fields == map[])
    case Str(s) => Loaded([], s == "")
    case _ => Loaded([], false)
  }

  /** Every pose survives its own record: position as (x, y, z), rotation real part first. */
  lemma DecodeEncodePose(p: Pose)
    ensures DecodeItem(EncodePose(p)) == Some(p)
  {
  }

  /**
   * A record that decodes and has nothing beyond the two keys and the four rotation entries is
   * exactly the record its pose saves as.
   */
  lemma EncodeDecodePose(j: Json)
    requires DecodeItem(j).Some?
    requires j.fields.Keys == {"p", "r"} && |j.fields["r"].items| == 4
    ensures EncodePose(DecodeItem(j).value) == j
  {
    var p := DecodeItem(j).value;
    var e := EncodePose(p);
    assert e.fields["p"] == j.fields["p"];
    assert e.fields["r"].items == j.fields["r"].items;
    assert e.fields == j.fields;
  }

  /** Loading the records of a save gives back the saved log, and the load completes. */
  lemma {:induction false} LoadSaved(log: seq<Pose>)
    ensures LoadedLog(Arr(Encode(log))) == Loaded(log, true)
  {
    var items := Encode(log);
    forall k | 0 <= k < |log|
      ensures DecodeItem(items[k]) == Some(log[k])
    {
      DecodeEncodePose(log[k]);
    }
    DecodePrefixUnique(items, log);
  }

  /**
   * A malformed record after some good ones aborts the load with the good ones already in the
   * log: the log is left partially filled.
   */
  lemma {:induction false} MalformedRecordLeavesPrefix(good: seq<Pose>, bad: Json, rest: seq<Json>)
    requires DecodeItem(bad).None?
    ensures LoadedLog(Arr(Encode(good) + [bad] + rest)) == Loaded(good, false)
  {
    var items := Encode(good) + [bad] + rest;
    forall k | 0 <= k < |good|
      ensures DecodeItem(items[k]) == Some(good[k])
    {
      DecodeEncodePose(good[k]);
    }
    assert items[|good|] == bad;
    DecodePrefixUnique(items, good);
  }

  /** A record without its "r" key is malformed. */
  lemma MissingRotationIsMalformed(p: Json)
    ensures DecodeItem(Obj(map["p" := p])).None?
  {
  }
}
