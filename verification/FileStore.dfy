/** One JSON file per record, written to a temporary file and renamed into place
    (`SandboxStore`, `CiJobStore`): a crash-safe finite map keyed by id. */
module FileStore {
  import opened Text

  /** A record file is complete, or whatever a stopped write left behind. */
  datatype File<R> = Whole(value: R) | Torn

  type Dir<R> = map<string, File<R>>

  // ---- file names, as `Path::extension` and `Path::file_stem` read them ----

  function LastDot(name: string): Option<nat>
    ensures LastDot(name).Some? ==> LastDot(name).value < |name| && name[LastDot(name).value] == '.'
  {
    if name == "" then None
    else if name[|name| - 1] == '.' then Some(|name| - 1)
    else LastDot(name[..|name| - 1])
  }

  /** A leading dot alone makes no extension. */
  function Extension(name: string): Option<string> {
    match LastDot(name)
    case Some(i) => if i == 0 then None else Some(name[i + 1..])
    case None => None
  }

  function Stem(name: string): string {
    match LastDot(name)
    case Some(i) => if i == 0 then name else name[..i]
    case None => name
  }

  const JSON := "json"

  predicate IsRecordFile(name: string) { Extension(name) == Some(JSON) }

  /** `NamedTempFile` names: a leading dot and no other. */
  predicate IsTempName(name: string) { name != "" && name[0] == '.' && '.' !in name[1..] }

  /** Ids name a file of their own; the empty one does not. */
  type Id = s: string | s != "" witness "a"

  function RecordFile(id: Id): string { id + ['.'] + JSON }

  lemma {:induction false} LastDotOf(head: string, tail: string)
    requires '.' !in tail
    ensures LastDot(head + ['.'] + tail) == Some(|head|)
  {
    if tail == "" {
      assert head + ['.'] + tail == head + ['.'];
    } else {
      assert (head + ['.'] + tail)[..|head + ['.'] + tail| - 1] == head + ['.'] + tail[..|tail| - 1];
      LastDotOf(head, tail[..|tail| - 1]);
    }
  }

  lemma RecordFileNames(id: Id)
    ensures IsRecordFile(RecordFile(id)) && Stem(RecordFile(id)) == id && RecordFile(id) == id + ".json"
  {
    LastDotOf(id, JSON);
    assert RecordFile(id)[|id| + 1..] == JSON && RecordFile(id)[..|id|] == id;
  }

  lemma RecordFileOf(name: string)
    requires IsRecordFile(name)
    ensures Stem(name) != "" && RecordFile(Stem(name)) == name
  {
    var i := LastDot(name).value;
    assert name == name[..i] + [name[i]] + name[i + 1..];
  }

  lemma TempIsNoRecord(name: string)
    requires IsTempName(name)
    ensures !IsRecordFile(name)
  {
    LastDotOf("", name[1..]);
    assert "" + ['.'] + name[1..] == name;
  }

  // ---- the map a directory stands for ----

  /** What `load` sees: nothing, a record, or a file that does not parse. */
  function Lookup<R>(dir: Dir<R>, id: Id): Option<File<R>> {
    if RecordFile(id) in dir then Some(dir[RecordFile(id)]) else None
  }

  /** The ids `list` visits. */
  ghost predicate Listed<R>(dir: Dir<R>, id: Id) {
    exists name :: name in dir && IsRecordFile(name) && Stem(name) == id
  }

  lemma ListedIffPresent<R>(dir: Dir<R>, id: Id)
    ensures Listed(dir, id) <==> Lookup(dir, id).Some?
  {
    RecordFileNames(id);
    if Listed(dir, id) {
      var name :| name in dir && IsRecordFile(name) && Stem(name) == id;
      RecordFileOf(name);
    }
  }

  // ---- save, step by step ----

  /** The directory after `k` steps of a save: the temporary file appears, is written in
      any number of pieces, is complete, and is renamed. */
  function SavedTo<R>(dir: Dir<R>, temp: string, id: Id, r: R, pieces: nat, k: nat): Dir<R> {
    if k == 0 then dir
    else if k <= 1 + pieces then dir[temp := Torn]
    else if k == 2 + pieces then dir[temp := Whole(r)]
    else (dir - {temp})[RecordFile(id) := Whole(r)]
  }

  /** A crash after any step leaves `load(id)` with the old or the new record, every other
      id as it was, and the temporary file invisible. */
  lemma CrashSafe<R>(dir: Dir<R>, temp: string, id: Id, r: R, pieces: nat, k: nat)
    requires IsTempName(temp) && temp !in dir
    ensures var after := SavedTo(dir, temp, id, r, pieces, k);
            && Lookup(after, id) == (if k <= 2 + pieces then Lookup(dir, id) else Some(Whole(r)))
            && (forall other: Id :: other != id ==> Lookup(after, other) == Lookup(dir, other))
            && (forall other: Id :: Listed(after, other) <==> Listed(dir, other) || (other == id && k > 2 + pieces))
  {
    var after := SavedTo(dir, temp, id, r, pieces, k);
    TempIsNoRecord(temp);
    forall other: Id
      ensures RecordFile(other) != temp && (RecordFile(other) == RecordFile(id) ==> other == id)
      ensures Listed(after, other) <==> Lookup(after, other).Some?
      ensures Listed(dir, other) <==> Lookup(dir, other).Some?
    {
      RecordFileNames(other);
      RecordFileNames(id);
      ListedIffPresent(after, other);
      ListedIffPresent(dir, other);
    }
  }

  /** Every record file is complete. */
  ghost predicate AllWhole<R>(dir: Dir<R>) {
    forall id: Id :: Lookup(dir, id).Some? ==> Lookup(dir, id).value.Whole?
  }

  /** The finite map a directory of complete records stands for. */
  ghost function AsMap<R>(dir: Dir<R>): (m: map<Id, R>)
    requires AllWhole(dir)
    ensures forall id: Id :: id in m <==> Lookup(dir, id).Some?
    ensures forall id: Id :: id in m ==> m[id] == Lookup(dir, id).value.value
  {
    var names := set name | name in dir && IsRecordFile(name);
    var ids: set<Id> := set name | name in names && Stem(name) != "" :: Stem(name);
    assert forall id: Id :: id in ids <==> RecordFile(id) in dir by {
      forall id: Id ensures id in ids <==> RecordFile(id) in dir {
        RecordFileNames(id);
        if RecordFile(id) in dir {
          assert RecordFile(id) in names;
        }
        if id in ids {
          var name :| name in names && Stem(name) == id;
          RecordFileOf(name);
        }
      }
    }
    map id: Id | id in ids :: Lookup(dir, id).value.value
  }

  lemma SameLookups<R>(a: Dir<R>, b: Dir<R>)
    requires AllWhole(a) && forall id: Id :: Lookup(b, id) == Lookup(a, id)
    ensures AllWhole(b) && AsMap(b) == AsMap(a)
  {
  }

  lemma OneLookup<R>(a: Dir<R>, b: Dir<R>, id: Id, r: R)
    requires AllWhole(a) && Lookup(b, id) == Some(Whole(r))
    requires forall other: Id :: other != id ==> Lookup(b, other) == Lookup(a, other)
    ensures AllWhole(b) && AsMap(b) == AsMap(a)[id := r]
  {
    forall other: Id ensures Lookup(b, other).Some? ==> Lookup(b, other).value.Whole? {
      if other != id {
        assert Lookup(b, other) == Lookup(a, other);
      }
    }
  }

  lemma SaveEffect<R>(dir: Dir<R>, temp: string, id: Id, r: R, pieces: nat, k: nat)
    requires IsTempName(temp) && temp !in dir && AllWhole(dir)
    ensures var after := SavedTo(dir, temp, id, r, pieces, k);
            AllWhole(after) && AsMap(after) == if k <= 2 + pieces then AsMap(dir) else AsMap(dir)[id := r]
  {
    CrashSafe(dir, temp, id, r, pieces, k);
    var after := SavedTo(dir, temp, id, r, pieces, k);
    if k <= 2 + pieces {
      SameLookups(dir, after);
    } else {
      OneLookup(dir, after, id, r);
    }
  }

  lemma DeleteEffect<R>(dir: Dir<R>, id: Id)
    requires AllWhole(dir)
    ensures AllWhole(dir - {RecordFile(id)}) && AsMap(dir - {RecordFile(id)}) == AsMap(dir) - {id}
  {
    var after := dir - {RecordFile(id)};
    forall other: Id ensures Lookup(after, other) == if other == id then None else Lookup(dir, other) {
      RecordFileNames(other);
      RecordFileNames(id);
    }
    forall other: Id ensures Lookup(after, other).Some? ==> Lookup(after, other).value.Whole? {
      assert Lookup(after, other) == if other == id then None else Lookup(dir, other);
    }
  }

  // ---- the store ----

  /** Whether a save runs to its end, or fails or is stopped after so many steps. */
  datatype Fate = Completes | Fails(step: nat) | Stops(step: nat)

  datatype Saved = SavedOk | SaveFailed | Stopped

  class Store<R> {
    var dir: Dir<R>

    ghost predicate Valid() reads this { AllWhole(dir) }

    ghost function Contents(): map<Id, R>
      reads this
      requires Valid()
    {
      AsMap(dir)
    }

    constructor ()
      ensures Valid() && Contents() == map[]
    {
      dir := map[];
    }

    /** `save`, which may fail at any step (dropping the temporary file) or be stopped. */
    method Save(id: Id, r: R, temp: string, fate: Fate, pieces: nat) returns (out: Saved)
      requires Valid() && IsTempName(temp) && temp !in dir
      modifies this
      ensures Valid()
      ensures out == if fate.Completes? || fate.step >= 3 + pieces then SavedOk
                     else if fate.Fails? then SaveFailed else Stopped
      ensures out.SavedOk? ==> Contents() == old(Contents())[id := r]
      ensures out.SaveFailed? ==> dir == old(dir)
      ensures out.Stopped? ==> Contents() == old(Contents())
    {
      ghost var before := dir;
      var k := 0;
      while k < 3 + pieces && (fate.Completes? || k < fate.step)
        invariant 0 <= k <= 3 + pieces && (fate.Completes? || k <= fate.step)
        invariant dir == SavedTo(before, temp, id, r, pieces, k)
      {
        k := k + 1;
        if k <= 1 + pieces {
          dir := dir[temp := Torn];
        } else if k == 2 + pieces {
          dir := dir[temp := Whole(r)];
        } else {
          dir := (dir - {temp})[RecordFile(id) := Whole(r)];
        }
      }
      SaveEffect(before, temp, id, r, pieces, k);
      if k == 3 + pieces {
        out := SavedOk;
      } else if fate.Stops? {
        out := Stopped;
      } else {
        dir := dir - {temp};
        out := SaveFailed;
        assert dir == before;
      }
    }

    /** `load`. */
    method Load(id: Id) returns (r: Option<R>)
      requires Valid()
      ensures r == if id in Contents() then Some(Contents()[id]) else None
    {
      var file := Lookup(dir, id);
      if file.Some? {
        r := Some(file.value.value);
      } else {
        r := None;
      }
    }

    /** `delete`: a missing file is not an error, and any other failure removes nothing. */
    method Delete(id: Id, fails: bool) returns (ok: bool)
      requires Valid()
      modifies this
      ensures Valid() && (ok <==> id !in old(Contents()) || !fails)
      ensures Contents() == if ok then old(Contents()) - {id} else old(Contents())
    {
      DeleteEffect(dir, id);
      ok := RecordFile(id) !in dir || !fails;
      if ok {
        dir := dir - {RecordFile(id)};
      }
    }

    /** `list` and `list_in_flight`: the directory is read in any order, temporary files are
        skipped, and the kept records are exactly those of the map, one per id. */
    method List(keep: R -> bool) returns (records: seq<R>, ids: seq<Id>)
      requires Valid()
      ensures |ids| == |records| && forall i, j :: 0 <= i < j < |ids| ==> ids[i] != ids[j]
      ensures forall i :: 0 <= i < |ids| ==> ids[i] in Contents() && records[i] == Contents()[ids[i]]
      ensures forall id: Id :: id in ids <==> id in Contents() && keep(Contents()[id])
    {
      records, ids := [], [];
      var left := dir.Keys;
      while left != {}
        invariant left <= dir.Keys
        invariant |ids| == |records| && forall i, j :: 0 <= i < j < |ids| ==> ids[i] != ids[j]
        invariant forall i :: 0 <= i < |ids| ==> ids[i] in Contents() && records[i] == Contents()[ids[i]]
        invariant forall id: Id :: id in ids <==>
                    id in Contents() && keep(Contents()[id]) && RecordFile(id) !in left
        decreases left
      {
        var name :| name in left;
        left := left - {name};
        var id := ReadEntry(name);
        if id.Some? && keep(Lookup(dir, id.value).value.value) {
          records, ids := records + [Lookup(dir, id.value).value.value], ids + [id.value];
        }
      }
    }

    /** The id of one directory entry, if it is a record's. */
    method ReadEntry(name: string) returns (id: Option<Id>)
      requires Valid() && name in dir
      ensures id.Some? ==> RecordFile(id.value) == name && Lookup(dir, id.value) == Some(Whole(Contents()[id.value]))
      ensures forall other: Id :: RecordFile(other) == name <==> id == Some(other)
    {
      id := None;
      if IsRecordFile(name) {
        RecordFileOf(name);
        id := Some(Stem(name));
      }
      forall other: Id ensures RecordFile(other) == name <==> id == Some(other) { RecordFileNames(other); }
    }
  }
}
