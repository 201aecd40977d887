/** Versioned object storage with conditional writes; the in-memory provider is the
    reference. */
module MediaStore {
  import opened Prelude

  type Name = string
  type Bytes = string

  datatype Object = Object(
    ciphertext: Bytes, wrappedDek: string, generation: int,
    live: bool, softDeleted: bool, hardDeleteTime: Option<string>)

  datatype Bucket = Bucket(
    objects: map<Name, seq<Object>>, nextGeneration: int, softDelete: bool, hardDeleteTime: Option<string>)

  const EMPTY := Bucket(map[], 1, false, Some("2099-01-01T00:00:00.000Z"))

  function Versions(b: Bucket, name: Name): seq<Object> {
    if name in b.objects then b.objects[name] else []
  }

  /** The last live version, the one a plain read returns. */
  function LiveVersion(versions: seq<Object>): Option<Object> {
    if versions == [] then None
    else if versions[|versions| - 1].live then Some(versions[|versions| - 1])
    else LiveVersion(versions[..|versions| - 1])
  }

  /** The first version with this generation that is not soft-deleted. */
  function ReadGeneration(versions: seq<Object>, generation: int): Option<Object> {
    if versions == [] then None
    else if versions[0].generation == generation && !versions[0].softDeleted then Some(versions[0])
    else ReadGeneration(versions[1..], generation)
  }

  function Retire(versions: seq<Object>): seq<Object> {
    seq(|versions|, i requires 0 <= i < |versions| => versions[i].(live := false))
  }

  predicate Admits(versions: seq<Object>, ifGenerationMatch: int) {
    var current := LiveVersion(versions);
    if current.None? then ifGenerationMatch == 0 else current.value.generation == ifGenerationMatch
  }

  /** A conditional write. A refused write still leaves the name's (possibly empty)
      version list in the map. */
  function Put(b: Bucket, name: Name, ciphertext: Bytes, wrappedDek: string,
               ifGenerationMatch: int): (Bucket, Result<int>) {
    var versions := Versions(b, name);
    if !Admits(versions, ifGenerationMatch) then
      (b.(objects := b.objects[name := versions]), Err("GCS generation mismatch"))
    else
      var written := Object(ciphertext, wrappedDek, b.nextGeneration, true, false, None);
      (b.(objects := b.objects[name := Retire(versions) + [written]], nextGeneration := b.nextGeneration + 1),
       Ok(b.nextGeneration))
  }

  /** retain(generation != g). */
  function Without(versions: seq<Object>, generation: int): seq<Object> {
    if versions == [] then []
    else if versions[0].generation == generation then Without(versions[1..], generation)
    else [versions[0]] + Without(versions[1..], generation)
  }

  /** Soft deletion marks the first version with the generation. */
  function Mark(versions: seq<Object>, generation: int, time: Option<string>): seq<Object> {
    if versions == [] then []
    else if versions[0].generation == generation then
      [versions[0].(live := false, softDeleted := true, hardDeleteTime := time)] + versions[1..]
    else [versions[0]] + Mark(versions[1..], generation, time)
  }

  function DeleteGeneration(b: Bucket, name: Name, generation: int): Bucket {
    if name !in b.objects then b
    else
      var versions :=
        if b.softDelete then Mark(b.objects[name], generation, b.hardDeleteTime)
          else Without(b.objects[name], generation);
      b.(objects := if versions == [] then b.objects - {name} else b.objects[name := versions])
  }

  // -------------------------------------------------------------- operations

  datatype Operation =
    | PutObject(name: Name, ciphertext: Bytes, wrappedDek: string, ifGenerationMatch: int)
    | DeleteObject(name: Name, generation: int)
    | SetSoftDelete(enabled: bool)

  function Apply(b: Bucket, op: Operation): Bucket {
    match op
    case PutObject(name, ciphertext, wrappedDek, match_) => Put(b, name, ciphertext, wrappedDek, match_).0
    case DeleteObject(name, generation) => DeleteGeneration(b, name, generation)
    case SetSoftDelete(enabled) => b.(softDelete := enabled)
  }

  function ApplyAll(b: Bucket, ops: seq<Operation>): Bucket
    decreases |ops|
  {
    if ops == [] then b else ApplyAll(Apply(b, ops[0]), ops[1..])
  }

  /** Generations of one object strictly increase, only the newest can be live, and
      a soft-deleted version is not live. */
  ghost predicate OrderedVersions(versions: seq<Object>, bound: int) {
    && (forall i, j | 0 <= i < j < |versions| :: versions[i].generation < versions[j].generation)
    && (forall i | 0 <= i < |versions| :: 0 < versions[i].generation < bound)
    && (forall i | 0 <= i < |versions| :: versions[i].live ==> i == |versions| - 1 && !versions[i].softDeleted)
  }

  ghost predicate Ordered(b: Bucket) {
    0 < b.nextGeneration && forall name | name in b.objects :: OrderedVersions(b.objects[name], b.nextGeneration)
  }

  ghost predicate Increasing(versions: seq<Object>) {
    forall i, j | 0 <= i < j < |versions| :: versions[i].generation < versions[j].generation
  }

  lemma {:induction false} WithoutMembers(versions: seq<Object>, generation: int)
    ensures forall o :: o in Without(versions, generation) <==> o in versions && o.generation != generation
  {
    if versions != [] {
      WithoutMembers(versions[1..], generation);
      assert versions == [versions[0]] + versions[1..];
    }
  }

  lemma {:induction false} WithoutIncreasing(versions: seq<Object>, generation: int)
    requires Increasing(versions)
    ensures Increasing(Without(versions, generation))
  {
    if versions != [] {
      WithoutIncreasing(versions[1..], generation);
      WithoutMembers(versions[1..], generation);
      var kept := Without(versions[1..], generation);
      forall k | 0 <= k < |kept| ensures versions[0].generation < kept[k].generation {
        assert kept[k] in versions[1..];
      }
    }
  }

  lemma WithoutFacts(versions: seq<Object>, generation: int, bound: int)
    requires OrderedVersions(versions, bound)
    ensures OrderedVersions(Without(versions, generation), bound)
    ensures forall o :: o in Without(versions, generation) <==> o in versions && o.generation != generation
  {
    WithoutMembers(versions, generation);
    WithoutIncreasing(versions, generation);
    var kept := Without(versions, generation);
    forall k | 0 <= k < |kept|
      ensures 0 < kept[k].generation < bound && (kept[k].live ==> k == |kept| - 1 && !kept[k].softDeleted)
    {
      assert kept[k] in versions;
      assert kept[|kept| - 1] in versions;
    }
  }

  lemma {:induction false} MarkFacts(versions: seq<Object>, generation: int, time: Option<string>)
    ensures |Mark(versions, generation, time)| == |versions|
    ensures forall i | 0 <= i < |versions| ::
              var o := Mark(versions, generation, time)[i];
              o == versions[i] || (versions[i].generation == generation
                && o == versions[i].(live := false, softDeleted := true, hardDeleteTime := time))
    ensures forall i | 0 <= i < |versions| && (forall j | 0 <= j < i :: versions[j].generation != generation)
        && versions[i].generation == generation ::
              Mark(versions, generation, time)[i].softDeleted
  {
    if versions != [] && versions[0].generation != generation {
      MarkFacts(versions[1..], generation, time);
    }
  }

  lemma MarkKeepsOrder(versions: seq<Object>, generation: int, time: Option<string>, bound: int)
    requires OrderedVersions(versions, bound)
    ensures OrderedVersions(Mark(versions, generation, time), bound)
  {
    MarkFacts(versions, generation, time);
  }

  lemma PutKeepsOrder(b: Bucket, name: Name, ciphertext: Bytes, wrappedDek: string, match_: int)
    requires Ordered(b)
    ensures Ordered(Put(b, name, ciphertext, wrappedDek, match_).0)
  {
    var c := Put(b, name, ciphertext, wrappedDek, match_).0;
    forall n | n in c.objects ensures OrderedVersions(c.objects[n], c.nextGeneration) {
      if n != name { assert OrderedVersions(b.objects[n], b.nextGeneration); }
    }
  }

  lemma DeleteKeepsOrder(b: Bucket, name: Name, generation: int)
    requires Ordered(b)
    ensures Ordered(DeleteGeneration(b, name, generation))
  {
    if name in b.objects {
      WithoutFacts(b.objects[name], generation, b.nextGeneration);
      MarkKeepsOrder(b.objects[name], generation, b.hardDeleteTime, b.nextGeneration);
    }
  }

  lemma {:induction false} HistoryKeepsOrder(b: Bucket, ops: seq<Operation>)
    requires Ordered(b)
    ensures Ordered(ApplyAll(b, ops))
    decreases |ops|
  {
    if ops != [] {
      match ops[0] {
        case PutObject(name, ciphertext, wrappedDek, match_) => PutKeepsOrder(b, name, ciphertext, wrappedDek, match_);
        case DeleteObject(name, generation) => DeleteKeepsOrder(b, name, generation);
        case SetSoftDelete(enabled) =>
      }
      HistoryKeepsOrder(Apply(b, ops[0]), ops[1..]);
    }
  }

  lemma {:induction false} LiveIsLast(versions: seq<Object>, bound: int)
    requires OrderedVersions(versions, bound)
    ensures
      var last := |versions| - 1;
      LiveVersion(versions) == if versions != [] && versions[last].live then Some(versions[last]) else None
  {
    if versions != [] && !versions[|versions| - 1].live {
      LiveIsLast(versions[..|versions| - 1], bound);
    }
  }

  lemma {:induction false} ReadFinds(versions: seq<Object>, i: nat, bound: int)
    requires OrderedVersions(versions, bound) && i < |versions|
    ensures ReadGeneration(versions, versions[i].generation) == if versions[i].softDeleted then None
        else Some(versions[i])
  {
    if i == 0 {
      if versions[0].softDeleted { ReadMisses(versions[1..], versions[0].generation); }
    } else {
      ReadFinds(versions[1..], i - 1, bound);
    }
  }

  lemma {:induction false} ReadMisses(versions: seq<Object>, generation: int)
    requires forall i | 0 <= i < |versions| :: versions[i].generation != generation
    ensures ReadGeneration(versions, generation) == None
  {
    if versions != [] { ReadMisses(versions[1..], generation); }
  }

  /** What a conditional write does, in terms of reads alone: it succeeds exactly
      when the object's live generation is the one named (none, for 0); then its
      generation is new and higher than any before, a plain read returns it, and every
      other generation reads as it did. A refused write changes no read. */
  lemma PutExact(b: Bucket, name: Name, ciphertext: Bytes, wrappedDek: string, match_: int, g: int)
    requires Ordered(b)
    ensures
      var (c, result) := Put(b, name, ciphertext, wrappedDek, match_);
      var before, after := Versions(b, name), Versions(c, name);
      var live := LiveVersion(before);
      && (result.Ok? <==> if live.None? then match_ == 0 else live.value.generation == match_)
      && (result.Ok? ==>
            && LiveVersion(after) == Some(Object(ciphertext, wrappedDek, result.value, true, false, None))
            && (forall o | o in before :: o.generation < result.value)
            && (g != result.value ==> ReadGeneration(after, g) == Retired(ReadGeneration(before, g))))
      && (result.Err? ==> after == before)
      && (forall n | n != name :: Versions(c, n) == Versions(b, n))
  {
    var before := Versions(b, name);
    var written := Object(ciphertext, wrappedDek, b.nextGeneration, true, false, None);
    if Put(b, name, ciphertext, wrappedDek, match_).1.Ok? && g != b.nextGeneration {
      RetiredReads(before, written, g);
    }
    NewestIsLive(Retire(before), written);
  }

  function Retired(o: Option<Object>): Option<Object> {
    if o.None? then None else Some(o.value.(live := false))
  }

  lemma NewestIsLive(versions: seq<Object>, newest: Object)
    requires newest.live
    ensures LiveVersion(versions + [newest]) == Some(newest)
  {
  }

  lemma {:induction false} RetiredReads(versions: seq<Object>, extra: Object, g: int)
    requires extra.generation != g
    ensures ReadGeneration(Retire(versions) + [extra], g) == Retired(ReadGeneration(versions, g))
  {
    var all := Retire(versions) + [extra];
    if versions == [] {
      assert all == [extra];
      assert ReadGeneration([], g) == None;
      assert all[1..] == [];
    } else {
      RetiredReads(versions[1..], extra, g);
      assert all[1..] == Retire(versions[1..]) + [extra];
    }
  }

  // ---------------------------------------------------------- no lost update

  /** The object's live generation is not g, and g has already been assigned. */
  ghost predicate Superseded(b: Bucket, name: Name, g: int) {
    g < b.nextGeneration && !Admits(Versions(b, name), g)
  }

  lemma {:induction false} MarkAt(versions: seq<Object>, generation: int, time: Option<string>, i: nat)
    requires i < |versions|
    ensures |Mark(versions, generation, time)| == |versions|
    ensures
      var o := Mark(versions, generation, time)[i];
      o == versions[i] || !o.live
  {
    if versions[0].generation != generation && |versions| > 1 {
      MarkAt(versions[1..], generation, time, if i == 0 then 0 else i - 1);
    }
  }

  lemma MarkNeverRevives(versions: seq<Object>, generation: int, time: Option<string>, bound: int)
    requires OrderedVersions(versions, bound) && OrderedVersions(Mark(versions, generation, time), bound)
    ensures
      var after := LiveVersion(Mark(versions, generation, time));
      after == LiveVersion(versions) || after.None?
  {
    LiveIsLast(versions, bound);
    LiveIsLast(Mark(versions, generation, time), bound);
    if versions != [] {
      MarkAt(versions, generation, time, |versions| - 1);
    }
  }

  lemma RemovalNeverRevives(versions: seq<Object>, generation: int, bound: int)
    requires OrderedVersions(versions, bound) && OrderedVersions(Without(versions, generation), bound)
    ensures
      var after := LiveVersion(Without(versions, generation));
      after == LiveVersion(versions) || after.None?
  {
    var after := Without(versions, generation);
    LiveIsLast(versions, bound);
    LiveIsLast(after, bound);
    if after != [] {
      WithoutMembers(versions, generation);
      assert after[|after| - 1] in versions;
    }
  }

  /** Deleting a generation leaves the live version live or leaves none. */
  lemma DeleteNeverRevives(b: Bucket, name: Name, generation: int)
    requires Ordered(b)
    ensures
      var before, after := Versions(b, name), Versions(DeleteGeneration(b, name, generation), name);
      LiveVersion(after) == LiveVersion(before) || LiveVersion(after).None?
  {
    if name in b.objects {
      var versions := b.objects[name];
      if b.softDelete {
        MarkKeepsOrder(versions, generation, b.hardDeleteTime, b.nextGeneration);
        MarkNeverRevives(versions, generation, b.hardDeleteTime, b.nextGeneration);
      } else {
        WithoutFacts(versions, generation, b.nextGeneration);
        RemovalNeverRevives(versions, generation, b.nextGeneration);
      }
    }
  }

  lemma StepKeepsSuperseded(b: Bucket, name: Name, g: int, op: Operation)
    requires Ordered(b) && Superseded(b, name, g) && 0 < g
    ensures Superseded(Apply(b, op), name, g)
  {
    match op
    case PutObject(n, ciphertext, wrappedDek, match_) => PutExact(b, n, ciphertext, wrappedDek, match_, 0);
    case DeleteObject(n, generation) =>
      if n == name { DeleteNeverRevives(b, name, generation); }
    case SetSoftDelete(_) =>
  }

  lemma {:induction false} HistoryKeepsSuperseded(b: Bucket, name: Name, g: int, ops: seq<Operation>)
    requires Ordered(b) && Superseded(b, name, g) && 0 < g
    ensures Superseded(ApplyAll(b, ops), name, g)
    decreases |ops|
  {
    if ops != [] {
      HistoryKeepsOrder(b, [ops[0]]);
      assert ApplyAll(b, [ops[0]]) == Apply(b, ops[0]) by { assert [ops[0]][1..] == []; }
      StepKeepsSuperseded(b, name, g, ops[0]);
      HistoryKeepsSuperseded(Apply(b, ops[0]), name, g, ops[1..]);
    }
  }

  /** No lost update: a generation can be overwritten once. After a write that named
      it succeeds, every later write that names it is refused, whatever happened in
      between. */
  lemma NoLostUpdate(before: seq<Operation>, name: Name, g: int, c1: Bytes, d1: string, between: seq<Operation>,
                     c2: Bytes, d2: string)
    requires g != 0 && Put(ApplyAll(EMPTY, before), name, c1, d1, g).1.Ok?
    ensures
      var b := ApplyAll(Put(ApplyAll(EMPTY, before), name, c1, d1, g).0, between);
      Put(b, name, c2, d2, g).1.Err?
  {
    var b := ApplyAll(EMPTY, before);
    HistoryKeepsOrder(EMPTY, before);
    PutExact(b, name, c1, d1, g, 0);
    LiveIsLast(Versions(b, name), b.nextGeneration);
    var c := Put(b, name, c1, d1, g).0;
    PutKeepsOrder(b, name, c1, d1, g);
    HistoryKeepsSuperseded(c, name, g, between);
  }

  predicate Deletes(op: Operation, name: Name, g: int) {
    op == DeleteObject(name, g)
  }

  /** Version g is among these, readable and with this content. */
  ghost predicate HoldsIn(versions: seq<Object>, g: int, ciphertext: Bytes, wrappedDek: string) {
    exists i | 0 <= i < |versions| :: IsVersion(versions[i], g, ciphertext, wrappedDek)
  }

  predicate IsVersion(o: Object, g: int, ciphertext: Bytes, wrappedDek: string) {
    o.generation == g && o.ciphertext == ciphertext && o.wrappedDek == wrappedDek && !o.softDeleted
  }

  ghost predicate Holds(b: Bucket, name: Name, g: int, ciphertext: Bytes, wrappedDek: string) {
    HoldsIn(Versions(b, name), g, ciphertext, wrappedDek)
  }

  lemma RetireKeepsGeneration(versions: seq<Object>, newest: Object, g: int, ciphertext: Bytes, wrappedDek: string)
    requires HoldsIn(versions, g, ciphertext, wrappedDek)
    ensures HoldsIn(Retire(versions) + [newest], g, ciphertext, wrappedDek)
  {
    var i :| 0 <= i < |versions| && IsVersion(versions[i], g, ciphertext, wrappedDek);
    assert IsVersion((Retire(versions) + [newest])[i], g, ciphertext, wrappedDek);
  }

  lemma {:induction false} MarkMisses(versions: seq<Object>, generation: int, time: Option<string>, i: nat)
    requires i < |versions| && versions[i].generation != generation
    ensures |Mark(versions, generation, time)| == |versions| && Mark(versions, generation, time)[i] == versions[i]
  {
    if i > 0 {
      MarkMisses(versions[1..], generation, time, i - 1);
    } else {
      MarkFacts(versions, generation, time);
    }
  }

  lemma DeleteKeepsOthers(versions: seq<Object>, generation: int, time: Option<string>, g: int, ciphertext: Bytes,
                          wrappedDek: string)
    requires HoldsIn(versions, g, ciphertext, wrappedDek) && g != generation
    ensures HoldsIn(Mark(versions, generation, time), g, ciphertext, wrappedDek)
    ensures HoldsIn(Without(versions, generation), g, ciphertext, wrappedDek)
  {
    var i :| 0 <= i < |versions| && IsVersion(versions[i], g, ciphertext, wrappedDek);
    MarkMisses(versions, generation, time, i);
    assert IsVersion(Mark(versions, generation, time)[i], g, ciphertext, wrappedDek);
    WithoutMembers(versions, generation);
    var kept := Without(versions, generation);
    assert versions[i] in kept;
    var k :| 0 <= k < |kept| && kept[k] == versions[i];
    assert IsVersion(kept[k], g, ciphertext, wrappedDek);
  }

  lemma StepKeepsGeneration(b: Bucket, name: Name, g: int, ciphertext: Bytes, wrappedDek: string, op: Operation)
    requires Holds(b, name, g, ciphertext, wrappedDek) && !Deletes(op, name, g)
    ensures Holds(Apply(b, op), name, g, ciphertext, wrappedDek)
  {
    var versions := Versions(b, name);
    if op.PutObject? && op.name == name {
      var newest := Object(op.ciphertext, op.wrappedDek, b.nextGeneration, true, false, None);
      RetireKeepsGeneration(versions, newest, g, ciphertext, wrappedDek);
    } else if op.DeleteObject? && op.name == name {
      DeleteKeepsOthers(versions, op.generation, b.hardDeleteTime, g, ciphertext, wrappedDek);
    }
  }

  lemma {:induction false} HistoryKeepsGeneration(b: Bucket, name: Name, g: int, ciphertext: Bytes,
                                                  wrappedDek: string, ops: seq<Operation>)
    requires Ordered(b) && Holds(b, name, g, ciphertext, wrappedDek)
    requires forall op | op in ops :: !Deletes(op, name, g)
    ensures Ordered(ApplyAll(b, ops)) && Holds(ApplyAll(b, ops), name, g, ciphertext, wrappedDek)
    decreases |ops|
  {
    if ops != [] {
      assert ops[0] in ops;
      StepKeepsGeneration(b, name, g, ciphertext, wrappedDek, ops[0]);
      HistoryKeepsOrder(b, [ops[0]]);
      assert ApplyAll(b, [ops[0]]) == Apply(b, ops[0]) by { assert [ops[0]][1..] == []; }
      HistoryKeepsGeneration(Apply(b, ops[0]), name, g, ciphertext, wrappedDek, ops[1..]);
    }
  }

  /** A generation once written reads back its own bytes and wrapped key until that
      very generation is deleted, however often the object is overwritten. */
  lemma GenerationsStayReadable(before: seq<Operation>, name: Name, ciphertext: Bytes, wrappedDek: string,
                                match_: int, after: seq<Operation>)
    requires Put(ApplyAll(EMPTY, before), name, ciphertext, wrappedDek, match_).1.Ok?
    requires
      var written := Put(ApplyAll(EMPTY, before), name, ciphertext, wrappedDek, match_).1.value;
      forall op | op in after :: !Deletes(op, name, written)
    ensures
      var (c, result) := Put(ApplyAll(EMPTY, before), name, ciphertext, wrappedDek, match_);
      var read := ReadGeneration(Versions(ApplyAll(c, after), name), result.value);
      read.Some? && read.value.ciphertext == ciphertext && read.value.wrappedDek == wrappedDek
  {
    var b := ApplyAll(EMPTY, before);
    HistoryKeepsOrder(EMPTY, before);
    var (c, result) := Put(b, name, ciphertext, wrappedDek, match_);
    PutKeepsOrder(b, name, ciphertext, wrappedDek, match_);
    var g := result.value;
    assert IsVersion(Versions(c, name)[|Versions(b, name)|], g, ciphertext, wrappedDek);
    HistoryKeepsGeneration(c, name, g, ciphertext, wrappedDek, after);
    var d := ApplyAll(c, after);
    var versions := Versions(d, name);
    var i :| 0 <= i < |versions| && IsVersion(versions[i], g, ciphertext, wrappedDek);
    ReadFinds(versions, i, d.nextGeneration);
  }
}
