/** The in-memory provider, updated in place. Each call is one of the functions of
    MediaStore on the contents. */
module FakeGcs {
  import opened Prelude
  import opened MediaStore
  import opened MediaDeletion

  class Store {
    var objects: map<Name, seq<Object>>
    var nextGeneration: int
    var softDelete: bool
    var hardDeleteTime: Option<string>

    constructor ()
      ensures Contents() == EMPTY
    {
      objects, nextGeneration, softDelete := map[], 1, false;
      hardDeleteTime := Some("2099-01-01T00:00:00.000Z");
    }

    ghost function Contents(): Bucket
      reads this
    {
      Bucket(objects, nextGeneration, softDelete, hardDeleteTime)
    }

    method SetSoftDeleteEnabled(enabled: bool)
      modifies this`softDelete
      ensures Contents() == Apply(old(Contents()), SetSoftDelete(enabled))
    {
      softDelete := enabled;
    }

    method GetObject(name: Name) returns (found: Option<Object>)
      ensures found == LiveVersion(Versions(Contents(), name))
    {
      if name !in objects {
        return None;
      }
      found := FindLive(objects[name]);
    }

    method GetObjectGeneration(name: Name, generation: int) returns (found: Option<Object>)
      ensures found == ReadGeneration(Versions(Contents(), name), generation)
    {
      if name !in objects {
        return None;
      }
      var versions := objects[name];
      for i := 0 to |versions|
        invariant ReadGeneration(versions, generation) == ReadGeneration(versions[i..], generation)
      {
        if versions[i].generation == generation && !versions[i].softDeleted {
          return Some(versions[i]);
        }
      }
      found := None;
    }

    method PutObject(name: Name, ciphertext: Bytes, wrappedDek: string, ifGenerationMatch: int)
        returns (result: Result<int>)
      modifies this
      ensures (Contents(), result) == Put(old(Contents()), name, ciphertext, wrappedDek, ifGenerationMatch)
    {
      if name !in objects {
        objects := objects[name := []];
      }
      var versions := objects[name];
      assert objects == old(objects)[name := versions] && versions == Versions(old(Contents()), name);
      var current := FindLive(versions);
      if !(if current.None? then ifGenerationMatch == 0 else current.value.generation == ifGenerationMatch) {
        return Err("GCS generation mismatch");
      }
      var retired := versions;
      for i := 0 to |versions|
        invariant |retired| == |versions|
        invariant forall k | 0 <= k < |versions| ::
            retired[k] == if k < i then versions[k].(live := false) else versions[k]
      {
        retired := retired[i := retired[i].(live := false)];
      }
      assert retired == Retire(versions);
      var generation := nextGeneration;
      nextGeneration := nextGeneration + 1;
      var written := Object(ciphertext, wrappedDek, generation, true, false, None);
      objects := objects[name := retired + [written]];
      assert objects == old(objects)[name := Retire(versions) + [written]];
      result := Ok(generation);
    }

    /** list_matching for either inventory: what matches, in whatever order. */
    method ListMatching(prefix: Name, kind: Kind) returns (versions: seq<Version>)
      ensures forall v :: v in versions <==> prefix <= v.name && Has(Contents(), v.name, kind, v.generation)
    {
      versions := [];
      var names := objects.Keys;
      while names != {}
        invariant names <= objects.Keys
        invariant forall v :: v in versions <==>
                    v.name in objects.Keys - names && prefix <= v.name && Has(Contents(), v.name, kind, v.generation)
        decreases |names|
      {
        var name :| name in names;
        ListedOne(Contents(), name, kind);
        if prefix <= name {
          versions := versions + One(name, objects[name], kind);
        }
        names := names - {name};
      }
    }

    method DeleteObjectGeneration(name: Name, generation: int)
      modifies this`objects
      ensures Contents() == DeleteGeneration(old(Contents()), name, generation)
    {
      if name !in objects {
        return;
      }
      var versions := objects[name];
      if softDelete {
        versions := MarkFirst(versions, generation, hardDeleteTime);
      } else {
        versions := Retain(versions, generation);
      }
      if versions == [] {
        objects := objects - {name};
      } else {
        objects := objects[name := versions];
      }
    }
  }

  /** iter().rev().find(live). */
  method FindLive(versions: seq<Object>) returns (found: Option<Object>)
    ensures found == LiveVersion(versions)
  {
    var i := |versions|;
    assert versions[..i] == versions;
    while i > 0
      invariant 0 <= i <= |versions| && LiveVersion(versions) == LiveVersion(versions[..i])
    {
      i := i - 1;
      if versions[i].live {
        return Some(versions[i]);
      }
      assert versions[..i + 1][..i] == versions[..i];
    }
    found := None;
  }

  lemma {:induction false} MarkIs(versions: seq<Object>, i: nat, generation: int, time: Option<string>)
    requires i <= |versions| && forall k | 0 <= k < i :: versions[k].generation != generation
    requires i < |versions| ==> versions[i].generation == generation
    ensures Mark(versions, generation, time)
            == if i == |versions| then versions
               else versions[i := versions[i].(live := false, softDeleted := true, hardDeleteTime := time)]
  {
    if i > 0 {
      MarkIs(versions[1..], i - 1, generation, time);
    }
  }

  method MarkFirst(versions: seq<Object>, generation: int, time: Option<string>) returns (marked: seq<Object>)
    ensures marked == Mark(versions, generation, time)
  {
    for i := 0 to |versions|
      invariant forall k | 0 <= k < i :: versions[k].generation != generation
    {
      if versions[i].generation == generation {
        MarkIs(versions, i, generation, time);
        return versions[i := versions[i].(live := false, softDeleted := true, hardDeleteTime := time)];
      }
    }
    MarkIs(versions, |versions|, generation, time);
    marked := versions;
  }

  method Retain(versions: seq<Object>, generation: int) returns (kept: seq<Object>)
    ensures kept == Without(versions, generation)
  {
    kept := [];
    for i := 0 to |versions|
      invariant Without(versions, generation) == kept + Without(versions[i..], generation)
    {
      if versions[i].generation != generation {
        kept := kept + [versions[i]];
      }
    }
  }

  // ----------------------------------------------------------------- listing

  function One(name: Name, versions: seq<Object>, kind: Kind): seq<Version> {
    if versions == [] then []
    else
      var last := versions[|versions| - 1];
      One(name, versions[..|versions| - 1], kind)
        + if last.softDeleted == kind.SoftDeleted? then [Version(name, last.generation)] else []
  }

  lemma {:induction false} OneExact(name: Name, versions: seq<Object>, kind: Kind, v: Version)
    ensures v in One(name, versions, kind) <==>
      v.name == name && exists i | 0 <= i < |versions| ::
        versions[i].generation == v.generation && versions[i].softDeleted == kind.SoftDeleted?
  {
    if versions != [] {
      var front := versions[..|versions| - 1];
      OneExact(name, front, kind, v);
      assert forall i | 0 <= i < |front| :: versions[i] == front[i];
    }
  }

  lemma ListedOne(b: Bucket, name: Name, kind: Kind)
    requires name in b.objects
    ensures forall v :: v in One(name, b.objects[name], kind) <==> v.name == name && Has(b, name, kind, v.generation)
  {
    forall v ensures v in One(name, b.objects[name], kind) <==> v.name == name && Has(b, name, kind, v.generation) {
      var versions := Versions(b, name);
      OneExact(name, versions, kind, v);
      if v in One(name, versions, kind) {
        var i :| 0 <= i < |versions| && versions[i].generation == v.generation
                 && versions[i].softDeleted == kind.SoftDeleted?;
        assert Versions(b, name)[i].generation == v.generation;
      }
    }
  }

  /** The matching generations of some names, one name after the other. */
  ghost function Matching(q: Query, names: set<Name>): (versions: seq<Version>)
    requires names <= q.bucket.objects.Keys
    ensures forall v :: v in versions <==>
              v.name in names && q.prefix <= v.name && Has(q.bucket, v.name, q.kind, v.generation)
    decreases |names|
  {
    if names == {} then []
    else
      var name :| name in names;
      ListedOne(q.bucket, name, q.kind);
      Matching(q, names - {name}) + if q.prefix <= name then One(name, q.bucket.objects[name], q.kind) else []
  }

  /** The in-memory provider answers in one page, without a cursor. */
  ghost function OnePage(): Pager {
    (q: Query, token: Option<string>) => Ok(Page(Matching(q, q.bucket.objects.Keys), None))
  }

  /** It is a provider that lists what is there, and whose listings always end. */
  lemma InMemoryProviderIsFaithful()
    ensures Faithful(OnePage())
    ensures forall q, budget: nat | budget > 0 :: Listing(OnePage(), q, None, budget).Ok?
  {
    forall q, pages | PageRun(OnePage(), q, None, pages)
      ensures forall v :: v in Concat(pages) <==> q.prefix <= v.name && Has(q.bucket, v.name, q.kind, v.generation)
    {
      assert |pages| == 1 && pages[1..] == [];
      assert Concat(pages) == Matching(q, q.bucket.objects.Keys);
    }
  }
}
