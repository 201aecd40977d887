/** Following page cursors to the end of a listing, and deleting every generation
    of one object through a provider whose calls may fail. */
module MediaDeletion {
  import opened Prelude
  import opened MediaStore

  datatype Version = Version(name: Name, generation: int)

  datatype Kind = Stored | SoftDeleted

  datatype Page = Page(versions: seq<Version>, next: Option<string>)

  /** One listing request: what the bucket holds, a name prefix, and which inventory. */
  datatype Query = Query(bucket: Bucket, prefix: Name, kind: Kind)

  /** How a provider splits its listings: the page served for a cursor, or a failure. */
  type Pager = (Query, Option<string>) -> Result<Page>

  // ----------------------------------------------------------------- listing

  function Prepend(versions: seq<Version>, rest: Result<seq<Version>>): Result<seq<Version>> {
    if rest.Ok? then Ok(versions + rest.value) else rest
  }

  /** Following cursors from a token for at most so many pages. */
  function Listing(pager: Pager, q: Query, token: Option<string>, budget: nat): Result<seq<Version>>
    decreases budget
  {
    if budget == 0 then Err("GCS version listing exceeded its page bound")
    else
      var page := pager(q, token);
      if page.Err? then Err(page.error)
      else if page.value.next.None? then Ok(page.value.versions)
      else if page.value.next == token then Err("GCS version listing repeated a page cursor")
      else Prepend(page.value.versions, Listing(pager, q, page.value.next, budget - 1))
  }

  /** pages is the provider's whole answer: each page is the one its predecessor's
      cursor leads to, and the last has no cursor. */
  ghost predicate PageRun(pager: Pager, q: Query, token: Option<string>, pages: seq<Page>)
    decreases |pages|
  {
    && pages != [] && pager(q, token) == Ok(pages[0])
    && if |pages| == 1 then pages[0].next.None?
       else pages[0].next.Some? && pages[0].next != token && PageRun(pager, q, pages[0].next, pages[1..])
  }

  function Concat(pages: seq<Page>): seq<Version> {
    if pages == [] then [] else pages[0].versions + Concat(pages[1..])
  }

  lemma {:induction false} ListingFollowsRun(pager: Pager, q: Query, token: Option<string>, budget: nat,
                                             pages: seq<Page>)
    requires PageRun(pager, q, token, pages) && |pages| <= budget
    ensures Listing(pager, q, token, budget) == Ok(Concat(pages))
    decreases |pages|
  {
    if |pages| == 1 {
      assert pages[1..] == [];
      assert Concat(pages) == pages[0].versions;
    } else {
      ListingFollowsRun(pager, q, pages[0].next, budget - 1, pages[1..]);
    }
  }

  lemma {:induction false} RunBehindListing(pager: Pager, q: Query, token: Option<string>, budget: nat)
      returns (pages: seq<Page>)
    requires Listing(pager, q, token, budget).Ok?
    ensures PageRun(pager, q, token, pages) && |pages| <= budget
        && Listing(pager, q, token, budget).value == Concat(pages)
    decreases budget
  {
    var page := pager(q, token).value;
    if page.next.None? {
      pages := [page];
      assert pages[1..] == [];
    } else {
      var rest := RunBehindListing(pager, q, page.next, budget - 1);
      pages := [page] + rest;
      assert pages[1..] == rest;
    }
  }

  /** A listing succeeds exactly when the provider's page run exists and fits the
      bound, and then returns exactly the concatenation of its pages; a failed page, a
      cursor that leads to itself, or cursors that never end, give an error. */
  lemma ListingExact(pager: Pager, q: Query, budget: nat, versions: seq<Version>)
    ensures Listing(pager, q, None, budget) == Ok(versions)
            <==> exists pages :: PageRun(pager, q, None, pages) && |pages| <= budget && versions == Concat(pages)
  {
    if Listing(pager, q, None, budget) == Ok(versions) {
      var pages := RunBehindListing(pager, q, None, budget);
    }
    if pages :| PageRun(pager, q, None, pages) && |pages| <= budget && versions == Concat(pages) {
      ListingFollowsRun(pager, q, None, budget, pages);
    }
  }

  /** list_all_object_versions, and the loop over soft-deleted pages. */
  method ListAll(pager: Pager, q: Query, maxPages: nat) returns (result: Result<seq<Version>>)
    ensures result == Listing(pager, q, None, maxPages)
  {
    var versions: seq<Version> := [];
    var token: Option<string> := None;
    assert Listing(pager, q, None, maxPages).Ok? ==>
      [] + Listing(pager, q, None, maxPages).value == Listing(pager, q, None, maxPages).value;
    for k := 0 to maxPages
      invariant Listing(pager, q, None, maxPages) == Prepend(versions, Listing(pager, q, token, maxPages - k))
    {
      var page := pager(q, token);
      if page.Err? {
        return Err(page.error);
      }
      ghost var before := versions;
      versions := versions + page.value.versions;
      if page.value.next.None? {
        return Ok(versions);
      }
      if page.value.next == token {
        return Err("GCS version listing repeated a page cursor");
      }
      token := page.value.next;
      ghost var rest := Listing(pager, q, token, maxPages - k - 1);
      if rest.Ok? {
        assert before + (page.value.versions + rest.value) == versions + rest.value;
      }
    }
    return Err("GCS version listing exceeded its page bound");
  }

  // ---------------------------------------------------------------- contents

  ghost predicate Has(b: Bucket, name: Name, kind: Kind, generation: int) {
    exists i | 0 <= i < |Versions(b, name)| ::
      Versions(b, name)[i].generation == generation && Versions(b, name)[i].softDeleted == kind.SoftDeleted?
  }

  /** The provider lists what is there: every finished page run enumerates exactly
      the matching generations, in whatever order and split. */
  ghost predicate Faithful(pager: Pager) {
    forall q, pages | PageRun(pager, q, None, pages) ::
      forall v :: v in Concat(pages) <==> q.prefix <= v.name && Has(q.bucket, v.name, q.kind, v.generation)
  }

  lemma FaithfulListing(pager: Pager, q: Query, budget: nat)
    requires Faithful(pager) && Listing(pager, q, None, budget).Ok?
    ensures forall v :: v in Listing(pager, q, None, budget).value <==>
        q.prefix <= v.name && Has(q.bucket, v.name, q.kind, v.generation)
  {
    var pages := RunBehindListing(pager, q, None, budget);
  }

  lemma {:induction false} MarkHits(versions: seq<Object>, generation: int, time: Option<string>, bound: int, i: nat)
    requires OrderedVersions(versions, bound) && i < |versions|
    ensures
      |Mark(versions, generation, time)| == |versions|
    ensures
      var o := Mark(versions, generation, time)[i];
      o == if versions[i].generation == generation
        then versions[i].(live := false, softDeleted := true, hardDeleteTime := time) else versions[i]
  {
    MarkFacts(versions, generation, time);
    if versions[0].generation != generation && i > 0 {
      MarkHits(versions[1..], generation, time, bound, i - 1);
    }
  }

  /** Deleting a generation removes exactly it from the stored inventory of its name;
      with soft deletion it joins the soft-deleted inventory, otherwise it is gone. */
  lemma DeleteEffect(b: Bucket, name: Name, generation: int, g: int)
    requires Ordered(b)
    ensures
      var c := DeleteGeneration(b, name, generation);
      && (Has(c, name, Stored, g) <==> Has(b, name, Stored, g) && g != generation)
      && (Has(c, name, SoftDeleted, g) <==>
            if b.softDelete then Has(b, name, SoftDeleted, g) || (Has(b, name, Stored, g) && g == generation)
            else Has(b, name, SoftDeleted, g) && g != generation)
  {
    var c := DeleteGeneration(b, name, generation);
    if name in b.objects {
      if b.softDelete {
        SoftDeleteEffect(b, name, generation, g);
      } else {
        HardDeleteEffect(b, name, generation, g);
      }
    }
  }

  lemma SoftDeleteEffect(b: Bucket, name: Name, generation: int, g: int)
    requires Ordered(b) && name in b.objects && b.softDelete
    ensures
      var c := DeleteGeneration(b, name, generation);
      && (Has(c, name, Stored, g) <==> Has(b, name, Stored, g) && g != generation)
      && (Has(c, name, SoftDeleted, g) <==>
            Has(b, name, SoftDeleted, g) || (Has(b, name, Stored, g) && g == generation))
  {
    var versions, after := Versions(b, name), Versions(DeleteGeneration(b, name, generation), name);
    MarkFacts(versions, generation, b.hardDeleteTime);
    assert after == Mark(versions, generation, b.hardDeleteTime);
    forall i | 0 <= i < |versions|
      ensures after[i].generation == versions[i].generation
      ensures after[i].softDeleted <==> versions[i].softDeleted || versions[i].generation == generation
    {
      MarkHits(versions, generation, b.hardDeleteTime, b.nextGeneration, i);
    }
  }

  lemma HardDeleteEffect(b: Bucket, name: Name, generation: int, g: int)
    requires Ordered(b) && name in b.objects && !b.softDelete
    ensures
      var c := DeleteGeneration(b, name, generation);
      forall kind :: Has(c, name, kind, g) <==> Has(b, name, kind, g) && g != generation
  {
    var versions, after := Versions(b, name), Versions(DeleteGeneration(b, name, generation), name);
    WithoutMembers(versions, generation);
    assert after == Without(versions, generation);
    forall kind ensures Has(DeleteGeneration(b, name, generation), name, kind, g) <==>
      Has(b, name, kind, g) && g != generation {
      if i :| 0 <= i < |after| && after[i].generation == g && after[i].softDeleted == kind.SoftDeleted? {
        assert after[i] in versions;
      }
      if g != generation && Has(b, name, kind, g) {
        var i :| 0 <= i < |versions| && versions[i].generation == g && versions[i].softDeleted == kind.SoftDeleted?;
        assert versions[i] in after;
      }
    }
  }

  lemma EmptyInventories(b: Bucket, name: Name)
    requires forall kind, g :: !Has(b, name, kind, g)
    ensures Versions(b, name) == []
  {
    if Versions(b, name) != [] {
      var o := Versions(b, name)[0];
      assert Has(b, name, if o.softDeleted then SoftDeleted else Stored, o.generation);
    }
  }

  /** A generation is in one inventory only. */
  lemma KindsDisjoint(b: Bucket, name: Name, g: int)
    requires Ordered(b)
    ensures !(Has(b, name, Stored, g) && Has(b, name, SoftDeleted, g))
  {
  }

  // ---------------------------------------------------------------- deletion

  /** What may become of a delete call: it works, it fails before doing anything, or
      it works and the answer is lost. */
  datatype Fault = NoFault | Before | After

  class Provider {
    var bucket: Bucket
    var calls: nat
    const pager: Pager
    const faults: nat -> Fault

    constructor (bucket: Bucket, pager: Pager, faults: nat -> Fault)
      ensures this.bucket == bucket && this.pager == pager && this.faults == faults && calls == 0
    {
      this.bucket, this.pager, this.faults, this.calls := bucket, pager, faults, 0;
    }

    method DeleteObjectGeneration(name: Name, generation: int) returns (ok: bool)
      modifies this
      ensures calls == old(calls) + 1
      ensures ok <==> faults(old(calls)) == NoFault
      ensures bucket == old(bucket) || bucket == DeleteGeneration(old(bucket), name, generation)
      ensures ok ==> bucket == DeleteGeneration(old(bucket), name, generation)
    {
      var fault := faults(calls);
      calls := calls + 1;
      if fault != Before {
        bucket := DeleteGeneration(bucket, name, generation);
      }
      ok := fault == NoFault;
    }

    /** The first pass: delete each listed generation of the name, stopping at a failure. */
    method DeleteListed(name: Name, listed: seq<Version>) returns (ok: bool)
      requires Ordered(bucket)
      requires forall g | Has(bucket, name, Stored, g) :: Version(name, g) in listed
      requires forall v | v in listed && v.name == name :: Has(bucket, name, Stored, v.generation)
      modifies this
      ensures Ordered(bucket) && bucket.softDelete == old(bucket.softDelete)
      ensures forall n | n != name :: Versions(bucket, n) == Versions(old(bucket), n)
      ensures forall g :: Has(bucket, name, Stored, g) ==> Has(old(bucket), name, Stored, g)
      ensures forall g :: Has(bucket, name, SoftDeleted, g) <==>
                Has(old(bucket), name, SoftDeleted, g) ||
                (bucket.softDelete && Has(old(bucket), name, Stored, g) && !Has(bucket, name, Stored, g))
      ensures ok ==> forall g :: !Has(bucket, name, Stored, g)
      ensures (forall k :: faults(k) == NoFault) ==> ok
    {
      ghost var start := bucket;
      for i := 0 to |listed|
        invariant Ordered(bucket) && bucket.softDelete == start.softDelete
        invariant forall n | n != name :: Versions(bucket, n) == Versions(start, n)
        invariant forall g :: Has(bucket, name, Stored, g) ==>
            Has(start, name, Stored, g) && Version(name, g) in listed[i..]
        invariant forall g :: Has(bucket, name, SoftDeleted, g) <==>
                    Has(start, name, SoftDeleted, g) ||
                    (bucket.softDelete && Has(start, name, Stored, g) && !Has(bucket, name, Stored, g))
      {
        assert listed[i..] == [listed[i]] + listed[i + 1..];
        if listed[i].name == name {
          ghost var before := bucket;
          assert listed[i] in listed;
          ok := DeleteObjectGeneration(name, listed[i].generation);
          DeletePreserves(start, before, name, listed[i].generation);
          if !ok {
            return;
          }
        }
      }
      ok := true;
    }

    /** delete_all_object_generations. On success nothing of the name is left in any
        inventory; in every outcome other names are untouched and nothing new appears
        under the name, so a failed attempt can be retried. With no failing call and
        listings that end, it succeeds exactly when nothing of the name was or becomes
        retained by soft deletion. */
    method DeleteAllGenerations(name: Name, maxPages: nat) returns (ok: bool)
      requires Ordered(bucket) && Faithful(pager)
      modifies this
      ensures Ordered(bucket)
      ensures ok ==> Versions(bucket, name) == []
      ensures forall n | n != name :: Versions(bucket, n) == Versions(old(bucket), n)
      ensures forall kind, g | Has(bucket, name, kind, g) ::
                Has(old(bucket), name, Stored, g) || Has(old(bucket), name, SoftDeleted, g)
      ensures (forall k :: faults(k) == NoFault) && (forall q :: Listing(pager, q, None, maxPages).Ok?) ==>
                (ok <==> (forall g :: !Has(old(bucket), name, SoftDeleted, g))
                         && (old(bucket.softDelete) ==> Versions(old(bucket), name) == []))
    {
      var listed := ListAll(pager, Query(bucket, name, Stored), maxPages);
      if listed.Err? {
        return false;
      }
      FaithfulListing(pager, Query(bucket, name, Stored), maxPages);
      forall g | Has(bucket, name, Stored, g) ensures Version(name, g) in listed.value {
        assert Version(name, g).name == name;
      }
      ok := DeleteListed(name, listed.value);
      if !ok {
        return;
      }
      var remaining := ListAll(pager, Query(bucket, name, Stored), maxPages);
      if remaining.Err? {
        return false;
      }
      FaithfulListing(pager, Query(bucket, name, Stored), maxPages);
      if exists v | v in remaining.value :: v.name == name {
        return false;
      }
      var retained := ListAll(pager, Query(bucket, name, SoftDeleted), maxPages);
      if retained.Err? {
        return false;
      }
      FaithfulListing(pager, Query(bucket, name, SoftDeleted), maxPages);
      ok := !(exists v | v in retained.value :: v.name == name);
      DeletionOutcome(old(bucket), bucket, name, retained.value, ok);
    }
  }

  /** One delete of a stored generation, seen against the bucket the pass started from. */
  lemma DeletePreserves(start: Bucket, before: Bucket, name: Name, generation: int)
    requires Ordered(before) && start.softDelete == before.softDelete && Has(start, name, Stored, generation)
    requires Ordered(start)
    requires forall n | n != name :: Versions(before, n) == Versions(start, n)
    requires forall g :: Has(before, name, Stored, g) ==> Has(start, name, Stored, g)
    requires forall g :: Has(before, name, SoftDeleted, g) <==>
               Has(start, name, SoftDeleted, g)
                 || (before.softDelete && Has(start, name, Stored, g) && !Has(before, name, Stored, g))
    ensures
      var after := DeleteGeneration(before, name, generation);
      && Ordered(after) && after.softDelete == start.softDelete
      && (forall n | n != name :: Versions(after, n) == Versions(start, n))
      && (forall g :: Has(after, name, Stored, g) <==> Has(before, name, Stored, g) && g != generation)
      && (forall g :: Has(after, name, SoftDeleted, g) <==>
            Has(start, name, SoftDeleted, g)
              || (after.softDelete && Has(start, name, Stored, g) && !Has(after, name, Stored, g)))
  {
    var after := DeleteGeneration(before, name, generation);
    DeleteKeepsOrder(before, name, generation);
    forall g
      ensures Has(after, name, Stored, g) <==> Has(before, name, Stored, g) && g != generation
      ensures Has(after, name, SoftDeleted, g) <==>
            Has(start, name, SoftDeleted, g)
              || (after.softDelete && Has(start, name, Stored, g) && !Has(after, name, Stored, g))
    {
      DeleteEffect(before, name, generation, g);
      KindsDisjoint(start, name, g);
    }
  }

  /** With the stored inventory of the name empty, what the soft-deleted listing shows
      decides the outcome. */
  lemma DeletionOutcome(start: Bucket, end: Bucket, name: Name, retained: seq<Version>, ok: bool)
    requires forall v :: v in retained <==> name <= v.name && Has(end, v.name, SoftDeleted, v.generation)
    requires ok <==> !(exists v | v in retained :: v.name == name)
    requires forall g :: !Has(end, name, Stored, g)
    requires end.softDelete == start.softDelete
    requires forall g :: Has(end, name, SoftDeleted, g) <==>
               Has(start, name, SoftDeleted, g)
                 || (end.softDelete && Has(start, name, Stored, g) && !Has(end, name, Stored, g))
    ensures ok ==> Versions(end, name) == []
    ensures ok <==>
      (forall g :: !Has(start, name, SoftDeleted, g)) && (start.softDelete ==> Versions(start, name) == [])
  {
    if ok {
      forall kind, g ensures !Has(end, name, kind, g) {
        assert Version(name, g) in retained <==> Has(end, name, SoftDeleted, g);
      }
      EmptyInventories(end, name);
      if start.softDelete {
        forall kind, g ensures !Has(start, name, kind, g) {
          assert !Has(end, name, SoftDeleted, g);
        }
        EmptyInventories(start, name);
      }
    } else {
      var v :| v in retained && v.name == name;
      assert Has(end, name, SoftDeleted, v.generation);
    }
  }
}
