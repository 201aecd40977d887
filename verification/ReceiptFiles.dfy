/** The two file operations every stage goes through, in the form the script has
    them: write once, and scan the directory for a stage's receipt. */
module ReceiptFiles {
  import opened Prelude
  import opened ImagePipeline

  class Files {
    var receipts: map<Receipt, bool>

    constructor ()
      ensures receipts == map[]
    {
      receipts := map[];
    }

    /** write_immutable_file on a receipt: an existing file is accepted only if it
        holds the same bytes, and no existing file is touched. */
    method WriteImmutable(r: Receipt, torn: bool) returns (accepted: bool)
      modifies this
      ensures forall q | q in old(receipts) :: q in receipts && receipts[q] == old(receipts)[q]
      ensures receipts.Keys == old(receipts).Keys + {r}
      ensures accepted ==> receipts[r]
      ensures !accepted ==> (r in old(receipts) && !old(receipts)[r]) || torn
      ensures forall s: State, next: Runner {:trigger WriteReceipt(s, r, torn, next)} |
                s.dir.receipts == old(receipts) :: WriteReceipt(s, r, torn, next).dir.receipts == receipts
      ensures forall s: State, next: Runner {:trigger WriteReceipt(s, r, torn, next)} |
                s.dir.receipts == old(receipts) && !next.Off? :: accepted <==>
                  WriteReceipt(s, r, torn, next).runner == next
    {
      if r in receipts {
        return receipts[r];
      }
      receipts := receipts[r := !torn];
      accepted := !torn;
    }
  }

  lemma {:induction false} DistinctSize(xs: seq<Receipt>, all: set<Receipt>)
    requires Distinct(xs) && forall r :: r in xs <==> r in all
    ensures |all| == |xs|
  {
    if xs == [] {
      assert all == {};
    } else {
      var last := |xs| - 1;
      DistinctSize(xs[..last], all - {xs[last]});
    }
  }

  lemma Summarizes(dir: Directory, stage: Stage, candidates: seq<Receipt>, found: Found)
    requires Distinct(candidates) && forall r :: r in candidates <==> Candidate(dir, stage, r)
    requires found == if |candidates| > 1 then Ambiguous else if candidates == [] then Nothing else One(candidates[0])
    ensures Finds(dir, stage, found)
  {
    var all := Candidates(dir, stage);
    assert forall r :: r in candidates <==> r in all;
    DistinctSize(candidates, all);
    if |candidates| == 1 {
      assert all == {candidates[0]};
    }
  }

  /** stage_receipt_candidates over a directory listing in any order: one pass that
      keeps what validates and refuses to choose between two. */
  method FindStageReceipt(dir: Directory, listing: seq<Receipt>, stage: Stage) returns (found: Found)
    requires Distinct(listing) && forall r :: r in listing <==> r in dir.receipts
    ensures Finds(dir, stage, found)
  {
    var candidates: seq<Receipt> := [];
    for i := 0 to |listing|
      invariant Distinct(candidates)
      invariant forall r :: r in candidates ==> r in listing[..i] && Candidate(dir, stage, r)
      invariant forall k | 0 <= k < i :: Candidate(dir, stage, listing[k]) ==> listing[k] in candidates
    {
      assert listing[i] !in listing[..i];
      assert listing[..i + 1] == listing[..i] + [listing[i]];
      if Candidate(dir, stage, listing[i]) {
        candidates := candidates + [listing[i]];
      }
    }
    found := if |candidates| > 1 then Ambiguous else if candidates == [] then Nothing else One(candidates[0]);
    Summarizes(dir, stage, candidates, found);
  }
}
