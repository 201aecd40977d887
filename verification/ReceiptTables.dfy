/** The account's lease tables as the enclave's database updates them, one
    committed transaction per method, each shown to be the store transition the
    protocol machine takes. */
module ReceiptTables {
  import opened Prelude
  import opened Json
  import opened RecordingLease
  import opened RecordingLeaseProofs

  /** Completing a lease also deletes settled receipts past the retention period. */
  predicate Stale(row: Row, now: int) {
    row.state != Pending && row.created + RETENTION_MS < now
  }

  function Pruned(rows: map<RequestId, Row>, now: int): map<RequestId, Row> {
    map r | r in rows && !Stale(rows[r], now) :: rows[r]
  }

  class Tables {
    var rows: map<RequestId, Row>
    var denials: map<RequestId, Denial>
    var active: Option<Lease>
    var offline: set<RequestId>
    var minutes: nat

    function Contents(): Store reads this {
      Store(rows, denials, active, offline, minutes)
    }

    constructor ()
      ensures Contents() == Initial(0).store
    {
      rows, denials, active, offline, minutes := map[], map[], None, {}, 0;
    }

    method Begin(r: RequestId, wanted: Option<LeaseId>, lease: Lease, now: int) returns (ok: bool)
      modifies this
      ensures ok == BeginTx(old(Contents()), r, wanted, lease, now).Some?
      ensures Contents() == if ok then BeginTx(old(Contents()), r, wanted, lease, now).value else old(Contents())
      ensures old(StoreOk(Contents())) && r !in old(denials) && ValidRequest(r, wanted) ==> StoreOk(Contents())
    {
      if r in rows || exists p | p in rows :: IsPending(rows, p) {
        return false;
      }
      rows := rows[r := Row(wanted, lease.id, lease.expires, Pending, None, now)];
      ok := true;
    }

    method Deny(r: RequestId, code: string, summary: Json) returns (ok: bool)
      modifies this
      ensures ok == DenyTx(old(Contents()), r, code, summary).Some?
      ensures Contents() == if ok then DenyTx(old(Contents()), r, code, summary).value else old(Contents())
      ensures old(StoreOk(Contents())) ==> StoreOk(Contents())
    {
      if !IsPending(rows, r) || r in denials {
        return false;
      }
      denials := denials[r := Denial(rows[r].requested, code, summary)];
      rows := rows - {r};
      ok := true;
    }

    method MarkConflict(r: RequestId)
      modifies this
      ensures Contents() == ConflictTx(old(Contents()), r)
      ensures old(StoreOk(Contents())) ==> StoreOk(Contents())
    {
      if IsPending(rows, r) {
        rows := rows[r := rows[r].(state := Conflicted)];
      }
    }

    /** The completion with its housekeeping: the returned lease is the active one,
        and what is deleted besides is exactly the settled receipts past retention. */
    method Complete(r: RequestId, retryNow: Option<int>, summary: Json, now: int) returns (lease: Option<Lease>)
      modifies this
      ensures lease.Some? == CompleteTx(old(Contents()), r, retryNow, summary).Some?
      ensures lease.None? ==> Contents() == old(Contents())
      ensures lease.Some? ==>
        var tx := CompleteTx(old(Contents()), r, retryNow, summary).value;
        lease == tx.active && Contents() == tx.(rows := Pruned(tx.rows, now))
    {
      if !IsPending(rows, r) {
        return None;
      }
      var row := rows[r];
      if active.Some? && active.value.id != row.issued && (retryNow.None? || active.value.expires > retryNow.value) {
        return None;
      }
      var expires := CompletedExpiry(row, active, retryNow);
      rows := rows[r := row.(expires := expires, state := Granted, summary := Some(summary))];
      active := Some(Lease(row.issued, expires));
      minutes := minutes + 1;
      DeleteStale(now);
      lease := active;
    }

    method DeleteStale(now: int)
      modifies `rows
      ensures rows == Pruned(old(rows), now)
    {
      var stale := set p | p in rows && Stale(rows[p], now);
      rows := rows - stale;
    }

    method RecordOffline(r: RequestId) returns (inserted: bool)
      modifies this
      ensures Contents() == OfflineTx(old(Contents()), r)
      ensures inserted <==> r !in old(offline)
      ensures old(StoreOk(Contents())) ==> StoreOk(Contents())
    {
      inserted := r !in offline;
      if inserted {
        offline := offline + {r};
        minutes := minutes + 1;
      }
    }
  }

  /** The deletion inside a completion is a run of the machine's pruning steps, so
      every theorem about runs covers it. */
  lemma {:induction false} PruningIsARun(enforce: bool, s: State) returns (run: seq<Action>)
    ensures forall a | a in run :: a.PruneReceipt?
    ensures CanRun(enforce, s, run)
    ensures Run(enforce, s, run) == s.(store := s.store.(rows := Pruned(s.store.rows, s.now)))
    decreases |s.store.rows|
  {
    if r :| r in s.store.rows && Stale(s.store.rows[r], s.now) {
      var t := Step(enforce, s, PruneReceipt(r));
      assert t.store.rows.Keys == s.store.rows.Keys - {r};
      assert |t.store.rows.Keys| < |s.store.rows.Keys|;
      var rest := PruningIsARun(enforce, t);
      assert Pruned(t.store.rows, t.now) == Pruned(s.store.rows, s.now);
      run := [PruneReceipt(r)] + rest;
      assert run[1..] == rest;
    } else {
      run := [];
      assert Pruned(s.store.rows, s.now) == s.store.rows;
    }
  }
}
