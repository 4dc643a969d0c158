/** One synchronisation cycle (src/services/syncService.js): push the pending
    rows of `pigs` and `health_records`, pull the server's changes, and
    reconcile both into the local store. The HTTP exchange is an input. */
module SyncService {
  import opened Store

  /** What the single POST to /sync came back with. */
  datatype SyncResponse =
    | NotOk(status: int)
    | UnreadableBody
    | Ok(pigs: seq<(Id, Pig)>, healthRecords: seq<(Id, HealthRecord)>, timestamp: Option<string>)

  /** The body that was sent: every pending row and the stored watermark. */
  datatype SyncRequest = SyncRequest(
    pigs: map<Id, Pig>,
    healthRecords: map<Id, HealthRecord>,
    lastPulledAt: Option<string>)

  /** Offline: nothing attempted; a bad response: the error is rethrown. */
  datatype SyncOutcome = NotAttempted | Failed | Succeeded(count: nat)

  /** The pending rows of a table, as they are pushed. */
  function PendingRows<T>(t: Table<T>): (rows: map<Id, T>)
    ensures rows.Keys == PendingIds(t)
    ensures forall id :: id in rows ==> t[id].row == rows[id]
  {
    map id | id in PendingIds(t) :: t[id].row
  }

  /** Every row whose id is in `ids` becomes `synced`; nothing else changes. */
  function MarkSynced<T>(t: Table<T>, ids: set<Id>): Table<T>
  {
    map id | id in t :: if id in ids then t[id].(syncStatus := Synced) else t[id]
  }

  /** `bulkPut` of incoming rows with `syncStatus` forced to `synced`, in order. */
  function PutAll<T>(t: Table<T>, incoming: seq<(Id, T)>): Table<T>
    decreases |incoming|
  {
    if incoming == [] then t
    else PutAll(t[incoming[0].0 := Tracked(incoming[0].1, Synced)], incoming[1..])
  }

  function IncomingIds<T>(incoming: seq<(Id, T)>): set<Id>
  {
    set i | 0 <= i < |incoming| :: incoming[i].0
  }

  /** The table after a successful cycle: pushed rows marked, then incoming rows put. */
  function Reconciled<T>(t: Table<T>, incoming: seq<(Id, T)>): Table<T>
  {
    PutAll(MarkSynced(t, PendingIds(t)), incoming)
  }

  /** `getPendingCount`: pending pigs plus pending health records. */
  function PendingCount(pigs: Table<Pig>, health: Table<HealthRecord>): (n: nat)
    ensures n == 0 <==>
              (forall id :: id in pigs ==> pigs[id].syncStatus == Synced)
              && (forall id :: id in health ==> health[id].syncStatus == Synced)
  {
    if PendingIds(pigs) != {} then
      var id :| id in PendingIds(pigs);
      assert pigs[id].syncStatus == Pending;
      |PendingIds(pigs)| + |PendingIds(health)|
    else if PendingIds(health) != {} then
      var id :| id in PendingIds(health);
      assert health[id].syncStatus == Pending;
      |PendingIds(pigs)| + |PendingIds(health)|
    else
      |PendingIds(pigs)| + |PendingIds(health)|
  }

  /** The `modify({syncStatus: 'synced'})` over the pushed ids, one row at a time. */
  method MarkPushedSynced<T>(t: Table<T>, pushed: set<Id>) returns (r: Table<T>)
    ensures r == MarkSynced(t, pushed)
  {
    r := t;
    var rest := pushed;
    while rest != {}
      invariant rest <= pushed
      invariant r.Keys == t.Keys
      invariant forall id :: id in r ==> r[id] == if id in pushed - rest then t[id].(syncStatus := Synced) else t[id]
      decreases rest
    {
      var id :| id in rest;
      if id in r {
        r := r[id := r[id].(syncStatus := Synced)];
      }
      rest := rest - {id};
    }
  }

  /** The `bulkPut` of the incoming rows, each stored as `synced`. */
  method BulkPutSynced<T>(t: Table<T>, incoming: seq<(Id, T)>) returns (r: Table<T>)
    ensures r == PutAll(t, incoming)
  {
    r := t;
    var i := 0;
    while i < |incoming|
      invariant 0 <= i <= |incoming|
      invariant PutAll(r, incoming[i..]) == PutAll(t, incoming)
    {
      assert incoming[i..][0] == incoming[i] && incoming[i..][1..] == incoming[i + 1..];
      r := r[incoming[i].0 := Tracked(incoming[i].1, Synced)];
      i := i + 1;
    }
  }

  /** `sync()`: offline it returns at once; otherwise it always sends one request
      (also with nothing pending), and only a readable 2xx response changes the
      local tables and, when it carries a timestamp, the watermark. */
  method Sync(db: LocalDb, storage: KeyValueStorage, online: bool, response: SyncResponse)
    returns (request: Option<SyncRequest>, outcome: SyncOutcome)
    modifies db`pigs, db`healthRecords, storage`lastPulledAt
    ensures !online ==> request == None && outcome == NotAttempted
    ensures online ==> request == Some(SyncRequest(PendingRows(old(db.pigs)), PendingRows(old(db.healthRecords)), old(storage.lastPulledAt)))
    ensures outcome == NotAttempted || outcome == Failed ==>
              db.pigs == old(db.pigs) && db.healthRecords == old(db.healthRecords)
              && storage.lastPulledAt == old(storage.lastPulledAt)
    ensures online && !response.Ok? ==> outcome == Failed
    ensures online && response.Ok? ==>
              && outcome == Succeeded(|PendingIds(old(db.pigs))| + |PendingIds(old(db.healthRecords))|)
              && db.pigs == Reconciled(old(db.pigs), response.pigs)
              && db.healthRecords == Reconciled(old(db.healthRecords), response.healthRecords)
              && storage.lastPulledAt == (if Truthy(response.timestamp) then response.timestamp else old(storage.lastPulledAt))
  {
    if !online {
      return None, NotAttempted;
    }
    var pendingPigs := PendingIds(db.pigs);
    var pendingHealth := PendingIds(db.healthRecords);
    request := Some(SyncRequest(PendingRows(db.pigs), PendingRows(db.healthRecords), storage.lastPulledAt));
    if !response.Ok? {
      return request, Failed;
    }
    // The transaction over pigs and health_records.
    var pigs := MarkPushedSynced(db.pigs, pendingPigs);
    var health := MarkPushedSynced(db.healthRecords, pendingHealth);
    pigs := BulkPutSynced(pigs, response.pigs);
    health := BulkPutSynced(health, response.healthRecords);
    db.pigs, db.healthRecords := pigs, health;
    if Truthy(response.timestamp) {
      storage.lastPulledAt := response.timestamp;
    }
    outcome := Succeeded(|pendingPigs| + |pendingHealth|);
  }

  // ----- Properties of a successful reconciliation -----

  lemma IncomingIdsCons<T>(incoming: seq<(Id, T)>)
    requires incoming != []
    ensures IncomingIds(incoming) == {incoming[0].0} + IncomingIds(incoming[1..])
  {
    forall id | id in IncomingIds(incoming) ensures id in {incoming[0].0} + IncomingIds(incoming[1..]) {
      var i :| 0 <= i < |incoming| && incoming[i].0 == id;
      if i > 0 { assert incoming[1..][i - 1] == incoming[i]; }
    }
    forall id | id in IncomingIds(incoming[1..]) ensures id in IncomingIds(incoming) {
      var i :| 0 <= i < |incoming[1..]| && incoming[1..][i].0 == id;
      assert incoming[i + 1] == incoming[1..][i];
    }
  }

  lemma {:induction false} PutAllKeys<T>(t: Table<T>, incoming: seq<(Id, T)>)
    ensures PutAll(t, incoming).Keys == t.Keys + IncomingIds(incoming)
    decreases |incoming|
  {
    if incoming != [] {
      PutAllKeys(t[incoming[0].0 := Tracked(incoming[0].1, Synced)], incoming[1..]);
      IncomingIdsCons(incoming);
    }
  }

  /** A row the server did not send back keeps what it had before the put. */
  lemma {:induction false} PutAllKeepsOthers<T>(t: Table<T>, incoming: seq<(Id, T)>, id: Id)
    requires id !in IncomingIds(incoming)
    ensures id in PutAll(t, incoming) <==> id in t
    ensures id in t ==> PutAll(t, incoming)[id] == t[id]
    decreases |incoming|
  {
    if incoming != [] {
      IncomingIdsCons(incoming);
      PutAllKeepsOthers(t[incoming[0].0 := Tracked(incoming[0].1, Synced)], incoming[1..], id);
    }
  }

  /** The last incoming row for an id is what the table holds for it, as `synced`. */
  lemma {:induction false} PutAllLastWins<T>(t: Table<T>, incoming: seq<(Id, T)>, i: nat)
    requires i < |incoming|
    requires forall j :: i < j < |incoming| ==> incoming[j].0 != incoming[i].0
    ensures incoming[i].0 in PutAll(t, incoming)
    ensures PutAll(t, incoming)[incoming[i].0] == Tracked(incoming[i].1, Synced)
    decreases |incoming|
  {
    var t' := t[incoming[0].0 := Tracked(incoming[0].1, Synced)];
    if i == 0 {
      forall j | 0 <= j < |incoming[1..]| ensures incoming[1..][j].0 != incoming[0].0 {
        assert incoming[1..][j] == incoming[j + 1];
      }
      PutAllKeepsOthers(t', incoming[1..], incoming[0].0);
    } else {
      assert incoming[1..][i - 1] == incoming[i];
      PutAllLastWins(t', incoming[1..], i - 1);
    }
  }

  lemma {:induction false} PutAllNothingPending<T>(t: Table<T>, incoming: seq<(Id, T)>)
    requires PendingIds(t) == {}
    ensures PendingIds(PutAll(t, incoming)) == {}
    decreases |incoming|
  {
    if incoming != [] {
      var t' := t[incoming[0].0 := Tracked(incoming[0].1, Synced)];
      assert PendingIds(t') == {} by {
        forall id | id in t' ensures t'[id].syncStatus == Synced {
          if id != incoming[0].0 { assert id !in PendingIds(t); }
        }
      }
      PutAllNothingPending(t', incoming[1..]);
    }
  }

  /** After success every pushed row is `synced`, whatever the response says
      about it: either it kept its content, or the server's copy replaced it. */
  lemma PushedRowsSynced<T>(t: Table<T>, incoming: seq<(Id, T)>, id: Id)
    requires id in PendingIds(t)
    ensures id in Reconciled(t, incoming)
    ensures Reconciled(t, incoming)[id].syncStatus == Synced
    ensures id !in IncomingIds(incoming) ==> Reconciled(t, incoming)[id] == Tracked(t[id].row, Synced)
  {
    var m := MarkSynced(t, PendingIds(t));
    if id in IncomingIds(incoming) {
      var i := LastIndexOf(incoming, id);
      PutAllLastWins(m, incoming, i);
    } else {
      PutAllKeepsOthers(m, incoming, id);
    }
  }

  /** Every incoming row ends up stored, with the server's content, as `synced`;
      for a row that was also pushed the server's copy wins. */
  lemma IncomingRowsStored<T>(t: Table<T>, incoming: seq<(Id, T)>, i: nat)
    requires i < |incoming|
    requires forall j :: i < j < |incoming| ==> incoming[j].0 != incoming[i].0
    ensures incoming[i].0 in Reconciled(t, incoming)
    ensures Reconciled(t, incoming)[incoming[i].0] == Tracked(incoming[i].1, Synced)
  {
    PutAllLastWins(MarkSynced(t, PendingIds(t)), incoming, i);
  }

  /** A row that was neither pushed nor returned is exactly as before. */
  lemma UntouchedRowsUnchanged<T>(t: Table<T>, incoming: seq<(Id, T)>, id: Id)
    requires id !in PendingIds(t) && id !in IncomingIds(incoming)
    ensures id in Reconciled(t, incoming) <==> id in t
    ensures id in t ==> Reconciled(t, incoming)[id] == t[id]
  {
    PutAllKeepsOthers(MarkSynced(t, PendingIds(t)), incoming, id);
  }

  /** Reconciliation deletes nothing: the ids afterwards are the old ones plus the incoming ones. */
  lemma ReconciledKeys<T>(t: Table<T>, incoming: seq<(Id, T)>)
    ensures Reconciled(t, incoming).Keys == t.Keys + IncomingIds(incoming)
  {
    PutAllKeys(MarkSynced(t, PendingIds(t)), incoming);
  }

  /** With no write in between, nothing is pending after a successful cycle. */
  lemma NothingPendingAfterSync(pigs: Table<Pig>, health: Table<HealthRecord>,
                                inPigs: seq<(Id, Pig)>, inHealth: seq<(Id, HealthRecord)>)
    ensures PendingCount(Reconciled(pigs, inPigs), Reconciled(health, inHealth)) == 0
  {
    var mp := MarkSynced(pigs, PendingIds(pigs));
    assert PendingIds(mp) == {} by {
      forall id | id in mp ensures mp[id].syncStatus == Synced {
        if id !in PendingIds(pigs) { assert pigs[id].syncStatus == Synced; }
      }
    }
    PutAllNothingPending(mp, inPigs);
    var mh := MarkSynced(health, PendingIds(health));
    assert PendingIds(mh) == {} by {
      forall id | id in mh ensures mh[id].syncStatus == Synced {
        if id !in PendingIds(health) { assert health[id].syncStatus == Synced; }
      }
    }
    PutAllNothingPending(mh, inHealth);
  }

  /** Repeating a cycle whose pull brings nothing new leaves the table as it is:
      marking already-synced rows `synced` is a no-op. */
  lemma SecondEmptyCycleIsNoOp<T>(t: Table<T>, incoming: seq<(Id, T)>)
    ensures Reconciled(Reconciled(t, incoming), []) == Reconciled(t, incoming)
  {
    var r := Reconciled(t, incoming);
    var mp := MarkSynced(t, PendingIds(t));
    assert PendingIds(mp) == {} by {
      forall id | id in mp ensures mp[id].syncStatus == Synced {
        if id !in PendingIds(t) { assert t[id].syncStatus == Synced; }
      }
    }
    PutAllNothingPending(mp, incoming);
    assert PendingIds(r) == {};
    assert MarkSynced(r, {}) == r;
  }

  function LastIndexOf<T>(incoming: seq<(Id, T)>, id: Id): (i: nat)
    requires id in IncomingIds(incoming)
    ensures i < |incoming| && incoming[i].0 == id
    ensures forall j :: i < j < |incoming| ==> incoming[j].0 != id
    decreases |incoming|
  {
    if incoming[|incoming| - 1].0 == id then |incoming| - 1
    else
      var init := incoming[..|incoming| - 1];
      assert id in IncomingIds(init) by {
        var k :| 0 <= k < |incoming| && incoming[k].0 == id;
        assert init[k] == incoming[k];
      }
      LastIndexOf(init, id)
  }
}
