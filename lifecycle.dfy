/**
  The two ledger-writing operations, `submitRecord` and `runFheSimulation`,
  as functions from the environment and the ledger before to the outcome
  and the ledger after. The dashboard's methods are proved against them.
 */
module Lifecycle {
  import opened Wrappers
  import opened Records
  import opened LedgerStore
  import opened Hydration
  import opened Projections

  /**
    What the browser supplies: whether a wallet `provider` is connected,
    whether `getContractWithSigner` and `getContractReadOnly` return a
    contract, and how many `setData` transactions of this operation the user
    signs before rejecting one.
   */
  datatype Env = Env(provider: bool, signer: bool, reader: bool, approvals: nat)

  /** How an operation ends; each failure is a distinct message in the banner or alert. */
  datatype Failure =
    | WalletNotConnected   // "Please connect wallet first"
    | EncodingFailed       // `btoa` threw on a character above U+00FF
    | NoSigner             // "Failed to get contract with signer"
    | TransactionRejected  // the wallet prompt was declined
    | RecordNotFound       // "Record not found": zero-length bytes
    | MalformedRecord      // JSON.parse threw on the stored record
    | IndexNotAList        // the index parsed to something `push` is not defined on

  datatype Outcome = Done | Failed(failure: Failure)

  datatype Effect = Effect(outcome: Outcome, store: Store)

  /**
    `submitRecord`: encode the medical history, then write the new record
    as pending, read the index, append the id at its end without checking
    for duplicates, and write the index back. `encryptedData` is the
    "FHE-..." text the encoding yields when it succeeds. Two separate
    transactions: a failure between them leaves the record written and
    unlisted. Whatever the outcome, no key other than the two is touched,
    and the index changes only on success.
   */
  function Submit(env: Env, m: Store, id: string, form: Form, encryptedData: string, now: int): (e: Effect)
    ensures forall k :: k != IndexKey && k != RecordKey(id) ==> Read(e.store, k) == Read(m, k)
    ensures !e.outcome.Done? ==> Read(e.store, IndexKey) == Read(m, IndexKey)
  {
    if !env.provider then Effect(Failed(WalletNotConnected), m)
    else if !Latin1(form.medicalHistory) then Effect(Failed(EncodingFailed), m)
    else if !env.signer then Effect(Failed(NoSigner), m)
    else if env.approvals == 0 then Effect(Failed(TransactionRejected), m)
    else
      var written := m[RecordKey(id) := Entry(NewEntry(form, encryptedData, now))];
      match ParseIndex(Read(written, IndexKey))
      case None => Effect(Failed(IndexNotAList), written)
      case Some(keys) =>
        if env.approvals == 1 then Effect(Failed(TransactionRejected), written)
        else Effect(Done, written[IndexKey := IdList(keys + [id])])
  }

  /**
    `runFheSimulation`: load the stored object, fail if its bytes are empty
    or do not parse, and otherwise store it again with status optimized and
    the results attached. The prior status is not consulted. Only a record
    that parses is ever rewritten, and the index is never touched.
   */
  function Simulate(env: Env, m: Store, id: string, results: string): (e: Effect)
    ensures e.outcome.Done? ==> Read(m, RecordKey(id)).Entry?
    ensures !e.outcome.Done? ==> e.store == m
    ensures forall k :: k != RecordKey(id) ==> Read(e.store, k) == Read(m, k)
  {
    if !env.provider then Effect(Failed(WalletNotConnected), m)
    else if !env.signer then Effect(Failed(NoSigner), m)
    else
      var b := Read(m, RecordKey(id));
      if b.Blank? then Effect(Failed(RecordNotFound), m)
      else if b.Unparseable? then Effect(Failed(MalformedRecord), m)
      else if env.approvals == 0 then Effect(Failed(TransactionRejected), m)
      else Effect(Done, m[RecordKey(id) := Entry(Optimized(b.rec, results))])
  }

  /**
    submitRecord writes only its two keys: on success the record key holds
    the new pending object and the index key holds the previously listed
    ids (none, if the index was empty or unparseable) followed by `id`.
    Without a wallet, with a medical history the encoding rejects, without
    a signer or without a first signature nothing is written.
   */
  lemma SubmitWrites(env: Env, m: Store, id: string, form: Form, encryptedData: string, now: int)
    ensures var e := Submit(env, m, id, form, encryptedData, now);
      && (e.outcome.Done? <==>
            && env.provider && Latin1(form.medicalHistory) && env.signer
            && env.approvals >= 2 && !Read(m, IndexKey).Entry?)
      && (env.provider && !Latin1(form.medicalHistory) ==> e.outcome == Failed(EncodingFailed))
      && (!env.provider || !Latin1(form.medicalHistory) || !env.signer || env.approvals == 0 ==> e.store == m)
      && (e.outcome.Done? ==>
            && Read(e.store, RecordKey(id)) == Entry(NewEntry(form, encryptedData, now))
            && Read(e.store, IndexKey) == IdList(ParseIndex(Read(m, IndexKey)).value + [id])
            && forall k :: k != IndexKey && k != RecordKey(id) ==> Read(e.store, k) == Read(m, k))
  {
  }

  /**
    The index write does not de-duplicate: after a successful submission
    the id is listed once more than before.
   */
  lemma {:induction false} SubmitAppendsEvenIfListed(env: Env, m: Store, id: string, form: Form, encryptedData: string, now: int)
    requires Submit(env, m, id, form, encryptedData, now).outcome.Done?
    ensures var before := ParseIndex(Read(m, IndexKey)).value;
      var after := ParseIndex(Read(Submit(env, m, id, form, encryptedData, now).store, IndexKey)).value;
      && multiset(after)[id] == multiset(before)[id] + 1
      && after[..|before|] == before
  {
  }

  /**
    After a successful submission a load, if it succeeds, shows the new
    record: pending, without results, with the submitted fields.
   */
  lemma {:induction false} SubmitThenLoadShowsRecord(env: Env, m: Store, id: string, form: Form, encryptedData: string,
                                   now: int, current: seq<DrugDeliveryRecord>)
    requires Submit(env, m, id, form, encryptedData, now).outcome.Done?
    ensures var r := Hydrate(id, NewEntry(form, encryptedData, now));
      && r.status == PENDING && r.simulationResults.None?
      && r in Loaded(true, true, Submit(env, m, id, form, encryptedData, now).store, current)
  {
    var m' := Submit(env, m, id, form, encryptedData, now).store;
    var keys := ParseIndex(Read(m, IndexKey)).value + [id];
    assert ParseIndex(Read(m', IndexKey)) == Some(keys);
    assert LoadEntry(m', id) == Some(Hydrate(id, NewEntry(form, encryptedData, now)));
    LoadedFromIndex(true, m', current, keys);
  }

  /**
    When the index write is rejected after the record write, the record is
    stored but, unless its id was already listed, no load shows it.
   */
  lemma OrphanedRecordIsInvisible(env: Env, m: Store, id: string, form: Form, encryptedData: string,
                                  now: int, current: seq<DrugDeliveryRecord>, ids: seq<string>)
    requires env.provider && Latin1(form.medicalHistory) && env.signer && env.approvals == 1
    requires ParseIndex(Read(m, IndexKey)) == Some(ids) && id !in ids
    ensures var e := Submit(env, m, id, form, encryptedData, now);
      && e.outcome == Failed(TransactionRejected)
      && Read(e.store, RecordKey(id)) == Entry(NewEntry(form, encryptedData, now))
      && forall r :: r in Loaded(true, true, e.store, current) ==> r.id != id
  {
    var m' := Submit(env, m, id, form, encryptedData, now).store;
    assert Read(m', IndexKey) == Read(m, IndexKey);
    LoadedFromIndex(true, m', current, ids);
  }

  /**
    runFheSimulation succeeds exactly when a wallet and a signer are present,
    the stored bytes parse to a record and the user signs, whatever the
    record's status. On success only the record's key changes, to the same
    object with status optimized and the results; otherwise nothing changes.
   */
  lemma SimulateWrites(env: Env, m: Store, id: string, results: string)
    ensures var e := Simulate(env, m, id, results);
      && (e.outcome.Done? <==>
            env.provider && env.signer && Read(m, RecordKey(id)).Entry? && env.approvals >= 1)
      && (Read(m, RecordKey(id)).Blank? && env.provider && env.signer ==> e.outcome == Failed(RecordNotFound))
      && (!e.outcome.Done? ==> e.store == m)
      && (e.outcome.Done? ==>
            && Read(e.store, RecordKey(id)) == Entry(Optimized(Read(m, RecordKey(id)).rec, results))
            && Read(e.store, IndexKey) == Read(m, IndexKey)
            && forall k :: k != RecordKey(id) ==> Read(e.store, k) == Read(m, k))
  {
  }

  /**
    No status guard: a record that is already optimized is simulated again
    and its results replaced.
   */
  lemma SimulateRerunsOptimized(env: Env, m: Store, id: string, s: StoredRecord, results: string)
    requires env.provider && env.signer && env.approvals >= 1
    requires Read(m, RecordKey(id)) == Entry(s) && s.status == Some(OPTIMIZED)
    ensures Simulate(env, m, id, results).outcome == Done
    ensures Read(Simulate(env, m, id, results).store, RecordKey(id)).rec.simulationResults == Some(results)
  {
  }

  /**
    After a successful simulation a successful load shows the record as
    optimized with the new results and its other fields as before, every
    other row as it was, and as many rows as before.
   */
  lemma {:induction false} SimulateThenLoad(env: Env, m: Store, id: string, results: string,
                           current: seq<DrugDeliveryRecord>, ids: seq<string>)
    requires Simulate(env, m, id, results).outcome.Done?
    requires ParseIndex(Read(m, IndexKey)) == Some(ids)
    ensures var before := Loaded(true, true, m, current);
      var after := Loaded(true, true, Simulate(env, m, id, results).store, current);
      && (id in ids ==> exists r :: r in after && r.id == id)
      && (forall r :: r in after && r.id == id ==>
            r == LoadEntry(m, id).value.(status := OPTIMIZED, simulationResults := Some(results)))
      && (forall r :: r in after && r.id != id ==> r in before)
      && (forall r :: r in before && r.id != id ==> r in after)
      && |after| == |before|
  {
    var m' := Simulate(env, m, id, results).store;
    var s := Read(m, RecordKey(id)).rec;
    assert ParseIndex(Read(m', IndexKey)) == Some(ids);
    LoadedFromIndex(true, m', current, ids);
    assert LoadEntry(m', id) == Some(Hydrate(id, Optimized(s, results)));
    OptimizedHydrates(id, s, results);
    OtherRowsUnchanged(m, m', id, current, ids);
  }

  /**
    When one record key is rewritten with an object that still parses and
    the index is untouched, a load shows the same rows for every other id,
    and as many rows.
   */
  lemma OtherRowsUnchanged(m: Store, m': Store, id: string, current: seq<DrugDeliveryRecord>, ids: seq<string>)
    requires ParseIndex(Read(m, IndexKey)) == Some(ids) && Read(m', IndexKey) == Read(m, IndexKey)
    requires forall k :: k != RecordKey(id) ==> Read(m', k) == Read(m, k)
    requires LoadEntry(m, id).Some? == LoadEntry(m', id).Some?
    ensures var before := Loaded(true, true, m, current);
      var after := Loaded(true, true, m', current);
      && (forall r :: r in after && r.id != id ==> r in before)
      && (forall r :: r in before && r.id != id ==> r in after)
      && |after| == |before|
  {
    LoadedFromIndex(true, m', current, ids);
    LoadedFromIndex(true, m, current, ids);
    forall r | r in Loaded(true, true, m', current) && r.id != id
      ensures r in Loaded(true, true, m, current)
    {
      assert LoadEntry(m, r.id) == LoadEntry(m', r.id);
    }
    forall r | r in Loaded(true, true, m, current) && r.id != id
      ensures r in Loaded(true, true, m', current)
    {
      assert LoadEntry(m, r.id) == LoadEntry(m', r.id);
    }
    forall x | x in ids ensures LoadEntry(m, x).Some? == LoadEntry(m', x).Some? {
      if x != id { assert Read(m', RecordKey(x)) == Read(m, RecordKey(x)); }
    }
    CollectSameLength(ids, m, m');
  }

  /**
    After a successful simulation and reload, the record listed in the index
    counts as optimized and its details view opens on the results (which,
    being JSON text of an object, are never empty).
   */
  lemma SimulateThenDetails(env: Env, m: Store, id: string, results: string,
                            current: seq<DrugDeliveryRecord>, ids: seq<string>)
    requires Simulate(env, m, id, results).outcome.Done?
    requires ParseIndex(Read(m, IndexKey)) == Some(ids) && id in ids
    requires results != ""
    ensures var after := Loaded(true, true, Simulate(env, m, id, results).store, current);
      && CountStatus(after, OPTIMIZED) > 0
      && forall r :: r in after && r.id == id ==> SimulationDetails(r) == Some(results)
  {
    var after := Loaded(true, true, Simulate(env, m, id, results).store, current);
    SimulateThenLoad(env, m, id, results, current, ids);
    CountStatusPositive(after, OPTIMIZED);
  }

  /** A record just submitted is pending and has no details to show. */
  lemma SubmittedHasNoDetails(id: string, form: Form, encryptedData: string, now: int)
    ensures SimulationDetails(Hydrate(id, NewEntry(form, encryptedData, now))).None?
  {
  }
}
