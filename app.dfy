/**
  The dashboard component's record state and the three operations that
  touch the ledger. React rendering, the notification banner and its
  timers are not part of this model.
 */
module Dashboard {
  import opened Wrappers
  import opened Records
  import opened LedgerStore
  import opened Hydration
  import opened Lifecycle

  /**
    The loop of `loadRecords` over the listed keys: read each key, keep the
    rows that parse, in index order.
   */
  method CollectRecords(ledger: Ledger, keys: seq<string>) returns (list: seq<DrugDeliveryRecord>)
    ensures list == Collect(keys, ledger.data)
  {
    list := [];
    var i := 0;
    while i < |keys|
      invariant 0 <= i <= |keys|
      invariant list == Collect(keys[..i], ledger.data)
    {
      var key := keys[i];
      var recordBytes := ledger.GetData(RecordKey(key));
      var entry := ParseEntry(key, recordBytes);
      if entry.Some? {
        list := list + [entry.value];
      }
      assert keys[..i + 1][..i] == keys[..i];
      i := i + 1;
    }
    assert keys[..i] == keys;
  }

  class App {
    /** The `records` state: the last successful hydration. */
    var records: seq<DrugDeliveryRecord>

    /** The rows on screen are always newest first. */
    ghost predicate Valid()
      reads this
    {
      NewestFirst(records)
    }

    constructor ()
      ensures Valid() && records == []
    {
      records := [];
    }

    /**
      `loadRecords`, with `reader` telling whether `getContractReadOnly`
      returned a contract.
     */
    method LoadRecords(reader: bool, ledger: Ledger)
      requires Valid()
      modifies this
      ensures Valid()
      ensures records == Loaded(reader, ledger.available, ledger.data, old(records))
    {
      if !reader {
        return;
      }
      var isAvailable := ledger.IsAvailable();
      if !isAvailable {
        return;
      }
      var keysBytes := ledger.GetData(IndexKey);
      var keys := ParseIndex(keysBytes);
      if keys.None? {
        // iterating a JSON object throws; the outer catch leaves `records` alone
        return;
      }
      var list := CollectRecords(ledger, keys.value);
      SortNewestFirstSortsAndPermutes(list);
      records := SortNewestFirst(list);
    }

    /**
      `submitRecord`, with the generated id, the clock's seconds and the
      encoded medical history taken as parameters; whether the encoding
      throws is decided by the form's medical history. After success the
      records are reloaded; after a failure they are left alone.
     */
    method SubmitRecord(env: Env, ledger: Ledger, form: Form, encryptedData: string,
                        recordId: string, now: int) returns (outcome: Outcome)
      requires Valid()
      modifies this, ledger
      ensures Valid()
      ensures ledger.available == old(ledger.available)
      ensures Effect(outcome, ledger.data)
              == Submit(env, old(ledger.data), recordId, form, encryptedData, now)
      ensures records == if outcome.Done?
                         then Loaded(env.reader, ledger.available, ledger.data, old(records))
                         else old(records)
    {
      if !env.provider {
        return Failed(WalletNotConnected);
      }
      if !Latin1(form.medicalHistory) {
        return Failed(EncodingFailed);
      }
      if !env.signer {
        return Failed(NoSigner);
      }
      var approvals := env.approvals;
      if approvals == 0 {
        return Failed(TransactionRejected);
      }
      ledger.SetData(RecordKey(recordId), Entry(NewEntry(form, encryptedData, now)));
      approvals := approvals - 1;
      var keysBytes := ledger.GetData(IndexKey);
      var keys := ParseIndex(keysBytes);
      if keys.None? {
        return Failed(IndexNotAList);
      }
      if approvals == 0 {
        return Failed(TransactionRejected);
      }
      ledger.SetData(IndexKey, IdList(keys.value + [recordId]));
      LoadRecords(env.reader, ledger);
      return Done;
    }

    /**
      `runFheSimulation`, with the randomized results taken as an opaque
      string. No check of the record's current status is made.
     */
    method RunFheSimulation(env: Env, ledger: Ledger, recordId: string, results: string)
      returns (outcome: Outcome)
      requires Valid()
      modifies this, ledger
      ensures Valid()
      ensures ledger.available == old(ledger.available)
      ensures Effect(outcome, ledger.data) == Simulate(env, old(ledger.data), recordId, results)
      ensures records == if outcome.Done?
                         then Loaded(env.reader, ledger.available, ledger.data, old(records))
                         else old(records)
    {
      if !env.provider {
        return Failed(WalletNotConnected);
      }
      if !env.signer {
        return Failed(NoSigner);
      }
      var recordBytes := ledger.GetData(RecordKey(recordId));
      if recordBytes.Blank? {
        return Failed(RecordNotFound);
      }
      if recordBytes.Unparseable? {
        return Failed(MalformedRecord);
      }
      if env.approvals == 0 {
        return Failed(TransactionRejected);
      }
      ledger.SetData(RecordKey(recordId), Entry(Optimized(recordBytes.rec, results)));
      LoadRecords(env.reader, ledger);
      return Done;
    }
  }
}
