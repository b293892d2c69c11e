/**
  The on-chain key/value store as the dashboard sees it through
  `getData`, `setData` and `isAvailable`. Keys are typed: the one index key
  and one key per record id. Values are the decoded contents of the stored
  bytes; JSON and UTF-8 are not modelled, only what parsing can yield.
 */
module LedgerStore {
  import opened Records

  /** `drug_delivery_keys`, or `drug_delivery_<id>` for record `id`. */
  datatype Key = IndexKey | RecordKey(id: string)

  /**
    What `getData` returns, seen through `JSON.parse`: zero-length bytes (the
    value of a key never written), bytes the parser rejects, a JSON array of
    ids, or a JSON object holding a record.
   */
  datatype Bytes = Blank | Unparseable | IdList(ids: seq<string>) | Entry(rec: StoredRecord)

  const INDEX_KEY_NAME := "drug_delivery_keys"
  const RECORD_KEY_PREFIX := "drug_delivery_"

  /** The key string the contract is called with. */
  function KeyName(k: Key): string
  {
    match k
    case IndexKey => INDEX_KEY_NAME
    case RecordKey(id) => RECORD_KEY_PREFIX + id
  }

  /**
    A ledger: keys to stored values. No record key holds an id list; the
    dashboard never writes one there.
   */
  type Store = m: map<Key, Bytes> | forall k :: k in m && k.RecordKey? ==> !m[k].IdList?
    witness map[]

  /** `getData(key)`: a key never written reads as zero-length bytes. */
  function Read(m: Store, k: Key): (v: Bytes)
    ensures k.RecordKey? ==> !v.IdList?
    ensures k !in m ==> v.Blank?
  {
    if k in m then m[k] else Blank
  }

  /** Distinct record ids use distinct key strings. */
  lemma RecordKeyNamesInjective(a: string, b: string)
    requires KeyName(RecordKey(a)) == KeyName(RecordKey(b))
    ensures a == b
  {
    var n := |RECORD_KEY_PREFIX|;
    assert a == KeyName(RecordKey(a))[n..];
    assert b == KeyName(RecordKey(b))[n..];
  }

  /** A record key string equals the index key string only for the id "keys". */
  lemma RecordKeyNameIsIndexKeyName(id: string)
    ensures KeyName(RecordKey(id)) == KeyName(IndexKey) <==> id == "keys"
  {
    var n := |RECORD_KEY_PREFIX|;
    if KeyName(RecordKey(id)) == KeyName(IndexKey) {
      assert id == KeyName(RecordKey(id))[n..];
      assert INDEX_KEY_NAME[n..] == "keys";
    }
  }

  /**
    Ids made as `${Date.now()}-${random}` contain a dash, so the key of a
    generated id never coincides with the index key. Ids read back from the
    shared index carry no such guarantee.
   */
  lemma GeneratedIdKeyIsNotIndexKey(id: string)
    requires '-' in id
    ensures KeyName(RecordKey(id)) != KeyName(IndexKey)
  {
    RecordKeyNameIsIndexKeyName(id);
    assert '-' !in "keys";
  }

  /** The contract behind `getContractReadOnly` and `getContractWithSigner`. */
  class Ledger {
    var data: Store
    var available: bool

    constructor (available: bool)
      ensures data == map[] && this.available == available
    {
      data := map[];
      this.available := available;
    }

    /** `isAvailable()` */
    method IsAvailable() returns (b: bool)
      ensures b == available
    {
      b := available;
    }

    /** `getData(key)` */
    method GetData(k: Key) returns (v: Bytes)
      ensures v == Read(data, k)
    {
      v := Read(data, k);
    }

    /** `setData(key, bytes)`: an unconditional overwrite of one key. */
    method SetData(k: Key, v: Bytes)
      requires k.RecordKey? ==> !v.IdList?
      modifies this
      ensures data == old(data)[k := v] && available == old(available)
      ensures Read(data, k) == v
      ensures forall k' :: k' != k ==> Read(data, k') == Read(old(data), k')
    {
      data := data[k := v];
    }
  }
}
