/**
  The drug-delivery trial record in its two shapes: the JSON object kept on
  the ledger under the record's key, and the row the dashboard holds in
  memory after hydration (`DrugDeliveryRecord` in App.tsx).
 */
module Records {
  import opened Wrappers

  /** The status strings the dashboard writes and compares against. */
  const PENDING := "pending"
  const OPTIMIZED := "optimized"

  /**
    The object serialized under `drug_delivery_<id>`. `status` and
    `simulationResults` may be missing from the stored JSON; `data` holds the
    opaque "FHE-..." string produced at submission.
   */
  datatype StoredRecord = StoredRecord(
    patientId: string,
    drugName: string,
    dosage: string,
    data: string,
    timestamp: int,
    status: Option<string>,
    simulationResults: Option<string>)

  /** One row of the dashboard's `records` state. */
  datatype DrugDeliveryRecord = DrugDeliveryRecord(
    id: string,
    patientId: string,
    drugName: string,
    dosage: string,
    encryptedData: string,
    timestamp: int,
    status: string,
    simulationResults: Option<string>)

  /**
    The creation form. The medical history is not stored as typed: it is
    serialized and base64-encoded into the record's `data` string.
   */
  datatype Form = Form(patientId: string, drugName: string, dosage: string, medicalHistory: string)

  /**
    `btoa` accepts only strings whose UTF-16 code units are at most U+00FF.
    `JSON.stringify` of the object built from the medical history adds only
    ASCII, and a character above U+FFFF is two code units above U+00FF, so
    the encoding succeeds exactly when every character of the medical
    history is at most U+00FF.
   */
  predicate Latin1(s: string)
  {
    forall i :: 0 <= i < |s| ==> s[i] as int <= 0xFF
  }

  /**
    `recordData.status || "pending"`: a missing status and the empty string
    are both falsy, so either one reads as pending.
   */
  function StatusOrPending(stored: Option<string>): (s: string)
    ensures s != ""
    ensures s == PENDING || (stored.Some? && s == stored.value)
    ensures stored.Some? && stored.value != "" ==> s == stored.value
  {
    match stored
    case None => PENDING
    case Some(v) => if v == "" then PENDING else v
  }

  /** Builds the in-memory row for index entry `id` from its stored object. */
  function Hydrate(id: string, s: StoredRecord): (r: DrugDeliveryRecord)
    ensures r.id == id && r.status != ""
  {
    DrugDeliveryRecord(id, s.patientId, s.drugName, s.dosage, s.data,
                       s.timestamp, StatusOrPending(s.status), s.simulationResults)
  }

  /** The object submitRecord stores for a new record. */
  function NewEntry(form: Form, encryptedData: string, now: int): (r: StoredRecord)
    ensures StatusOrPending(r.status) == PENDING && r.simulationResults.None?
    ensures r.data == encryptedData && r.timestamp == now
  {
    StoredRecord(form.patientId, form.drugName, form.dosage, encryptedData,
                 now, Some(PENDING), None)
  }

  /** The object runFheSimulation stores: every field kept, status and results replaced. */
  function Optimized(s: StoredRecord, results: string): (r: StoredRecord)
    ensures StatusOrPending(r.status) == OPTIMIZED
    ensures r.(status := s.status, simulationResults := s.simulationResults) == s
  {
    s.(status := Some(OPTIMIZED), simulationResults := Some(results))
  }

  /** A stored record is hydrated field by field; only a falsy status is replaced. */
  lemma HydrateKeepsFields(id: string, s: StoredRecord)
    ensures var r := Hydrate(id, s);
      && r.id == id && r.patientId == s.patientId && r.drugName == s.drugName
      && r.dosage == s.dosage && r.encryptedData == s.data && r.timestamp == s.timestamp
      && r.simulationResults == s.simulationResults
      && (r.status == PENDING <==> s.status.None? || s.status.value in {"", PENDING})
  {
  }

  /** A freshly submitted record hydrates as pending and without results. */
  lemma NewEntryHydratesPending(id: string, form: Form, encryptedData: string, now: int)
    ensures var r := Hydrate(id, NewEntry(form, encryptedData, now));
      && r.status == PENDING && r.simulationResults.None?
      && r.patientId == form.patientId && r.drugName == form.drugName && r.dosage == form.dosage
      && r.timestamp == now && r.encryptedData == encryptedData
  {
  }

  /** A simulated record hydrates as optimized with its results, whatever its previous status. */
  lemma OptimizedHydrates(id: string, s: StoredRecord, results: string)
    ensures var r := Hydrate(id, Optimized(s, results));
      && r.status == OPTIMIZED && r.simulationResults == Some(results)
      && r == Hydrate(id, s).(status := OPTIMIZED, simulationResults := Some(results))
  {
  }
}
