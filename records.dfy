/** The ledger's records and the document they are persisted in, with the
    upgrade of legacy records that every load applies. */
module Records {
  import opened Common
  import opened Dicts

  /** One client's pack: remaining sessions, when they last paid, when they
      last attended (absent until the first attendance), contact and notes. */
  datatype ClientRecord = ClientRecord(
    sessions: int,
    lastPaymentDate: Timestamp,
    lastAttendance: Option<Timestamp>,
    phone: string,
    notes: string)

  /** The whole ledger as the operations see it: client name to record. */
  type Ledger = Dict<ClientRecord>

  /** A value under a client's name in the document: either the old shape,
      a bare session count, or a full record object. */
  datatype StoredRecord = LegacyCount(count: int) | FullRecord(record: ClientRecord)

  /** The data file: missing, unreadable as JSON, or a JSON object. */
  datatype Document = Absent | Malformed | Json(entries: Dict<StoredRecord>) {
    ghost predicate WellFormed() {
      Json? ==> entries.Valid()
    }
  }

  /** A stored value as the new format: full records pass through, a bare count
      becomes a record paid for `now` with no contact data. */
  function Upgrade(s: StoredRecord, now: Timestamp): (r: ClientRecord)
    ensures s.FullRecord? ==> r == s.record
    ensures s.LegacyCount? ==> r.sessions == s.count && r.lastPaymentDate == now
    ensures s.LegacyCount? ==> r.lastAttendance == None && r.phone == "" && r.notes == ""
  {
    match s
    case FullRecord(rec) => rec
    case LegacyCount(n) => ClientRecord(n, now, None, "", "")
  }

  /** What `convert_to_new_format` returns, stated key by key. */
  function UpgradeAll(d: Dict<StoredRecord>, now: Timestamp): (r: Ledger)
    requires d.Valid()
    ensures r.Valid()
    ensures r.keys == d.keys
    ensures forall k :: k in d.vals ==> r.vals[k] == Upgrade(d.vals[k], now)
  {
    Dict(d.keys, map k | k in d.vals :: Upgrade(d.vals[k], now))
  }

  /** `convert_to_new_format`: builds the new dict one key at a time, in the
      document's key order. */
  method ConvertToNewFormat(data: Dict<StoredRecord>, now: Timestamp) returns (newData: Ledger)
    requires data.Valid()
    ensures newData == UpgradeAll(data, now)
  {
    newData := Empty();
    for i := 0 to |data.keys|
      invariant newData.Valid()
      invariant newData.keys == data.keys[..i]
      invariant forall k :: k in newData.vals ==> k in data.vals && newData.vals[k] == Upgrade(data.vals[k], now)
    {
      var name := data.keys[i];
      assert name !in data.keys[..i] by {
        forall j | 0 <= j < i ensures data.keys[j] != name { }
      }
      newData := Put(newData, name, Upgrade(data.vals[name], now));
      assert data.keys[..i + 1] == data.keys[..i] + [name];
    }
    assert data.keys[..|data.keys|] == data.keys;
  }

  /** The full-record document that `save_data` writes for a ledger. */
  function Persist(l: Ledger): (d: Dict<StoredRecord>)
    requires l.Valid()
    ensures d.Valid() && d.keys == l.keys
    ensures forall k :: k in l.vals ==> d.vals[k] == FullRecord(l.vals[k])
  {
    Dict(l.keys, map k | k in l.vals :: FullRecord(l.vals[k]))
  }

  function Saved(l: Ledger): (doc: Document)
    requires l.Valid()
    ensures doc.WellFormed() && doc.Json?
  {
    Json(Persist(l))
  }

  /** What `load_data` returns at time `now`: an empty ledger when the file is
      missing or is not JSON, otherwise the upgraded contents. */
  function Loaded(doc: Document, now: Timestamp): (l: Ledger)
    requires doc.WellFormed()
    ensures l.Valid()
    ensures !doc.Json? ==> l.vals == map[]
    ensures doc.Json? ==> l.keys == doc.entries.keys
  {
    match doc
    case Absent => Empty()
    case Malformed => Empty()
    case Json(entries) => UpgradeAll(entries, now)
  }

  /** A ledger that was saved loads back unchanged, whatever the clock says. */
  lemma LoadAfterSave(l: Ledger, now: Timestamp)
    requires l.Valid()
    ensures Loaded(Saved(l), now) == l
  {
    var back := Loaded(Saved(l), now);
    assert back.vals == l.vals;
  }

  /** Saving what was loaded and loading it again gives the same ledger: the
      legacy upgrade happens once, and a second conversion changes nothing. */
  lemma LoadSaveLoad(doc: Document, t1: Timestamp, t2: Timestamp)
    requires doc.WellFormed()
    ensures Loaded(Saved(Loaded(doc, t1)), t2) == Loaded(doc, t1)
  {
    LoadAfterSave(Loaded(doc, t1), t2);
  }

  /** Converting an already converted ledger is the identity. */
  lemma ConvertIdempotent(d: Dict<StoredRecord>, t1: Timestamp, t2: Timestamp)
    requires d.Valid()
    ensures UpgradeAll(Persist(UpgradeAll(d, t1)), t2) == UpgradeAll(d, t1)
  {
    var once := UpgradeAll(d, t1);
    var twice := UpgradeAll(Persist(once), t2);
    assert twice.vals == once.vals;
  }
}
