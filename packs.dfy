/** The pack operations: adding sessions, marking attendance, looking a client
    up and deleting one. Each operation of the data file reads the whole
    ledger, changes it in memory and writes the whole ledger back. */
module Packs {
  import opened Common
  import opened Dicts
  import opened Records

  /** Every client other than `name` is present in `after` exactly when it
      was in `before`, with the same record. */
  ghost predicate OthersUnchanged(before: Ledger, after: Ledger, name: string) {
    && (forall k :: k != name ==> (k in after.vals <==> k in before.vals))
    && (forall k :: k != name && k in before.vals ==> after.vals[k] == before.vals[k])
  }

  /** No client has a negative balance. */
  ghost predicate NonNegative(l: Ledger) {
    forall k :: k in l.vals ==> l.vals[k].sessions >= 0
  }

  /** An existing client's record after buying `count` more sessions: paid
      now, and the phone and notes replaced only by non-empty values. */
  function Replenished(rec: ClientRecord, count: int, phone: string, notes: string, now: Timestamp): ClientRecord {
    ClientRecord(
      rec.sessions + count,
      now,
      rec.lastAttendance,
      if phone != "" then phone else rec.phone,
      if notes != "" then notes else rec.notes)
  }

  /** The in-memory change made by `add_sessions_to_client`. */
  function AddSessions(l: Ledger, name: string, count: int, phone: string, notes: string, now: Timestamp): (r: Ledger)
    requires l.Valid()
    ensures r.Valid() && name in r.vals
    ensures r.keys == if name in l.vals then l.keys else l.keys + [name]
    ensures r.vals[name].sessions == (if name in l.vals then l.vals[name].sessions else 0) + count
    ensures r.vals[name].lastPaymentDate == now
    ensures r.vals[name].lastAttendance == if name in l.vals then l.vals[name].lastAttendance else None
    ensures r.vals[name].phone == if phone != "" then phone else if name in l.vals then l.vals[name].phone else ""
    ensures r.vals[name].notes == if notes != "" then notes else if name in l.vals then l.vals[name].notes else ""
    ensures OthersUnchanged(l, r, name)
  {
    if name in l.vals then
      Put(l, name, Replenished(l.vals[name], count, phone, notes, now))
    else
      Put(l, name, ClientRecord(count, now, None, phone, notes))
  }

  /** The in-memory change made by `mark_attendance`, or None when it refuses:
      the client is missing or has no session left. */
  function Attend(l: Ledger, name: string, now: Timestamp): (r: Option<Ledger>)
    requires l.Valid()
    ensures r.Some? <==> name in l.vals && l.vals[name].sessions > 0
    ensures r.Some? ==> r.value.Valid() && r.value.keys == l.keys && name in r.value.vals
    ensures r.Some? ==> r.value.vals[name].sessions == l.vals[name].sessions - 1 >= 0
    ensures r.Some? ==> r.value.vals[name].lastAttendance == Some(now)
    ensures r.Some? ==> r.value.vals[name].lastPaymentDate == l.vals[name].lastPaymentDate
    ensures r.Some? ==> r.value.vals[name].phone == l.vals[name].phone
    ensures r.Some? ==> r.value.vals[name].notes == l.vals[name].notes
    ensures r.Some? ==> OthersUnchanged(l, r.value, name)
  {
    if name in l.vals && l.vals[name].sessions > 0 then
      var rec := l.vals[name];
      Some(Put(l, name, rec.(sessions := rec.sessions - 1, lastAttendance := Some(now))))
    else
      None
  }

  // The data file after each operation that may write it.

  ghost function AfterAdd(doc: Document, name: string, count: int, phone: string, notes: string, now: Timestamp): Document
    requires doc.WellFormed()
  {
    Saved(AddSessions(Loaded(doc, now), name, count, phone, notes, now))
  }

  /** A refused attendance writes nothing: the file is left as it was. */
  ghost function AfterAttendance(doc: Document, name: string, now: Timestamp): Document
    requires doc.WellFormed()
  {
    match Attend(Loaded(doc, now), name, now)
    case None => doc
    case Some(l) => Saved(l)
  }

  /** Deleting a name that is not there writes nothing. */
  ghost function AfterDelete(doc: Document, name: string, now: Timestamp): Document
    requires doc.WellFormed()
  {
    var l := Loaded(doc, now);
    if name in l.vals then Saved(Remove(l, name)) else doc
  }

  /** No negative count in the file, in either stored shape. */
  ghost predicate DocNonNegative(doc: Document) {
    doc.Json? ==> forall k :: k in doc.entries.vals ==> StoredSessions(doc.entries.vals[k]) >= 0
  }

  ghost function StoredSessions(s: StoredRecord): int {
    match s
    case LegacyCount(n) => n
    case FullRecord(rec) => rec.sessions
  }

  lemma LoadedNonNegative(doc: Document, now: Timestamp)
    requires doc.WellFormed() && DocNonNegative(doc)
    ensures NonNegative(Loaded(doc, now))
  {
  }

  lemma SavedNonNegative(l: Ledger)
    requires l.Valid() && NonNegative(l)
    ensures DocNonNegative(Saved(l))
  {
  }

  /** Adding a non-negative count to a file without negative counts leaves
      none. */
  lemma AddKeepsNonNegative(doc: Document, name: string, count: int, phone: string, notes: string, now: Timestamp)
    requires doc.WellFormed() && DocNonNegative(doc) && count >= 0
    ensures DocNonNegative(AfterAdd(doc, name, count, phone, notes, now))
  {
    LoadedNonNegative(doc, now);
    SavedNonNegative(AddSessions(Loaded(doc, now), name, count, phone, notes, now));
  }

  /** The ledger file, as the single process sees it between operations. */
  class LedgerStore {
    var doc: Document

    ghost predicate Valid()
      reads this
    {
      doc.WellFormed()
    }

    constructor (initial: Document)
      requires initial.WellFormed()
      ensures Valid() && doc == initial
    {
      doc := initial;
    }

    /** `load_data` */
    method LoadData(now: Timestamp) returns (data: Ledger)
      requires Valid()
      ensures data == Loaded(doc, now)
    {
      match doc
      case Absent => data := Empty();
      case Malformed => data := Empty();
      case Json(entries) => data := ConvertToNewFormat(entries, now);
    }

    /** `save_data`: the whole ledger replaces the file. */
    method SaveData(data: Ledger)
      requires data.Valid()
      modifies this
      ensures Valid() && doc == Saved(data)
    {
      doc := Json(Persist(data));
    }

    /** `add_sessions_to_client`. The file is always written, even when it was
        missing or malformed before, and legacy counts are written back as full
        records paid at `now`. */
    method AddSessionsToClient(name: string, count: int, phone: string, notes: string, now: Timestamp)
      requires Valid()
      modifies this
      ensures Valid() && doc == AfterAdd(old(doc), name, count, phone, notes, now)
      ensures DocNonNegative(old(doc)) && count >= 0 ==> DocNonNegative(doc)
    {
      var data := LoadData(now);
      ghost var loaded := data;
      if name in data.vals {
        var rec := data.vals[name];
        rec := rec.(sessions := rec.sessions + count);
        rec := rec.(lastPaymentDate := now);
        if phone != "" {
          rec := rec.(phone := phone);
        }
        if notes != "" {
          rec := rec.(notes := notes);
        }
        assert rec == Replenished(loaded.vals[name], count, phone, notes, now);
        data := Put(data, name, rec);
      } else {
        data := Put(data, name, ClientRecord(count, now, None, phone, notes));
      }
      assert data == AddSessions(loaded, name, count, phone, notes, now);
      SaveData(data);
      if DocNonNegative(old(doc)) && count >= 0 {
        AddKeepsNonNegative(old(doc), name, count, phone, notes, now);
      }
    }

    /** `mark_attendance`: the new balance, or None (client missing or pack
        exhausted) with nothing written. */
    method MarkAttendance(name: string, now: Timestamp) returns (remaining: Option<int>)
      requires Valid()
      modifies this
      ensures Valid() && doc == AfterAttendance(old(doc), name, now)
      ensures remaining.Some? <==> name in Loaded(old(doc), now).vals && Loaded(old(doc), now).vals[name].sessions > 0
      ensures remaining.Some? ==> remaining.value == Loaded(old(doc), now).vals[name].sessions - 1 >= 0
      ensures remaining.None? ==> doc == old(doc)
      ensures DocNonNegative(old(doc)) ==> DocNonNegative(doc)
    {
      var data := LoadData(now);
      if name in data.vals && data.vals[name].sessions > 0 {
        ghost var loaded := data;
        var rec := data.vals[name];
        rec := rec.(sessions := rec.sessions - 1);
        rec := rec.(lastAttendance := Some(now));
        data := Put(data, name, rec);
        assert Attend(loaded, name, now) == Some(data);
        if DocNonNegative(old(doc)) {
          LoadedNonNegative(old(doc), now);
          SavedNonNegative(data);
        }
        SaveData(data);
        remaining := Some(data.vals[name].sessions);
      } else {
        remaining := None;
      }
    }

    /** `get_remaining_sessions` */
    method GetRemainingSessions(name: string, now: Timestamp) returns (remaining: Option<int>)
      requires Valid()
      ensures remaining.Some? <==> name in Loaded(doc, now).vals
      ensures remaining.Some? ==> remaining.value == Loaded(doc, now).vals[name].sessions
    {
      var data := LoadData(now);
      if name in data.vals {
        remaining := Some(data.vals[name].sessions);
      } else {
        remaining := None;
      }
    }

    /** `get_client_info` */
    method GetClientInfo(name: string, now: Timestamp) returns (info: Option<ClientRecord>)
      requires Valid()
      ensures info.Some? <==> name in Loaded(doc, now).vals
      ensures info.Some? ==> info.value == Loaded(doc, now).vals[name]
    {
      var data := LoadData(now);
      info := if name in data.vals then Some(data.vals[name]) else None;
    }

    /** `delete_client`: true exactly when the name was present; only then is
        the file written, without that client and with the others as loaded. */
    method DeleteClient(name: string, now: Timestamp) returns (deleted: bool)
      requires Valid()
      modifies this
      ensures Valid() && doc == AfterDelete(old(doc), name, now)
      ensures deleted <==> name in Loaded(old(doc), now).vals
      ensures deleted ==> name !in Loaded(doc, now).vals
      ensures deleted ==> OthersUnchanged(Loaded(old(doc), now), Loaded(doc, now), name)
      ensures !deleted ==> doc == old(doc)
      ensures DocNonNegative(old(doc)) ==> DocNonNegative(doc)
    {
      var data := LoadData(now);
      if name in data.vals {
        data := Remove(data, name);
        if DocNonNegative(old(doc)) {
          LoadedNonNegative(old(doc), now);
          SavedNonNegative(data);
        }
        SaveData(data);
        LoadAfterSave(data, now);
        deleted := true;
      } else {
        deleted := false;
      }
    }
  }

  /** One call into the ledger, with the clock reading it is made at. */
  datatype Op =
    | AddOp(name: string, count: int, phone: string, notes: string, at: Timestamp)
    | AttendOp(name: string, at: Timestamp)
    | DeleteOp(name: string, at: Timestamp)

  /** The ledger after one operation; a refused attendance leaves it as it was. */
  function Apply(l: Ledger, op: Op): (r: Ledger)
    requires l.Valid()
    ensures r.Valid()
  {
    match op
    case AddOp(name, count, phone, notes, at) => AddSessions(l, name, count, phone, notes, at)
    case AttendOp(name, at) => (match Attend(l, name, at) case None => l case Some(l') => l')
    case DeleteOp(name, _) => Remove(l, name)
  }

  /** The ledger after a sequence of operations, first to last. */
  function Run(l: Ledger, ops: seq<Op>): (r: Ledger)
    requires l.Valid()
    ensures r.Valid()
    decreases |ops|
  {
    if ops == [] then l else Run(Apply(l, ops[0]), ops[1..])
  }

  /** Callers only ever add a count that is not negative: 0 when a client is
      registered, a validated positive number otherwise. */
  ghost predicate AddsNonNegative(ops: seq<Op>) {
    forall i :: 0 <= i < |ops| && ops[i].AddOp? ==> ops[i].count >= 0
  }

  lemma ApplyKeepsNonNegative(l: Ledger, op: Op)
    requires l.Valid() && NonNegative(l)
    requires op.AddOp? ==> op.count >= 0
    ensures NonNegative(Apply(l, op))
  {
  }

  /** No sequence of additions, attendance marks and deletions drives a
      balance below zero. */
  lemma {:induction false} RunKeepsNonNegative(l: Ledger, ops: seq<Op>)
    requires l.Valid() && NonNegative(l) && AddsNonNegative(ops)
    ensures NonNegative(Run(l, ops))
    decreases |ops|
  {
    if ops != [] {
      ApplyKeepsNonNegative(l, ops[0]);
      assert AddsNonNegative(ops[1..]) by {
        forall i | 0 <= i < |ops[1..]| && ops[1..][i].AddOp? ensures ops[1..][i].count >= 0 {
          assert ops[1..][i] == ops[i + 1];
        }
      }
      RunKeepsNonNegative(Apply(l, ops[0]), ops[1..]);
    }
  }

  /** Registering a client with no pack yet gives a zero balance paid at `now`. */
  lemma RegisterNewClient(l: Ledger, name: string, now: Timestamp)
    requires l.Valid() && name !in l.vals
    ensures var r := AddSessions(l, name, 0, "", "", now);
      r.vals[name] == ClientRecord(0, now, None, "", "")
  {
  }

  /** From an empty ledger: three sessions bought, three attended, and the
      fourth attendance is refused with the balance still zero. */
  lemma ThreeSessionPack(t: Timestamp)
    ensures var l := Run(Empty(), [AddOp("Bob", 3, "", "", t), AttendOp("Bob", t), AttendOp("Bob", t), AttendOp("Bob", t)]);
      "Bob" in l.vals && l.vals["Bob"].sessions == 0 && Attend(l, "Bob", t) == None
  {
    var ops := [AddOp("Bob", 3, "", "", t), AttendOp("Bob", t), AttendOp("Bob", t), AttendOp("Bob", t)];
    var l0: Ledger := Empty();
    var l1 := AddSessions(l0, "Bob", 3, "", "", t);
    assert l1.vals["Bob"].sessions == 3;
    var l2 := Attend(l1, "Bob", t).value;
    var l3 := Attend(l2, "Bob", t).value;
    var l4 := Attend(l3, "Bob", t).value;
    assert l4.vals["Bob"].sessions == 0;
    assert Run(l4, ops[4..]) == l4;
    assert Run(l3, ops[3..]) == Run(l4, ops[4..]);
    assert Run(l2, ops[2..]) == Run(l3, ops[3..]);
    assert Run(l1, ops[1..]) == Run(l2, ops[2..]);
    assert Run(l0, ops) == Run(l1, ops[1..]);
  }
}
