/** The notification policy: which clients the daily reminder lists, and the
    counts and lists of the monthly report, computed from one loaded ledger.
    Delivery is outside the model; it is an input saying whether the message
    reached the administrator. */
module Notifications {
  import opened Common
  import opened Dicts
  import opened Records
  import opened Packs

  /** Clients are reminded when exactly this many sessions are left. */
  const ReminderThreshold: int := 1

  /** A client counts as new when they paid within this many days. */
  const NewClientDays: int := 30

  /** The names among `keys`, in that order, whose record satisfies `p`. */
  function Select(keys: seq<string>, vals: map<string, ClientRecord>, p: ClientRecord -> bool): (r: seq<string>)
    requires forall k :: k in keys ==> k in vals
    ensures forall n :: n in r <==> n in keys && p(vals[n])
    ensures |r| <= |keys|
    ensures Distinct(keys) ==> Distinct(r)
  {
    if keys == [] then []
    else
      var init, last := keys[..|keys| - 1], keys[|keys| - 1];
      assert keys == init + [last];
      var rest := Select(init, vals, p);
      assert Distinct(keys) ==> Distinct(init) && last !in init by {
        if Distinct(keys) {
          forall i | 0 <= i < |init| ensures init[i] != last { assert init[i] == keys[i]; }
        }
      }
      if p(vals[last]) then rest + [last] else rest
  }

  /** A selection lists its names in the ledger's own order. */
  lemma {:induction false} SelectKeepsOrder(keys: seq<string>, vals: map<string, ClientRecord>, p: ClientRecord -> bool)
    requires forall k :: k in keys ==> k in vals
    ensures forall i, j :: 0 <= i < j < |Select(keys, vals, p)| ==>
      Before(keys, Select(keys, vals, p)[i], Select(keys, vals, p)[j])
  {
    if keys != [] {
      var init, last := keys[..|keys| - 1], keys[|keys| - 1];
      assert keys == init + [last];
      var rest := Select(init, vals, p);
      SelectKeepsOrder(init, vals, p);
      var r := Select(keys, vals, p);
      forall i, j | 0 <= i < j < |r| ensures Before(keys, r[i], r[j]) {
        if j < |rest| {
          assert r[i] == rest[i] && r[j] == rest[j];
          assert forall a, b :: 0 <= a < b < |rest| ==> Before(init, rest[a], rest[b]);
          assert Before(init, rest[i], rest[j]);
          var i', j' :| 0 <= i' < j' < |init| && init[i'] == rest[i] && init[j'] == rest[j];
          assert keys[i'] == r[i] && keys[j'] == r[j];
        } else {
          assert r[j] == last && r[i] == rest[i];
          assert rest[i] in init;
          var i' :| 0 <= i' < |init| && init[i'] == rest[i];
          assert keys[i'] == r[i] && keys[|keys| - 1] == r[j];
        }
      }
    }
  }

  /** Selecting over one more key appends that key iff it passes. */
  lemma SelectSnoc(keys: seq<string>, k: string, vals: map<string, ClientRecord>, p: ClientRecord -> bool)
    requires forall x :: x in keys ==> x in vals
    requires k in vals
    ensures Select(keys + [k], vals, p) == if p(vals[k]) then Select(keys, vals, p) + [k] else Select(keys, vals, p)
  {
    assert (keys + [k])[..|keys|] == keys;
  }

  /** The loop of `send_reminders` and `send_monthly_report`: walk the ledger
      in order and collect the names whose record satisfies `p`. */
  method ClientsWhere(data: Ledger, p: ClientRecord -> bool) returns (names: seq<string>)
    requires data.Valid()
    ensures names == Select(data.keys, data.vals, p)
  {
    names := [];
    for i := 0 to |data.keys|
      invariant names == Select(data.keys[..i], data.vals, p)
    {
      var name := data.keys[i];
      assert data.keys[..i + 1] == data.keys[..i] + [name];
      SelectSnoc(data.keys[..i], name, data.vals, p);
      if p(data.vals[name]) {
        names := names + [name];
      }
    }
    assert data.keys[..|data.keys|] == data.keys;
  }

  function AtThreshold(r: ClientRecord): bool { r.sessions == ReminderThreshold }

  function NoSessionsLeft(r: ClientRecord): bool { r.sessions == 0 }

  /** Clients with exactly one session left, in ledger order. */
  function ThresholdClients(l: Ledger): (names: seq<string>)
    requires l.Valid()
    ensures forall n :: n in names <==> n in l.vals && l.vals[n].sessions == ReminderThreshold
    ensures Distinct(names)
  {
    Select(l.keys, l.vals, AtThreshold)
  }

  /** Clients with no session left, in ledger order. */
  function ZeroClients(l: Ledger): (names: seq<string>)
    requires l.Valid()
    ensures forall n :: n in names <==> n in l.vals && l.vals[n].sessions == 0
    ensures Distinct(names)
  {
    Select(l.keys, l.vals, NoSessionsLeft)
  }

  /** Registering a name that is already in the ledger keeps its balance but
      dates its last payment to now, so it is listed again as a new client. */
  lemma ReRegisteredIsNew(l: Ledger, name: string, now: Timestamp)
    requires l.Valid() && name in l.vals
    ensures var r := AddSessions(l, name, 0, "", "", now);
      && r.vals[name].sessions == l.vals[name].sessions
      && name in NewClients(r, now)
  {
  }

  /** The first instant that still counts as "within the last month". */
  function MonthAgo(now: Timestamp): Timestamp {
    now - NewClientDays * SecondsPerDay
  }

  /** Clients whose last payment is no older than thirty days, in ledger order. */
  function NewClients(l: Ledger, now: Timestamp): (names: seq<string>)
    requires l.Valid()
    ensures forall n :: n in names <==> n in l.vals && l.vals[n].lastPaymentDate >= MonthAgo(now)
    ensures Distinct(names)
  {
    Select(l.keys, l.vals, (r: ClientRecord) => r.lastPaymentDate >= MonthAgo(now))
  }

  /** The sum of the balances of the listed clients. */
  function SumSessions(keys: seq<string>, vals: map<string, ClientRecord>): int
    requires forall k :: k in keys ==> k in vals
  {
    if keys == [] then 0
    else SumSessions(keys[..|keys| - 1], vals) + vals[keys[|keys| - 1]].sessions
  }

  /** `sum(client_data['sessions'] for client_data in data.values())` */
  function TotalSessions(l: Ledger): int
    requires l.Valid()
  {
    SumSessions(l.keys, l.vals)
  }

  /** When the balances are not negative, neither is their sum, and each
      client at the threshold contributes its one session to it. */
  lemma {:induction false} SumCoversThreshold(keys: seq<string>, vals: map<string, ClientRecord>)
    requires forall k :: k in keys ==> k in vals && vals[k].sessions >= 0
    ensures SumSessions(keys, vals) >= |Select(keys, vals, AtThreshold)| * ReminderThreshold
  {
    if keys != [] {
      SumCoversThreshold(keys[..|keys| - 1], vals);
    }
  }

  lemma TotalCoversThreshold(l: Ledger)
    requires l.Valid() && NonNegative(l)
    ensures TotalSessions(l) >= |ThresholdClients(l)| >= 0
  {
    SumCoversThreshold(l.keys, l.vals);
  }

  /** Changing records of clients that are not listed does not change the sum. */
  lemma {:induction false} SumUnaffected(keys: seq<string>, vals: map<string, ClientRecord>, vals': map<string, ClientRecord>)
    requires forall k :: k in keys ==> k in vals && k in vals' && vals'[k] == vals[k]
    ensures SumSessions(keys, vals') == SumSessions(keys, vals)
  {
    if keys != [] {
      SumUnaffected(keys[..|keys| - 1], vals, vals');
    }
  }

  /** Replacing one listed client's record changes the sum by the difference. */
  lemma {:induction false} SumUpdate(keys: seq<string>, vals: map<string, ClientRecord>, vals': map<string, ClientRecord>, k: string)
    requires forall x :: x in keys ==> x in vals && x in vals'
    requires forall x :: x in keys && x != k ==> vals'[x] == vals[x]
    requires Distinct(keys) && k in keys
    ensures SumSessions(keys, vals') == SumSessions(keys, vals) - vals[k].sessions + vals'[k].sessions
  {
    var init, last := keys[..|keys| - 1], keys[|keys| - 1];
    assert keys == init + [last];
    assert Distinct(init) && last !in init by {
      forall i | 0 <= i < |init| ensures init[i] != last { assert init[i] == keys[i]; }
    }
    if last == k {
      SumUnaffected(init, vals, vals');
    } else {
      SumUpdate(init, vals, vals', k);
    }
  }

  /** Dropping one listed client takes its balance out of the sum. */
  lemma {:induction false} SumWithout(keys: seq<string>, vals: map<string, ClientRecord>, k: string)
    requires forall x :: x in keys ==> x in vals
    requires Distinct(keys) && k in keys
    ensures SumSessions(Without(keys, k), vals - {k}) == SumSessions(keys, vals) - vals[k].sessions
  {
    var init, last := keys[..|keys| - 1], keys[|keys| - 1];
    assert keys == init + [last];
    assert Distinct(init) && last !in init by {
      forall i | 0 <= i < |init| ensures init[i] != last { assert init[i] == keys[i]; }
    }
    if last == k {
      assert Without(keys, k) == Without(init, k) == init;
      SumUnaffected(init, vals, vals - {k});
    } else {
      assert Without(keys, k) == Without(init, k) + [last];
      SumWithout(init, vals, k);
    }
  }

  /** Adding `count` sessions raises the studio's total by exactly `count`. */
  lemma TotalAfterAdd(l: Ledger, name: string, count: int, phone: string, notes: string, now: Timestamp)
    requires l.Valid()
    ensures TotalSessions(AddSessions(l, name, count, phone, notes, now)) == TotalSessions(l) + count
  {
    var r := AddSessions(l, name, count, phone, notes, now);
    if name in l.vals {
      SumUpdate(l.keys, l.vals, r.vals, name);
    } else {
      SumUnaffected(l.keys, l.vals, r.vals);
      assert r.keys[..|r.keys| - 1] == l.keys;
    }
  }

  /** A marked attendance lowers the total by one; a refused one changes nothing. */
  lemma TotalAfterAttend(l: Ledger, name: string, now: Timestamp)
    requires l.Valid()
    ensures Attend(l, name, now).Some? ==> TotalSessions(Attend(l, name, now).value) == TotalSessions(l) - 1
  {
    var r := Attend(l, name, now);
    if r.Some? {
      SumUpdate(l.keys, l.vals, r.value.vals, name);
    }
  }

  /** Deleting a client takes its balance out of the total. */
  lemma TotalAfterDelete(l: Ledger, name: string)
    requires l.Valid()
    ensures TotalSessions(Remove(l, name)) == TotalSessions(l) - (if name in l.vals then l.vals[name].sessions else 0)
  {
    if name in l.vals {
      SumWithout(l.keys, l.vals, name);
    }
  }

  /** The warning shown after an attendance ("one session left") appears
      exactly when that client will be on the next reminder list. */
  lemma AttendanceWarningMatchesReminder(l: Ledger, name: string, now: Timestamp)
    requires l.Valid() && Attend(l, name, now).Some?
    ensures var after := Attend(l, name, now).value;
      after.vals[name].sessions == ReminderThreshold <==> name in ThresholdClients(after)
  {
  }

  /** `send_reminders`: the names listed in the message (None when no message
      goes out) and the number it reports. A message is attempted only when some
      client is at the threshold and an administrator is configured; the count
      is that of the listed clients only when the message was delivered. */
  method SendReminders(data: Ledger, adminConfigured: bool, delivered: bool) returns (message: Option<seq<string>>, remindersSent: nat)
    requires data.Valid()
    ensures message.Some? <==> adminConfigured && ThresholdClients(data) != []
    ensures message.Some? ==> message.value == ThresholdClients(data)
    ensures remindersSent == if message.Some? && delivered then |ThresholdClients(data)| else 0
  {
    remindersSent := 0;
    var clientsWithOneSession := ClientsWhere(data, AtThreshold);
    message := None;
    if clientsWithOneSession != [] {
      if adminConfigured {
        message := Some(clientsWithOneSession);
        if delivered {
          remindersSent := |clientsWithOneSession|;
        }
      }
    }
  }

  /** What the monthly report states. */
  datatype MonthlyReport = MonthlyReport(
    totalClients: nat,
    totalSessions: int,
    oneSessionLeft: seq<string>,
    noSessionsLeft: seq<string>,
    newClients: seq<string>)

  /** `send_monthly_report`: no report at all without an administrator;
      otherwise the counts and the three lists, each in ledger order. */
  method SendMonthlyReport(adminConfigured: bool, data: Ledger, now: Timestamp) returns (report: Option<MonthlyReport>)
    requires data.Valid()
    ensures report.Some? <==> adminConfigured
    ensures report.Some? ==> report.value.totalClients == |data.vals|
    ensures report.Some? ==> report.value.totalSessions == TotalSessions(data)
    ensures report.Some? ==> report.value.oneSessionLeft == ThresholdClients(data)
    ensures report.Some? ==> report.value.noSessionsLeft == ZeroClients(data)
    ensures report.Some? ==> report.value.newClients == NewClients(data, now)
  {
    if !adminConfigured {
      return None;
    }
    var totalClients := |data.keys|;
    KeyCount(data);
    var totalSessions := TotalSessions(data);
    var one := ClientsWhere(data, AtThreshold);
    var zero := ClientsWhere(data, NoSessionsLeft);
    var monthAgo := MonthAgo(now);
    var recent := ClientsWhere(data, (r: ClientRecord) => r.lastPaymentDate >= monthAgo);
    report := Some(MonthlyReport(totalClients, totalSessions, one, zero, recent));
  }

  /** `len(data)`, the number of listed keys, is the number of clients. */
  lemma KeyCount<V>(d: Dict<V>)
    requires d.Valid()
    ensures |d.keys| == |d.vals|
  {
    DistinctCard(d.keys);
    assert d.vals.Keys == set k | k in d.keys;
  }

  lemma {:induction false} DistinctCard(s: seq<string>)
    requires Distinct(s)
    ensures |set k | k in s| == |s|
  {
    if s != [] {
      var init, last := s[..|s| - 1], s[|s| - 1];
      assert s == init + [last];
      assert Distinct(init) && last !in init by {
        forall i | 0 <= i < |init| ensures init[i] != last { assert init[i] == s[i]; }
      }
      DistinctCard(init);
      assert (set k | k in s) == (set k | k in init) + {last};
    }
  }

  /** With balances A: 1, B: 1 and C: 2 the reminder lists A and B. */
  lemma ThresholdExample(t: Timestamp)
    ensures var l := Dict(["A", "B", "C"], map[
        "A" := ClientRecord(1, t, None, "", ""),
        "B" := ClientRecord(1, t, None, "", ""),
        "C" := ClientRecord(2, t, None, "", "")]);
      l.Valid() && ThresholdClients(l) == ["A", "B"]
  {
    var l := Dict(["A", "B", "C"], map[
        "A" := ClientRecord(1, t, None, "", ""),
        "B" := ClientRecord(1, t, None, "", ""),
        "C" := ClientRecord(2, t, None, "", "")]);
    assert ["A", "B", "C"][..2] == ["A", "B"];
    assert ["A", "B"][..1] == ["A"];
    assert ["A"][..0] == [];
    assert Select(["A"], l.vals, AtThreshold) == ["A"];
    assert Select(["A", "B"], l.vals, AtThreshold) == ["A", "B"];
    assert Select(["A", "B", "C"], l.vals, AtThreshold) == ["A", "B"];
  }
}
