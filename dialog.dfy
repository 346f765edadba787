/** The interactive side: the per-user scratch data of the two-step dialogs,
    the free-text handler that completes them, and the effect of each button
    press on the ledger and on that scratch data. */
module Dialog {
  import opened Common
  import opened Dicts
  import opened Records
  import opened Packs
  import opened Notifications
  import opened PyText
  import opened Callbacks

  /** The scratch data as a value: whether a new client's name is awaited,
      whether a session count is awaited, and for which client. */
  datatype Scratch = Scratch(awaitingName: bool, awaitingCount: bool, client: Option<string>)

  /** The keys the bot keeps in a user's scratch data. They are independent
      flags: pressing "add client" while a session count is awaited leaves
      both set, and the name is then taken first. */
  class UserData {
    var awaitingClientName: bool
    var awaitingSessionsCount: bool
    var addSessionsClient: Option<string>

    constructor ()
      ensures State() == Scratch(false, false, None)
    {
      awaitingClientName, awaitingSessionsCount, addSessionsClient := false, false, None;
    }

    function State(): Scratch
      reads this
    {
      Scratch(awaitingClientName, awaitingSessionsCount, addSessionsClient)
    }
  }

  /** `if client_name:`: present and not the empty string. */
  predicate HasClient(c: Option<string>) {
    c.Some? && c.value != ""
  }

  /** A count step goes through: the text was an integer, it is positive, and
      a client was chosen. */
  predicate CountAccepted(client: Option<string>, parsed: Option<int>) {
    parsed.Some? && parsed.value > 0 && HasClient(client)
  }

  /** A client's balance, counting a missing client as zero. */
  function BalanceOf(l: Ledger, name: string): int {
    if name in l.vals then l.vals[name].sessions else 0
  }

  /** What the bot answers to a text message. */
  datatype Reply =
    | EmptyName
    | ClientAdded(name: string)
    | NotANumber
    | NotPositive
    | SessionsAdded(name: string, count: int, remaining: Option<int>)
    | NoReply
    | UseButtons

  // What handling the stripped text does, given the scratch data, the ledger
  // as loaded and the data file before. A pending name is taken first, then a
  // pending count; with neither the user is told to use the buttons.

  function TextReply(s: Scratch, l: Ledger, text: string): Reply {
    if s.awaitingName then
      if text == "" then EmptyName else ClientAdded(text)
    else if s.awaitingCount then
      var parsed := ParseInt(text);
      if parsed.None? then NotANumber
      else if parsed.value <= 0 then NotPositive
      else if !HasClient(s.client) then NoReply
      else SessionsAdded(s.client.value, parsed.value, Some(BalanceOf(l, s.client.value) + parsed.value))
    else UseButtons
  }

  function TextScratch(s: Scratch, text: string): Scratch {
    if s.awaitingName then
      if text == "" then s else s.(awaitingName := false)
    else if s.awaitingCount && CountAccepted(s.client, ParseInt(text)) then
      s.(awaitingCount := false, client := None)
    else s
  }

  ghost function TextDoc(s: Scratch, before: Document, text: string, now: Timestamp): Document
    requires before.WellFormed()
  {
    if s.awaitingName then
      if text == "" then before else AfterAdd(before, text, 0, "", "", now)
    else if s.awaitingCount && CountAccepted(s.client, ParseInt(text)) then
      AfterAdd(before, s.client.value, ParseInt(text).value, "", "", now)
    else before
  }

  /** `handle_text_message`: the message is stripped, then handled as text. */
  method HandleTextMessage(user: UserData, store: LedgerStore, message: string, now: Timestamp) returns (reply: Reply)
    requires store.Valid()
    modifies user, store
    ensures store.Valid()
    ensures store.doc == TextDoc(old(user.State()), old(store.doc), Strip(message), now)
    ensures user.State() == TextScratch(old(user.State()), Strip(message))
    ensures reply == TextReply(old(user.State()), Loaded(old(store.doc), now), Strip(message))
  {
    var text := Strip(message);
    reply := HandleText(user, store, text, now);
  }

  /** The body of `handle_text_message` after stripping. */
  method HandleText(user: UserData, store: LedgerStore, text: string, now: Timestamp) returns (reply: Reply)
    requires store.Valid()
    modifies user, store
    ensures store.Valid()
    ensures store.doc == TextDoc(old(user.State()), old(store.doc), text, now)
    ensures user.State() == TextScratch(old(user.State()), text)
    ensures reply == TextReply(old(user.State()), Loaded(old(store.doc), now), text)
  {
    if user.awaitingClientName {
      if text == "" {
        return EmptyName;
      }
      store.AddSessionsToClient(text, 0, "", "", now);
      user.awaitingClientName := false;
      reply := ClientAdded(text);
    } else if user.awaitingSessionsCount {
      var parsed := ParseInt(text);
      if parsed.None? {
        return NotANumber;
      }
      var count := parsed.value;
      if count <= 0 {
        return NotPositive;
      }
      var client := user.addSessionsClient;
      if !HasClient(client) {
        return NoReply;
      }
      reply := AddCounted(store, client.value, count, now);
      user.awaitingSessionsCount := false;
      user.addSessionsClient := None;
    } else {
      reply := UseButtons;
    }
  }

  /** Adds `count` sessions to `name` and reads the new balance back: it is
      the balance before plus `count`. */
  method AddCounted(store: LedgerStore, name: string, count: int, now: Timestamp) returns (reply: Reply)
    requires store.Valid()
    modifies store
    ensures store.Valid()
    ensures store.doc == AfterAdd(old(store.doc), name, count, "", "", now)
    ensures reply == SessionsAdded(name, count, Some(BalanceOf(Loaded(old(store.doc), now), name) + count))
  {
    ghost var before := Loaded(old(store.doc), now);
    ghost var after := Packs.AddSessions(before, name, count, "", "", now);
    store.AddSessionsToClient(name, count, "", "", now);
    assert store.doc == Saved(after);
    LoadAfterSave(after, now);
    assert after.vals[name].sessions == BalanceOf(before, name) + count;
    var remaining := store.GetRemainingSessions(name, now);
    assert remaining == Some(after.vals[name].sessions);
    reply := SessionsAdded(name, count, remaining);

  }

  /** A refused name or count, and a message outside any dialog, change
      neither the file nor the scratch data. */
  lemma RefusedTextChangesNothing(s: Scratch, before: Document, text: string, now: Timestamp)
    requires before.WellFormed()
    ensures var reply := TextReply(s, Loaded(before, now), text);
      !reply.ClientAdded? && !reply.SessionsAdded? ==>
        TextDoc(s, before, text, now) == before && TextScratch(s, text) == s
  {
  }

  /** The scratch data changes exactly when the text completed a dialog. */
  lemma ScratchChangesOnSuccess(s: Scratch, l: Ledger, text: string)
    ensures TextScratch(s, text) != s <==>
      (TextReply(s, l, text).ClientAdded? || TextReply(s, l, text).SessionsAdded?)
  {
  }

  /** A completed count adds exactly that many sessions to the studio's total;
      a registered name adds none. */
  lemma TextAddsToTotal(s: Scratch, before: Document, text: string, now: Timestamp)
    requires before.WellFormed()
    ensures var reply := TextReply(s, Loaded(before, now), text);
      var total := TotalSessions(Loaded(TextDoc(s, before, text, now), now));
      && (reply.SessionsAdded? ==> total == TotalSessions(Loaded(before, now)) + reply.count)
      && (reply.ClientAdded? ==> total == TotalSessions(Loaded(before, now)))
  {
    var l := Loaded(before, now);
    var reply := TextReply(s, l, text);
    if reply.SessionsAdded? || reply.ClientAdded? {
      var name := if reply.SessionsAdded? then reply.name else text;
      var count := if reply.SessionsAdded? then reply.count else 0;
      var after := Packs.AddSessions(l, name, count, "", "", now);
      assert TextDoc(s, before, text, now) == Saved(after);
      LoadAfterSave(after, now);
      TotalAfterAdd(l, name, count, "", "", now);
    }
  }

  /** The dialog never makes a balance negative: it only adds zero or a
      positive count. */
  lemma TextKeepsNonNegative(s: Scratch, before: Document, text: string, now: Timestamp)
    requires before.WellFormed() && DocNonNegative(before)
    ensures DocNonNegative(TextDoc(s, before, text, now))
  {
    if s.awaitingName {
      if text != "" {
        AddKeepsNonNegative(before, text, 0, "", "", now);
      }
    } else if s.awaitingCount && CountAccepted(s.client, ParseInt(text)) {
      AddKeepsNonNegative(before, s.client.value, ParseInt(text).value, "", "", now);
    }
  }

  /** A count typed back exactly as the bot prints numbers is accepted as
      that same count. */
  lemma TypedCountAccepted(s: Scratch, l: Ledger, n: int)
    requires !s.awaitingName && s.awaitingCount && HasClient(s.client) && n > 0
    ensures TextReply(s, l, Show(n)) == SessionsAdded(s.client.value, n, Some(BalanceOf(l, s.client.value) + n))
  {
    ParseShow(n);
  }

  /** What a button press produced, beyond the screen it shows. */
  datatype Outcome =
    | Shown
    | Listing(empty: bool)
    | Stats(totalClients: nat, totalSessions: int, oneSessionLeft: seq<string>)
    | Balance(remaining: Option<int>)
    | Details(info: Option<ClientRecord>)
    | Attendance(remaining: Option<int>)
    | Deletion(deleted: bool)
    | TestReminder(sent: nat)

  /** The balance a lookup shows: None for an unknown client. */
  function Remaining(l: Ledger, name: string): Option<int> {
    if name in l.vals then Some(l.vals[name].sessions) else None
  }

  /** What each route shows, from the ledger as loaded. */
  function CallbackOutcome(l: Ledger, data: string, now: Timestamp, adminConfigured: bool, delivered: bool): Outcome
    requires l.Valid()
  {
    match RouteOf(data)
    case ListClients => Listing(l.vals == map[])
    case Statistics => Stats(|l.vals|, TotalSessions(l), ThresholdClients(l))
    case TestReminders => TestReminder(if adminConfigured && delivered then |ThresholdClients(l)| else 0)
    case OnClient(button, name) => ButtonOutcome(l, button, name, now)
    case _ => Shown
  }

  /** What client `name`'s button `b` shows. */
  function ButtonOutcome(l: Ledger, b: ClientButton, name: string, now: Timestamp): Outcome
    requires l.Valid()
  {
    match b
    case Open => Balance(Remaining(l, name))
    case Check => Balance(Remaining(l, name))
    case Info => Details(if name in l.vals then Some(l.vals[name]) else None)
    case Attend => Attendance(if Packs.Attend(l, name, now).Some? then Some(l.vals[name].sessions - 1) else None)
    case DeleteConfirm => Deletion(name in l.vals)
    case _ => Shown
  }

  /** The data file after a button press: only attendance and confirmed
      deletion write it. */
  ghost function CallbackDoc(before: Document, data: string, now: Timestamp): Document
    requires before.WellFormed()
  {
    match RouteOf(data)
    case OnClient(button, name) => ButtonDoc(before, button, name, now)
    case _ => before
  }

  /** The data file after client `name`'s button `b`. */
  ghost function ButtonDoc(before: Document, b: ClientButton, name: string, now: Timestamp): Document
    requires before.WellFormed()
  {
    match b
    case Attend => AfterAttendance(before, name, now)
    case DeleteConfirm => AfterDelete(before, name, now)
    case _ => before
  }

  /** The scratch data after a button press: "add client" starts the name
      dialog, "add sessions" the count dialog for that client. */
  function CallbackScratch(s: Scratch, data: string): Scratch {
    match RouteOf(data)
    case AddClient => s.(awaitingName := true)
    case OnClient(button, name) => ButtonScratch(s, button, name)
    case _ => s
  }

  /** The scratch data after client `name`'s button `b`. */
  function ButtonScratch(s: Scratch, b: ClientButton, name: string): Scratch {
    if b == ClientButton.AddSessions then s.(awaitingCount := true, client := Some(name)) else s
  }

  /** `handle_callback`, for what it reads and changes. */
  method HandleCallback(user: UserData, store: LedgerStore, data: string, now: Timestamp, adminConfigured: bool, delivered: bool)
    returns (outcome: Outcome)
    requires store.Valid()
    modifies user, store
    ensures store.Valid()
    ensures store.doc == CallbackDoc(old(store.doc), data, now)
    ensures user.State() == CallbackScratch(old(user.State()), data)
    ensures outcome == CallbackOutcome(Loaded(old(store.doc), now), data, now, adminConfigured, delivered)
  {
    outcome := Shown;
    match RouteOf(data)
    case ListClients =>
      var ledger := store.LoadData(now);
      outcome := Listing(ledger.vals == map[]);
    case AddClient =>
      user.awaitingClientName := true;
    case Statistics =>
      var ledger := store.LoadData(now);
      KeyCount(ledger);
      var one := ClientsWhere(ledger, AtThreshold);
      outcome := Stats(|ledger.keys|, TotalSessions(ledger), one);
    case TestReminders =>
      var ledger := store.LoadData(now);
      var message, sent := SendReminders(ledger, adminConfigured, delivered);
      outcome := TestReminder(sent);
    case OnClient(button, name) =>
      outcome := HandleClientButton(user, store, button, name, now);
    case _ =>
  }

  /** The branches of `handle_callback` for one client's button. */
  method HandleClientButton(user: UserData, store: LedgerStore, b: ClientButton, name: string, now: Timestamp)
    returns (outcome: Outcome)
    requires store.Valid()
    modifies user, store
    ensures store.Valid()
    ensures store.doc == ButtonDoc(old(store.doc), b, name, now)
    ensures user.State() == ButtonScratch(old(user.State()), b, name)
    ensures outcome == ButtonOutcome(Loaded(old(store.doc), now), b, name, now)
  {
    outcome := Shown;
    match b
    case Open =>
      var remaining := store.GetRemainingSessions(name, now);
      outcome := Balance(remaining);
    case Check =>
      var remaining := store.GetRemainingSessions(name, now);
      outcome := Balance(remaining);
    case Info =>
      var info := store.GetClientInfo(name, now);
      outcome := Details(info);
    case Attend =>
      var remaining := store.MarkAttendance(name, now);
      outcome := Attendance(remaining);
    case AddSessions =>
      user.addSessionsClient := Some(name);
      user.awaitingSessionsCount := true;
    case DeleteAsk =>
    case DeleteConfirm =>
      var deleted := store.DeleteClient(name, now);
      outcome := Deletion(deleted);
  }

  /** A client's button acts on that client and no other: attendance and
      confirmed deletion write the file for that name, every other button
      leaves it alone. */
  lemma ButtonActsOnItsClient(b: ClientButton, name: string, before: Document, now: Timestamp)
    requires before.WellFormed()
    ensures CallbackDoc(before, CallbackData(b, name), now) ==
      if b == ClientButton.Attend then AfterAttendance(before, name, now)
      else if b == DeleteConfirm then AfterDelete(before, name, now)
      else before
  {
    RouteOfCallbackData(b, name);
  }

  /** Pressing "mark attendance" shows the new balance exactly when the
      client had a session left, and that balance is one less. */
  lemma AttendButtonShowsNewBalance(name: string, l: Ledger, now: Timestamp, adminConfigured: bool, delivered: bool)
    requires l.Valid()
    ensures var o := CallbackOutcome(l, CallbackData(ClientButton.Attend, name), now, adminConfigured, delivered);
      && o.Attendance?
      && (o.remaining.Some? <==> name in l.vals && l.vals[name].sessions > 0)
      && (o.remaining.Some? ==> o.remaining.value == l.vals[name].sessions - 1 >= 0)
  {
    RouteOfCallbackData(ClientButton.Attend, name);
  }

  /** No button press makes a balance negative. */
  lemma CallbackKeepsNonNegative(before: Document, data: string, now: Timestamp)
    requires before.WellFormed() && DocNonNegative(before)
    ensures DocNonNegative(CallbackDoc(before, data, now))
  {
    match RouteOf(data)
    case OnClient(Attend, name) =>
      var l := Loaded(before, now);
      if Packs.Attend(l, name, now).Some? {
        LoadedNonNegative(before, now);
        SavedNonNegative(Packs.Attend(l, name, now).value);
      }
    case OnClient(DeleteConfirm, name) =>
      var l := Loaded(before, now);
      if name in l.vals {
        LoadedNonNegative(before, now);
        SavedNonNegative(Remove(l, name));
      }
    case _ =>
  }
}
