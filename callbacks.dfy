/** Button callback data. Each per-client button carries its action as a
    fixed prefix followed by the client's name; the callback handler tests the
    exact commands first, then the prefixes in a fixed order, and recovers the
    name by slicing off a literal number of characters. */
module Callbacks {

  /** The per-client buttons. */
  datatype ClientButton = Open | Info | Attend | Check | AddSessions | DeleteAsk | DeleteConfirm

  function Prefix(b: ClientButton): string {
    match b
    case Open => "client_"
    case Info => "info_"
    case Attend => "attend_"
    case Check => "check_"
    case AddSessions => "add_sessions_"
    case DeleteAsk => "delete_ask_"
    case DeleteConfirm => "delete_confirm_"
  }

  /** The callback data of client `name`'s button `b`. */
  function CallbackData(b: ClientButton, name: string): (data: string)
    ensures |data| == |Prefix(b)| + |name|
  {
    Prefix(b) + name
  }

  /** Where the handler sends a button press. */
  datatype Route =
    | MainMenu | ListClients | AddClient | Statistics | TestReminders
    | OnClient(button: ClientButton, name: string)
    | Unhandled

  /** `str.startswith` */
  predicate StartsWith(s: string, p: string) {
    |p| <= |s| && s[..|p|] == p
  }

  /** The if/elif chain of the callback handler. */
  function RouteOf(data: string): Route {
    if data == "main_menu" then MainMenu
    else if data == "list_clients" then ListClients
    else if data == "add_client" then AddClient
    else if data == "statistics" then Statistics
    else if data == "test_reminders" then TestReminders
    else if StartsWith(data, "client_") then OnClient(Open, data[7..])
    else if StartsWith(data, "info_") then OnClient(Info, data[5..])
    else if StartsWith(data, "attend_") then OnClient(Attend, data[7..])
    else if StartsWith(data, "check_") then OnClient(Check, data[6..])
    else if StartsWith(data, "add_sessions_") then OnClient(AddSessions, data[13..])
    else if StartsWith(data, "delete_ask_") then OnClient(DeleteAsk, data[11..])
    else if StartsWith(data, "delete_confirm_") then OnClient(DeleteConfirm, data[15..])
    else Unhandled
  }

  /** Pressing any client button reaches that button's branch with exactly
      the client's name: no prefix is caught by an earlier test, and every
      slice offset is its prefix's length. */
  lemma RouteOfCallbackData(b: ClientButton, name: string)
    ensures RouteOf(CallbackData(b, name)) == OnClient(b, name)
  {
    match b
    case Open => RoutesOpen(name);
    case Info => RoutesInfo(name);
    case Attend => RoutesAttend(name);
    case Check => RoutesCheck(name);
    case AddSessions => RoutesAddSessions(name);
    case DeleteAsk => RoutesDeleteAsk(name);
    case DeleteConfirm => RoutesDeleteConfirm(name);
  }

  lemma RoutesOpen(name: string)
    ensures RouteOf(CallbackData(Open, name)) == OnClient(Open, name)
  {
    var data, p := CallbackData(Open, name), Prefix(Open);
    assert StartsWith(data, p) && data[|p|..] == name;
    DiffersAt(data, p, "main_menu", 0);
    DiffersAt(data, p, "list_clients", 0);
    DiffersAt(data, p, "add_client", 0);
    DiffersAt(data, p, "statistics", 0);
    DiffersAt(data, p, "test_reminders", 0);
  }

  lemma RoutesInfo(name: string)
    ensures RouteOf(CallbackData(Info, name)) == OnClient(Info, name)
  {
    var data, p := CallbackData(Info, name), Prefix(Info);
    assert StartsWith(data, p) && data[|p|..] == name;
    DiffersAt(data, p, "main_menu", 0);
    DiffersAt(data, p, "list_clients", 0);
    DiffersAt(data, p, "add_client", 0);
    DiffersAt(data, p, "statistics", 0);
    DiffersAt(data, p, "test_reminders", 0);
    DiffersAt(data, p, "client_", 0);
  }

  lemma RoutesAttend(name: string)
    ensures RouteOf(CallbackData(Attend, name)) == OnClient(Attend, name)
  {
    var data, p := CallbackData(Attend, name), Prefix(Attend);
    assert StartsWith(data, p) && data[|p|..] == name;
    DiffersAt(data, p, "main_menu", 0);
    DiffersAt(data, p, "list_clients", 0);
    DiffersAt(data, p, "add_client", 1);
    DiffersAt(data, p, "statistics", 0);
    DiffersAt(data, p, "test_reminders", 0);
    DiffersAt(data, p, "client_", 0);
    DiffersAt(data, p, "info_", 0);
  }

  lemma RoutesCheck(name: string)
    ensures RouteOf(CallbackData(Check, name)) == OnClient(Check, name)
  {
    var data, p := CallbackData(Check, name), Prefix(Check);
    assert StartsWith(data, p) && data[|p|..] == name;
    DiffersAt(data, p, "main_menu", 0);
    DiffersAt(data, p, "list_clients", 0);
    DiffersAt(data, p, "add_client", 0);
    DiffersAt(data, p, "statistics", 0);
    DiffersAt(data, p, "test_reminders", 0);
    DiffersAt(data, p, "client_", 1);
    DiffersAt(data, p, "info_", 0);
    DiffersAt(data, p, "attend_", 0);
  }

  lemma RoutesAddSessions(name: string)
    ensures RouteOf(CallbackData(AddSessions, name)) == OnClient(AddSessions, name)
  {
    var data, p := CallbackData(AddSessions, name), Prefix(AddSessions);
    assert StartsWith(data, p) && data[|p|..] == name;
    DiffersAt(data, p, "main_menu", 0);
    DiffersAt(data, p, "list_clients", 0);
    DiffersAt(data, p, "add_client", 4);
    DiffersAt(data, p, "statistics", 0);
    DiffersAt(data, p, "test_reminders", 0);
    DiffersAt(data, p, "client_", 0);
    DiffersAt(data, p, "info_", 0);
    DiffersAt(data, p, "attend_", 1);
    DiffersAt(data, p, "check_", 0);
  }

  lemma RoutesDeleteAsk(name: string)
    ensures RouteOf(CallbackData(DeleteAsk, name)) == OnClient(DeleteAsk, name)
  {
    var data, p := CallbackData(DeleteAsk, name), Prefix(DeleteAsk);
    assert StartsWith(data, p) && data[|p|..] == name;
    DiffersAt(data, p, "main_menu", 0);
    DiffersAt(data, p, "list_clients", 0);
    DiffersAt(data, p, "add_client", 0);
    DiffersAt(data, p, "statistics", 0);
    DiffersAt(data, p, "test_reminders", 0);
    DiffersAt(data, p, "client_", 0);
    DiffersAt(data, p, "info_", 0);
    DiffersAt(data, p, "attend_", 0);
    DiffersAt(data, p, "check_", 0);
    DiffersAt(data, p, "add_sessions_", 0);
  }

  lemma RoutesDeleteConfirm(name: string)
    ensures RouteOf(CallbackData(DeleteConfirm, name)) == OnClient(DeleteConfirm, name)
  {
    var data, p := CallbackData(DeleteConfirm, name), Prefix(DeleteConfirm);
    assert StartsWith(data, p) && data[|p|..] == name;
    DiffersAt(data, p, "main_menu", 0);
    DiffersAt(data, p, "list_clients", 0);
    DiffersAt(data, p, "add_client", 0);
    DiffersAt(data, p, "statistics", 0);
    DiffersAt(data, p, "test_reminders", 0);
    DiffersAt(data, p, "client_", 0);
    DiffersAt(data, p, "info_", 0);
    DiffersAt(data, p, "attend_", 0);
    DiffersAt(data, p, "check_", 0);
    DiffersAt(data, p, "add_sessions_", 0);
    DiffersAt(data, p, "delete_ask_", 7);
  }

  // Each earlier test fails at the first character where it differs from
  // the button's prefix.
  /** A string that starts with `p` is neither equal to nor starts with a
      string `t` that differs from `p` at position `k`. */
  lemma DiffersAt(s: string, p: string, t: string, k: nat)
    requires StartsWith(s, p) && k < |p| && k < |t| && p[k] != t[k]
    ensures s != t && !StartsWith(s, t)
  {
    assert s[k] == p[k];
  }
}
