/** The platform server of etapa2.4.c as a program: the four record files
    are fields of a Stores object, a client's connection is a Connection,
    and each routine of the server is a method. Every method is proved to
    do what the matching function of module Sessions or Dialogues says. */
module Platform {
  import opened CText
  import opened Validation
  import opened Records
  import opened Messages
  import opened Dialogues
  import opened Sessions
  import opened Channel

  // ---------------------------------------------------------------------
  // Loops over the lines of one file

  /** The fgets/sscanf("%s") loop of process_login, username_exists and
      create_admin_user: is u the first word of some line? */
  method FindUser(lines: seq<string>, u: string) returns (found: bool)
    ensures found <==> HasUser(lines, u)
  {
    var i := 0;
    while i < |lines|
      invariant 0 <= i <= |lines|
      invariant forall j :: 0 <= j < i ==> FirstWord(lines[j]) != Some(u)
    {
      if FirstWord(lines[i]) == Some(u) {
        return true;
      }
      i := i + 1;
    }
    return false;
  }

  /** The temp-file copy loop of move_user_from_pending_to_active and
      delete_user: every line whose first word is not u, in order. */
  method CopyOtherUsers(lines: seq<string>, u: string) returns (kept: seq<string>)
    ensures kept == KeepOtherUsers(lines, u)
  {
    kept := [];
    var i := 0;
    while i < |lines|
      invariant 0 <= i <= |lines|
      invariant kept == KeepOtherUsers(lines[..i], u)
    {
      assert lines[..i + 1][..i] == lines[..i];
      if FirstWord(lines[i]) != Some(u) {
        kept := kept + [lines[i]];
      }
      i := i + 1;
    }
    assert lines[..i] == lines;
  }

  /** The profile copy loop of delete_user. */
  method CopyOtherProfiles(lines: seq<string>, u: string) returns (kept: seq<string>)
    ensures kept == KeepOtherProfiles(lines, u)
  {
    kept := [];
    var i := 0;
    while i < |lines|
      invariant 0 <= i <= |lines|
      invariant kept == KeepOtherProfiles(lines[..i], u)
    {
      assert lines[..i + 1][..i] == lines[..i];
      var k := ProfileKey(lines[i]);
      if k.Some? && k.value != u {
        kept := kept + [lines[i]];
      }
      i := i + 1;
    }
    assert lines[..i] == lines;
  }

  /** The search loop of view_profile: the first line whose first "|" field is u. */
  method FindProfile(lines: seq<string>, u: string) returns (found: Option<nat>)
    ensures found == FirstKeyed(lines, u)
  {
    var i := 0;
    while i < |lines|
      invariant 0 <= i <= |lines|
      invariant forall j :: 0 <= j < i ==> ProfileKey(lines[j]) != Some(u)
    {
      if ProfileKey(lines[i]) == Some(u) {
        found := Some(i);
        FirstKeyedIs(lines, u, i);
        return;
      }
      i := i + 1;
    }
    found := None;
  }

  /** FirstKeyed is determined by its contract. */
  lemma FirstKeyedIs(lines: seq<string>, u: string, i: nat)
    requires i < |lines| && ProfileKey(lines[i]) == Some(u)
    requires forall j :: 0 <= j < i ==> ProfileKey(lines[j]) != Some(u)
    ensures FirstKeyed(lines, u) == Some(i)
  {
    var r := FirstKeyed(lines, u);
    assert r.Some?;
    assert !(r.value < i) && !(i < r.value);
  }

  /** The listing loops of list_engineers and list_organizations. */
  method CollectLines<B>(lines: seq<string>, parse: string -> Option<B>) returns (entries: seq<B>)
    ensures entries == Collect(lines, parse)
  {
    entries := [];
    var i := 0;
    while i < |lines|
      invariant 0 <= i <= |lines|
      invariant entries == Collect(lines[..i], parse)
    {
      assert lines[..i + 1][..i] == lines[..i];
      var e := parse(lines[i]);
      if e.Some? {
        entries := entries + [e.value];
      }
      i := i + 1;
    }
    assert lines[..i] == lines;
  }

  /** The listing loop of accept_new_user and delete_user: a numbered line
      for each line of the file that parses, at most MAX_USERS of them. */
  method SendEntries<B>(conn: Connection<Reply>, lines: seq<string>, parse: string -> Option<B>,
                        item: (nat, B) -> Reply) returns (entries: seq<B>)
    modifies conn
    ensures entries == Take(Collect(lines, parse), MaxUsers)
    ensures conn.sent == old(conn.sent) + Numbered(entries, item)
    ensures conn.incoming == old(conn.incoming)
  {
    entries := [];
    var i := 0;
    while i < |lines| && |entries| < MaxUsers
      invariant 0 <= i <= |lines|
      invariant entries == Collect(lines[..i], parse) && |entries| <= MaxUsers
      invariant conn.sent == old(conn.sent) + Numbered(entries, item)
      invariant conn.incoming == old(conn.incoming)
    {
      CollectStep(lines, parse, i);
      var e := parse(lines[i]);
      if e.Some? {
        NumberedSnoc(entries, item, e.value);
        entries := entries + [e.value];
        conn.Send(item(|entries|, e.value));
      }
      i := i + 1;
    }
    CollectCapped(lines, parse, i, MaxUsers);
  }

  /** The choice step of accept_new_user and delete_user. */
  method ChooseEntry<E>(conn: Connection<Reply>, entries: seq<E>, name: E -> string, p: Purpose) returns (chosen: Option<E>)
    modifies conn
    ensures var r := Dialogues.Pick(entries, name, p, old(conn.incoming));
      conn.sent == old(conn.sent) + r.replies && conn.incoming == old(conn.incoming)[r.used..]
      && (chosen.Some? <==> r.Selected?) && (r.Selected? ==> chosen.value == r.entry)
  {
    ghost var input := conn.incoming;
    ghost var r := Dialogues.Pick(entries, name, p, input);
    conn.Send(Ask(NumberPrompt(p)));
    var response := conn.ReceiveLine();
    if response.None? {
      conn.Send(Say(InputInvalid(p)));
      assert r == Declined([Ask(NumberPrompt(p)), Say(InputInvalid(p))], 0);
      return None;
    }
    assert response == LineAt(input, 0);
    var valid := IsValidInteger(response.value);
    if !valid {
      conn.Send(Say(InputInvalid(p)));
      assert r == Declined([Ask(NumberPrompt(p)), Say(InputInvalid(p))], 1);
      return None;
    }
    var selection := AtoI(response.value);
    if selection <= 0 || selection > |entries| {
      conn.Send(Say(SelectionCancelled));
      assert r == Declined([Ask(NumberPrompt(p)), Say(SelectionCancelled)], 1);
      return None;
    }
    var e := entries[selection - 1];
    conn.Send(Ask(ConfirmPrompt(p, name(e))));
    var confirm := conn.ReceiveLine();
    assert confirm == LineAt(input, 1);
    if confirm.None? || !Confirms(confirm.value) {
      conn.Send(Say(Cancelled(p)));
      assert r.Declined? && r.replies == [Ask(NumberPrompt(p)), Ask(ConfirmPrompt(p, name(e))), Say(Cancelled(p))];
      return None;
    }
    assert r == Selected(e, [Ask(NumberPrompt(p)), Ask(ConfirmPrompt(p, name(e)))], 2);
    return Some(e);
  }

  // ---------------------------------------------------------------------
  // The server's record files

  class Stores {
    var credentials: seq<string>
    var pending: seq<string>
    var engineers: seq<string>
    var organizations: seq<string>

    constructor(f: Files)
      ensures Snapshot() == f
    {
      credentials := f.credentials;
      pending := f.pending;
      engineers := f.engineers;
      organizations := f.organizations;
    }

    function Snapshot(): Files
      reads this
    {
      Files(credentials, pending, engineers, organizations)
    }

    /** username_exists: the active file first, then the pending file. */
    method UsernameExists(u: string) returns (b: bool)
      ensures b <==> HasUser(credentials, u) || HasUser(pending, u)
    {
      b := FindUser(credentials, u);
      if !b {
        b := FindUser(pending, u);
      }
    }

    /** check_credentials over the lines of the active file. */
    method CheckCredentials(u: string, p: string) returns (t: int)
      ensures t == Records.CheckCredentials(u, p, Some(credentials))
    {
      if u == AdminName && p == AdminName {
        return 3;
      }
      var i := 0;
      while i < |credentials|
        invariant 0 <= i <= |credentials|
        invariant FindCredential(credentials[i..], u, p) == FindCredential(credentials, u, p)
      {
        var r := ParseCredentialLine(credentials[i]);
        if r.Some? && r.value.username == u && r.value.password == p {
          return r.value.userType;
        }
        assert credentials[i..][1..] == credentials[i + 1..];
        i := i + 1;
      }
      return 0;
    }

    /** create_admin_user */
    method CreateAdminUser()
      modifies this
      ensures Snapshot() == CreateAdmin(old(Snapshot()))
    {
      var present := FindUser(credentials, AdminName);
      if !present {
        credentials := credentials + [FormatAccount(AccountRecord(AdminName, AdminName, 3))];
      }
    }

    /** move_user_from_pending_to_active */
    method MoveUserFromPendingToActive(a: AccountRecord)
      modifies this
      ensures Snapshot() == Promote(old(Snapshot()), a)
    {
      credentials := credentials + SplitLines(FormatAccount(a));
      pending := CopyOtherUsers(pending, a.username);
    }

    /** view_profile */
    method ViewProfile(conn: Connection<Reply>, u: string, userType: int)
      modifies conn
      ensures conn.sent == old(conn.sent) + [ProfileReply(u, userType, engineers, organizations)]
      ensures conn.incoming == old(conn.incoming)
    {
      var details;
      if userType == 1 {
        var i := FindProfile(engineers, u);
        details := EngineerDetails(if i.Some? then ParseEngineer(engineers[i.value]) else None);
      } else {
        var i := FindProfile(organizations, u);
        details := OrganizationDetails(if i.Some? then ParseOrganization(organizations[i.value]) else None);
      }
      conn.Send(Profile(u, userType, details));
    }

    /** list_engineers */
    method ListEngineers(conn: Connection<Reply>)
      modifies conn
      ensures conn.sent == old(conn.sent) + [EngineersReply(EngineerListing(engineers))]
      ensures conn.incoming == old(conn.incoming)
    {
      var entries := CollectLines(engineers, ParseEngineer);
      conn.Send(if |entries| == 0 then Say(NoEngineers) else Engineers(entries));
    }

    /** list_organizations */
    method ListOrganizations(conn: Connection<Reply>)
      modifies conn
      ensures conn.sent == old(conn.sent) + [OrganizationsReply(OrganizationListing(organizations))]
      ensures conn.incoming == old(conn.incoming)
    {
      var entries := CollectLines(organizations, ParseOrganization);
      conn.Send(if |entries| == 0 then Say(NoOrganizations) else Organizations(entries));
    }

    /** The listing of accept_new_user. */
    method SendPendingListing(conn: Connection<Reply>) returns (entries: seq<AccountRecord>)
      modifies conn
      ensures entries == PendingListing(pending)
      ensures conn.sent == old(conn.sent) + [PendingHeader] + PendingItems(entries)
      ensures conn.incoming == old(conn.incoming)
    {
      conn.Send(PendingHeader);
      entries := SendEntries(conn, pending, PendingEntryOf, PendingLine);
    }

    /** The choice and approval step of accept_new_user. */
    method Approve(conn: Connection<Reply>, entries: seq<AccountRecord>)
      modifies this, conn
      ensures var r := Pick(entries, AccountName, Approval, old(conn.incoming));
        conn.incoming == old(conn.incoming)[r.used..]
        && conn.sent == old(conn.sent) + (r.replies + if r.Selected? then [Say(UserApproved)] else [])
        && Snapshot() == if r.Selected? then Promote(old(Snapshot()), r.entry) else old(Snapshot())
    {
      var chosen := ChooseEntry(conn, entries, AccountName, Approval);
      if chosen.Some? {
        MoveUserFromPendingToActive(chosen.value);
        conn.Send(Say(UserApproved));
      }
    }

    /** accept_new_user */
    method AcceptNewUser(conn: Connection<Reply>)
      modifies this, conn
      ensures Snapshot() == Sessions.AcceptNewUser(old(Snapshot()), old(conn.incoming)).files
      ensures conn.incoming == old(conn.incoming)[Sessions.AcceptNewUser(old(Snapshot()), old(conn.incoming)).used..]
      ensures conn.sent == old(conn.sent) + Sessions.AcceptNewUser(old(Snapshot()), old(conn.incoming)).replies
    {
      ghost var f0, in0, sent0 := Snapshot(), conn.incoming, conn.sent;
      if |pending| == 0 {
        conn.Send(Say(NoPendingUsers));
        assert in0[0..] == in0;
        return;
      }
      var entries := SendPendingListing(conn);
      ghost var listed := [PendingHeader] + PendingItems(entries);
      if |entries| == 0 {
        conn.Send(Say(NoPendingUsers));
        assert in0[0..] == in0;
        return;
      }
      Approve(conn, entries);
      ghost var r := Pick(entries, AccountName, Approval, in0);
      SentInBatches(sent0, [PendingHeader], PendingItems(entries));
      SentInBatches(sent0, listed, r.replies + if r.Selected? then [Say(UserApproved)] else []);
    }

    /** The listing of delete_user. */
    method SendUserListing(conn: Connection<Reply>) returns (entries: seq<UserEntry>)
      modifies conn
      ensures entries == UserListing(credentials)
      ensures conn.sent == old(conn.sent) + [UsersHeader] + UserItems(entries)
      ensures conn.incoming == old(conn.incoming)
    {
      conn.Send(UsersHeader);
      entries := SendEntries(conn, credentials, UserEntryOf, UserLine);
    }

    /** The rewriting of the files in delete_user for a chosen account. */
    method RemoveAccount(e: UserEntry)
      modifies this
      ensures Snapshot() == Remove(old(Snapshot()), e)
    {
      credentials := CopyOtherUsers(credentials, e.username);
      if e.userType == 1 {
        engineers := CopyOtherProfiles(engineers, e.username);
      } else {
        organizations := CopyOtherProfiles(organizations, e.username);
      }
    }

    /** The choice and removal step of delete_user. */
    method Purge(conn: Connection<Reply>, entries: seq<UserEntry>)
      modifies this, conn
      ensures var r := Pick(entries, EntryName, Deletion, old(conn.incoming));
        conn.incoming == old(conn.incoming)[r.used..]
        && conn.sent == old(conn.sent) + (r.replies + if r.Selected? then [Say(UserDeleted)] else [])
        && Snapshot() == if r.Selected? then Remove(old(Snapshot()), r.entry) else old(Snapshot())
    {
      var chosen := ChooseEntry(conn, entries, EntryName, Deletion);
      if chosen.Some? {
        RemoveAccount(chosen.value);
        conn.Send(Say(UserDeleted));
      }
    }

    /** delete_user */
    method DeleteUser(conn: Connection<Reply>)
      modifies this, conn
      ensures Snapshot() == Sessions.DeleteUser(old(Snapshot()), old(conn.incoming)).files
      ensures conn.incoming == old(conn.incoming)[Sessions.DeleteUser(old(Snapshot()), old(conn.incoming)).used..]
      ensures conn.sent == old(conn.sent) + Sessions.DeleteUser(old(Snapshot()), old(conn.incoming)).replies
    {
      ghost var f0, in0, sent0 := Snapshot(), conn.incoming, conn.sent;
      DeleteUserCases(f0, in0);
      var entries := SendUserListing(conn);
      ghost var listed := [UsersHeader] + UserItems(entries);
      if |entries| == 0 {
        conn.Send(Say(NoUsersToDelete));
        assert in0[0..] == in0;
        return;
      }
      Purge(conn, entries);
      ghost var r := Pick(entries, EntryName, Deletion, in0);
      SentInBatches(sent0, [UsersHeader], UserItems(entries));
      SentInBatches(sent0, listed, r.replies + if r.Selected? then [Say(UserDeleted)] else []);
    }

    /** One turn of show_admin_menu. */
    method AdminMenuTurn(conn: Connection<Reply>) returns (more: bool)
      modifies this, conn
      ensures Snapshot() == AdminTurn(old(Snapshot()), old(conn.incoming)).step.files
      ensures conn.incoming == old(conn.incoming)[AdminTurn(old(Snapshot()), old(conn.incoming)).step.used..]
      ensures conn.sent == old(conn.sent) + AdminTurn(old(Snapshot()), old(conn.incoming)).step.replies
      ensures more == AdminTurn(old(Snapshot()), old(conn.incoming)).more
    {
      ghost var f0, in0, sent0 := Snapshot(), conn.incoming, conn.sent;
      conn.Send(AdminMenu);
      var chunk := conn.Receive();
      if chunk.None? {
        assert in0[0..] == in0;
        return false;
      }
      var choice := AtoI(chunk.value);
      if choice == 1 {
        ListEngineers(conn);
      } else if choice == 2 {
        ListOrganizations(conn);
      } else if choice == 3 {
        AcceptNewUser(conn);
        var a := Sessions.AcceptNewUser(f0, in0[1..]);
        assert in0[1..][a.used..] == in0[1 + a.used..];
        SentInBatches(sent0, [AdminMenu], a.replies);
      } else if choice == 4 {
        DeleteUser(conn);
        var d := Sessions.DeleteUser(f0, in0[1..]);
        assert in0[1..][d.used..] == in0[1 + d.used..];
        SentInBatches(sent0, [AdminMenu], d.replies);
      } else if choice == 5 {
        conn.Send(Say(LoggingOut));
        return false;
      } else {
        conn.Send(Say(InvalidChoice));
      }
      return true;
    }

    /** show_admin_menu: turns until option 5 or a closed connection. */
    method ShowAdminMenu(conn: Connection<Reply>)
      modifies this, conn
      ensures Snapshot() == AdminSession(old(Snapshot()), old(conn.incoming)).files
      ensures conn.incoming == old(conn.incoming)[AdminSession(old(Snapshot()), old(conn.incoming)).used..]
      ensures conn.sent == old(conn.sent) + AdminSession(old(Snapshot()), old(conn.incoming)).replies
    {
      ghost var f0, in0, sent0 := Snapshot(), conn.incoming, conn.sent;
      ghost var done: seq<Reply>, consumed: nat := [], 0;
      assert in0[0..] == in0;
      while true
        invariant consumed <= |in0| && conn.incoming == in0[consumed..]
        invariant conn.sent == sent0 + done
        invariant AdminSession(f0, in0) == Prefixed(done, consumed, AdminSession(Snapshot(), conn.incoming))
        decreases |conn.incoming|
      {
        ghost var f, input := Snapshot(), conn.incoming;
        ghost var t := AdminTurn(f, input);
        var more := AdminMenuTurn(conn);
        assert in0[consumed..][t.step.used..] == in0[consumed + t.step.used..];
        SentInBatches(sent0, done, t.step.replies);
        if !more {
          return;
        }
        PrefixedTwice(done, consumed, t.step.replies, t.step.used, AdminSession(Snapshot(), conn.incoming));
        done, consumed := done + t.step.replies, consumed + t.step.used;
      }
    }

    /** One turn of show_main_menu for an engineer or organization. */
    method UserMenuTurn(conn: Connection<Reply>, u: string, userType: int) returns (more: bool)
      modifies conn
      ensures conn.incoming == old(conn.incoming)[UserTurn(u, userType, Snapshot(), old(conn.incoming)).step.used..]
      ensures conn.sent == old(conn.sent) + UserTurn(u, userType, Snapshot(), old(conn.incoming)).step.replies
      ensures more == UserTurn(u, userType, Snapshot(), old(conn.incoming)).more
    {
      ghost var in0 := conn.incoming;
      conn.Send(UserMenu(userType));
      var chunk := conn.Receive();
      if chunk.None? {
        assert in0[0..] == in0;
        return false;
      }
      var choice := AtoI(chunk.value);
      if choice == 1 {
        ViewProfile(conn, u, userType);
      } else if choice == 2 {
        if userType == 1 {
          ListOrganizations(conn);
        } else {
          ListEngineers(conn);
        }
      } else if 3 <= choice <= 5 {
        conn.Send(Say(NotImplemented(choice)));
      } else if choice == 6 {
        conn.Send(Say(LoggingOut));
        return false;
      } else {
        conn.Send(Say(InvalidChoice));
      }
      return true;
    }

    /** The loop of show_main_menu for an engineer or organization: turns
        of the user menu until option 6 or a closed connection. */
    method ShowUserMenu(conn: Connection<Reply>, u: string, userType: int)
      modifies conn
      ensures conn.incoming == old(conn.incoming)[UserSession(u, userType, Snapshot(), old(conn.incoming)).used..]
      ensures conn.sent == old(conn.sent) + UserSession(u, userType, Snapshot(), old(conn.incoming)).replies
    {
      ghost var f0, in0, sent0 := Snapshot(), conn.incoming, conn.sent;
      ghost var done: seq<Reply>, consumed: nat := [], 0;
      assert in0[0..] == in0;
      while true
        invariant consumed <= |in0| && conn.incoming == in0[consumed..]
        invariant conn.sent == sent0 + done
        invariant UserSession(u, userType, f0, in0) == Prefixed(done, consumed, UserSession(u, userType, f0, conn.incoming))
        decreases |conn.incoming|
      {
        ghost var input := conn.incoming;
        ghost var t := UserTurn(u, userType, f0, input);
        var more := UserMenuTurn(conn, u, userType);
        assert in0[consumed..][t.step.used..] == in0[consumed + t.step.used..];
        SentInBatches(sent0, done, t.step.replies);
        if !more {
          return;
        }
        PrefixedTwice(done, consumed, t.step.replies, t.step.used, UserSession(u, userType, f0, conn.incoming));
        done, consumed := done + t.step.replies, consumed + t.step.used;
      }
    }

    /** show_main_menu: the administrator's menu for type 3, the user menu otherwise. */
    method ShowMainMenu(conn: Connection<Reply>, u: string, userType: int)
      modifies this, conn
      ensures Snapshot() == MainMenu(u, userType, old(Snapshot()), old(conn.incoming)).files
      ensures conn.incoming == old(conn.incoming)[MainMenu(u, userType, old(Snapshot()), old(conn.incoming)).used..]
      ensures conn.sent == old(conn.sent) + MainMenu(u, userType, old(Snapshot()), old(conn.incoming)).replies
    {
      if userType == 3 {
        ShowAdminMenu(conn);
      } else {
        ShowUserMenu(conn, u, userType);
      }
    }

    /** The checks of process_login, up to the welcome message. */
    method LoginChecks(conn: Connection<Reply>) returns (admitted: bool, u: string, userType: int)
      modifies conn
      ensures var g := LoginGate(credentials, pending, old(conn.incoming));
        conn.incoming == old(conn.incoming)[g.used..] && conn.sent == old(conn.sent) + g.replies
        && (admitted <==> g.Admitted?) && (admitted ==> u == g.username && userType == g.userType)
    {
      ghost var input, sent0 := conn.incoming, conn.sent;
      admitted, u, userType := false, "", 0;
      conn.Send(Ask(Username));
      var name := conn.ReceiveLine();
      if name.None? {
        conn.Send(Say(UsernameNotReceived));
        assert input[0..] == input;
        return;
      }
      assert name == LineAt(input, 0);
      u := name.value;
      if |u| == 0 || |u| >= MaxUsernameLength {
        conn.Send(Say(InvalidUsername));
        return;
      }
      if ContainsInvalidChars(u) {
        conn.Send(Say(UsernameInvalidChars));
        return;
      }
      var waiting := FindUser(pending, u);
      if waiting {
        conn.Send(Say(PendingApproval));
        return;
      }
      admitted, userType := PasswordChecks(conn, u);
      ghost var g := PasswordGate(credentials, u, input[1..]);
      assert input[1..][g.used..] == input[1 + g.used..];
      SentInBatches(sent0, [Ask(Username)], g.replies);
    }

    /** The password checks of process_login and the call of check_credentials. */
    method PasswordChecks(conn: Connection<Reply>, u: string) returns (admitted: bool, userType: int)
      modifies conn
      ensures var g := PasswordGate(credentials, u, old(conn.incoming));
        conn.incoming == old(conn.incoming)[g.used..] && conn.sent == old(conn.sent) + g.replies
        && (admitted <==> g.Admitted?) && (admitted ==> userType == g.userType)
    {
      ghost var input, sent0 := conn.incoming, conn.sent;
      admitted, userType := false, 0;
      conn.Send(Ask(Password));
      var password := conn.ReceiveLine();
      if password.None? {
        conn.Send(Say(PasswordNotReceived));
        assert input[0..] == input;
        return;
      }
      assert password == LineAt(input, 0);
      assert input[1..] == conn.incoming;
      admitted, userType := JudgePassword(conn, u, password.value, input, sent0);
    }

    /** The checks process_login applies to a password it has received. */
    method JudgePassword(conn: Connection<Reply>, u: string, p: string, ghost input: seq<string>, ghost sent0: seq<Reply>)
        returns (admitted: bool, userType: int)
      requires LineAt(input, 0) == Some(p) && conn.sent == sent0 + [Ask(Password)]
      modifies conn
      ensures var g := PasswordGate(credentials, u, input);
        conn.incoming == old(conn.incoming) && conn.sent == sent0 + g.replies
        && (admitted <==> g.Admitted?) && (admitted ==> userType == g.userType)
    {
      admitted, userType := false, 0;
      if |p| == 0 || |p| >= MaxPasswordLength {
        conn.Send(Say(InvalidPassword));
        return;
      }
      if ContainsInvalidChars(p) {
        conn.Send(Say(PasswordInvalidChars));
        return;
      }
      var t := CheckCredentials(u, p);
      if t > 0 {
        conn.Send(Welcome(u));
        return true, t;
      }
      conn.Send(Say(BadCredentials));
    }

    /** process_login */
    method ProcessLogin(conn: Connection<Reply>)
      modifies this, conn
      ensures Snapshot() == LoginSession(old(Snapshot()), old(conn.incoming)).files
      ensures conn.incoming == old(conn.incoming)[LoginSession(old(Snapshot()), old(conn.incoming)).used..]
      ensures conn.sent == old(conn.sent) + LoginSession(old(Snapshot()), old(conn.incoming)).replies
    {
      ghost var f0, in0, sent0 := Snapshot(), conn.incoming, conn.sent;
      ghost var g := LoginGate(credentials, pending, in0);
      var admitted, u, userType := LoginChecks(conn);
      if admitted {
        ShowMainMenu(conn, u, userType);
        ghost var m := MainMenu(u, userType, f0, in0[g.used..]);
        assert in0[g.used..][m.used..] == in0[g.used + m.used..];
        SentInBatches(sent0, g.replies, m.replies);
      }
    }

    /** The checks of process_registration, up to the append to the pending file. */
    method RegistrationChecks(conn: Connection<Reply>) returns (queued: Option<AccountRecord>)
      modifies conn
      ensures var g := RegistrationGate(AsWritten, credentials, pending, old(conn.incoming));
        conn.incoming == old(conn.incoming)[g.used..] && conn.sent == old(conn.sent) + g.replies
        && (queued.Some? <==> g.Queued?) && (queued.Some? ==> queued.value == g.account)
    {
      ghost var input, sent0 := conn.incoming, conn.sent;
      conn.Send(Ask(NewUsername));
      var name := conn.ReceiveLine();
      if name.None? {
        conn.Send(Say(UsernameNotReceived));
        assert input[0..] == input;
        return None;
      }
      assert name == LineAt(input, 0);
      var u := name.value;
      if |u| == 0 || |u| >= MaxUsernameLength {
        conn.Send(Say(InvalidUsername));
        return None;
      }
      if ContainsInvalidChars(u) {
        conn.Send(Say(UsernameInvalidChars));
        return None;
      }
      var taken := UsernameExists(u);
      if taken {
        conn.Send(Say(UsernameTaken));
        return None;
      }
      // The second scan of the pending file never finds the name: username_exists has just scanned it.
      var waiting := FindUser(pending, u);
      if waiting {
        assert false;
      }
      queued := AccountChecks(conn, u);
      ghost var g := AccountGate(u, input[1..]);
      assert input[1..][g.used..] == input[1 + g.used..];
      SentInBatches(sent0, [Ask(NewUsername)], g.replies);
    }

    /** The password and account-type checks of process_registration. */
    method AccountChecks(conn: Connection<Reply>, u: string) returns (queued: Option<AccountRecord>)
      modifies conn
      ensures var g := AccountGate(u, old(conn.incoming));
        conn.incoming == old(conn.incoming)[g.used..] && conn.sent == old(conn.sent) + g.replies
        && (queued.Some? <==> g.Queued?) && (queued.Some? ==> queued.value == g.account)
    {
      ghost var input := conn.incoming;
      conn.Send(Ask(NewPassword));
      var password := conn.ReceiveLine();
      if password.None? {
        conn.Send(Say(PasswordNotReceived));
        assert input[0..] == input;
        return None;
      }
      assert password == LineAt(input, 0);
      var p := password.value;
      if |p| < MinPasswordLength || |p| >= MaxPasswordLength {
        conn.Send(Say(InvalidNewPassword));
        return None;
      }
      conn.Send(Ask(UserTypeChoice));
      var choice := conn.ReceiveLine();
      assert choice == LineAt(input, 1);
      if choice.None? {
        conn.Send(Say(UserTypeNotReceived));
        return None;
      }
      var c := choice.value;
      if |c| != 1 || (c[0] != '1' && c[0] != '2') {
        conn.Send(Say(InvalidUserType));
        return None;
      }
      var userType := c[0] as int - '0' as int;
      var bad := ContainsInvalidFileChars(u);
      if !bad {
        bad := ContainsInvalidFileChars(p);
      }
      if bad {
        return None;
      }
      return Some(AccountRecord(u, p, userType));
    }

    /** One question of register_engineer's loops: the prompt, the answer,
        and the complaint sent about it, if any; what is left of Insist
        after it. */
    method AskOnce(conn: Connection<Reply>, q: Question) returns (answer: Option<string>, complaint: Option<Notice>)
      modifies conn
      ensures old(conn.incoming) == [] ==>
        answer.None? && conn.incoming == [] && conn.sent == old(conn.sent) + [Ask(QuestionPrompt(q))]
        && Insist(AsWritten, q, old(conn.incoming)) == Unanswered([Ask(QuestionPrompt(q))], 0)
      ensures old(conn.incoming) != [] ==>
        answer.Some? && conn.incoming == old(conn.incoming)[1..]
      ensures old(conn.incoming) != [] && complaint.None? ==>
        conn.sent == old(conn.sent) + [Ask(QuestionPrompt(q))]
        && Insist(AsWritten, q, old(conn.incoming)) == Answered(answer.value, [Ask(QuestionPrompt(q))], 1)
      ensures old(conn.incoming) != [] && complaint.Some? ==>
        conn.sent == old(conn.sent) + [Ask(QuestionPrompt(q)), Say(complaint.value)]
        && Insist(AsWritten, q, old(conn.incoming))
           == After([Ask(QuestionPrompt(q)), Say(complaint.value)], 1, Insist(AsWritten, q, conn.incoming))
    {
      conn.Send(Ask(QuestionPrompt(q)));
      answer := conn.ReceiveLine();
      complaint := None;
      if answer.None? {
        return;
      }
      var valid := IsValidInteger(answer.value);
      if !valid {
        complaint := Some(if q == YearsOfExperience then NotANumber else EducationNotYears);
      } else if q == YearsOfExperience {
        var years := AtoI(answer.value);
        if years > MaxExperience {
          complaint := Some(TooManyYears);
        }
      }
      assert complaint == Complaint(AsWritten, q, answer.value);
      if complaint.Some? {
        conn.Send(Say(complaint.value));
      }
    }

    /** The question loops of register_engineer: ask until an answer passes. */
    method AskUntilValid(conn: Connection<Reply>, q: Question) returns (answer: Option<string>)
      modifies conn
      ensures var a := Insist(AsWritten, q, old(conn.incoming));
        conn.incoming == old(conn.incoming)[a.used..] && conn.sent == old(conn.sent) + a.replies
        && (answer.Some? <==> a.Answered?) && (answer.Some? ==> answer.value == a.text)
    {
      ghost var in0, sent0 := conn.incoming, conn.sent;
      ghost var done: seq<Reply>, consumed: nat := [], 0;
      assert in0[0..] == in0;
      assert sent0 + [] == sent0;
      AfterNothing(Insist(AsWritten, q, in0));
      while true
        invariant consumed <= |in0| && conn.incoming == in0[consumed..]
        invariant conn.sent == sent0 + done
        invariant Insist(AsWritten, q, in0) == After(done, consumed, Insist(AsWritten, q, conn.incoming))
        decreases |conn.incoming|
      {
        ghost var input := conn.incoming;
        var complaint;
        answer, complaint := AskOnce(conn, q);
        if answer.None? {
          SentInBatches(sent0, done, [Ask(QuestionPrompt(q))]);
          return;
        }
        if complaint.None? {
          SentInBatches(sent0, done, [Ask(QuestionPrompt(q))]);
          return;
        }
        ghost var step := [Ask(QuestionPrompt(q)), Say(complaint.value)];
        InsistContinues(AsWritten, q, in0, done, consumed, step);
        SentInBatches(sent0, done, step);
        done, consumed := done + step, consumed + 1;
      }
    }

    /** register_engineer: the specialization, then the questions after it;
        a closed connection makes the C code pass NULL to strncpy, which
        ends the process. The profile line is appended to engineers.txt
        once the answers are in; the C code appends it just before the
        confirmation it sends, an order nothing here can observe. */
    method RegisterEngineer(conn: Connection<Reply>, u: string) returns (alive: bool)
      modifies this, conn
      ensures var r := EngineerDialogue(AsWritten, u, old(conn.incoming));
        Snapshot() == if r.Saved? then old(Snapshot()).(engineers := old(engineers) + SplitLines(FormatEngineer(r.profile)))
                      else old(Snapshot())
      ensures conn.incoming == old(conn.incoming)[EngineerDialogue(AsWritten, u, old(conn.incoming)).used..]
      ensures conn.sent == old(conn.sent) + EngineerDialogue(AsWritten, u, old(conn.incoming)).replies
      ensures alive <==> EngineerDialogue(AsWritten, u, old(conn.incoming)).Saved?
    {
      ghost var in0, sent0 := conn.incoming, conn.sent;
      conn.Send(Ask(Specialization));
      var spec := conn.ReceiveLine();
      if spec.None? {
        assert in0[0..] == in0;
        return false;
      }
      var profile := AskExperience(conn, u, spec.value);
      ghost var r := ExperienceDialogue(AsWritten, u, spec.value, in0[1..]);
      assert in0[1..][r.used..] == in0[1 + r.used..];
      SentInBatches(sent0, [Ask(Specialization)], r.replies);
      if profile.None? {
        return false;
      }
      engineers := engineers + SplitLines(FormatEngineer(profile.value));
      return true;
    }

    /** The experience loop of register_engineer and the questions after it. */
    method AskExperience(conn: Connection<Reply>, u: string, spec: string) returns (profile: Option<EngineerProfile>)
      modifies conn
      ensures conn.incoming == old(conn.incoming)[ExperienceDialogue(AsWritten, u, spec, old(conn.incoming)).used..]
      ensures conn.sent == old(conn.sent) + ExperienceDialogue(AsWritten, u, spec, old(conn.incoming)).replies
      ensures profile.Some? <==> ExperienceDialogue(AsWritten, u, spec, old(conn.incoming)).Saved?
      ensures profile.Some? ==> profile.value == ExperienceDialogue(AsWritten, u, spec, old(conn.incoming)).profile
    {
      ghost var in0, sent0 := conn.incoming, conn.sent;
      ghost var exp := Insist(AsWritten, YearsOfExperience, in0);
      ghost var e := ExperienceDialogue(AsWritten, u, spec, in0);
      ExperienceSteps(AsWritten, u, spec, in0);
      var years := AskUntilValid(conn, YearsOfExperience);
      if years.None? {
        assert e.used == exp.used && conn.incoming == in0[e.used..];
        return None;
      }
      ghost var r := EducationDialogue(AsWritten, u, spec, years.value, in0[exp.used..]);
      profile := AskEducation(conn, u, spec, years.value);
      assert in0[exp.used..][r.used..] == in0[exp.used + r.used..];
      assert e.used == exp.used + r.used && conn.incoming == in0[e.used..];
      SentInBatches(sent0, exp.replies, r.replies);
    }

    /** The education loop of register_engineer, then the skills. */
    method AskEducation(conn: Connection<Reply>, u: string, spec: string, years: string) returns (profile: Option<EngineerProfile>)
      modifies conn
      ensures conn.incoming == old(conn.incoming)[EducationDialogue(AsWritten, u, spec, years, old(conn.incoming)).used..]
      ensures conn.sent == old(conn.sent) + EducationDialogue(AsWritten, u, spec, years, old(conn.incoming)).replies
      ensures profile.Some? <==> EducationDialogue(AsWritten, u, spec, years, old(conn.incoming)).Saved?
      ensures profile.Some? ==> profile.value == EducationDialogue(AsWritten, u, spec, years, old(conn.incoming)).profile
    {
      ghost var in0, sent0 := conn.incoming, conn.sent;
      ghost var edu := Insist(AsWritten, YearsOfEducation, in0);
      var schooling := AskUntilValid(conn, YearsOfEducation);
      if schooling.None? {
        return None;
      }
      conn.Send(Ask(Skills));
      var skills := conn.ReceiveLine();
      if skills.None? {
        return None;
      }
      assert in0[edu.used..][1..] == in0[edu.used + 1..];
      conn.Send(Say(EngineerProfileCreated));
      return Some(EngineerProfile(u, spec, years, schooling.value, skills.value));
    }

    /** register_organization: three answers, each copied with strcpy, so
        a closed connection ends the process; then the profile line. */
    method RegisterOrganization(conn: Connection<Reply>, u: string) returns (alive: bool)
      modifies this, conn
      ensures var r := OrganizationDialogue(u, old(conn.incoming));
        Snapshot() == if r.Saved? then old(Snapshot()).(organizations := old(organizations) + SplitLines(FormatOrganization(r.profile)))
                      else old(Snapshot())
      ensures conn.incoming == old(conn.incoming)[OrganizationDialogue(u, old(conn.incoming)).used..]
      ensures conn.sent == old(conn.sent) + OrganizationDialogue(u, old(conn.incoming)).replies
      ensures alive <==> OrganizationDialogue(u, old(conn.incoming)).Saved?
    {
      ghost var in0 := conn.incoming;
      conn.Send(Ask(OrganizationName));
      var name := conn.ReceiveLine();
      if name.None? {
        assert in0[0..] == in0;
        return false;
      }
      conn.Send(Ask(Industry));
      var industry := conn.ReceiveLine();
      if industry.None? {
        return false;
      }
      assert in0[1..][1..] == in0[2..];
      conn.Send(Ask(Description));
      var description := conn.ReceiveLine();
      if description.None? {
        return false;
      }
      assert in0[2..][1..] == in0[3..];
      organizations := organizations + SplitLines(FormatOrganization(OrganizationProfile(u, name.value, industry.value, description.value)));
      conn.Send(Say(OrganizationProfileCreated));
      return true;
    }

    /** process_registration: the account checks, then what follows once
        the account is queued. */
    method ProcessRegistration(conn: Connection<Reply>) returns (alive: bool)
      modifies this, conn
      ensures Snapshot() == RegistrationSession(AsWritten, old(Snapshot()), old(conn.incoming)).files
      ensures conn.incoming == old(conn.incoming)[RegistrationSession(AsWritten, old(Snapshot()), old(conn.incoming)).used..]
      ensures conn.sent == old(conn.sent) + RegistrationSession(AsWritten, old(Snapshot()), old(conn.incoming)).replies
      ensures alive == RegistrationSession(AsWritten, old(Snapshot()), old(conn.incoming)).alive
    {
      ghost var f0, in0, sent0 := Snapshot(), conn.incoming, conn.sent;
      ghost var g := RegistrationGate(AsWritten, credentials, pending, in0);
      var queued := RegistrationChecks(conn);
      if queued.None? {
        return true;
      }
      alive := QueueAccount(conn, queued.value);
      ghost var q := QueuedSession(AsWritten, f0, queued.value, in0[g.used..]);
      assert in0[g.used..][q.used..] == in0[g.used + q.used..];
      SentInBatches(sent0, g.replies, q.replies);
    }

    /** The line appended to pending.txt, then the profile questions of the
        account's type. */
    method QueueAccount(conn: Connection<Reply>, a: AccountRecord) returns (alive: bool)
      modifies this, conn
      ensures Snapshot() == QueuedSession(AsWritten, old(Snapshot()), a, old(conn.incoming)).files
      ensures conn.incoming == old(conn.incoming)[QueuedSession(AsWritten, old(Snapshot()), a, old(conn.incoming)).used..]
      ensures conn.sent == old(conn.sent) + QueuedSession(AsWritten, old(Snapshot()), a, old(conn.incoming)).replies
      ensures alive == QueuedSession(AsWritten, old(Snapshot()), a, old(conn.incoming)).alive
    {
      ghost var sent0 := conn.sent;
      pending := pending + SplitLines(FormatAccount(a));
      conn.Send(ProfileIntro(a.userType));
      ghost var f1 := Snapshot();
      if a.userType == 1 {
        alive := FinishEngineer(conn, a.username);
        SentInBatches(sent0, [ProfileIntro(a.userType)], EngineerSession(AsWritten, f1, a.username, old(conn.incoming)).replies);
      } else {
        alive := FinishOrganization(conn, a.username);
        SentInBatches(sent0, [ProfileIntro(a.userType)], OrganizationSession(f1, a.username, old(conn.incoming)).replies);
      }
    }

    /** register_engineer, then the notice that the account waits for approval. */
    method FinishEngineer(conn: Connection<Reply>, u: string) returns (alive: bool)
      modifies this, conn
      ensures Snapshot() == EngineerSession(AsWritten, old(Snapshot()), u, old(conn.incoming)).files
      ensures conn.incoming == old(conn.incoming)[EngineerSession(AsWritten, old(Snapshot()), u, old(conn.incoming)).used..]
      ensures conn.sent == old(conn.sent) + EngineerSession(AsWritten, old(Snapshot()), u, old(conn.incoming)).replies
      ensures alive == EngineerSession(AsWritten, old(Snapshot()), u, old(conn.incoming)).alive
    {
      alive := RegisterEngineer(conn, u);
      if alive {
        conn.Send(Say(RegistrationPending));
      }
    }

    /** register_organization, then the notice that the account waits for approval. */
    method FinishOrganization(conn: Connection<Reply>, u: string) returns (alive: bool)
      modifies this, conn
      ensures Snapshot() == OrganizationSession(old(Snapshot()), u, old(conn.incoming)).files
      ensures conn.incoming == old(conn.incoming)[OrganizationSession(old(Snapshot()), u, old(conn.incoming)).used..]
      ensures conn.sent == old(conn.sent) + OrganizationSession(old(Snapshot()), u, old(conn.incoming)).replies
      ensures alive == OrganizationSession(old(Snapshot()), u, old(conn.incoming)).alive
    {
      alive := RegisterOrganization(conn, u);
      if alive {
        conn.Send(Say(RegistrationPending));
      }
    }

    /** One turn of process_client: show_login_menu, then the switch on its
        choice. A closed connection ends the session here (corrected: the C
        code sees -1 and takes the default branch again and again, forever
        once process_login has closed the socket). */
    method LoginMenuTurn(conn: Connection<Reply>) returns (more: bool)
      modifies this, conn
      ensures Snapshot() == ClientTurn(AsWritten, old(Snapshot()), old(conn.incoming)).step.files
      ensures conn.incoming == old(conn.incoming)[ClientTurn(AsWritten, old(Snapshot()), old(conn.incoming)).step.used..]
      ensures conn.sent == old(conn.sent) + ClientTurn(AsWritten, old(Snapshot()), old(conn.incoming)).step.replies
      ensures more == ClientTurn(AsWritten, old(Snapshot()), old(conn.incoming)).more
    {
      ghost var f0, in0, sent0 := Snapshot(), conn.incoming, conn.sent;
      conn.Send(LoginMenu);
      var chunk := conn.Receive();
      if chunk.None? {
        assert in0[0..] == in0;
        return false;
      }
      var choice := ShowLoginMenu(chunk);
      if choice == 1 {
        ProcessLogin(conn);
        ghost var l := LoginSession(f0, in0[1..]);
        assert in0[1..][l.used..] == in0[1 + l.used..];
        SentInBatches(sent0, [LoginMenu], l.replies);
        more := true;
      } else if choice == 2 {
        more := ProcessRegistration(conn);
        ghost var r := RegistrationSession(AsWritten, f0, in0[1..]);
        assert in0[1..][r.used..] == in0[1 + r.used..];
        SentInBatches(sent0, [LoginMenu], r.replies);
      } else if choice == 3 {
        conn.Send(Say(Goodbye));
        more := false;
      } else {
        conn.Send(Say(InvalidLoginChoice));
        more := true;
      }
    }

    /** process_client: login-menu turns until one ends the loop. */
    method ProcessClient(conn: Connection<Reply>)
      modifies this, conn
      ensures Snapshot() == ClientSession(AsWritten, old(Snapshot()), old(conn.incoming)).files
      ensures conn.incoming == old(conn.incoming)[ClientSession(AsWritten, old(Snapshot()), old(conn.incoming)).used..]
      ensures conn.sent == old(conn.sent) + ClientSession(AsWritten, old(Snapshot()), old(conn.incoming)).replies
    {
      ghost var f0, in0, sent0 := Snapshot(), conn.incoming, conn.sent;
      ghost var done: seq<Reply>, consumed: nat := [], 0;
      assert in0[0..] == in0;
      while true
        invariant consumed <= |in0| && conn.incoming == in0[consumed..]
        invariant conn.sent == sent0 + done
        invariant ClientSession(AsWritten, f0, in0) == Prefixed(done, consumed, ClientSession(AsWritten, Snapshot(), conn.incoming))
        decreases |conn.incoming|
      {
        ghost var f, input := Snapshot(), conn.incoming;
        ghost var t := ClientTurn(AsWritten, f, input);
        var more := LoginMenuTurn(conn);
        assert in0[consumed..][t.step.used..] == in0[consumed + t.step.used..];
        SentInBatches(sent0, done, t.step.replies);
        if !more {
          return;
        }
        PrefixedTwice(done, consumed, t.step.replies, t.step.used, ClientSession(AsWritten, Snapshot(), conn.incoming));
        done, consumed := done + t.step.replies, consumed + t.step.used;
      }
    }
  }
}
