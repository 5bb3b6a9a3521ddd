/** The earlier server of etapa2.c: a registry of online users kept in a
    fixed array, a check_credentials without the administrator shortcut,
    and a registration that writes straight to the active accounts. */
module Stage2 {
  import opened CText
  import opened Validation
  import opened Records
  import opened Messages
  import opened Dialogues
  import opened Sessions
  import opened Channel
  import Platform

  // ---------------------------------------------------------------------
  // The online-user registry: users[MAX_USERS] and numUsers

  /** An entry of users[]. */
  datatype User = User(username: string, password: string, userType: int, socketFd: int, isOnline: bool)

  /** The first of the n entries in use that carries the name u. */
  function FirstListed(users: seq<User>, n: nat, u: string): (r: Option<nat>)
    requires n <= |users|
    ensures r.Some? ==> (r.value < n && users[r.value].username == u
      && forall j :: 0 <= j < r.value ==> users[j].username != u)
    ensures r.None? ==> forall j :: 0 <= j < n ==> users[j].username != u
  {
    if n == 0 then None
    else match FirstListed(users, n - 1, u)
      case Some(i) => Some(i)
      case None => if users[n - 1].username == u then Some(n - 1) else None
  }

  /** add_user_to_online_list on the contents of users[] and numUsers: a
      full registry is left alone, a listed name is marked online on its
      first entry with the new socket, any other name takes entry n. */
  function AddOnline(users: seq<User>, n: nat, u: string, p: string, t: int, fd: int): (r: (seq<User>, nat))
    requires n <= |users| == MaxUsers
    ensures |r.0| == MaxUsers && r.1 <= MaxUsers
  {
    if n >= MaxUsers then (users, n)
    else match FirstListed(users, n, u)
      case Some(i) => (users[i := users[i].(isOnline := true, socketFd := fd)], n)
      case None => (users[n := User(u, p, t, fd, true)], n + 1)
  }

  /** The logout branch of show_main_menu: the first entry in use with the
      name is marked offline. */
  function MarkOffline(users: seq<User>, n: nat, u: string): (r: seq<User>)
    requires n <= |users|
    ensures |r| == |users|
  {
    match FirstListed(users, n, u)
    case Some(i) => users[i := users[i].(isOnline := false)]
    case None => users
  }

  /** A full registry changes for no one, not even for a name it lists. */
  lemma AddOnlineFull(users: seq<User>, n: nat, u: string, p: string, t: int, fd: int)
    requires n <= |users| == MaxUsers && n >= MaxUsers
    ensures AddOnline(users, n, u, p, t, fd) == (users, n)
  {
  }

  /** A listed name: only its first entry changes, and only its online
      flag and socket; the count stays. */
  lemma AddOnlineListed(users: seq<User>, n: nat, u: string, p: string, t: int, fd: int, i: nat)
    requires n <= |users| == MaxUsers && n < MaxUsers
    requires i < n && users[i].username == u && forall j :: 0 <= j < i ==> users[j].username != u
    ensures var r := AddOnline(users, n, u, p, t, fd);
      r.1 == n && r.0[i] == users[i].(isOnline := true, socketFd := fd)
      && forall j :: 0 <= j < |users| && j != i ==> r.0[j] == users[j]
  {
  }

  /** A new name takes entry n, online with the given fields, and the
      count grows by one; no other entry changes. */
  lemma AddOnlineNew(users: seq<User>, n: nat, u: string, p: string, t: int, fd: int)
    requires n <= |users| == MaxUsers && n < MaxUsers
    requires forall j :: 0 <= j < n ==> users[j].username != u
    ensures var r := AddOnline(users, n, u, p, t, fd);
      r.1 == n + 1 && r.0[n] == User(u, p, t, fd, true)
      && forall j :: 0 <= j < |users| && j != n ==> r.0[j] == users[j]
  {
  }

  /** Unless the registry was full, the name is listed and online afterwards. */
  lemma AddOnlineThenListed(users: seq<User>, n: nat, u: string, p: string, t: int, fd: int)
    requires n <= |users| == MaxUsers && n < MaxUsers
    ensures var r := AddOnline(users, n, u, p, t, fd);
      var k := FirstListed(r.0, r.1, u);
      k.Some? && r.0[k.value].isOnline && r.0[k.value].socketFd == fd
  {
    var r := AddOnline(users, n, u, p, t, fd);
    match FirstListed(users, n, u)
    case Some(i) =>
      AddOnlineListed(users, n, u, p, t, fd, i);
      FirstListedSame(users, r.0, n, u, i);
    case None =>
      AddOnlineNew(users, n, u, p, t, fd);
  }

  /** Changing entry i but not its name, nor any name before it, keeps i
      the first entry with that name. */
  lemma FirstListedSame(users: seq<User>, users2: seq<User>, n: nat, u: string, i: nat)
    requires n <= |users| == |users2| && i < n
    requires FirstListed(users, n, u) == Some(i) && users2[i].username == u
    requires forall j :: 0 <= j < |users| && j != i ==> users2[j] == users[j]
    ensures FirstListed(users2, n, u) == Some(i)
  {
  }

  /** Listing the same user twice is listing it once. */
  lemma AddOnlineTwice(users: seq<User>, n: nat, u: string, p: string, t: int, fd: int)
    requires n <= |users| == MaxUsers
    ensures var r := AddOnline(users, n, u, p, t, fd);
      AddOnline(r.0, r.1, u, p, t, fd) == r
  {
    var r := AddOnline(users, n, u, p, t, fd);
    if r.1 < MaxUsers {
      AddOnlineThenListed(users, n, u, p, t, fd);
      var k := FirstListed(r.0, r.1, u);
      assert r.0[k.value := r.0[k.value].(isOnline := true, socketFd := fd)] == r.0;
    }
  }

  /** Logging out marks the first entry with the name offline and changes
      nothing else; a name not listed changes nothing. */
  lemma LogoutExactly(users: seq<User>, n: nat, u: string)
    requires n <= |users|
    ensures var r := MarkOffline(users, n, u);
      match FirstListed(users, n, u)
      case Some(i) => !r[i].isOnline && r[i] == users[i].(isOnline := false)
        && forall j :: 0 <= j < |users| && j != i ==> r[j] == users[j]
      case None => r == users
  {
  }

  /** users[] with its counter; the array always has MAX_USERS entries. */
  class Presence {
    const users: array<User>
    var numUsers: nat

    ghost predicate Valid()
      reads this
    {
      users.Length == MaxUsers && numUsers <= MaxUsers
    }

    /** The zero-initialised global array. */
    constructor()
      ensures Valid() && numUsers == 0 && fresh(users)
    {
      users := new User[MaxUsers](_ => User("", "", 0, 0, false));
      numUsers := 0;
    }

    /** add_user_to_online_list */
    method AddUserToOnlineList(u: string, p: string, t: int, fd: int)
      requires Valid()
      modifies this, users
      ensures Valid()
      ensures (users[..], numUsers) == AddOnline(old(users[..]), old(numUsers), u, p, t, fd)
    {
      if numUsers >= MaxUsers {
        return;
      }
      var i := 0;
      while i < numUsers
        invariant 0 <= i <= numUsers
        invariant forall j :: 0 <= j < i ==> users[j].username != u
        invariant users[..] == old(users[..])
      {
        if users[i].username == u {
          users[i] := users[i].(isOnline := true, socketFd := fd);
          return;
        }
        i := i + 1;
      }
      users[numUsers] := User(u, p, t, fd, true);
      numUsers := numUsers + 1;
    }

    /** The loop of the logout branch of show_main_menu. */
    method Logout(u: string)
      requires Valid()
      modifies users
      ensures users[..] == MarkOffline(old(users[..]), numUsers, u)
    {
      var i := 0;
      while i < numUsers
        invariant 0 <= i <= numUsers
        invariant forall j :: 0 <= j < i ==> users[j].username != u
        invariant users[..] == old(users[..])
      {
        if users[i].username == u {
          users[i] := users[i].(isOnline := false);
          return;
        }
        i := i + 1;
      }
    }
  }

  // ---------------------------------------------------------------------
  // Reading answers

  /** The i-th string receive_string of etapa2.c returns: the chunk without
      one trailing newline, or "" once the client has closed (never NULL in
      this variant). */
  function Received(input: seq<string>, i: nat): string {
    if i < |input| then StripNewline(input[i]) else ""
  }

  /** How many chunks k calls of receive_string take: none after the end. */
  function Reads(input: seq<string>, k: nat): (n: nat)
    ensures n <= |input| && n <= k
    ensures k <= |input| ==> n == k
  {
    if k <= |input| then k else |input|
  }

  /** After k calls, the next j calls see the answers k, k+1, ... */
  lemma ReadsAfter(input: seq<string>, k: nat, j: nat)
    ensures var rest := input[Reads(input, k)..];
      Received(rest, j) == Received(input, k + j)
      && Reads(input, k) + Reads(rest, j) == Reads(input, k + j)
      && rest[Reads(rest, j)..] == input[Reads(input, k + j)..]
  {
  }

  /** receive_string of etapa2.c */
  method ReceiveString(conn: Connection<Reply>) returns (s: string)
    modifies conn
    ensures s == Received(old(conn.incoming), 0)
    ensures conn.incoming == old(conn.incoming)[Reads(old(conn.incoming), 1)..]
    ensures conn.sent == old(conn.sent)
  {
    var line := conn.ReceiveLine();
    s := if line.Some? then line.value else "";
  }

  // ---------------------------------------------------------------------
  // Login

  /** check_credentials of etapa2.c: the type of the first line sscanf reads
      as "%s %s %d" with the given name and password, 0 if none. */
  function ScannedType(lines: seq<string>, u: string, p: string): int {
    if |lines| == 0 then 0
    else match ScanAccount(lines[0])
      case Some(r) => if r.username == u && r.password == p then r.userType else ScannedType(lines[1..], u, p)
      case None => ScannedType(lines[1..], u, p)
  }

  /** A line sscanf reads as an account with the name and password. */
  predicate ScansAs(line: string, u: string, p: string) {
    ScanAccount(line).Some? && ScanAccount(line).value.username == u && ScanAccount(line).value.password == p
  }

  /** etapa2.c's check_credentials returns 0 when no line matches ... */
  lemma {:induction false} ScannedTypeNoMatch(lines: seq<string>, u: string, p: string)
    requires forall j :: 0 <= j < |lines| ==> !ScansAs(lines[j], u, p)
    ensures ScannedType(lines, u, p) == 0
  {
    if |lines| > 0 {
      assert forall j :: 0 <= j < |lines| - 1 ==> lines[1..][j] == lines[j + 1];
      ScannedTypeNoMatch(lines[1..], u, p);
    }
  }

  /** ... and otherwise the type of the first matching line; unlike
      etapa2.4.c it has no shortcut for admin/admin. */
  lemma {:induction false} ScannedTypeFirstMatch(lines: seq<string>, u: string, p: string, i: nat)
    requires i < |lines| && ScansAs(lines[i], u, p)
    requires forall j :: 0 <= j < i ==> !ScansAs(lines[j], u, p)
    ensures ScannedType(lines, u, p) == ScanAccount(lines[i]).value.userType
  {
    if i > 0 {
      var rest := lines[1..];
      assert ScannedType(lines, u, p) == ScannedType(rest, u, p) by {
        assert !ScansAs(lines[0], u, p);
      }
      forall j | 0 <= j < i - 1
        ensures !ScansAs(rest[j], u, p)
      {
        assert rest[j] == lines[j + 1];
      }
      assert rest[i - 1] == lines[i];
      ScannedTypeFirstMatch(rest, u, p, i - 1);
    }
  }

  /** With no admin line in the file, etapa2.c refuses admin/admin, which
      etapa2.4.c lets in as type 3. */
  lemma NoAdminShortcut()
    ensures ScannedType([], AdminName, AdminName) == 0
    ensures CheckCredentials(AdminName, AdminName, Some([])) == 3
  {
  }

  /** process_login of etapa2.c up to show_main_menu: name and password are
      taken as received, without checks. */
  function ScannedLogin(cred: seq<string>, input: seq<string>): (r: LoginOutcome)
    ensures r.used <= |input|
  {
    var u, p := Received(input, 0), Received(input, 1);
    var t := ScannedType(cred, u, p);
    if t > 0 then Admitted(u, t, [Ask(Username), Ask(Password), Welcome(u)], Reads(input, 2))
    else Refused([Ask(Username), Ask(Password), Say(BadCredentials)], Reads(input, 2))
  }

  /** A login of etapa2.c, with the main menu of the account it lets in. */
  function ScannedLoginSession(f: Files, input: seq<string>): (s: Session)
    ensures s.used <= |input| && s.alive && s.files == f
  {
    match ScannedLogin(f.credentials, input)
    case Refused(rs, n) => Session(f, rs, n, true)
    case Admitted(u, t, rs, n) => Prefixed(rs, n, UserSession(u, t, f, input[n..]))
  }

  /** One turn of the main menu chooses option 6. */
  predicate LogsOut(userType: int, input: seq<string>) {
    |input| > 0 && UserMenuAction(userType, AtoI(input[0])) == Logout
  }

  /** show_main_menu ends by option 6 rather than by a closed connection:
      some chunk chooses option 6 (every other chunk is one turn). */
  predicate EndsInLogout(userType: int, input: seq<string>)
    decreases |input|
  {
    |input| > 0 && (LogsOut(userType, input) || EndsInLogout(userType, input[1..]))
  }

  /** One more turn of the main menu after `consumed` chunks and the
      replies `done`: how the session and the way it ends carry over. */
  lemma MenuStep(u: string, userType: int, f: Files, in0: seq<string>, done: seq<Reply>, consumed: nat)
    requires consumed <= |in0|
    requires UserSession(u, userType, f, in0) == Prefixed(done, consumed, UserSession(u, userType, f, in0[consumed..]))
    requires EndsInLogout(userType, in0) == EndsInLogout(userType, in0[consumed..])
    ensures var t := UserTurn(u, userType, f, in0[consumed..]);
      consumed + t.step.used <= |in0| && in0[consumed..][t.step.used..] == in0[consumed + t.step.used..]
      && (t.more ==> (UserSession(u, userType, f, in0)
                        == Prefixed(done + t.step.replies, consumed + t.step.used, UserSession(u, userType, f, in0[consumed + t.step.used..]))
                      && EndsInLogout(userType, in0) == EndsInLogout(userType, in0[consumed + t.step.used..])))
      && (!t.more ==> (UserSession(u, userType, f, in0) == Prefixed(done, consumed, t.step)
                       && (EndsInLogout(userType, in0) <==> LogsOut(userType, in0[consumed..]))))
  {
    var input := in0[consumed..];
    var t := UserTurn(u, userType, f, input);
    assert input[t.step.used..] == in0[consumed + t.step.used..];
    if t.more {
      PrefixedTwice(done, consumed, t.step.replies, t.step.used, UserSession(u, userType, f, input[t.step.used..]));
    }
  }

  /** The main menu has ended by option 6 exactly when its last message is
      "Logging out...". */
  lemma {:induction false} EndsInLogoutExactly(u: string, userType: int, f: Files, input: seq<string>)
    ensures var rs := UserSession(u, userType, f, input).replies;
      |rs| > 0 && (EndsInLogout(userType, input) <==> rs[|rs| - 1] == Say(LoggingOut))
    decreases |input|
  {
    var t := UserTurn(u, userType, f, input);
    if t.more {
      EndsInLogoutExactly(u, userType, f, input[t.step.used..]);
    }
  }

  /** The registry after a login of etapa2.c: the admitted user is added,
      and marked offline again if the menu ends by option 6. */
  function PresenceAfterLogin(users: seq<User>, n: nat, f: Files, input: seq<string>, fd: int): (r: (seq<User>, nat))
    requires n <= |users| == MaxUsers
    ensures |r.0| == MaxUsers && r.1 <= MaxUsers
  {
    match ScannedLogin(f.credentials, input)
    case Refused(_, _) => (users, n)
    case Admitted(u, t, _, k) =>
      var (us, m) := AddOnline(users, n, u, Received(input, 1), t, fd);
      (if EndsInLogout(t, input[k..]) then MarkOffline(us, m, u) else us, m)
  }

  /** A user who logs in and leaves by option 6 is listed, and offline. */
  lemma LoginThenLogout(users: seq<User>, n: nat, f: Files, input: seq<string>, fd: int)
    requires n <= |users| == MaxUsers && n < MaxUsers
    requires ScannedLogin(f.credentials, input).Admitted?
    ensures var g := ScannedLogin(f.credentials, input);
      var r := PresenceAfterLogin(users, n, f, input, fd);
      var i := FirstListed(r.0, r.1, g.username);
      i.Some? && (r.0[i.value].isOnline <==> !EndsInLogout(g.userType, input[g.used..]))
  {
    var g := ScannedLogin(f.credentials, input);
    var (us, m) := AddOnline(users, n, g.username, Received(input, 1), g.userType, fd);
    AddOnlineThenListed(users, n, g.username, Received(input, 1), g.userType, fd);
    LogoutExactly(us, m, g.username);
  }

  // ---------------------------------------------------------------------
  // Registration

  /** process_registration of etapa2.c up to the append: a name already in
      credentials.txt is refused before the password is asked. */
  function DirectGate(cred: seq<string>, input: seq<string>): (r: RegistrationOutcome)
    ensures r.used <= |input|
  {
    var u := Received(input, 0);
    if ScanForUser(cred, u) then Rejected([Ask(NewUsername), Say(UsernameTaken)], Reads(input, 1))
    else
      var n := Reads(input, 1);
      match DirectAccountGate(u, input[n..])
      case Rejected(rs, k) => Rejected([Ask(NewUsername)] + rs, n + k)
      case Queued(a, rs, k) => Queued(a, [Ask(NewUsername)] + rs, n + k)
  }

  /** The rest of DirectGate: an atoi type other than 1 or 2 is refused; the
      name and the password themselves are not checked. */
  function DirectAccountGate(u: string, input: seq<string>): (r: RegistrationOutcome)
    ensures r.used <= |input|
    ensures r.Queued? ==> r.account.username == u
  {
    var t := AtoI(Received(input, 1));
    var asked := [Ask(NewPassword), Ask(UserTypeChoice)];
    if t != 1 && t != 2 then Rejected(asked + [Say(InvalidUserType)], Reads(input, 2))
    else Queued(AccountRecord(u, Received(input, 0), t), asked, Reads(input, 2))
  }

  /** process_registration of etapa2.c: the account accepted by DirectGate
      goes straight to credentials.txt and the profile questions follow. */
  function DirectRegistration(f: Files, input: seq<string>): (s: Session)
    ensures s.used <= |input| && s.alive
  {
    match DirectGate(f.credentials, input)
    case Rejected(rs, n) => Session(f, rs, n, true)
    case Queued(a, rs, n) => Prefixed(rs, n, DirectAccount(f, a, input[n..]))
  }

  /** What process_registration of etapa2.c does with an accepted account:
      credentials.txt gains its line, then the profile questions of its type. */
  function DirectAccount(f: Files, a: AccountRecord, input: seq<string>): (s: Session)
    ensures s.used <= |input| && s.alive
  {
    var f1 := f.(credentials := f.credentials + SplitLines(FormatAccount(a)));
    Prefixed([Say(RegistrationSuccessful), ProfileIntro(a.userType)], 0,
             if a.userType == 1 then DirectEngineer(f1, a.username, input)
             else DirectOrganization(f1, a.username, input))
  }

  /** The profile register_engineer of etapa2.c builds: its four answers,
      in the order asked, under the new account's name. */
  function DirectProfile(u: string, input: seq<string>): EngineerProfile {
    EngineerProfile(u, Received(input, 0), Received(input, 1), Received(input, 2), Received(input, 3))
  }

  /** register_engineer of etapa2.c: the four answers are saved as given. */
  function DirectEngineer(f: Files, u: string, input: seq<string>): (s: Session)
    ensures s.used <= |input| && s.alive
  {
    var p := DirectProfile(u, input);
    Session(f.(engineers := f.engineers + SplitLines(FormatEngineer(p))),
            [Ask(Specialization), Ask(Experience), Ask(EducationText), Ask(Skills), Say(EngineerProfileCreated)],
            Reads(input, 4), true)
  }

  /** The profile register_organization of etapa2.c builds: its three
      answers under the new account's name. */
  function DirectOrganizationProfile(u: string, input: seq<string>): OrganizationProfile {
    OrganizationProfile(u, Received(input, 0), Received(input, 1), Received(input, 2))
  }

  /** register_organization of etapa2.c: the three answers are saved as given. */
  function DirectOrganization(f: Files, u: string, input: seq<string>): (s: Session)
    ensures s.used <= |input| && s.alive
  {
    var p := DirectOrganizationProfile(u, input);
    Session(f.(organizations := f.organizations + SplitLines(FormatOrganization(p))),
            [Ask(OrganizationName), Ask(Industry), Ask(Description), Say(OrganizationProfileCreated)],
            Reads(input, 3), true)
  }

  /** etapa2.c's registration accepts an account exactly when its name is
      not the first word of a line of credentials.txt and the third answer
      reads as type 1 or 2; the account is then the three answers as sent.
      A name already taken is refused before the password is asked. */
  lemma DirectGateExactly(cred: seq<string>, input: seq<string>)
    ensures DirectGate(cred, input).Queued? <==>
      !HasUser(cred, Received(input, 0)) && (AtoI(Received(input, 2)) == 1 || AtoI(Received(input, 2)) == 2)
    ensures DirectGate(cred, input).Queued? ==>
      DirectGate(cred, input).account == AccountRecord(Received(input, 0), Received(input, 1), AtoI(Received(input, 2)))
    ensures HasUser(cred, Received(input, 0)) ==>
      DirectGate(cred, input) == Rejected([Ask(NewUsername), Say(UsernameTaken)], Reads(input, 1))
  {
    ReadsAfter(input, 1, 0);
    ReadsAfter(input, 1, 1);
  }

  /** What etapa2.c's registration writes: nothing when the account is
      refused; otherwise the account's line goes straight to credentials.txt,
      pending.txt is untouched, and the profile line is appended to the file
      of the account's type. */
  lemma DirectRegistrationFiles(f: Files, input: seq<string>)
    ensures var g := DirectGate(f.credentials, input);
      var s := DirectRegistration(f, input);
      (g.Rejected? ==> s.files == f)
      && (g.Queued? ==>
        s.files.credentials == f.credentials + SplitLines(FormatAccount(g.account))
        && s.files.pending == f.pending
        && (g.account.userType == 1 ==>
          s.files.engineers == f.engineers + SplitLines(FormatEngineer(DirectProfile(g.account.username, input[g.used..])))
          && s.files.organizations == f.organizations)
        && (g.account.userType != 1 ==>
          s.files.organizations == f.organizations + SplitLines(FormatOrganization(DirectOrganizationProfile(g.account.username, input[g.used..])))
          && s.files.engineers == f.engineers))
  {
  }

  /** An account registered through etapa2.c logs in at once with the
      password and type sent, provided its name and password are single
      words, all that sscanf's "%s" reads back. */
  lemma DirectRegisteredLogsIn(f: Files, input: seq<string>)
    requires DirectGate(f.credentials, input).Queued?
    requires FieldOk(DirectGate(f.credentials, input).account.username)
    requires FieldOk(DirectGate(f.credentials, input).account.password)
    ensures var a := DirectGate(f.credentials, input).account;
      ScannedType(DirectRegistration(f, input).files.credentials, a.username, a.password) == a.userType
  {
    var a := DirectGate(f.credentials, input).account;
    DirectGateExactly(f.credentials, input);
    DirectRegistrationFiles(f, input);
    AccountRoundTrip(a);
    AppendedAccountLogsIn(f.credentials, a);
  }

  /** An account line appended to credentials.txt, where no line starts
      with its name, is the one check_credentials finds for its name and
      password. */
  lemma AppendedAccountLogsIn(cred: seq<string>, a: AccountRecord)
    requires Storable(a)
    requires !HasUser(cred, a.username)
    ensures ScannedType(cred + [FormatAccount(a)], a.username, a.password) == a.userType
  {
    AccountScans(a);
    var lines := cred + [FormatAccount(a)];
    forall j | 0 <= j < |cred|
      ensures !ScansAs(lines[j], a.username, a.password)
    {
      assert lines[j] == cred[j];
      assert FirstWord(cred[j]) != Some(a.username);
    }
    ScannedTypeFirstMatch(lines, a.username, a.password, |cred|);
  }

  /** The engineer profile etapa2.c saves is the one view_profile then
      finds, when its fields can be stored and no earlier line is keyed by
      the name. */
  lemma DirectEngineerViewed(f: Files, u: string, input: seq<string>)
    requires EngineerStorable(DirectProfile(u, input))
    requires forall i :: 0 <= i < |f.engineers| ==> ProfileKey(f.engineers[i]) != Some(u)
    ensures LookupEngineer(DirectEngineer(f, u, input).files.engineers, u) == Some(DirectProfile(u, input))
  {
    EngineerRoundTrip(DirectProfile(u, input));
    EngineerAppendThenView(f.engineers, DirectProfile(u, input));
  }

  /** The organization counterpart of DirectEngineerViewed. */
  lemma DirectOrganizationViewed(f: Files, u: string, input: seq<string>)
    requires OrganizationStorable(DirectOrganizationProfile(u, input))
    requires forall i :: 0 <= i < |f.organizations| ==> ProfileKey(f.organizations[i]) != Some(u)
    ensures LookupOrganization(DirectOrganization(f, u, input).files.organizations, u) == Some(DirectOrganizationProfile(u, input))
  {
    OrganizationRoundTrip(DirectOrganizationProfile(u, input));
    OrganizationAppendThenView(f.organizations, DirectOrganizationProfile(u, input));
  }

  /** The server of etapa2.c: the record files and the registry of users. */
  class Server {
    const files: Platform.Stores
    const online: Presence

    constructor(f: Files)
      ensures files.Snapshot() == f && online.Valid() && online.numUsers == 0
    {
      files := new Platform.Stores(f);
      online := new Presence();
    }

    /** username_exists of etapa2.c: only credentials.txt is scanned. */
    method UsernameExists(u: string) returns (b: bool)
      ensures b <==> HasUser(files.credentials, u)
    {
      b := Platform.FindUser(files.credentials, u);
    }

    /** check_credentials of etapa2.c */
    method CheckCredentials(u: string, p: string) returns (t: int)
      ensures t == ScannedType(files.credentials, u, p)
    {
      var i := 0;
      while i < |files.credentials|
        invariant 0 <= i <= |files.credentials|
        invariant ScannedType(files.credentials[i..], u, p) == ScannedType(files.credentials, u, p)
      {
        var r := ScanAccount(files.credentials[i]);
        assert files.credentials[i..][1..] == files.credentials[i + 1..];
        if r.Some? && r.value.username == u && r.value.password == p {
          return r.value.userType;
        }
        i := i + 1;
      }
      return 0;
    }

    /** One turn of show_main_menu of etapa2.c; loggedOut says that the
        turn chose option 6. */
    method MainMenuTurn(conn: Connection<Reply>, u: string, userType: int) returns (more: bool, loggedOut: bool)
      modifies conn
      ensures conn.incoming == old(conn.incoming)[UserTurn(u, userType, files.Snapshot(), old(conn.incoming)).step.used..]
      ensures conn.sent == old(conn.sent) + UserTurn(u, userType, files.Snapshot(), old(conn.incoming)).step.replies
      ensures more == UserTurn(u, userType, files.Snapshot(), old(conn.incoming)).more
      ensures loggedOut <==> LogsOut(userType, old(conn.incoming))
    {
      ghost var in0 := conn.incoming;
      conn.Send(UserMenu(userType));
      var chunk := conn.Receive();
      if chunk.None? {
        assert in0[0..] == in0;
        return false, false;
      }
      var choice := AtoI(chunk.value);
      more, loggedOut := true, false;
      if choice == 1 {
        files.ViewProfile(conn, u, userType);
      } else if choice == 2 {
        if userType == 1 {
          files.ListOrganizations(conn);
        } else {
          files.ListEngineers(conn);
        }
      } else if 3 <= choice <= 5 {
        conn.Send(Say(NotImplemented(choice)));
      } else if choice == 6 {
        conn.Send(Say(LoggingOut));
        more, loggedOut := false, true;
      } else {
        conn.Send(Say(InvalidChoice));
      }
    }

    /** show_main_menu of etapa2.c: turns until option 6 or a closed
        connection; option 6 also marks the user offline in the registry. */
    method ShowMainMenu(conn: Connection<Reply>, u: string, userType: int)
      requires online.Valid()
      modifies conn, online.users
      ensures conn.incoming == old(conn.incoming)[UserSession(u, userType, files.Snapshot(), old(conn.incoming)).used..]
      ensures conn.sent == old(conn.sent) + UserSession(u, userType, files.Snapshot(), old(conn.incoming)).replies
      ensures online.users[..] == if EndsInLogout(userType, old(conn.incoming))
        then MarkOffline(old(online.users[..]), online.numUsers, u) else old(online.users[..])
    {
      var loggedOut := EndOfMainMenu(conn, u, userType);
      if loggedOut {
        online.Logout(u);
      }
    }

    /** The loop of show_main_menu; loggedOut says that option 6 ended it. */
    method EndOfMainMenu(conn: Connection<Reply>, u: string, userType: int) returns (loggedOut: bool)
      modifies conn
      ensures conn.incoming == old(conn.incoming)[UserSession(u, userType, files.Snapshot(), old(conn.incoming)).used..]
      ensures conn.sent == old(conn.sent) + UserSession(u, userType, files.Snapshot(), old(conn.incoming)).replies
      ensures loggedOut == EndsInLogout(userType, old(conn.incoming))
    {
      ghost var f0, in0, sent0 := files.Snapshot(), conn.incoming, conn.sent;
      ghost var done: seq<Reply>, consumed: nat := [], 0;
      assert in0[0..] == in0;
      while true
        invariant consumed <= |in0| && conn.incoming == in0[consumed..]
        invariant conn.sent == sent0 + done
        invariant UserSession(u, userType, f0, in0) == Prefixed(done, consumed, UserSession(u, userType, f0, in0[consumed..]))
        invariant EndsInLogout(userType, in0) == EndsInLogout(userType, in0[consumed..])
        decreases |in0| - consumed
      {
        ghost var t := UserTurn(u, userType, f0, in0[consumed..]);
        MenuStep(u, userType, f0, in0, done, consumed);
        var more;
        more, loggedOut := MainMenuTurn(conn, u, userType);
        SentInBatches(sent0, done, t.step.replies);
        if !more {
          return;
        }
        done, consumed := done + t.step.replies, consumed + t.step.used;
      }
    }

    /** Two prompts, each followed by a receive_string of etapa2.c. */
    method AskTwice(conn: Connection<Reply>, first: Prompt, second: Prompt) returns (a: string, b: string)
      modifies conn
      ensures a == Received(old(conn.incoming), 0) && b == Received(old(conn.incoming), 1)
      ensures conn.incoming == old(conn.incoming)[Reads(old(conn.incoming), 2)..]
      ensures conn.sent == old(conn.sent) + [Ask(first), Ask(second)]
    {
      ghost var in0 := conn.incoming;
      conn.Send(Ask(first));
      a := ReceiveString(conn);
      ReadsAfter(in0, 1, 0);
      ReadsAfter(in0, 1, 1);
      conn.Send(Ask(second));
      b := ReceiveString(conn);
    }

    /** process_login of etapa2.c up to the welcome message: the name and the
        password as received, and what check_credentials makes of them. */
    method LoginChecks(conn: Connection<Reply>) returns (u: string, p: string, t: int)
      modifies conn
      ensures var g := ScannedLogin(files.credentials, old(conn.incoming));
        conn.incoming == old(conn.incoming)[g.used..] && conn.sent == old(conn.sent) + g.replies
        && u == Received(old(conn.incoming), 0) && p == Received(old(conn.incoming), 1)
        && (t > 0 <==> g.Admitted?) && (g.Admitted? ==> g.username == u && g.userType == t)
    {
      u, p := AskTwice(conn, Username, Password);
      t := CheckCredentials(u, p);
      if t > 0 {
        conn.Send(Welcome(u));
      } else {
        conn.Send(Say(BadCredentials));
      }
    }

    /** process_login of etapa2.c: an admitted user is added to the registry
        and gets the main menu. */
    method ProcessLogin(conn: Connection<Reply>, fd: int)
      requires online.Valid()
      modifies conn, online, online.users
      ensures online.Valid()
      ensures conn.incoming == old(conn.incoming)[ScannedLoginSession(files.Snapshot(), old(conn.incoming)).used..]
      ensures conn.sent == old(conn.sent) + ScannedLoginSession(files.Snapshot(), old(conn.incoming)).replies
      ensures (online.users[..], online.numUsers)
        == PresenceAfterLogin(old(online.users[..]), old(online.numUsers), files.Snapshot(), old(conn.incoming), fd)
    {
      ghost var in0, sent0 := conn.incoming, conn.sent;
      ghost var users0, n0 := online.users[..], online.numUsers;
      ghost var f := files.Snapshot();
      ghost var g := ScannedLogin(files.credentials, in0);
      var u, p, t := LoginChecks(conn);
      if t > 0 {
        ghost var m := UserSession(u, t, f, in0[g.used..]);
        assert ScannedLoginSession(f, in0) == Prefixed(g.replies, g.used, m);
        assert PresenceAfterLogin(users0, n0, f, in0, fd)
          == (var r := AddOnline(users0, n0, u, p, t, fd);
              (if EndsInLogout(t, in0[g.used..]) then MarkOffline(r.0, r.1, u) else r.0, r.1));
        LoggedIn(conn, u, p, t, fd);
        assert in0[g.used..][m.used..] == in0[g.used + m.used..];
        SentInBatches(sent0, g.replies, m.replies);
      } else {
        assert ScannedLoginSession(f, in0) == Session(f, g.replies, g.used, true);
        assert PresenceAfterLogin(users0, n0, f, in0, fd) == (users0, n0);
      }
    }

    /** The admitted branch of process_login of etapa2.c: the user is added
        to the registry, then the main menu runs. */
    method LoggedIn(conn: Connection<Reply>, u: string, p: string, t: int, fd: int)
      requires online.Valid()
      modifies conn, online, online.users
      ensures online.Valid()
      ensures conn.incoming == old(conn.incoming)[UserSession(u, t, files.Snapshot(), old(conn.incoming)).used..]
      ensures conn.sent == old(conn.sent) + UserSession(u, t, files.Snapshot(), old(conn.incoming)).replies
      ensures var r := AddOnline(old(online.users[..]), old(online.numUsers), u, p, t, fd);
        online.numUsers == r.1
        && online.users[..] == if EndsInLogout(t, old(conn.incoming)) then MarkOffline(r.0, r.1, u) else r.0
    {
      online.AddUserToOnlineList(u, p, t, fd);
      ShowMainMenu(conn, u, t);
    }

    /** add_user_to_file of etapa2.c: the account line goes straight to
        credentials.txt. */
    method AddUserToFile(u: string, p: string, t: int)
      modifies files
      ensures files.Snapshot() == old(files.Snapshot()).(credentials := old(files.credentials) + SplitLines(FormatAccount(AccountRecord(u, p, t))))
    {
      files.credentials := files.credentials + SplitLines(FormatAccount(AccountRecord(u, p, t)));
    }

    /** process_registration of etapa2.c up to the append to credentials.txt. */
    method DirectChecks(conn: Connection<Reply>) returns (queued: Option<AccountRecord>)
      modifies conn
      ensures var g := DirectGate(files.credentials, old(conn.incoming));
        conn.incoming == old(conn.incoming)[g.used..] && conn.sent == old(conn.sent) + g.replies
        && (queued.Some? <==> g.Queued?) && (queued.Some? ==> queued.value == g.account)
    {
      ghost var in0, sent0 := conn.incoming, conn.sent;
      conn.Send(Ask(NewUsername));
      var u := ReceiveString(conn);
      var taken := UsernameExists(u);
      if taken {
        conn.Send(Say(UsernameTaken));
        return None;
      }
      ghost var n := Reads(in0, 1);
      queued := DirectAccountChecks(conn, u);
      ghost var g := DirectAccountGate(u, in0[n..]);
      assert in0[n..][g.used..] == in0[n + g.used..];
      SentInBatches(sent0, [Ask(NewUsername)], g.replies);
    }

    /** The password and type questions of process_registration of etapa2.c. */
    method DirectAccountChecks(conn: Connection<Reply>, u: string) returns (queued: Option<AccountRecord>)
      modifies conn
      ensures var g := DirectAccountGate(u, old(conn.incoming));
        conn.incoming == old(conn.incoming)[g.used..] && conn.sent == old(conn.sent) + g.replies
        && (queued.Some? <==> g.Queued?) && (queued.Some? ==> queued.value == g.account)
    {
      var p, choice := AskTwice(conn, NewPassword, UserTypeChoice);
      var t := AtoI(choice);
      if t != 1 && t != 2 {
        conn.Send(Say(InvalidUserType));
        return None;
      }
      return Some(AccountRecord(u, p, t));
    }

    /** process_registration of etapa2.c */
    method ProcessRegistration(conn: Connection<Reply>)
      modifies conn, files
      ensures files.Snapshot() == DirectRegistration(old(files.Snapshot()), old(conn.incoming)).files
      ensures conn.incoming == old(conn.incoming)[DirectRegistration(old(files.Snapshot()), old(conn.incoming)).used..]
      ensures conn.sent == old(conn.sent) + DirectRegistration(old(files.Snapshot()), old(conn.incoming)).replies
    {
      ghost var f0, in0, sent0 := files.Snapshot(), conn.incoming, conn.sent;
      ghost var g := DirectGate(files.credentials, in0);
      var queued := DirectChecks(conn);
      if queued.Some? {
        AddAccount(conn, queued.value);
        ghost var d := DirectAccount(f0, queued.value, in0[g.used..]);
        assert in0[g.used..][d.used..] == in0[g.used + d.used..];
        SentInBatches(sent0, g.replies, d.replies);
      }
    }

    /** The rest of process_registration of etapa2.c once the type is accepted. */
    method AddAccount(conn: Connection<Reply>, a: AccountRecord)
      modifies conn, files
      ensures files.Snapshot() == DirectAccount(old(files.Snapshot()), a, old(conn.incoming)).files
      ensures conn.incoming == old(conn.incoming)[DirectAccount(old(files.Snapshot()), a, old(conn.incoming)).used..]
      ensures conn.sent == old(conn.sent) + DirectAccount(old(files.Snapshot()), a, old(conn.incoming)).replies
    {
      ghost var sent0 := conn.sent;
      AddUserToFile(a.username, a.password, a.userType);
      conn.Send(Say(RegistrationSuccessful));
      conn.Send(ProfileIntro(a.userType));
      ghost var f1, in1 := files.Snapshot(), conn.incoming;
      if a.userType == 1 {
        RegisterEngineer(conn, a.username);
        SentInBatches(sent0, [Say(RegistrationSuccessful), ProfileIntro(a.userType)], DirectEngineer(f1, a.username, in1).replies);
      } else {
        RegisterOrganization(conn, a.username);
        SentInBatches(sent0, [Say(RegistrationSuccessful), ProfileIntro(a.userType)], DirectOrganization(f1, a.username, in1).replies);
      }
    }

    /** register_engineer of etapa2.c */
    method RegisterEngineer(conn: Connection<Reply>, u: string)
      modifies conn, files
      ensures files.Snapshot() == DirectEngineer(old(files.Snapshot()), u, old(conn.incoming)).files
      ensures conn.incoming == old(conn.incoming)[DirectEngineer(old(files.Snapshot()), u, old(conn.incoming)).used..]
      ensures conn.sent == old(conn.sent) + DirectEngineer(old(files.Snapshot()), u, old(conn.incoming)).replies
    {
      var p := EngineerAnswers(conn, u);
      files.engineers := files.engineers + SplitLines(FormatEngineer(p));
      conn.Send(Say(EngineerProfileCreated));
    }

    /** The four questions of register_engineer of etapa2.c. */
    method EngineerAnswers(conn: Connection<Reply>, u: string) returns (p: EngineerProfile)
      modifies conn
      ensures p == DirectProfile(u, old(conn.incoming))
      ensures conn.incoming == old(conn.incoming)[Reads(old(conn.incoming), 4)..]
      ensures conn.sent == old(conn.sent) + [Ask(Specialization), Ask(Experience), Ask(EducationText), Ask(Skills)]
    {
      ghost var in0 := conn.incoming;
      var specialization, experience := AskTwice(conn, Specialization, Experience);
      ReadsAfter(in0, 2, 0);
      ReadsAfter(in0, 2, 1);
      ReadsAfter(in0, 2, 2);
      var education, skills := AskTwice(conn, EducationText, Skills);
      p := EngineerProfile(u, specialization, experience, education, skills);
    }

    /** register_organization of etapa2.c */
    method RegisterOrganization(conn: Connection<Reply>, u: string)
      modifies conn, files
      ensures files.Snapshot() == DirectOrganization(old(files.Snapshot()), u, old(conn.incoming)).files
      ensures conn.incoming == old(conn.incoming)[DirectOrganization(old(files.Snapshot()), u, old(conn.incoming)).used..]
      ensures conn.sent == old(conn.sent) + DirectOrganization(old(files.Snapshot()), u, old(conn.incoming)).replies
    {
      ghost var in0 := conn.incoming;
      conn.Send(Ask(OrganizationName));
      var name := ReceiveString(conn);
      ReadsAfter(in0, 1, 0);
      ReadsAfter(in0, 1, 1);
      conn.Send(Ask(Industry));
      var industry := ReceiveString(conn);
      ReadsAfter(in0, 2, 0);
      ReadsAfter(in0, 2, 1);
      conn.Send(Ask(Description));
      var description := ReceiveString(conn);
      files.organizations := files.organizations + SplitLines(FormatOrganization(OrganizationProfile(u, name, industry, description)));
      conn.Send(Say(OrganizationProfileCreated));
    }
  }
}
