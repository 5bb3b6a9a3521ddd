/** Whole sessions of the platform server (etapa2.4.c): what a client's
    chunks make the server send and how they change the four record files.
    Each function follows one routine of the server, threading the files
    through the dialogues of module Dialogues; the methods of module
    Platform are proved to act as these functions say. */
module Sessions {
  import opened CText
  import opened Validation
  import opened Records
  import opened Messages
  import opened Dialogues

  /** The contents of credentials.txt, pending.txt, engineers.txt and organizations.txt. */
  datatype Files = Files(credentials: seq<string>, pending: seq<string>,
                         engineers: seq<string>, organizations: seq<string>)

  /** The result of a routine: the files afterwards, what was sent, how many
      chunks were read, and whether the server process is still running
      (false after it has read through a NULL answer). */
  datatype Session = Session(files: Files, replies: seq<Reply>, used: nat, alive: bool)

  /** The files are consistent: no name is both an active and a pending
      account, and the administrator's account is active. */
  ghost predicate Consistent(f: Files) {
    Disjoint(f.credentials, f.pending) && HasUser(f.credentials, AdminName)
  }

  /** A session that comes after replies rs and n chunks read. */
  function Prefixed(rs: seq<Reply>, n: nat, s: Session): Session {
    Session(s.files, rs + s.replies, n + s.used, s.alive)
  }

  /** Replies and reads before a prefixed session add up. */
  lemma PrefixedTwice(rs1: seq<Reply>, n1: nat, rs2: seq<Reply>, n2: nat, s: Session)
    ensures Prefixed(rs1, n1, Prefixed(rs2, n2, s)) == Prefixed(rs1 + rs2, n1 + n2, s)
  {
    assert rs1 + (rs2 + s.replies) == rs1 + rs2 + s.replies;
  }

  /** The first chunk recv still returns, None once the client has closed. */
  function Head(input: seq<string>): (c: Option<string>)
    ensures c.Some? <==> |input| > 0
  {
    if |input| == 0 then None else Some(input[0])
  }

  // ---------------------------------------------------------------------
  // The administrator's operations

  /** move_user_from_pending_to_active: the account is appended to the
      active file and every pending line with its name is dropped. */
  function Promote(f: Files, a: AccountRecord): Files {
    f.(credentials := f.credentials + SplitLines(FormatAccount(a)),
       pending := KeepOtherUsers(f.pending, a.username))
  }

  /** The rewriting of the files in delete_user: the account's lines leave
      the active file and its profile lines leave the profile file of its type. */
  function Remove(f: Files, e: UserEntry): Files {
    var f1 := f.(credentials := KeepOtherUsers(f.credentials, e.username));
    if e.userType == 1 then f1.(engineers := KeepOtherProfiles(f.engineers, e.username))
    else f1.(organizations := KeepOtherProfiles(f.organizations, e.username))
  }

  /** accept_new_user */
  function AcceptNewUser(f: Files, input: seq<string>): (s: Session)
    ensures s.used <= |input| && s.alive
  {
    match ApprovalDialogue(f.pending, input)
    case Declined(rs, n) => Session(f, rs, n, true)
    case Selected(a, rs, n) => Session(Promote(f, a), rs, n, true)
  }

  /** delete_user */
  function DeleteUser(f: Files, input: seq<string>): (s: Session)
    ensures s.used <= |input| && s.alive
  {
    match RemovalDialogue(f.credentials, input)
    case Declined(rs, n) => Session(f, rs, n, true)
    case Selected(e, rs, n) => Session(Remove(f, e), rs, n, true)
  }

  /** The two ways delete_user ends. */
  lemma DeleteUserCases(f: Files, input: seq<string>)
    ensures var entries := UserListing(f.credentials);
      var listed := [UsersHeader] + UserItems(entries);
      var s := DeleteUser(f, input);
      if |entries| == 0 then s == Session(f, listed + [Say(NoUsersToDelete)], 0, true)
      else
        var r := Pick(entries, EntryName, Deletion, input);
        s.replies == listed + (r.replies + if r.Selected? then [Say(UserDeleted)] else [])
        && s.used == r.used
        && s.files == if r.Selected? then Remove(f, r.entry) else f
  {
  }

  /** One turn of a menu loop: what it does, and whether the loop goes on. */
  datatype Turn = Turn(step: Session, more: bool)

  /** One turn of show_admin_menu: the menu, then the action the chunk chooses. */
  function AdminTurn(f: Files, input: seq<string>): (t: Turn)
    ensures t.step.used <= |input| && t.step.alive
    ensures t.more ==> t.step.used > 0
  {
    if |input| == 0 then Turn(Session(f, [AdminMenu], 0, true), false)
    else
      var rest := input[1..];
      match AdminMenuAction(AtoI(input[0]))
      case ListEngineers =>
        Turn(Session(f, [AdminMenu, EngineersReply(EngineerListing(f.engineers))], 1, true), true)
      case ListOrganizations =>
        Turn(Session(f, [AdminMenu, OrganizationsReply(OrganizationListing(f.organizations))], 1, true), true)
      case AcceptUsers => Turn(Prefixed([AdminMenu], 1, AcceptNewUser(f, rest)), true)
      case DeleteUsers => Turn(Prefixed([AdminMenu], 1, DeleteUser(f, rest)), true)
      case Logout => Turn(Session(f, [AdminMenu, Say(LoggingOut)], 1, true), false)
      case BadChoice => Turn(Session(f, [AdminMenu, Say(InvalidChoice)], 1, true), true)
  }

  /** show_admin_menu: turns until option 5 or a closed connection. */
  function AdminSession(f: Files, input: seq<string>): (s: Session)
    ensures s.used <= |input| && s.alive
    decreases |input|
  {
    var t := AdminTurn(f, input);
    if !t.more then t.step
    else Prefixed(t.step.replies, t.step.used, AdminSession(t.step.files, input[t.step.used..]))
  }

  /** The reply show_main_menu sends for an engineer's or organization's choice. */
  function UserMenuReply(u: string, userType: int, f: Files, a: MenuAction): Reply {
    match a
    case ViewProfile => ProfileReply(u, userType, f.engineers, f.organizations)
    case ListEngineers => EngineersReply(EngineerListing(f.engineers))
    case ListOrganizations => OrganizationsReply(OrganizationListing(f.organizations))
    case Unimplemented(k) => Say(NotImplemented(k))
    case Logout => Say(LoggingOut)
    case _ => Say(InvalidChoice)
  }

  /** One turn of show_main_menu for an engineer or organization. */
  function UserTurn(u: string, userType: int, f: Files, input: seq<string>): (t: Turn)
    ensures t.step.used <= |input| && t.step.alive && t.step.files == f
    ensures t.more ==> t.step.used > 0
  {
    if |input| == 0 then Turn(Session(f, [UserMenu(userType)], 0, true), false)
    else
      var a := UserMenuAction(userType, AtoI(input[0]));
      Turn(Session(f, [UserMenu(userType), UserMenuReply(u, userType, f, a)], 1, true), a != Logout)
  }

  /** show_main_menu of an engineer or organization: nothing it does writes a file. */
  function UserSession(u: string, userType: int, f: Files, input: seq<string>): (s: Session)
    ensures s.used <= |input| && s.alive && s.files == f
    decreases |input|
  {
    var t := UserTurn(u, userType, f, input);
    if !t.more then t.step
    else Prefixed(t.step.replies, t.step.used, UserSession(u, userType, f, input[t.step.used..]))
  }

  /** show_main_menu: type 3 is handed to the administrator's menu. */
  function MainMenu(u: string, userType: int, f: Files, input: seq<string>): (s: Session)
    ensures s.used <= |input| && s.alive
    ensures userType != 3 ==> s.files == f
  {
    if userType == 3 then AdminSession(f, input) else UserSession(u, userType, f, input)
  }

  // ---------------------------------------------------------------------
  // The login menu

  /** process_login, with the menu of the account it lets in. */
  function LoginSession(f: Files, input: seq<string>): (s: Session)
    ensures s.used <= |input| && s.alive
  {
    match LoginGate(f.credentials, f.pending, input)
    case Refused(rs, n) => Session(f, rs, n, true)
    case Admitted(u, t, rs, n) => Prefixed(rs, n, MainMenu(u, t, f, input[n..]))
  }

  /** process_registration with the profile questions: the queued account is
      appended to the pending file, then the profile to its profile file. */
  function RegistrationSession(c: Checks, f: Files, input: seq<string>): (s: Session)
    ensures s.used <= |input|
  {
    match RegistrationGate(c, f.credentials, f.pending, input)
    case Rejected(rs, n) => Session(f, rs, n, true)
    case Queued(a, rs, n) => Prefixed(rs, n, QueuedSession(c, f, a, input[n..]))
  }

  /** What process_registration does once the account is queued. */
  function QueuedSession(c: Checks, f: Files, a: AccountRecord, input: seq<string>): (s: Session)
    ensures s.used <= |input|
  {
    var f1 := f.(pending := f.pending + SplitLines(FormatAccount(a)));
    Prefixed([ProfileIntro(a.userType)], 0,
      if a.userType == 1 then EngineerSession(c, f1, a.username, input)
      else OrganizationSession(f1, a.username, input))
  }

  /** register_engineer, then the notice that the account waits for approval. */
  function EngineerSession(c: Checks, f: Files, u: string, input: seq<string>): (s: Session)
    ensures s.used <= |input|
  {
    match EngineerDialogue(c, u, input)
    case Crashed(rs, n) => Session(f, rs, n, false)
    case Saved(p, rs, n) =>
      Session(f.(engineers := f.engineers + SplitLines(FormatEngineer(p))), rs + [Say(RegistrationPending)], n, true)
  }

  /** register_organization, then the notice that the account waits for approval. */
  function OrganizationSession(f: Files, u: string, input: seq<string>): (s: Session)
    ensures s.used <= |input|
  {
    match OrganizationDialogue(u, input)
    case Crashed(rs, n) => Session(f, rs, n, false)
    case Saved(p, rs, n) =>
      Session(f.(organizations := f.organizations + SplitLines(FormatOrganization(p))), rs + [Say(RegistrationPending)], n, true)
  }

  /** One turn of process_client: the login menu, then what the chunk
      chooses; the loop stops at option 3, at (corrected, see NextClientStep)
      a closed connection, and when a registration has crashed the process.
      The registration runs the checks c. */
  function ClientTurn(c: Checks, f: Files, input: seq<string>): (t: Turn)
    ensures t.step.used <= |input|
    ensures t.more ==> t.step.used > 0
  {
    match NextClientStep(Head(input))
    case EndSession => Turn(Session(f, [LoginMenu], 0, true), false)
    case Choose(DoExit) => Turn(Session(f, [LoginMenu, Say(Goodbye)], 1, true), false)
    case Choose(BadLoginChoice) => Turn(Session(f, [LoginMenu, Say(InvalidLoginChoice)], 1, true), true)
    case Choose(DoLogin) => Turn(Prefixed([LoginMenu], 1, LoginSession(f, input[1..])), true)
    case Choose(DoRegister) =>
      var r := RegistrationSession(c, f, input[1..]);
      Turn(Prefixed([LoginMenu], 1, r), r.alive)
  }

  /** One turn of process_client as written: show_login_menu's -1 for a
      closed connection falls into the default branch, which reads nothing,
      sends "Invalid choice!" and goes round again. */
  function ClientTurnAsWritten(f: Files, input: seq<string>): (t: Turn)
    ensures t.step.used <= |input|
  {
    match LoginMenuAction(ShowLoginMenu(Head(input)))
    case DoExit => Turn(Session(f, [LoginMenu, Say(Goodbye)], 1, true), false)
    case BadLoginChoice => Turn(Session(f, [LoginMenu, Say(InvalidLoginChoice)], if |input| == 0 then 0 else 1, true), true)
    case DoLogin => Turn(Prefixed([LoginMenu], 1, LoginSession(f, input[1..])), true)
    case DoRegister =>
      var r := RegistrationSession(AsWritten, f, input[1..]);
      Turn(Prefixed([LoginMenu], 1, r), r.alive)
  }

  /** process_client: turns of the login menu until one stops the loop. */
  function ClientSession(c: Checks, f: Files, input: seq<string>): (s: Session)
    ensures s.used <= |input|
    decreases |input|
  {
    var t := ClientTurn(c, f, input);
    if !t.more then t.step
    else Prefixed(t.step.replies, t.step.used, ClientSession(c, t.step.files, input[t.step.used..]))
  }

  /** create_admin_user */
  function CreateAdmin(f: Files): Files {
    f.(credentials := WithAdmin(f.credentials))
  }
}
