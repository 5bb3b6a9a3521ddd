/** The decisions of the platform server (etapa2.4.c) as functions of the
    record files and of the chunks the client sends: for each interactive
    routine, which messages it sends, how many chunks it reads and what it
    decides. The methods of module Platform are proved to act as these
    functions say. */
module Dialogues {
  import opened CText
  import opened Validation
  import opened Records
  import opened Messages

  /** What receive_string returns for chunk i of the input. */
  function LineAt(input: seq<string>, i: nat): (l: Option<string>)
    ensures l.Some? <==> i < |input|
  {
    if i < |input| then Some(StripNewline(input[i])) else None
  }

  // ---------------------------------------------------------------------
  // Menus

  datatype LoginChoice = DoLogin | DoRegister | DoExit | BadLoginChoice

  /** show_login_menu: -1 when recv reports no data, otherwise atoi of the chunk. */
  function ShowLoginMenu(chunk: Option<string>): (choice: int)
    ensures chunk.None? ==> choice == -1
  {
    match chunk
    case None => -1
    case Some(c) => AtoI(c)
  }

  /** The switch of process_client. */
  function LoginMenuAction(choice: int): LoginChoice {
    if choice == 1 then DoLogin
    else if choice == 2 then DoRegister
    else if choice == 3 then DoExit
    else BadLoginChoice
  }

  datatype ClientStep = EndSession | Choose(choice: LoginChoice)

  /** One turn of the login menu, with a closed connection ending the session. */
  function NextClientStep(chunk: Option<string>): (s: ClientStep)
    ensures s == EndSession <==> chunk.None?
    ensures chunk.Some? ==> s == Choose(LoginMenuAction(ShowLoginMenu(chunk)))
  {
    match chunk
    case None => EndSession
    case Some(c) => Choose(LoginMenuAction(AtoI(c)))
  }

  datatype MenuAction =
    | ViewProfile | ListEngineers | ListOrganizations | AcceptUsers | DeleteUsers
    | Unimplemented(option: int) | Logout | BadChoice

  /** The switch of show_main_menu for engineers and organizations: option 2
      lists the other kind of account, and no option manages accounts. */
  function UserMenuAction(userType: int, choice: int): (a: MenuAction)
    ensures a != AcceptUsers && a != DeleteUsers
    ensures a == ListOrganizations <==> choice == 2 && userType == 1
    ensures a == ListEngineers <==> choice == 2 && userType != 1
  {
    if choice == 1 then ViewProfile
    else if choice == 2 then (if userType == 1 then ListOrganizations else ListEngineers)
    else if 3 <= choice <= 5 then Unimplemented(choice)
    else if choice == 6 then Logout
    else BadChoice
  }

  /** The switch of show_admin_menu. */
  function AdminMenuAction(choice: int): (a: MenuAction)
    ensures a != ViewProfile && !a.Unimplemented?
    ensures a == AcceptUsers <==> choice == 3
    ensures a == DeleteUsers <==> choice == 4
  {
    if choice == 1 then ListEngineers
    else if choice == 2 then ListOrganizations
    else if choice == 3 then AcceptUsers
    else if choice == 4 then DeleteUsers
    else if choice == 5 then Logout
    else BadChoice
  }

  // ---------------------------------------------------------------------
  // Login

  datatype LoginOutcome =
    | Refused(replies: seq<Reply>, used: nat)
    | Admitted(username: string, userType: int, replies: seq<Reply>, used: nat)

  /** process_login up to the call of show_main_menu. */
  function LoginGate(cred: seq<string>, pend: seq<string>, input: seq<string>): (r: LoginOutcome)
    ensures r.used <= |input|
  {
    var asked := [Ask(Username)];
    match LineAt(input, 0)
    case None => Refused(asked + [Say(UsernameNotReceived)], 0)
    case Some(u) =>
      if |u| == 0 || |u| >= MaxUsernameLength then Refused(asked + [Say(InvalidUsername)], 1)
      else if ContainsInvalidChars(u) then Refused(asked + [Say(UsernameInvalidChars)], 1)
      else if ScanForUser(pend, u) then Refused(asked + [Say(PendingApproval)], 1)
      else
        match PasswordGate(cred, u, input[1..])
        case Refused(rs, n) => Refused(asked + rs, 1 + n)
        case Admitted(v, t, rs, n) => Admitted(v, t, asked + rs, 1 + n)
  }

  /** The rest of process_login once the username has passed: the password
      checks and check_credentials. */
  function PasswordGate(cred: seq<string>, u: string, input: seq<string>): (r: LoginOutcome)
    ensures r.used <= |input|
    ensures r.Admitted? ==> r.username == u
  {
    var asked := [Ask(Password)];
    match LineAt(input, 0)
    case None => Refused(asked + [Say(PasswordNotReceived)], 0)
    case Some(p) =>
      if |p| == 0 || |p| >= MaxPasswordLength then Refused(asked + [Say(InvalidPassword)], 1)
      else if ContainsInvalidChars(p) then Refused(asked + [Say(PasswordInvalidChars)], 1)
      else
        var t := CheckCredentials(u, p, Some(cred));
        if t > 0 then Admitted(u, t, asked + [Welcome(u)], 1)
        else Refused(asked + [Say(BadCredentials)], 1)
  }

  /** The name and password checks process_login applies to what it reads. */
  predicate LoginField(s: string, maxLength: nat) {
    0 < |s| < maxLength && !ContainsInvalidChars(s)
  }

  // ---------------------------------------------------------------------
  // Registration

  /** Which version of two tests a registration runs: AsWritten, the one in
      process_registration and register_engineer, or Corrected, the one the
      rest of the server relies on (the username test below and the
      experience cap of Complaint). */
  datatype Checks = AsWritten | Corrected

  /** The username test of process_registration. As written it is
      contains_invalid_chars alone, which lets a vertical tab, a form feed
      and a carriage return through although sscanf's "%s" stops at them;
      corrected, it refuses every character "%s" stops at. */
  predicate UsernameRefused(c: Checks, u: string) {
    ContainsInvalidChars(u) || (c == Corrected && HasWhitespace(u))
  }

  datatype RegistrationOutcome =
    | Rejected(replies: seq<Reply>, used: nat)
    | Queued(account: AccountRecord, replies: seq<Reply>, used: nat)

  /** process_registration up to the append to the pending file. */
  function RegistrationGate(c: Checks, cred: seq<string>, pend: seq<string>, input: seq<string>): (r: RegistrationOutcome)
    ensures r.used <= |input|
  {
    var asked := [Ask(NewUsername)];
    match LineAt(input, 0)
    case None => Rejected(asked + [Say(UsernameNotReceived)], 0)
    case Some(u) =>
      if |u| == 0 || |u| >= MaxUsernameLength then Rejected(asked + [Say(InvalidUsername)], 1)
      else if UsernameRefused(c, u) then Rejected(asked + [Say(UsernameInvalidChars)], 1)
      else if UsernameExists(u, cred, pend) then Rejected(asked + [Say(UsernameTaken)], 1)
      else
        match AccountGate(u, input[1..])
        case Rejected(rs, n) => Rejected(asked + rs, 1 + n)
        case Queued(a, rs, n) => Queued(a, asked + rs, 1 + n)
  }

  /** The rest of process_registration once the username has passed: the
      password, the account type, and the characters the file format forbids. */
  function AccountGate(u: string, input: seq<string>): (r: RegistrationOutcome)
    ensures r.used <= |input|
    ensures r.Queued? ==> r.account.username == u
  {
    var asked := [Ask(NewPassword)];
    match LineAt(input, 0)
    case None => Rejected(asked + [Say(PasswordNotReceived)], 0)
    case Some(p) =>
      if |p| < MinPasswordLength || |p| >= MaxPasswordLength then Rejected(asked + [Say(InvalidNewPassword)], 1)
      else
        var asked2 := asked + [Ask(UserTypeChoice)];
        match LineAt(input, 1)
        case None => Rejected(asked2 + [Say(UserTypeNotReceived)], 1)
        case Some(c) =>
          if |c| != 1 || (c[0] != '1' && c[0] != '2') then Rejected(asked2 + [Say(InvalidUserType)], 2)
          else if HasFileInvalidChar(u) || HasFileInvalidChar(p) then Rejected(asked2, 2)
          else Queued(AccountRecord(u, p, c[0] as int - '0' as int), asked2, 2)
  }

  /** The notice process_registration sends before the profile questions. */
  function ProfileIntro(userType: int): Reply {
    if userType == 1 then Say(CompleteEngineerProfile) else Say(CompleteOrganizationProfile)
  }

  // ---------------------------------------------------------------------
  // Profile questions

  datatype Question = YearsOfExperience | YearsOfEducation

  /** register_engineer refuses more than 60 years of experience. */
  const MaxExperience: nat := 60

  function QuestionPrompt(q: Question): Prompt {
    match q
    case YearsOfExperience => Experience
    case YearsOfEducation => Education
  }

  /** Why an answer is asked again, if it is: it must be all digits, and the
      experience at most 60 years. As written the cap compares the answer's
      32-bit atoi value with 60; corrected, it compares the number written. */
  function Complaint(c: Checks, q: Question, answer: string): Option<Notice> {
    if !AllDigits(answer) then Some(if q == YearsOfExperience then NotANumber else EducationNotYears)
    else if q == YearsOfExperience && (if c == AsWritten then AtoI(answer) else DigitsValue(answer)) > MaxExperience then Some(TooManyYears)
    else None
  }

  datatype Answer =
    | Answered(text: string, replies: seq<Reply>, used: nat)
    | Unanswered(replies: seq<Reply>, used: nat)

  /** Every one of the first n answers gets a complaint. */
  ghost predicate AllRefused(c: Checks, q: Question, input: seq<string>, n: nat)
    requires n <= |input|
  {
    forall j :: 0 <= j < n ==> Complaint(c, q, StripNewline(input[j])).Some?
  }

  /** An answer and the replies before it, shifted behind earlier replies and reads. */
  function After(earlier: seq<Reply>, n: nat, a: Answer): Answer {
    match a
    case Answered(t, rs, k) => Answered(t, earlier + rs, n + k)
    case Unanswered(rs, k) => Unanswered(earlier + rs, n + k)
  }

  /** Nothing before an answer changes nothing. */
  lemma AfterNothing(a: Answer)
    ensures After([], 0, a) == a
  {
    assert [] + a.replies == a.replies;
  }

  /** Replies and reads before a shifted answer add up. */
  lemma AfterTwice(rs1: seq<Reply>, n1: nat, rs2: seq<Reply>, n2: nat, a: Answer)
    ensures After(rs1, n1, After(rs2, n2, a)) == After(rs1 + rs2, n1 + n2, a)
  {
    assert rs1 + (rs2 + a.replies) == rs1 + rs2 + a.replies;
  }

  /** One refused answer moves the rest of a question loop one read on. */
  lemma InsistContinues(c: Checks, q: Question, in0: seq<string>, done: seq<Reply>, consumed: nat, step: seq<Reply>)
    requires consumed < |in0|
    requires Insist(c, q, in0) == After(done, consumed, Insist(c, q, in0[consumed..]))
    requires Insist(c, q, in0[consumed..]) == After(step, 1, Insist(c, q, in0[consumed..][1..]))
    ensures Insist(c, q, in0) == After(done + step, consumed + 1, Insist(c, q, in0[consumed + 1..]))
  {
    assert in0[consumed..][1..] == in0[consumed + 1..];
    AfterTwice(done, consumed, step, 1, Insist(c, q, in0[consumed + 1..]));
  }

  /** The while(1) loops of register_engineer: ask, and ask again after each
      refused answer, until an answer passes or the input runs out. */
  function Insist(c: Checks, q: Question, input: seq<string>): (a: Answer)
    ensures a.used <= |input|
    ensures a.Answered? ==> 0 < a.used
    ensures a.Unanswered? ==> a.used == |input|
    decreases |input|
  {
    if |input| == 0 then Unanswered([Ask(QuestionPrompt(q))], 0)
    else
      var answer := StripNewline(input[0]);
      match Complaint(c, q, answer)
      case None => Answered(answer, [Ask(QuestionPrompt(q))], 1)
      case Some(n) => After([Ask(QuestionPrompt(q)), Say(n)], 1, Insist(c, q, input[1..]))
  }

  /** The answer a question loop accepts is the last chunk it read, and it
      draws no complaint. */
  lemma {:induction false} InsistAccepts(c: Checks, q: Question, input: seq<string>)
    ensures var a := Insist(c, q, input);
      a.Answered? ==> a.text == StripNewline(input[a.used - 1]) && Complaint(c, q, a.text).None?
    decreases |input|
  {
    if |input| > 0 && Complaint(c, q, StripNewline(input[0])).Some? {
      InsistAccepts(c, q, input[1..]);
      var a := Insist(c, q, input[1..]);
      if a.Answered? {
        assert input[1..][a.used - 1] == input[a.used];
      }
    }
  }

  /** Every answer read before the one accepted, or before the input ran
      out, was refused with a complaint. */
  lemma {:induction false} InsistRefusesEarlier(c: Checks, q: Question, input: seq<string>)
    ensures var a := Insist(c, q, input);
      AllRefused(c, q, input, if a.Answered? then a.used - 1 else a.used)
    decreases |input|
  {
    if |input| > 0 && Complaint(c, q, StripNewline(input[0])).Some? {
      InsistRefusesEarlier(c, q, input[1..]);
      assert forall j :: 1 <= j < |input| ==> input[j] == input[1..][j - 1];
    }
  }

  datatype Registered<P> =
    | Saved(profile: P, replies: seq<Reply>, used: nat)
    | Crashed(replies: seq<Reply>, used: nat)

  /** A profile dialogue that comes after replies rs and n chunks read. */
  function Later<P>(rs: seq<Reply>, n: nat, r: Registered<P>): (l: Registered<P>)
    ensures l.replies == rs + r.replies && l.used == n + r.used
    ensures l.Saved? == r.Saved? && (l.Saved? ==> l.profile == r.profile)
  {
    match r
    case Saved(p, rs2, n2) => Saved(p, rs + rs2, n + n2)
    case Crashed(rs2, n2) => Crashed(rs + rs2, n + n2)
  }

  /** register_engineer: the specialization, then the questions after it.
      A missing answer is a NULL the C code copies or inspects,
      which ends the server process: Crashed. */
  function EngineerDialogue(c: Checks, u: string, input: seq<string>): (r: Registered<EngineerProfile>)
    ensures r.used <= |input|
    ensures r.Crashed? ==> r.used == |input|
  {
    match LineAt(input, 0)
    case None => Crashed([Ask(Specialization)], 0)
    case Some(spec) =>
      var r := ExperienceDialogue(c, u, spec, input[1..]);
      Later([Ask(Specialization)], 1, r)
  }

  /** The experience loop of register_engineer and what follows it. */
  function ExperienceDialogue(c: Checks, u: string, spec: string, input: seq<string>): (r: Registered<EngineerProfile>)
    ensures r.used <= |input|
    ensures r.Crashed? ==> r.used == |input|
  {
    match Insist(c, YearsOfExperience, input)
    case Unanswered(rs, n) => Crashed(rs, n)
    case Answered(years, rs, n) =>
      var r := EducationDialogue(c, u, spec, years, input[n..]);
      Later(rs, n, r)
  }

  /** ExperienceDialogue unfolded once: how the experience loop ends
      decides the rest. */
  lemma ExperienceSteps(c: Checks, u: string, spec: string, input: seq<string>)
    ensures var a := Insist(c, YearsOfExperience, input);
      (a.Unanswered? ==> ExperienceDialogue(c, u, spec, input) == Crashed(a.replies, a.used))
      && (a.Answered? ==> ExperienceDialogue(c, u, spec, input) == Later(a.replies, a.used, EducationDialogue(c, u, spec, a.text, input[a.used..])))
  {
  }

  /** The education loop of register_engineer, then the skills. */
  function EducationDialogue(c: Checks, u: string, spec: string, years: string, input: seq<string>): (r: Registered<EngineerProfile>)
    ensures r.used <= |input|
    ensures r.Crashed? ==> r.used == |input|
  {
    match Insist(c, YearsOfEducation, input)
    case Unanswered(rs, n) => Crashed(rs, n)
    case Answered(schooling, rs, n) =>
      var asked := rs + [Ask(Skills)];
      match LineAt(input, n)
      case None => Crashed(asked, n)
      case Some(skills) =>
        Saved(EngineerProfile(u, spec, years, schooling, skills), asked + [Say(EngineerProfileCreated)], n + 1)
  }

  /** register_organization: three answers, each copied with strcpy. */
  function OrganizationDialogue(u: string, input: seq<string>): (r: Registered<OrganizationProfile>)
    ensures r.used <= |input|
    ensures r.Crashed? ==> r.used == |input|
    ensures r.Saved? ==> r.used == 3 && r.profile == OrganizationProfile(u,
      StripNewline(input[0]), StripNewline(input[1]), StripNewline(input[2]))
  {
    var asked := [Ask(OrganizationName)];
    match LineAt(input, 0)
    case None => Crashed(asked, 0)
    case Some(name) =>
      var asked2 := asked + [Ask(Industry)];
      match LineAt(input, 1)
      case None => Crashed(asked2, 1)
      case Some(industry) =>
        var asked3 := asked2 + [Ask(Description)];
        match LineAt(input, 2)
        case None => Crashed(asked3, 2)
        case Some(description) =>
          Saved(OrganizationProfile(u, name, industry, description), asked3 + [Say(OrganizationProfileCreated)], 3)
  }

  // ---------------------------------------------------------------------
  // Profiles and listings shown to a logged-in user

  /** The message view_profile sends: type 1 reads the engineer file, any other type the organization file. */
  function ProfileReply(u: string, userType: int, engineers: seq<string>, organizations: seq<string>): Reply {
    Profile(u, userType,
      if userType == 1 then EngineerDetails(LookupEngineer(engineers, u))
      else OrganizationDetails(LookupOrganization(organizations, u)))
  }

  function EngineersReply(entries: seq<EngineerProfile>): Reply {
    if |entries| == 0 then Say(NoEngineers) else Engineers(entries)
  }

  function OrganizationsReply(entries: seq<OrganizationProfile>): Reply {
    if |entries| == 0 then Say(NoOrganizations) else Organizations(entries)
  }

  // ---------------------------------------------------------------------
  // The administrator's operations

  /** toupper(response[0]) == 'Y'; an empty response has only its terminating NUL there. */
  predicate Confirms(response: string) {
    |response| > 0 && ToUpper(response[0]) == 'Y'
  }

  datatype Selection<E> =
    | Declined(replies: seq<Reply>, used: nat)
    | Selected(entry: E, replies: seq<Reply>, used: nat)

  /** What the administrator is choosing an account for. */
  datatype Purpose = Approval | Deletion

  function NumberPrompt(p: Purpose): Prompt {
    match p
    case Approval => ApprovalNumber
    case Deletion => DeletionNumber
  }

  function InputInvalid(p: Purpose): Notice {
    match p
    case Approval => ApprovalInputInvalid
    case Deletion => DeletionInputInvalid
  }

  function ConfirmPrompt(p: Purpose, username: string): Prompt {
    match p
    case Approval => ConfirmApproval(username)
    case Deletion => ConfirmDeletion(username)
  }

  function Cancelled(p: Purpose): Notice {
    match p
    case Approval => ApprovalCancelled
    case Deletion => DeletionCancelled
  }

  /** The choice step shared by accept_new_user and delete_user: a number
      that must be all digits and name one of the listed entries, then a
      confirmation that must start with Y or y. */
  function Pick<E>(entries: seq<E>, name: E -> string, p: Purpose, input: seq<string>): (r: Selection<E>)
    ensures r.used <= |input|
    ensures r.Selected? <==> (|input| >= 2 && AllDigits(StripNewline(input[0]))
      && 1 <= AtoI(StripNewline(input[0])) <= |entries| && Confirms(StripNewline(input[1])))
    ensures r.Selected? ==> r.used == 2 && r.entry == entries[AtoI(StripNewline(input[0])) - 1]
  {
    var asked := [Ask(NumberPrompt(p))];
    match LineAt(input, 0)
    case None => Declined(asked + [Say(InputInvalid(p))], 0)
    case Some(response) =>
      if !AllDigits(response) then Declined(asked + [Say(InputInvalid(p))], 1)
      else
        var selection := AtoI(response);
        if selection <= 0 || selection > |entries| then Declined(asked + [Say(SelectionCancelled)], 1)
        else
          var e := entries[selection - 1];
          var asked2 := asked + [Ask(ConfirmPrompt(p, name(e)))];
          match LineAt(input, 1)
          case None => Declined(asked2 + [Say(Cancelled(p))], 1)
          case Some(confirm) =>
            if !Confirms(confirm) then Declined(asked2 + [Say(Cancelled(p))], 2)
            else Selected(e, asked2, 2)
  }

  function AccountName(a: AccountRecord): string { a.username }

  function EntryName(e: UserEntry): string { e.username }

  /** accept_new_user up to the call of move_user_from_pending_to_active
      (and the notice sent after it). */
  function ApprovalDialogue(pend: seq<string>, input: seq<string>): (r: Selection<AccountRecord>)
    ensures r.used <= |input|
  {
    if |pend| == 0 then Declined([Say(NoPendingUsers)], 0)
    else
      var entries := PendingListing(pend);
      var listed := [PendingHeader] + PendingItems(entries);
      if |entries| == 0 then Declined(listed + [Say(NoPendingUsers)], 0)
      else
        match Pick(entries, AccountName, Approval, input)
        case Declined(rs, n) => Declined(listed + rs, n)
        case Selected(e, rs, n) => Selected(e, listed + rs + [Say(UserApproved)], n)
  }

  /** delete_user up to the rewriting of the files (and the notice sent after it). */
  function RemovalDialogue(cred: seq<string>, input: seq<string>): (r: Selection<UserEntry>)
    ensures r.used <= |input|
  {
    var entries := UserListing(cred);
    var listed := [UsersHeader] + UserItems(entries);
    if |entries| == 0 then Declined(listed + [Say(NoUsersToDelete)], 0)
    else
      match Pick(entries, EntryName, Deletion, input)
      case Declined(rs, n) => Declined(listed + rs, n)
      case Selected(e, rs, n) => Selected(e, listed + rs + [Say(UserDeleted)], n)
  }

  /** No name is both an active and a pending account. */
  ghost predicate Disjoint(cred: seq<string>, pend: seq<string>) {
    forall u :: HasUser(cred, u) ==> !HasUser(pend, u)
  }

  /** create_admin_user: the credentials with an "admin admin 3" line added
      unless some line already starts with the word admin. */
  function WithAdmin(cred: seq<string>): seq<string> {
    if ScanForUser(cred, AdminName) then cred else cred + [FormatAccount(AccountRecord(AdminName, AdminName, 3))]
  }
}
