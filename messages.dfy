/** What the platform server (etapa2.4.c) sends to a client. Each fixed
    message of the program is one constructor; messages that carry data
    carry it as values rather than as formatted text. */
module Messages {
  import opened CText
  import opened Records

  /** The questions the server asks before reading an answer. */
  datatype Prompt =
    | Username | Password
    | NewUsername | NewPassword | UserTypeChoice
    | Specialization | Experience | Education | EducationText | Skills
    | OrganizationName | Industry | Description
    | ApprovalNumber | ConfirmApproval(username: string)
    | DeletionNumber | ConfirmDeletion(username: string)

  datatype Notice =
    | UsernameNotReceived | InvalidUsername | UsernameInvalidChars | PendingApproval
    | PasswordNotReceived | InvalidPassword | PasswordInvalidChars | BadCredentials
    | UsernameTaken | InvalidNewPassword | UserTypeNotReceived | InvalidUserType
    | CompleteEngineerProfile | CompleteOrganizationProfile | RegistrationPending | RegistrationSuccessful
    | NotANumber | TooManyYears | EducationNotYears
    | EngineerProfileCreated | OrganizationProfileCreated
    | NoEngineers | NoOrganizations
    | NoPendingUsers | ApprovalInputInvalid | SelectionCancelled | ApprovalCancelled | UserApproved
    | NoUsersToDelete | DeletionInputInvalid | DeletionCancelled | UserDeleted
    | NotImplemented(option: int) | LoggingOut | InvalidChoice | InvalidLoginChoice | Goodbye

  datatype ProfileDetails =
    | EngineerDetails(engineer: Option<EngineerProfile>)
    | OrganizationDetails(organization: Option<OrganizationProfile>)

  datatype Reply =
    | LoginMenu
    | UserMenu(userType: int)
    | AdminMenu
    | Ask(prompt: Prompt)
    | Say(notice: Notice)
    | Welcome(username: string)
    | Profile(username: string, userType: int, details: ProfileDetails)
    | Engineers(engineers: seq<EngineerProfile>)
    | Organizations(organizations: seq<OrganizationProfile>)
    | PendingHeader
    | PendingItem(number: nat, username: string, userType: int)
    | UsersHeader
    | UserItem(number: nat, username: string, userType: int)

  /** A numbered listing: line k shows entry k - 1 with the number k. */
  function Numbered<E>(entries: seq<E>, item: (nat, E) -> Reply): (rs: seq<Reply>)
    ensures |rs| == |entries|
  {
    if |entries| == 0 then []
    else Numbered(entries[..|entries| - 1], item) + [item(|entries|, entries[|entries| - 1])]
  }

  function PendingLine(k: nat, a: AccountRecord): Reply {
    PendingItem(k, a.username, a.userType)
  }

  function UserLine(k: nat, e: UserEntry): Reply {
    UserItem(k, e.username, e.userType)
  }

  /** The numbered lines accept_new_user sends, one per listed account. */
  function PendingItems(entries: seq<AccountRecord>): (rs: seq<Reply>)
    ensures |rs| == |entries|
  {
    Numbered(entries, PendingLine)
  }

  /** The numbered lines delete_user sends, one per listed account. */
  function UserItems(entries: seq<UserEntry>): (rs: seq<Reply>)
    ensures |rs| == |entries|
  {
    Numbered(entries, UserLine)
  }

  /** Listing one more entry adds one numbered line. */
  lemma NumberedSnoc<E>(entries: seq<E>, item: (nat, E) -> Reply, e: E)
    ensures Numbered(entries + [e], item) == Numbered(entries, item) + [item(|entries| + 1, e)]
  {
    assert (entries + [e])[..|entries|] == entries;
  }

  /** Line k of a listing shows entry k - 1 with the number k. */
  lemma {:induction false} NumberedAt<E>(entries: seq<E>, item: (nat, E) -> Reply, k: nat)
    requires k < |entries|
    ensures Numbered(entries, item)[k] == item(k + 1, entries[k])
  {
    if k < |entries| - 1 {
      NumberedAt(entries[..|entries| - 1], item, k);
    }
  }

  /** Item k of a listing shows entry k - 1 with the number k. */
  lemma PendingItemsNumbered(entries: seq<AccountRecord>, k: nat)
    requires k < |entries|
    ensures PendingItems(entries)[k] == PendingItem(k + 1, entries[k].username, entries[k].userType)
  {
    NumberedAt(entries, PendingLine, k);
  }

  /** Item k of a listing shows entry k - 1 with the number k. */
  lemma UserItemsNumbered(entries: seq<UserEntry>, k: nat)
    requires k < |entries|
    ensures UserItems(entries)[k] == UserItem(k + 1, entries[k].username, entries[k].userType)
  {
    NumberedAt(entries, UserLine, k);
  }
}
