# Engineering platform server — a Dafny model

The repository holds three generations of a forked-per-connection TCP
server for an "engineering platform" on which engineers and organizations
register, log in and look at each other's profiles.

- `etapa1.c` is a one-question server. It sends a menu, reads one answer,
  accepts only digits and line ends naming option 1 or 2, and sends back
  the option's reply.
- `etapa2.c` adds accounts. It has a credentials file read with
  `sscanf("%s %s %d")`, registration that writes straight into that file,
  a main menu for logged-in users, and an in-memory registry of online
  users (`users[MAX_USERS]`, `numUsers`).
- `etapa2.4.c` is the complete variant. New accounts go to a pending
  file and wait for the administrator, who can approve or delete
  accounts. `check_credentials` reads lines with `strtok` and `strtol`.
  Every typed field is validated, and the engineer questions are asked
  again until the answer passes.

The model keeps each flat file (`credentials.txt`, `pending.txt`,
`engineers.txt`, `organizations.txt`) as a sequence of lines without their
newlines. A connection is a `Channel.Connection` object: the chunks the
client will send (`incoming`) and the replies sent so far (`sent`). A
chunk is one `recv`. `receive_string` is one chunk with one trailing
newline removed. End of input is the client closing the connection.
Every line the programs write ends in a newline, so the files they create
always split into whole lines. A file written by other means whose last
line lacks its newline would have that line joined to the next one
appended, and the model cannot express that.

Each interactive routine is a method of a class whose fields are the files
(`Platform.Stores` for `etapa2.4.c`, `Stage2.Server` for `etapa2.c`). Each
method is proved to leave exactly the state described by a pure dialogue
function of the old files and the input: the files written, the replies
sent and the chunks read (modules `Dialogues` and `Sessions`). The module
`Properties` then proves what the source promises about those functions:

- who is let in;
- what a registration queues;
- that approval and deletion filter exactly the right lines;
- that every operation keeps the account files consistent, meaning no name
  is both active and pending and the administrator's account exists (with
  the corrected name test, or on input without a vertical tab or form feed;
  see below).

C library behaviour is modelled in `CText`:

- `atoi` is glibc's `(int) strtol`: strtol saturates at the `long` range,
  and the conversion to `int` keeps the value modulo 2^32.
- `strtok`, `sscanf("%s")` and `sscanf("%d")` are modelled too, as is
  `printf("%d")`.

The methods follow the code as written, with two exceptions, both listed
under Left out. First, the `etapa2.c` listings leave out their online flag.
Second, when a client closes the connection at the login menu,
`show_login_menu` returns -1 and `process_client` takes its default branch
without reading, so it goes round. When `process_login` saw the close first,
it has already called `close` on the socket (etapa2.4.c:176 and 215). Every
later `send` and `recv` then fails with EBADF and raises no signal, so the
loop goes round forever, whichever way the client closed. When the close is
first seen at the menu itself, the loop goes round for as long as sends
succeed: forever on a half-closed connection, and until a send raises
SIGPIPE after a full close.
`Sessions.ClientTurnAsWritten` models that loop, but
`Platform.Stores.ProcessClient` ends the session instead, because a method
must return to be proved (see Findings).

Two tests of `etapa2.4.c` are modelled both as written and corrected,
through the parameter `Dialogues.Checks` of the dialogue and session
functions:

- `process_registration` refuses a name only for `contains_invalid_chars`'
  characters (`AsWritten`), although every later comparison stops at any
  whitespace; `Corrected` also refuses every whitespace character.
- `register_engineer` compares atoi's 32-bit value of the experience with
  60 (`AsWritten`); `Corrected` compares the number written.

The methods of `Platform` run `AsWritten`. The consistency lemmas hold for
`Corrected` on every input, and for `AsWritten` on input that holds no
vertical tab or form feed; `Properties.UsernameCheckAsWritten` shows input
on which the code as written breaks consistency.

Whenever `etapa2.4.c` compares names, it looks only at the first word of a
line, whatever else is on the line, and so does the model.

Modules: `CText` (C text and number primitives), `Validation`
(the input predicates), `Records` (line formats, scanners, filters,
listings and their round trips), `Messages` (replies), `Channel`
(connection), `Dialogues` (per-routine dialogue functions), `Sessions`
(files threaded through menus and sessions), `Properties` (lemmas),
`Platform` (`etapa2.4.c` as a class), `Stage2` (`etapa2.c`) and
`Stage1` (`etapa1.c`).

## Model

| member | source | states |
|---|---|---|
| CText.AtoI | etapa2.4.c:160-166 | atoi's result always fits a 32-bit int: the number at the start of the text (0 when none), saturated to the long range and wrapped modulo 2^32 |
| CText.ToInt32 | etapa2.4.c:280 | assigning a long to an int gives a 32-bit value, and leaves a value that already fits unchanged |
| CText.WholeNumber | etapa2.4.c:279-283 | strtol with the test that parsing stopped at the end of the text: a value only when the whole text is one number, and that value fits an int |
| CText.ScanInt | etapa2.c:151 | sscanf's "%d" yields a value only when a number starts the text, and it fits an int |
| CText.Decimal | etapa2.4.c:437 | printf's "%d" text is non-empty and holds no whitespace, so it stays one field of an account line |
| CText.NatToDecimal | etapa2.4.c:437 | the decimal text of a natural number is a non-empty run of digits |
| CText.DecimalDigitsValue | etapa2.4.c:437 | the digits printf writes for n read back as n |
| CText.DecimalRoundTrip | etapa2.4.c:437 | the text printf's "%d" writes for any int reads back as that int through strtol's whole-text test and through sscanf's "%d" |
| CText.DigitsAsNumber | etapa2.4.c:514-520 | for a non-empty all-digit answer (what is_valid_integer lets through), atoi is the digits' value saturated and wrapped to 32 bits |
| CText.DigitsLeadingNumber | etapa2.4.c:514-519 | an all-digit text is read as one number spanning the whole text whose value is the digits' value |
| CText.NegativeLeadingNumber | etapa2.4.c:437 | the text "-" followed by n's digits is read as the number -n spanning the whole text |
| CText.SplitLines | etapa2.4.c:437 | what one fprintf of text followed by a newline adds to a file is at least one line |
| CText.SplitLinesSingle | etapa2.4.c:437 | text without an embedded newline adds exactly itself as one line |
| CText.NextTokenFacts | etapa2.4.c:269-271 | a token strtok returns is non-empty and holds no delimiter |
| CText.TokenThenDelimiter | etapa2.4.c:269-271 | strtok on a token followed by a delimiter returns that token and continues after the delimiter |
| CText.TokenWhole | etapa2.4.c:269-271 | strtok on a delimiter-free non-empty text returns the whole text |
| Channel.Connection.ReceiveLine | etapa2.4.c:98-125 | receive_string: nothing on a closed connection, otherwise the next chunk with one trailing newline removed; only the input is consumed |
| Channel.Connection.Receive | etapa2.4.c:160-166 | a raw recv: the next chunk as sent, or nothing once the client has closed |
| Channel.Connection.Send | etapa2.4.c:80-87 | send_message appends exactly one reply and reads nothing |
| Validation.ContainsInvalidChars | etapa2.4.c:128-132 | true exactly when the text holds space, tab, newline, ';', '\|', '&', '<', '>', '*' or '"' |
| Validation.ContainsInvalidFileChars | etapa2.4.c:135-143 | the character loop reports true exactly when the text holds a newline, carriage return, ':' or space |
| Validation.IsValidInteger | etapa2.4.c:90-95 | true exactly when every character is a digit, so the empty text passes |
| Validation.SanitizeFilename | etapa2.4.c:462-470 | the result fits max_len-1 characters, is a prefix of the letters, digits and '_' of the source in order, and is all of them when it stops short of the bound |
| Validation.SafeChars | etapa2.4.c:462-470 | the characters sanitize_filename keeps are never more than the source has |
| Validation.SafeCharsExactly | etapa2.4.c:462-470 | a character survives sanitizing exactly when it is in the source and is a letter, digit or '_' |
| Records.ScanForUser | etapa2.4.c:306-313 | the fgets/sscanf("%s") loop finds u exactly when some line's first word is u |
| Records.UsernameExists | etapa2.4.c:299-337 | username_exists is true exactly when u is the first word of a line of the credentials or of the pending file |
| Records.FindCredential | etapa2.4.c:258-294 | no type exactly when no line has three tokens, a whole-number type and the given name and password; otherwise the type of the first such line |
| Records.CheckCredentials | etapa2.4.c:246-295 | admin/admin gives 3 without reading the file; an unreadable file gives 0; otherwise the type of the first line with three space tokens, a whole-number third token and the given name and password whenever such a line exists, and 0 exactly when none does |
| Records.KeepOtherUsers | etapa2.4.c:1077-1089 | the filter loop keeps at most the lines it is given |
| Records.KeepOtherUsersMembers | etapa2.4.c:1077-1089 | a line survives the filter exactly when it was in the file and its first word is not the name |
| Records.KeepOtherUsersHasUser | etapa2.4.c:1196-1207 | after the filter a name is present exactly when it differs from the removed one and was present before |
| Records.KeptHasUser | etapa2.4.c:1196-1207 | a name found after the filter was present before and is not the removed one |
| Records.OtherHasUser | etapa2.4.c:1196-1207 | every other name present before the filter is still present after it |
| Records.KeepOtherProfiles | etapa2.4.c:1227-1235 | the profile filter keeps at most the lines it is given |
| Records.KeepOtherProfilesMembers | etapa2.4.c:1227-1235 | a profile line survives exactly when it was in the file and strtok finds a first '\|' field that differs from the name |
| Records.RemovedProfileGone | etapa2.4.c:1213-1265 | after the filter view_profile finds no profile for the name and neither listing shows it |
| Records.TrailingFields | etapa2.4.c:739-755 | strtok yields exactly the requested number of fields after the key |
| Records.ParseEngineer | etapa2.4.c:739-755 | a line yields an engineer profile exactly when strtok finds a first '\|' field, and the profile's name is that field |
| Records.ParseOrganization | etapa2.4.c:785-799 | a line yields an organization profile exactly when strtok finds a first '\|' field, and the profile's name is that field |
| Records.FirstKeyed | etapa2.4.c:739-742 | no index exactly when no line's first '\|' field is the name; otherwise the first such line |
| Records.LookupEngineer | etapa2.4.c:717-768 | view_profile finds an engineer profile exactly when some line is keyed by the name, and it is the parse of the first such line |
| Records.LookupOrganization | etapa2.4.c:769-815 | the same for the organizations file |
| Records.Collect | etapa2.4.c:830-861 | a listing never has more entries than the file has lines |
| Records.CollectMembers | etapa2.4.c:830-861 | an entry is listed exactly when some line parses to it |
| Records.CollectPrefix | etapa2.4.c:980 | the entries of the first n lines come first in the listing, in file order |
| Records.CollectCapped | etapa2.4.c:980 | stopping the loop at MAX_USERS entries lists exactly the first MAX_USERS entries |
| Records.Take | etapa2.4.c:980 | the cap keeps a prefix of at most n entries, and everything when there are no more than n |
| Records.PendingEntryOf | etapa2.4.c:986-988 | a pending line is listed only when sscanf("%s %s %d") reads it as an account whose name is not admin |
| Records.UserEntryOf | etapa2.4.c:1119-1132 | a credentials line is listed for deletion only when its name is not admin |
| Records.PendingListingSound | etapa2.4.c:980-1009 | the approval list holds at most MAX_USERS entries, each a non-admin account read from a pending line whose first word is its name |
| Records.PendingListingComplete | etapa2.4.c:980-1009 | while under the cap, every readable non-admin pending line is listed |
| Records.UserListingSound | etapa2.4.c:1117-1148 | the deletion list holds at most MAX_USERS entries, each a non-admin entry read from a credentials line |
| Records.AccountRoundTrip | etapa2.4.c:437 | a line "name password type" written for an account with whitespace-free fields is one line and reads back as that account through strtok/strtol, through sscanf, and by its first word |
| Records.AccountOneLine | etapa2.4.c:437 | an account with no newline in its fields adds exactly one line |
| Records.AccountParses | etapa2.4.c:258-289 | check_credentials' tokenizer reads a written account line back as the account |
| Records.AccountScans | etapa2.4.c:986 | sscanf("%s %s %d") reads a written account line back as the account, and its first word is the name |
| Records.AccountFirstWord | etapa2.4.c:307 | sscanf("%s") on an account line returns its name |
| Records.ScannedStorable | etapa2.4.c:986 | whatever sscanf reads from a line is an account with whitespace-free fields and an int type |
| Records.HasUserAppend | etapa2.4.c:1062 | after appending a line, a name is present exactly when it was present or is the new line's first word |
| Records.ParsedUserHasWord | etapa2.4.c:269 | a line the tokenizer accepts with a whitespace-free name has that name as its first word |
| Records.MatchHasUser | etapa2.4.c:286 | a line check_credentials matches makes the name present in the file |
| Records.PromoteThenAuthenticate | etapa2.4.c:1054-1062 | a storable account appended to a file without its name authenticates with its own type |
| Records.RemovedCannotAuthenticate | etapa2.4.c:1196-1210 | after the credentials filter no password authenticates the removed name, admin/admin aside |
| Records.TrailingFieldsJoin | etapa2.4.c:554 | the fields after the key of a written profile line are read back by strtok unchanged |
| Records.JoinFieldsOneLine | etapa2.4.c:554 | a profile written from newline-free fields is one line |
| Records.JoinedReadsBack | etapa2.4.c:554 | strtok on a written profile line returns the key, then the other fields, and the line is one line |
| Records.EngineerRoundTrip | etapa2.4.c:554 | an engineer profile whose fields hold no '\|' or newline is written as one line that reads back as that profile |
| Records.OrganizationRoundTrip | etapa2.4.c:590 | the same for an organization profile |
| Records.FirstKeyedAppend | etapa2.4.c:554 | a line appended for a name no earlier line is keyed by is the one the lookup finds |
| Records.EngineerAppendThenView | etapa2.4.c:554 | after register_engineer appends a profile for a new name, view_profile finds exactly that profile |
| Records.OrganizationAppendThenView | etapa2.4.c:590 | after register_organization appends a profile for a new name, view_profile finds exactly that profile |
| Records.EngineerListed | etapa2.4.c:817-867 | list_engineers shows a profile exactly when some line of the file parses to it |
| Records.OrganizationListed | etapa2.4.c:869-919 | list_organizations shows a profile exactly when some line of the file parses to it |
| Messages.Numbered | etapa2.4.c:1001-1005 | one numbered line per listed entry |
| Messages.PendingItems | etapa2.4.c:1001-1005 | one line per pending account listed |
| Messages.UserItems | etapa2.4.c:1138-1144 | one line per account listed for deletion |
| Messages.PendingItemsNumbered | etapa2.4.c:1001-1005 | the k-th line shown names the k-th listed account with the number k+1, which is the number the administrator types |
| Messages.UserItemsNumbered | etapa2.4.c:1138-1144 | the same numbering for the deletion list |
| Dialogues.LineAt | etapa2.4.c:98-125 | a line is there exactly when the client has not yet closed before it |
| Dialogues.ShowLoginMenu | etapa2.4.c:150-167 | a closed connection gives -1 |
| Dialogues.NextClientStep | etapa2.4.c:921-945 | the corrected turn: the session ends exactly when the connection is closed, and otherwise follows the choice show_login_menu returns |
| Dialogues.UserMenuAction | etapa2.4.c:637-670 | no user choice reaches the administrator's operations; choice 2 lists organizations for an engineer and engineers for everyone else |
| Dialogues.AdminMenuAction | etapa2.4.c:695-713 | the administrator menu never shows a profile or a stub; choice 3 approves and choice 4 deletes, and nothing else does |
| Dialogues.LoginGate | etapa2.4.c:169-242 | the login dialogue never reads more than the client sent |
| Dialogues.PasswordGate | etapa2.4.c:212-241 | the password step reads within the input and admits only the name already given |
| Dialogues.RegistrationGate | etapa2.4.c:341-446 | the registration checks, as written (AsWritten: contains_invalid_chars alone) or with the corrected username test, read within the input |
| Dialogues.AccountGate | etapa2.4.c:391-437 | the password and type step reads within the input and queues only the name already accepted |
| Dialogues.Insist | etapa2.4.c:510-540 | a question loop, under the cap as written (atoi's value) or corrected (the number written), reads within the input; an answer is accepted only after at least one read, and without one the whole input was consumed |
| Dialogues.InsistAccepts | etapa2.4.c:510-540 | the accepted answer is the last chunk read, with its newline removed, and draws no complaint |
| Dialogues.InsistRefusesEarlier | etapa2.4.c:510-540 | every answer before the accepted one (or before the input ran out) was refused with a complaint, so invalid input asks again rather than aborting |
| Dialogues.EngineerDialogue | etapa2.4.c:499-566 | register_engineer, with the experience cap as written or corrected, reads within the input; a closed connection ends it only after all input is read |
| Dialogues.ExperienceDialogue | etapa2.4.c:510-527 | the experience loop, with the cap as written or corrected, and the rest read within the input |
| Dialogues.EducationDialogue | etapa2.4.c:529-545 | the education loop and the skills answer read within the input |
| Dialogues.OrganizationDialogue | etapa2.4.c:568-603 | register_organization saves after exactly three answers, which become the profile's fields |
| Dialogues.Pick | etapa2.4.c:1018-1043 | an account is chosen exactly when the number is all digits and names a listed entry (1..count) and the confirmation begins with Y or y; the choice is the entry at that number, after two answers |
| Dialogues.ApprovalDialogue | etapa2.4.c:948-1051 | accept_new_user reads within the input |
| Dialogues.RemovalDialogue | etapa2.4.c:1097-1182 | delete_user's choice reads within the input |
| Sessions.Head | etapa2.4.c:160-166 | the next chunk is there exactly when the input is not exhausted |
| Sessions.AcceptNewUser | etapa2.4.c:948-1051 | accept_new_user reads within the input and keeps the connection open |
| Sessions.DeleteUser | etapa2.4.c:1097-1268 | delete_user reads within the input and keeps the connection open |
| Sessions.DeleteUserCases | etapa2.4.c:1097-1268 | an empty list changes nothing; otherwise the files change, to Remove of the chosen entry, exactly when Pick selects one, and the replies are the listing, then the choice dialogue, then the confirmation |
| Sessions.AdminTurn | etapa2.4.c:678-714 | a turn of the admin menu reads within the input and only continues after reading a choice |
| Sessions.AdminSession | etapa2.4.c:674-715 | show_admin_menu reads within the input |
| Sessions.UserTurn | etapa2.4.c:613-670 | a turn of the user menu never changes the files and only continues after reading a choice |
| Sessions.UserSession | etapa2.4.c:604-671 | the user menu never changes the files |
| Sessions.MainMenu | etapa2.4.c:604-611 | only an administrator's session can change the files |
| Sessions.LoginSession | etapa2.4.c:169-242 | a login session reads within the input |
| Sessions.RegistrationSession | etapa2.4.c:341-459 | a registration, with the checks as written or corrected, reads within the input |
| Sessions.QueuedSession | etapa2.4.c:430-459 | the rest of a registration reads within the input |
| Sessions.EngineerSession | etapa2.4.c:449-451 | the engineer profile step reads within the input |
| Sessions.OrganizationSession | etapa2.4.c:452-454 | the organization profile step reads within the input |
| Sessions.ClientTurn | etapa2.4.c:925-943 | the turn of process_client corrected to end on a closed connection, with the registration checks as written or corrected, reads within the input and only goes round again after reading something |
| Sessions.ClientTurnAsWritten | etapa2.4.c:925-943 | the turn as written reads within the input (see Properties.LoginMenuSpinsAsWritten for what it does on a closed connection) |
| Sessions.ClientSession | etapa2.4.c:921-945 | process_client, ending on a closed connection, reads within the input |
| Properties.LoginAdmitsExactly | etapa2.4.c:169-242 | a client is let in exactly when two answers arrive, the name is 1-49 characters with no invalid character and is not pending, the password is 1-49 characters with none, and check_credentials gives a positive type; the session is then that name with that type after two reads |
| Properties.PendingNotAskedPassword | etapa2.4.c:193-210 | a valid name that is the first word of a pending line is refused with the pending notice before the password prompt, after one read |
| Properties.AdminAdmitted | etapa2.4.c:247-249 | admin/admin is let in as type 3 whatever the credentials file holds |
| Properties.QueuedAccount | etapa2.4.c:353-437 | a queued account has a 1-49 character name without contains_invalid_chars' or the file format's characters that is neither active nor pending, a 4-49 character password, type 1 or 2, and one line in the file; as written its name holds whitespace exactly when it holds a vertical tab or form feed, corrected it holds none, and a name without whitespace is its line's first word |
| Properties.RegistrationKeepsDisjoint | etapa2.4.c:366-437 | queuing an account whose name has no whitespace (always so under the corrected test) keeps active and pending names apart and makes the name pending |
| Properties.RegistrationChecksAgree | etapa2.4.c:353-361 | the username test as written and the corrected one lead to the same registration whenever the name sent holds no vertical tab, form feed or carriage return |
| Properties.QueuedPasswordLockedOut | etapa2.4.c:222-225 | a password accepted at registration but containing a character login refuses can never be used to log in with those answers |
| Properties.LockedOutExample | etapa2.4.c:398-437 | the password "ab;cd" is accepted at registration |
| Properties.UsernameCheckAsWritten | etapa2.4.c:341-459 | as written, with "bob" active, registering "bob\vx" queues a line whose first word is bob, so consistent files become inconsistent; the corrected test refuses the name and leaves the files as they were |
| Properties.VerticalTabName | etapa2.4.c:353-437 | as written, "bob\vx" with password "pass" and type 2 passes every check and is queued after three reads |
| Properties.VerticalTabNamePasses | etapa2.4.c:358 | contains_invalid_chars finds nothing in "bob\vx" |
| Properties.VerticalTabNameNew | etapa2.4.c:366-370 | username_exists does not find "bob\vx" beside the lines of admin and bob |
| Properties.VerticalTabRefused | etapa2.4.c:353-361 | the corrected test refuses "bob\vx" with the invalid-characters notice after one read |
| Properties.VerticalTabAccount | etapa2.4.c:391-428 | the password "pass", type 2 and the file-character test pass for "bob\vx" |
| Properties.VerticalTabLine | etapa2.4.c:437 | the line written for "bob\vx" is one line whose first word is bob |
| Properties.AdminFirstWord | etapa2.4.c:307 | sscanf's "%s" reads admin as the first word of the administrator's line |
| Properties.BobFirstWord | etapa2.4.c:307 | sscanf's "%s" reads "bob" as the first word of the line "bob pw 1" |
| Properties.ListingsSkipAdmin | etapa2.4.c:146-148 | no entry of either list the administrator chooses from passes is_admin |
| Properties.ApprovalSelectedExactly | etapa2.4.c:1013-1043 | an account is approved exactly when the pending list is not empty, the number is all digits and in 1..count, and the confirmation begins with Y or y; the approved account is the one at that number |
| Properties.ListedPending | etapa2.4.c:980-1009 | every approvable entry is a pending name whose fields are storable and which is not admin |
| Properties.PromoteKeepsConsistent | etapa2.4.c:1054-1093 | promoting a listed account keeps the files consistent, makes its name active and leaves no pending line with that name |
| Properties.ApprovedAccountLogsIn | etapa2.4.c:1054-1062 | after approval the account's name and password authenticate with its type |
| Properties.AcceptKeepsConsistent | etapa2.4.c:948-1051 | accept_new_user keeps the files consistent |
| Properties.RemovalSelectedExactly | etapa2.4.c:1152-1182 | an account is deleted exactly when the number is all digits and in 1..count and the confirmation begins with Y or y; the deleted account is the one at that number |
| Properties.RemoveKeepsConsistent | etapa2.4.c:1184-1265 | deleting a listed account keeps the files consistent, leaves the pending file alone, and leaves untouched the profile file of the other role |
| Properties.RemovedCannotLogIn | etapa2.4.c:1184-1265 | after deletion of a listed name without whitespace, no password authenticates the name and its profile is gone from the file of its role |
| Properties.DeleteKeepsConsistent | etapa2.4.c:1097-1268 | delete_user keeps the files consistent |
| Properties.AdminTurnKeepsConsistent | etapa2.4.c:678-714 | every turn of the admin menu keeps the files consistent |
| Properties.AdminSessionKeepsConsistent | etapa2.4.c:674-715 | a whole admin session keeps the files consistent |
| Properties.LoginKeepsConsistent | etapa2.4.c:169-242 | a login session, including everything the administrator does in it, keeps the files consistent |
| Properties.RegistrationKeepsConsistent | etapa2.4.c:341-459 | a registration never touches the credentials and only appends to the pending and profile files; it keeps the files consistent under the corrected test, and as written whenever no chunk holds a vertical tab or form feed |
| Properties.QueuedFiles | etapa2.4.c:430-459 | a queued registration, under either test, appends exactly the account's line to pending and only appends to the profile files |
| Properties.ComplaintExactly | etapa2.4.c:510-540 | an answer passes exactly when it is all digits and, for experience, the number taken is at most 60: as written atoi's value, the digits' value wrapped to 32 bits; corrected, the digits' value |
| Properties.CapsAgree | etapa2.4.c:518-519 | the two caps take every answer that is not all digits or whose value fits an int the same way |
| Properties.ExperienceCapAsWritten | etapa2.4.c:514-520 | as written, "4294967296" passes the experience check although its value exceeds 60; the corrected check refuses it as too many years |
| Properties.WrappedExperienceSaved | etapa2.4.c:510-545 | as written, the experience loop saves a profile of 4294967296 years |
| Properties.EducationSaved | etapa2.4.c:529-560 | a saved profile carries the name, specialization and experience given, an education that passes its check, and the last answer as skills |
| Properties.ExperienceSaved | etapa2.4.c:510-560 | a saved profile carries an experience and an education that both pass their checks |
| Properties.EngineerProfileValid | etapa2.4.c:499-566 | a saved engineer profile has the first answer as specialization, the last as skills, an all-digit education, and an all-digit experience whose atoi value (as written) or digits' value (corrected) is at most 60 |
| Properties.LoginMenuSpinsAsWritten | etapa2.4.c:921-945 | as written, after the client closes, a turn reads nothing, changes nothing, sends the menu and "Invalid choice" and asks for another turn, forever once process_login has closed the socket, and otherwise for as long as sends succeed |
| Properties.ClientTurnCorrected | etapa2.4.c:921-945 | the corrected turn with the checks as written agrees with the turn as written whenever the client sent something, and ends the session instead of spinning when it did not |
| Properties.ClientTurnKeepsConsistent | etapa2.4.c:925-943 | every turn of the login menu keeps the files consistent under the corrected username test, and under the test as written whenever no chunk holds a vertical tab or form feed |
| Properties.ClientSessionKeepsConsistent | etapa2.4.c:921-945 | a whole client session keeps the files consistent under the corrected username test, and under the test as written whenever no chunk holds a vertical tab or form feed |
| Properties.UserSessionReadOnly | etapa2.4.c:604-671 | an engineer's or organization's session never changes the files and never shows the admin menu |
| Properties.UserSessionNoAdminMenu | etapa2.4.c:613-670 | the user menu loop never sends the admin menu |
| Properties.CreateAdminConsistent | etapa2.4.c:1271-1297 | bootstrapping makes consistent files out of disjoint ones without a pending admin, and doing it twice is the same as once |
| Properties.AdminAccountLine | etapa2.4.c:1294 | the line "admin admin 3" has admin as its first word |
| Platform.FindUser | etapa2.4.c:306-313 | the scanning loop finds u exactly when some line's first word is u |
| Platform.CopyOtherUsers | etapa2.4.c:1077-1089 | the line-by-line copy to the temporary file yields the filtered lines |
| Platform.CopyOtherProfiles | etapa2.4.c:1227-1235 | the profile copy loop yields the filtered profile lines |
| Platform.FindProfile | etapa2.4.c:739-742 | the lookup loop stops at the first line keyed by the name |
| Platform.CollectLines | etapa2.4.c:830-861 | the listing loop collects the parsed entries in file order |
| Platform.SendEntries | etapa2.4.c:980-1009 | the listing loop stops at MAX_USERS entries and sends one numbered line per entry, reading nothing |
| Platform.ChooseEntry | etapa2.4.c:1018-1043 | the number-and-confirmation dialogue sends, reads and chooses what Pick describes |
| Platform.Stores.constructor | etapa2.4.c:1271-1297 | the stores start as the given files |
| Platform.Stores.UsernameExists | etapa2.4.c:299-337 | username_exists: true exactly when the name is the first word of a credentials or pending line |
| Platform.Stores.CheckCredentials | etapa2.4.c:246-295 | the loop over the credentials returns what Records.CheckCredentials says |
| Platform.Stores.CreateAdminUser | etapa2.4.c:1271-1297 | create_admin_user: appends "admin admin 3" only when no line starts with admin, and changes nothing else |
| Platform.Stores.MoveUserFromPendingToActive | etapa2.4.c:1054-1093 | the account's line is appended to the credentials, and pending keeps, in order, exactly the lines whose first word differs |
| Platform.Stores.ViewProfile | etapa2.4.c:717-815 | view_profile sends one reply, the profile of the first line keyed by the name in the file of the user's role, and reads nothing |
| Platform.Stores.ListEngineers | etapa2.4.c:817-867 | list_engineers sends every parseable engineer profile in file order, or the notice that there are none |
| Platform.Stores.ListOrganizations | etapa2.4.c:869-919 | list_organizations, likewise |
| Platform.Stores.SendPendingListing | etapa2.4.c:975-1009 | the header and one numbered line per approvable pending account |
| Platform.Stores.Approve | etapa2.4.c:1018-1050 | the files change, to the promotion of the chosen account, exactly when Pick selects one |
| Platform.Stores.AcceptNewUser | etapa2.4.c:948-1051 | accept_new_user leaves the files, the input and the replies that Sessions.AcceptNewUser describes |
| Platform.Stores.SendUserListing | etapa2.4.c:1110-1148 | the header and one numbered line per deletable account |
| Platform.Stores.RemoveAccount | etapa2.4.c:1184-1265 | credentials keep exactly the lines whose first word differs; the profile file of the account's role (engineers for type 1, organizations otherwise) keeps exactly the lines whose first '\|' field differs; the other files are untouched |
| Platform.Stores.Purge | etapa2.4.c:1157-1266 | the files change, to the removal of the chosen account, exactly when Pick selects one |
| Platform.Stores.DeleteUser | etapa2.4.c:1097-1268 | delete_user leaves the files, the input and the replies that Sessions.DeleteUser describes |
| Platform.Stores.AdminMenuTurn | etapa2.4.c:678-714 | one turn of show_admin_menu, as Sessions.AdminTurn describes |
| Platform.Stores.ShowAdminMenu | etapa2.4.c:674-715 | the admin menu loop, as Sessions.AdminSession describes |
| Platform.Stores.UserMenuTurn | etapa2.4.c:613-670 | one turn of show_main_menu, as Sessions.UserTurn describes, with the files unchanged |
| Platform.Stores.ShowUserMenu | etapa2.4.c:612-671 | the user menu loop, as Sessions.UserSession describes |
| Platform.Stores.ShowMainMenu | etapa2.4.c:604-671 | type 3 goes to the admin menu, any other type to the user menu, as Sessions.MainMenu describes |
| Platform.Stores.LoginChecks | etapa2.4.c:169-241 | process_login's checks: reads and replies as Dialogues.LoginGate, admitting the name and type it admits |
| Platform.Stores.PasswordChecks | etapa2.4.c:212-241 | the password half of process_login, as Dialogues.PasswordGate |
| Platform.Stores.JudgePassword | etapa2.4.c:222-241 | a received password is refused for its length or characters, and is otherwise let in exactly when check_credentials gives a positive type, as Dialogues.PasswordGate |
| Platform.Stores.ProcessLogin | etapa2.4.c:169-242 | process_login leaves the files, the input and the replies that Sessions.LoginSession describes |
| Platform.Stores.RegistrationChecks | etapa2.4.c:341-428 | process_registration's checks as written, contains_invalid_chars alone on the name, as Dialogues.RegistrationGate with AsWritten |
| Platform.Stores.AccountChecks | etapa2.4.c:391-428 | the password and type checks, as Dialogues.AccountGate |
| Platform.Stores.AskOnce | etapa2.4.c:511-526 | one round of a question loop: the prompt, one answer, and the complaint as written (atoi's value against 60), as one step of Dialogues.Insist with AsWritten |
| Platform.Stores.AskUntilValid | etapa2.4.c:510-540 | a question loop asks until an answer passes the checks as written or the input ends, as Dialogues.Insist with AsWritten |
| Platform.Stores.RegisterEngineer | etapa2.4.c:499-566 | the profile line is appended exactly when Dialogues.EngineerDialogue, with the cap as written, saves a profile; the replies and reads are its own |
| Platform.Stores.AskExperience | etapa2.4.c:510-545 | the experience loop as written and the rest, as Dialogues.ExperienceDialogue with AsWritten |
| Platform.Stores.AskEducation | etapa2.4.c:529-545 | the education loop and the skills, as Dialogues.EducationDialogue |
| Platform.Stores.RegisterOrganization | etapa2.4.c:568-603 | the profile line is appended exactly when Dialogues.OrganizationDialogue saves a profile |
| Platform.Stores.ProcessRegistration | etapa2.4.c:341-459 | process_registration leaves the files, the input and the replies that Sessions.RegistrationSession with the checks as written describes |
| Platform.Stores.QueueAccount | etapa2.4.c:430-459 | the account line goes to pending, then the profile questions, as Sessions.QueuedSession |
| Platform.Stores.FinishEngineer | etapa2.4.c:449-451 | the engineer branch, as Sessions.EngineerSession |
| Platform.Stores.FinishOrganization | etapa2.4.c:452-454 | the organization branch, as Sessions.OrganizationSession |
| Platform.Stores.LoginMenuTurn | etapa2.4.c:925-943 | one turn of process_client, as Sessions.ClientTurn with the checks as written (ending on a closed connection) |
| Platform.Stores.ProcessClient | etapa2.4.c:921-945 | process_client leaves the files, the input and the replies that Sessions.ClientSession with the checks as written describes (ending on a closed connection) |
| Stage2.FirstListed | etapa2.c:393-398 | the first registry entry below numUsers with the name, or none when no entry has it |
| Stage2.AddOnline | etapa2.c:163-187 | the registry keeps its MAX_USERS slots and numUsers never exceeds MAX_USERS |
| Stage2.MarkOffline | etapa2.c:393-398 | logging out keeps the registry's size |
| Stage2.AddOnlineFull | etapa2.c:165-167 | a full registry is left unchanged, even for a listed user |
| Stage2.AddOnlineListed | etapa2.c:170-176 | for a listed name only that entry's is_online (set) and socket_fd change; numUsers and every other entry stay |
| Stage2.AddOnlineNew | etapa2.c:178-184 | a new name is written at index numUsers with the given fields and is_online set, numUsers grows by one, and nothing else changes |
| Stage2.AddOnlineThenListed | etapa2.c:163-187 | after adding a user to a registry that was not full, the user's first entry is online with the new socket |
| Stage2.FirstListedSame | etapa2.c:170-176 | updating the found entry in place does not change which entry is found first |
| Stage2.AddOnlineTwice | etapa2.c:163-187 | adding the same user twice is the same as adding once |
| Stage2.LogoutExactly | etapa2.c:390-399 | logout clears is_online on the first entry with the name and changes nothing else; without such an entry nothing changes |
| Stage2.Presence.constructor | etapa2.c:36-37 | the registry starts empty, with MAX_USERS slots |
| Stage2.Presence.AddUserToOnlineList | etapa2.c:163-187 | the in-place update of users[] and numUsers is Stage2.AddOnline of the old registry, and numUsers stays within MAX_USERS |
| Stage2.Presence.Logout | etapa2.c:390-399 | the in-place logout loop is Stage2.MarkOffline of the old registry |
| Stage2.Reads | etapa2.c:74-91 | k calls of receive_string take k chunks, fewer only when the input ends |
| Stage2.ReceiveString | etapa2.c:74-91 | receive_string of etapa2.c: the next chunk without its trailing newline, or the empty text once the client has closed |
| Stage2.ScannedTypeNoMatch | etapa2.c:150-160 | check_credentials returns 0 when no line sscanf reads has the name and password |
| Stage2.ScannedTypeFirstMatch | etapa2.c:150-160 | otherwise it returns the type of the first line that has them |
| Stage2.NoAdminShortcut | etapa2.c:138-161 | this variant has no admin/admin shortcut: with no lines admin/admin gives 0, where etapa2.4.c gives 3 |
| Stage2.ScannedLogin | etapa2.c:112-136 | the login dialogue reads within the input |
| Stage2.ScannedLoginSession | etapa2.c:112-136 | a login of etapa2.c never changes the files |
| Stage2.MenuStep | etapa2.c:346-403 | one turn of the main menu moves the session forward by its replies and reads |
| Stage2.EndsInLogoutExactly | etapa2.c:390-399 | the session's last reply is "Logging out" exactly when some turn chose option 6 |
| Stage2.PresenceAfterLogin | etapa2.c:122-133 | the registry after a login keeps its size and bound |
| Stage2.LoginThenLogout | etapa2.c:122-133 | after a successful login the user is listed, and stays online exactly when the session did not end with option 6 |
| Stage2.DirectGate | etapa2.c:189-218 | registration reads within the input (what it accepts: Stage2.DirectGateExactly) |
| Stage2.DirectAccountGate | etapa2.c:203-218 | the password and type step reads within the input and queues the name already given (which type it accepts: Stage2.DirectGateExactly) |
| Stage2.DirectRegistration | etapa2.c:189-233 | registration reads within the input and keeps the connection open (what it writes: Stage2.DirectRegistrationFiles) |
| Stage2.DirectAccount | etapa2.c:221-233 | the rest of registration reads within the input (what it writes: Stage2.DirectRegistrationFiles) |
| Stage2.DirectEngineer | etapa2.c:284-313 | register_engineer reads within the input (what it saves: Stage2.DirectEngineerViewed) |
| Stage2.DirectOrganization | etapa2.c:315-340 | register_organization reads within the input (what it saves: Stage2.DirectOrganizationViewed) |
| Stage2.DirectGateExactly | etapa2.c:189-218 | an account is accepted exactly when its name is not the first word of a credentials line and the third answer's atoi is 1 or 2; it is then the three answers as sent, and a taken name is refused after one read with the name-exists notice |
| Stage2.DirectRegistrationFiles | etapa2.c:189-233 | a refused registration changes no file; an accepted one appends exactly the account's line to the credentials, leaves pending alone, and appends the profile line to the file of its type only |
| Stage2.DirectRegisteredLogsIn | etapa2.c:189-233 | a registered account whose name and password are single words then passes check_credentials with the password and type sent |
| Stage2.AppendedAccountLogsIn | etapa2.c:150-160 | check_credentials finds an appended account line with its type when no earlier line starts with its name |
| Stage2.DirectEngineerViewed | etapa2.c:284-313 | the engineer profile saved is the one the profile lookup then finds, when its fields are storable and no earlier line is keyed by the name |
| Stage2.DirectOrganizationViewed | etapa2.c:315-340 | the organization profile saved is the one the profile lookup then finds, under the same conditions |
| Stage2.Server.constructor | etapa2.c:36-37 | the server starts with the given files and an empty registry |
| Stage2.Server.UsernameExists | etapa2.c:262-282 | username_exists of etapa2.c: true exactly when the name is the first word of a credentials line; pending is not consulted |
| Stage2.Server.CheckCredentials | etapa2.c:138-161 | the loop returns the type of the first line sscanf reads with the name and password, else 0 |
| Stage2.Server.MainMenuTurn | etapa2.c:346-403 | one turn of the menu, as Sessions.UserTurn, and it reports a logout exactly when the choice was 6 |
| Stage2.Server.ShowMainMenu | etapa2.c:342-404 | the menu loop; the registry changes, by Stage2.MarkOffline, exactly when the session ends with option 6 |
| Stage2.Server.EndOfMainMenu | etapa2.c:346-403 | the menu loop reports whether it ended with option 6 |
| Stage2.Server.AskTwice | etapa2.c:116-120 | two prompts, each followed by receive_string |
| Stage2.Server.LoginChecks | etapa2.c:116-135 | the login answers and check_credentials' result, as Stage2.ScannedLogin |
| Stage2.Server.ProcessLogin | etapa2.c:112-136 | process_login of etapa2.c: the replies and reads of Stage2.ScannedLoginSession, and the registry of Stage2.PresenceAfterLogin |
| Stage2.Server.LoggedIn | etapa2.c:128-132 | an admitted user is added to the registry as Stage2.AddOnline says, then the main menu runs and marks the user offline exactly when it ends with option 6 |
| Stage2.Server.AddUserToFile | etapa2.c:235-243 | the account line is appended to the credentials file and nothing else changes |
| Stage2.Server.DirectChecks | etapa2.c:194-218 | the name, password and type checks, as Stage2.DirectGate |
| Stage2.Server.DirectAccountChecks | etapa2.c:203-218 | the password and type checks, as Stage2.DirectAccountGate |
| Stage2.Server.ProcessRegistration | etapa2.c:189-233 | process_registration of etapa2.c leaves the files, the input and the replies that Stage2.DirectRegistration describes |
| Stage2.Server.AddAccount | etapa2.c:221-232 | the account goes to the credentials, then the profile branch, as Stage2.DirectAccount |
| Stage2.Server.RegisterEngineer | etapa2.c:284-313 | the four answers are saved as a profile line, as Stage2.DirectEngineer |
| Stage2.Server.EngineerAnswers | etapa2.c:290-300 | the four prompts of register_engineer, each followed by receive_string, and the profile built from the four answers |
| Stage2.Server.RegisterOrganization | etapa2.c:315-340 | the three answers are saved as a profile line, as Stage2.DirectOrganization |
| Stage1.OnlyMenuBytes | etapa1.c:96-101 | the byte filter passes exactly when every byte is a digit, newline or carriage return, and otherwise there is an offending byte |
| Stage1.ShowMainMenu | etapa1.c:72-113 | the result is -1, 1 or 2; it is not -1 exactly when the bytes pass the filter and atoi gives 1 or 2, and it is then that value; a closed connection or a read error gives -1; the menu is always sent first |
| Stage1.ProcessOption | etapa1.c:47-70 | option 1 exactly when the reply is "Engineer\n", option 2 exactly when it is "Organization\n", any other option gets the invalid-option text carrying its number; the closing notice follows |
| Stage1.ProcessClient | etapa1.c:192-204 | process_option runs exactly when the answer is accepted, and its reply is then "Engineer\n" or "Organization\n"; a refused answer gets the complaint and the closing notice |
| Stage1.InvalidOptionCarriesNumber | etapa1.c:58-60 | the invalid-option reply is the prefix, then text that reads back as the option itself, then a newline |
| Stage1.OptionReplyInjective | etapa1.c:47-70 | two different options never get the same reply |
| Stage1.SingleDigitAccepted | etapa1.c:83-112 | a line holding just 1 or 2 is accepted as that option |
| Stage1.WrappedOptionAccepted | etapa1.c:96-112 | "4294967297" passes the filter and the range check as option 1, because atoi's conversion to int wraps |
| Validation.SafeCharsPrefix | etapa2.4.c:462-470 | the characters kept from a prefix are a prefix of those kept from the whole |

## Left out

- Sockets, `main`, `fork`, `handle_sigchld`, `erro` and the banner and menu texts. Replies are modelled as values, not as their exact text, except in `etapa1.c`, whose texts are kept.
- Concurrency between forked children: the `remove` then `rename` window and any interleaving of two clients. The model describes one client at a time and only final file contents.
- Platform.Stores.MoveUserFromPendingToActive: does not model the partial-failure path (etapa2.4.c:1069-1073) in which the account is already appended to the credentials when the pending file cannot be rewritten.
- File open, write and close failures: a missing file reads as an empty one, and writes always succeed. The error notices for those cases are not modelled.
- `sscanf("%s")` on a blank line leaves its buffer as it was. The model treats such a line as having no first word: filters keep it and searches do not match it.
- C memory unsafety: unbounded `strcpy` into fixed buffers, and `etapa2.4.c` copying a NULL from `receive_string` after a disconnect. The latter ends the server process and is modelled as the session ending (`Crashed`).
- `etapa2.c` `receive_string` returns an empty buffer on disconnect; the model reads it as the empty text, as the code does.
- Stage2.Server: `etapa2.c`'s `show_login_menu` and `process_client` (etapa2.c:93-110, 610-634) are the same dispatch as in `etapa2.4.c`. They are not modelled a second time; the login and registration they call are.
- The "not yet implemented" stubs (options 3 to 5, etapa2.4.c:648-656 and etapa2.c:381-389) are one notice each.
- The `blocked_` and `access_` files `etapa2.c`'s `add_user_to_file` creates empty (etapa2.c:245-259) hold no content.
- Sends always succeed. `send_message` calls `send` without `MSG_NOSIGNAL` (etapa2.4.c:81, etapa2.c:66), and neither program handles SIGPIPE. After the client has fully closed, a later send on the still open socket would raise SIGPIPE and end the child. Once `process_login` has closed the socket itself (etapa2.4.c:176 and 215), sends fail with EBADF instead, without a signal. The model continues instead, as on a half-closed connection, where the client has shut down only its sending side. So what the model does after a close is what a half-closed connection sees. For example, `Stage2.DirectEngineer` then saves a profile of empty answers.
- Stage2.Server.MainMenuTurn: the engineer and organization listings leave out the "[Online]"/"[Offline]" flag that `etapa2.c` prints from its registry (etapa2.c:535-546 and 587-598). The registry belongs to the child process. Only the logged-in user is online in it, since earlier logins of the same child are marked offline at option 6. So the flag could read Online only for a line keyed by the current user's own name, in the file of the other role.
- The online-user registry in `etapa2.4.c` is declared but never filled. Its logout loop and the online marks in the listings therefore never match, and the listings carry no online flag.
- `menus_teste.c` and `menu_tcp.c` are not part of this model: one is a console prototype of the stubbed features, the other only reads a raw integer from a socket.
- Dialogue functions of `Dialogues`, `Sessions` and `Stage2` state only input bounds in their own contracts. What they mean is proved by separate lemmas: those of `Properties` for `etapa2.4.c`, and `Stage2.DirectGateExactly`, `Stage2.DirectRegistrationFiles`, `Stage2.DirectRegisteredLogsIn`, `Stage2.DirectEngineerViewed` and `Stage2.DirectOrganizationViewed` for `etapa2.c`. The methods proved equal to them carry the same meaning.
- Platform.Stores.ProcessClient: ends the session when the client closes the connection, where `process_client` goes round: forever once `process_login` has closed the socket, otherwise for as long as its sends succeed (see Findings). A method that never returns cannot be proved to leave a described state. `Sessions.ClientTurnAsWritten` models the endless turn, and `Properties.ClientTurnCorrected` shows that this is the only difference.
- Platform.Stores.LoginMenuTurn: ends the session on a closed connection, for the same reason as `Platform.Stores.ProcessClient`.
- Sessions.ClientSession: is the corrected loop that `Platform.Stores.ProcessClient` follows; it ends on a closed connection instead of spinning.
- Records.KeepOtherProfiles: assumes that every profile line fits `delete_user`'s 1024-byte `fgets` buffer (etapa2.4.c:1105). A longer line is read in pieces: the source drops only the first piece, the one keyed by the name, and keeps the tail as a stray line that `list_engineers` later shows. Specialization and skills can each be 1023 bytes, so such lines can occur.
- Platform.CopyOtherProfiles: copies whole lines, under the same assumption as `Records.KeepOtherProfiles`.
- Platform.Stores.RemoveAccount: removes the whole profile line, under the same assumption as `Records.KeepOtherProfiles`.
- Records.LookupEngineer: assumes that every line fits the 4096-byte buffer of `view_profile` (etapa2.4.c:731); `Records.LookupOrganization`, `Platform.Stores.ViewProfile`, `Platform.Stores.ListEngineers` and `Platform.Stores.ListOrganizations` assume the same of their buffers (etapa2.4.c:824). A longer line would be split the same way.
- Records.TrailingFields: a field that `strtok` does not find reads as the empty text. The source leaves that array uninitialized and still prints it (etapa2.4.c:743-755 and :835-843). In `list_engineers` it typically still holds the previous line's value.
- Records.ParseEngineer: a missing field is the empty text, as in `Records.TrailingFields`.
- Records.ParseOrganization: a missing field is the empty text, as in `Records.TrailingFields`.
- Characters stand for bytes, and a NUL inside a received chunk is kept as a character. In the source, `receive_string`'s C string ends at the NUL (etapa2.4.c:98-125), so `strlen`, `strcmp` and `fprintf` see only the part before it.

## Findings

| source | as written | input that shows it | evidently intended | confidence | as-written member | corrected member |
|---|---|---|---|---|---|---|
| etapa2.4.c:358-370 | registration refuses only the characters of contains_invalid_chars, but every name comparison uses sscanf's "%s", which also stops at vertical tab and form feed | register the name "bob\vx" while "bob" is active: username_exists does not see it, and the pending line's first word is then "bob", so "bob" is both active and pending | a name with any whitespace is refused, so no name is both active and pending | not executed | Properties.UsernameCheckAsWritten | Properties.ClientSessionKeepsConsistent |
| etapa2.4.c:514-520 | the experience cap compares atoi's 32-bit value with 60 | the answer "4294967296" wraps to 0 and is saved as 4294967296 years of experience | the number written is at most 60 | not executed | Properties.WrappedExperienceSaved | Properties.EngineerProfileValid |
| etapa2.4.c:921-945 | show_login_menu returns -1 for a closed connection and process_client treats it as an invalid choice and loops | send "1\n", then close the connection fully: process_login gets no username and closes the socket itself, and from then on the child goes round forever, each send and recv failing with EBADF and no signal. A close first seen at the menu spins forever on a half-closed connection, and until a send raises SIGPIPE after a full close | a closed connection ends the session | not executed | Properties.LoginMenuSpinsAsWritten | Properties.ClientSessionKeepsConsistent |
