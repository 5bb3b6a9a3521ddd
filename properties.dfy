/** What the platform's dialogues guarantee across operations: who is let
    in, what a registration puts in the pending file, what the
    administrator's approval and deletion do to the account files, and the
    consistency of those files that every operation keeps. */
module Properties {
  import opened CText
  import opened Validation
  import opened Records
  import opened Messages
  import opened Dialogues
  import opened Sessions

  // ---------------------------------------------------------------------
  // Login

  /** process_login lets a client in exactly when both answers pass the
      checks, the name is not pending, and check_credentials finds a
      positive type; it then reports that type for that name. */
  lemma LoginAdmitsExactly(cred: seq<string>, pend: seq<string>, input: seq<string>)
    ensures LoginGate(cred, pend, input).Admitted? <==>
      (|input| >= 2
      && LoginField(StripNewline(input[0]), MaxUsernameLength)
      && !HasUser(pend, StripNewline(input[0]))
      && LoginField(StripNewline(input[1]), MaxPasswordLength)
      && CheckCredentials(StripNewline(input[0]), StripNewline(input[1]), Some(cred)) > 0)
    ensures LoginGate(cred, pend, input).Admitted? ==>
      (var r := LoginGate(cred, pend, input);
      r.username == StripNewline(input[0]) && r.used == 2
      && r.userType == CheckCredentials(r.username, StripNewline(input[1]), Some(cred)))
  {
  }

  /** A pending account is turned away before its password is asked for. */
  lemma PendingNotAskedPassword(cred: seq<string>, pend: seq<string>, input: seq<string>)
    requires |input| > 0 && LoginField(StripNewline(input[0]), MaxUsernameLength)
    requires HasUser(pend, StripNewline(input[0]))
    ensures LoginGate(cred, pend, input) == Refused([Ask(Username), Say(PendingApproval)], 1)
  {
  }

  /** admin/admin is let in as the administrator whatever the credentials file holds. */
  lemma AdminAdmitted(cred: seq<string>, pend: seq<string>, input: seq<string>)
    requires |input| >= 2 && StripNewline(input[0]) == AdminName && StripNewline(input[1]) == AdminName
    requires !HasUser(pend, AdminName)
    ensures LoginGate(cred, pend, input) == Admitted(AdminName, 3, [Ask(Username), Ask(Password), Welcome(AdminName)], 2)
  {
    assert !ContainsInvalidChars(AdminName) by {
      assert forall i :: 0 <= i < |AdminName| ==> AdminName[i] !in InvalidChars;
    }
  }

  // ---------------------------------------------------------------------
  // Registration

  /** The account a registration queues: its name passes
      contains_invalid_chars and the file-character test and is new, its
      type is 1 or 2, and the line written for it is one line of the pending
      file. Under the test as written the name holds whitespace exactly when
      it holds a vertical tab or a form feed; under the corrected test it
      holds none, and a name without whitespace is the line's first word. */
  lemma QueuedAccount(c: Checks, cred: seq<string>, pend: seq<string>, input: seq<string>)
    requires RegistrationGate(c, cred, pend, input).Queued?
    ensures var a := RegistrationGate(c, cred, pend, input).account;
      |input| >= 3 && a.username == StripNewline(input[0]) && a.password == StripNewline(input[1])
      && 0 < |a.username| < MaxUsernameLength
      && !ContainsInvalidChars(a.username) && !HasFileInvalidChar(a.username) && !HasFileInvalidChar(a.password)
      && !HasUser(cred, a.username) && !HasUser(pend, a.username)
      && MinPasswordLength <= |a.password| < MaxPasswordLength
      && (a.userType == 1 || a.userType == 2)
      && SplitLines(FormatAccount(a)) == [FormatAccount(a)]
    ensures var a := RegistrationGate(c, cred, pend, input).account;
      (HasWhitespace(a.username) <==> '\U{0B}' in a.username || '\U{0C}' in a.username)
      && (c == Corrected ==> !HasWhitespace(a.username))
      && (!HasWhitespace(a.username) ==> FirstWord(FormatAccount(a)) == Some(a.username))
  {
    var a := RegistrationGate(c, cred, pend, input).account;
    var u := a.username;
    assert !HasFileInvalidChar(u) && !HasFileInvalidChar(a.password);
    AccountOneLine(a);
    if HasWhitespace(u) {
      var i :| 0 <= i < |u| && IsSpace(u[i]);
      assert u[i] !in InvalidChars && u[i] !in FileInvalidChars;
    }
    if '\U{0B}' in u || '\U{0C}' in u {
      var i :| 0 <= i < |u| && (u[i] == '\U{0B}' || u[i] == '\U{0C}');
      assert IsSpace(u[i]);
    }
    if !HasWhitespace(u) {
      AccountFirstWord(a);
    }
  }

  /** Queuing a registration whose name holds no whitespace (every name the
      corrected test lets through) keeps every name either active or
      pending, not both. */
  lemma RegistrationKeepsDisjoint(c: Checks, cred: seq<string>, pend: seq<string>, input: seq<string>)
    requires Disjoint(cred, pend) && RegistrationGate(c, cred, pend, input).Queued?
    ensures var a := RegistrationGate(c, cred, pend, input).account;
      (c == Corrected || !HasWhitespace(a.username)) ==>
        Disjoint(cred, pend + SplitLines(FormatAccount(a)))
        && HasUser(pend + SplitLines(FormatAccount(a)), a.username)
  {
    var a := RegistrationGate(c, cred, pend, input).account;
    QueuedAccount(c, cred, pend, input);
    if c == Corrected || !HasWhitespace(a.username) {
      forall v | HasUser(cred, v) ensures !HasUser(pend + [FormatAccount(a)], v) {
        HasUserAppend(pend, FormatAccount(a), v);
      }
      HasUserAppend(pend, FormatAccount(a), a.username);
    }
  }

  /** The two username tests differ only on a name holding a vertical tab,
      a form feed or a carriage return: on any other answer the
      registration goes exactly the same way. */
  lemma RegistrationChecksAgree(cred: seq<string>, pend: seq<string>, input: seq<string>)
    ensures (|input| == 0 || ('\U{0B}' !in input[0] && '\U{0C}' !in input[0] && '\r' !in input[0])) ==>
      RegistrationGate(AsWritten, cred, pend, input) == RegistrationGate(Corrected, cred, pend, input)
  {
    if |input| > 0 && '\U{0B}' !in input[0] && '\U{0C}' !in input[0] && '\r' !in input[0] {
      var u := StripNewline(input[0]);
      if HasWhitespace(u) {
        var i :| 0 <= i < |u| && IsSpace(u[i]);
        assert u[i] == input[0][i];
        assert u[i] in InvalidChars;
      }
    }
  }

  /** The registration checks on a password are weaker than the login
      checks: a password accepted at registration that holds one of
      contains_invalid_chars' characters is refused by every later login. */
  lemma QueuedPasswordLockedOut(c: Checks, cred: seq<string>, pend: seq<string>, input: seq<string>,
                                cred2: seq<string>, pend2: seq<string>, later: seq<string>)
    requires RegistrationGate(c, cred, pend, input).Queued?
    requires ContainsInvalidChars(RegistrationGate(c, cred, pend, input).account.password)
    ensures !LoginGate(cred2, pend2, input[..2] + later).Admitted?
  {
    QueuedAccount(c, cred, pend, input);
    var login := input[..2] + later;
    assert login[0] == input[0] && login[1] == input[1];
    LoginAdmitsExactly(cred2, pend2, login);
  }

  /** Such a password exists: "ab;cd" is queued and then can never log in. */
  lemma LockedOutExample()
    ensures RegistrationGate(AsWritten, [], [], ["bob\n", "ab;cd\n", "1\n"]).Queued?
    ensures ContainsInvalidChars(RegistrationGate(AsWritten, [], [], ["bob\n", "ab;cd\n", "1\n"]).account.password)
  {
    var input := ["bob\n", "ab;cd\n", "1\n"];
    assert StripNewline(input[0]) == "bob";
    assert StripNewline(input[1]) == "ab;cd";
    assert StripNewline(input[2]) == "1";
    assert !ContainsInvalidChars("bob") by {
      assert forall i :: 0 <= i < 3 ==> "bob"[i] !in InvalidChars;
    }
    assert !HasFileInvalidChar("bob") by {
      assert forall i :: 0 <= i < 3 ==> "bob"[i] !in FileInvalidChars;
    }
    assert !HasFileInvalidChar("ab;cd") by {
      assert forall i :: 0 <= i < 5 ==> "ab;cd"[i] !in FileInvalidChars;
    }
    assert "ab;cd"[2] in InvalidChars;
  }

  lemma BobFirstWord()
    ensures FirstWord("bob pw 1") == Some("bob")
  {
    assert "bob pw 1" == "bob" + [' '] + "pw 1";
    assert forall i :: 0 <= i < 3 ==> "bob"[i] !in Whitespace;
    TokenThenDelimiter("bob", ' ', "pw 1", Whitespace);
  }

  lemma AdminFirstWord()
    ensures FirstWord("admin admin 3") == Some(AdminName)
  {
    assert "admin admin 3" == AdminName + [' '] + "admin 3";
    assert forall i :: 0 <= i < 5 ==> AdminName[i] !in Whitespace;
    TokenThenDelimiter(AdminName, ' ', "admin 3", Whitespace);
  }

  /** The name "bob\vx" passes every test of process_registration as
      written. */
  lemma VerticalTabName(cred: seq<string>)
    requires cred == ["admin admin 3", "bob pw 1"]
    ensures RegistrationGate(AsWritten, cred, [], ["bob\U{0B}x", "pass", "2"])
      == Queued(AccountRecord("bob\U{0B}x", "pass", 2), [Ask(NewUsername), Ask(NewPassword), Ask(UserTypeChoice)], 3)
  {
    var input := ["bob\U{0B}x", "pass", "2"];
    var u := "bob\U{0B}x";
    assert LineAt(input, 0) == Some(u);
    VerticalTabNameNew(cred);
    VerticalTabNamePasses();
    assert input[1..] == ["pass", "2"];
    VerticalTabAccount();
  }

  lemma VerticalTabNamePasses()
    ensures !UsernameRefused(AsWritten, "bob\U{0B}x")
  {
    var u := "bob\U{0B}x";
    assert forall i :: 0 <= i < |u| ==> u[i] !in InvalidChars;
  }

  lemma VerticalTabNameNew(cred: seq<string>)
    requires cred == ["admin admin 3", "bob pw 1"]
    ensures !UsernameExists("bob\U{0B}x", cred, [])
  {
    AdminFirstWord();
    BobFirstWord();
    assert !ScanForUser(cred[1..], "bob\U{0B}x") by {
      assert cred[1..][1..] == [];
    }
  }

  /** The corrected test refuses "bob\vx" after one read. */
  lemma VerticalTabRefused(cred: seq<string>)
    ensures RegistrationGate(Corrected, cred, [], ["bob\U{0B}x", "pass", "2"])
      == Rejected([Ask(NewUsername), Say(UsernameInvalidChars)], 1)
  {
    var u := "bob\U{0B}x";
    assert StripNewline(["bob\U{0B}x", "pass", "2"][0]) == u;
    assert IsSpace(u[3]);
  }

  /** The password and type of that registration pass, and so do the file
      characters of both fields. */
  lemma VerticalTabAccount()
    ensures AccountGate("bob\U{0B}x", ["pass", "2"])
      == Queued(AccountRecord("bob\U{0B}x", "pass", 2), [Ask(NewPassword), Ask(UserTypeChoice)], 2)
  {
    var input := ["pass", "2"];
    var u := "bob\U{0B}x";
    assert StripNewline(input[0]) == "pass" && StripNewline(input[1]) == "2";
    assert forall i :: 0 <= i < |u| ==> u[i] !in FileInvalidChars;
    assert forall i :: 0 <= i < 4 ==> "pass"[i] !in FileInvalidChars;
  }

  /** The line queued for "bob\vx" is one line, and its first word is bob. */
  lemma VerticalTabLine()
    ensures SplitLines(FormatAccount(AccountRecord("bob\U{0B}x", "pass", 2))) == [FormatAccount(AccountRecord("bob\U{0B}x", "pass", 2))]
    ensures FirstWord(FormatAccount(AccountRecord("bob\U{0B}x", "pass", 2))) == Some("bob")
  {
    var a := AccountRecord("bob\U{0B}x", "pass", 2);
    assert FormatAccount(a) == "bob" + ['\U{0B}'] + ("x pass " + Decimal(2));
    assert forall i :: 0 <= i < 3 ==> "bob"[i] !in Whitespace;
    TokenThenDelimiter("bob", '\U{0B}', "x pass " + Decimal(2), Whitespace);
    AccountOneLine(a);
  }

  /** Finding, as written: contains_invalid_chars lets a vertical tab
      through, yet "%s" stops there. With bob active, the registration of
      "bob\vx" queues a line that every "%s" scan reads as an account named
      bob, so bob is both active and pending and the login check stops him
      at "pending approval"; the corrected test refuses the name and
      changes nothing. */
  lemma UsernameCheckAsWritten()
    ensures var f := Files(["admin admin 3", "bob pw 1"], [], [], []);
      var input := ["bob\U{0B}x", "pass", "2"];
      Consistent(f)
      && !Consistent(RegistrationSession(AsWritten, f, input).files)
      && RegistrationSession(Corrected, f, input).files == f
  {
    var f := Files(["admin admin 3", "bob pw 1"], [], [], []);
    var input := ["bob\U{0B}x", "pass", "2"];
    var line := FormatAccount(AccountRecord("bob\U{0B}x", "pass", 2));
    VerticalTabName(f.credentials);
    VerticalTabRefused(f.credentials);
    VerticalTabLine();
    AdminFirstWord();
    BobFirstWord();
    assert FirstWord(f.credentials[0]) == Some(AdminName) && FirstWord(f.credentials[1]) == Some("bob");
    var g := RegistrationSession(AsWritten, f, input).files;
    assert g.pending == [] + [line];
    assert FirstWord(g.pending[0]) == Some("bob");
    assert HasUser(g.credentials, "bob") && HasUser(g.pending, "bob");
  }

  // ---------------------------------------------------------------------
  // The administrator's approval

  /** accept_new_user moves an account exactly when the file has lines, the
      number read is all digits and names a listed entry, and the answer to
      the confirmation starts with Y or y; it then moves that entry. */
  lemma ApprovalSelectedExactly(pend: seq<string>, input: seq<string>)
    ensures ApprovalDialogue(pend, input).Selected? <==>
      (|pend| > 0 && |input| >= 2 && AllDigits(StripNewline(input[0]))
      && 1 <= AtoI(StripNewline(input[0])) <= |PendingListing(pend)|
      && Confirms(StripNewline(input[1])))
    ensures ApprovalDialogue(pend, input).Selected? ==>
      (var r := ApprovalDialogue(pend, input);
      r.used == 2 && r.entry == PendingListing(pend)[AtoI(StripNewline(input[0])) - 1])
  {
  }

  /** An entry of the approval list is a pending account whose lines read
      back as a storable record. */
  lemma ListedPending(pend: seq<string>, a: AccountRecord)
    requires a in PendingListing(pend)
    ensures HasUser(pend, a.username) && Storable(a) && a.username != AdminName
  {
    PendingListingSound(pend, a);
    var i :| 0 <= i < |pend| && ScanAccount(pend[i]) == Some(a) && FirstWord(pend[i]) == Some(a.username);
    ScannedStorable(pend[i]);
  }

  /** Neither list the administrator chooses from offers the administrator's
      own account: every entry fails is_admin. */
  lemma ListingsSkipAdmin(cred: seq<string>, pend: seq<string>)
    ensures forall a :: a in PendingListing(pend) ==> !IsAdmin(a.username)
    ensures forall e :: e in UserListing(cred) ==> !IsAdmin(e.username)
  {
    forall a | a in PendingListing(pend)
      ensures !IsAdmin(a.username)
    {
      PendingListingSound(pend, a);
    }
    forall e | e in UserListing(cred)
      ensures !IsAdmin(e.username)
    {
      UserListingSound(cred, e);
    }
  }

  /** Promoting a listed pending account keeps the files consistent, makes
      the name active and leaves no pending line with that name. */
  lemma PromoteKeepsConsistent(f: Files, a: AccountRecord)
    requires Consistent(f) && a in PendingListing(f.pending)
    ensures Consistent(Promote(f, a))
    ensures HasUser(Promote(f, a).credentials, a.username) && !HasUser(Promote(f, a).pending, a.username)
  {
    ListedPending(f.pending, a);
    AccountRoundTrip(a);
    var line := FormatAccount(a);
    var g := Promote(f, a);
    assert g.credentials == f.credentials + [line];
    forall v | HasUser(g.credentials, v) ensures !HasUser(g.pending, v) {
      HasUserAppend(f.credentials, line, v);
      KeepOtherUsersHasUser(f.pending, a.username, v);
    }
    HasUserAppend(f.credentials, line, AdminName);
    HasUserAppend(f.credentials, line, a.username);
    KeepOtherUsersHasUser(f.pending, a.username, a.username);
  }

  /** An approved account logs in with the password and type it registered. */
  lemma ApprovedAccountLogsIn(f: Files, a: AccountRecord)
    requires Consistent(f) && a in PendingListing(f.pending)
    ensures CheckCredentials(a.username, a.password, Some(Promote(f, a).credentials)) == a.userType
  {
    ListedPending(f.pending, a);
    AccountRoundTrip(a);
    PromoteThenAuthenticate(f.credentials, a);
  }

  lemma AcceptKeepsConsistent(f: Files, input: seq<string>)
    requires Consistent(f)
    ensures Consistent(AcceptNewUser(f, input).files)
  {
    var r := ApprovalDialogue(f.pending, input);
    if r.Selected? {
      ApprovalSelectedExactly(f.pending, input);
      PromoteKeepsConsistent(f, r.entry);
    }
  }

  // ---------------------------------------------------------------------
  // The administrator's deletion

  /** delete_user removes an account exactly when the active file lists one,
      the number read is all digits and names a listed entry, and the
      confirmation starts with Y or y; it then removes that entry. */
  lemma RemovalSelectedExactly(cred: seq<string>, input: seq<string>)
    ensures RemovalDialogue(cred, input).Selected? <==>
      (|input| >= 2 && AllDigits(StripNewline(input[0]))
      && 1 <= AtoI(StripNewline(input[0])) <= |UserListing(cred)|
      && Confirms(StripNewline(input[1])))
    ensures RemovalDialogue(cred, input).Selected? ==>
      (var r := RemovalDialogue(cred, input);
      r.used == 2 && r.entry == UserListing(cred)[AtoI(StripNewline(input[0])) - 1])
  {
  }

  /** Removing a listed account keeps the files consistent and leaves the
      profile file of the other type as it was. */
  lemma RemoveKeepsConsistent(f: Files, e: UserEntry)
    requires Consistent(f) && e in UserListing(f.credentials)
    ensures Consistent(Remove(f, e))
    ensures Remove(f, e).pending == f.pending
    ensures e.userType == 1 ==> Remove(f, e).organizations == f.organizations
    ensures e.userType != 1 ==> Remove(f, e).engineers == f.engineers
  {
    UserListingSound(f.credentials, e);
    var kept := KeepOtherUsers(f.credentials, e.username);
    forall v | HasUser(kept, v) ensures !HasUser(f.pending, v) {
      KeepOtherUsersHasUser(f.credentials, e.username, v);
    }
    KeepOtherUsersHasUser(f.credentials, e.username, AdminName);
  }

  /** A deleted account can no longer log in, with any password, and its
      profile is gone from the file of its type. */
  lemma RemovedCannotLogIn(f: Files, e: UserEntry, p: string)
    requires e in UserListing(f.credentials) && !HasWhitespace(e.username)
    ensures CheckCredentials(e.username, p, Some(Remove(f, e).credentials)) == 0
    ensures e.userType == 1 ==> LookupEngineer(Remove(f, e).engineers, e.username).None?
    ensures e.userType != 1 ==> LookupOrganization(Remove(f, e).organizations, e.username).None?
  {
    UserListingSound(f.credentials, e);
    RemovedCannotAuthenticate(f.credentials, e.username, p);
    RemovedProfileGone(f.engineers, e.username);
    RemovedProfileGone(f.organizations, e.username);
  }

  lemma DeleteKeepsConsistent(f: Files, input: seq<string>)
    requires Consistent(f)
    ensures Consistent(DeleteUser(f, input).files)
  {
    var r := RemovalDialogue(f.credentials, input);
    if r.Selected? {
      RemovalSelectedExactly(f.credentials, input);
      RemoveKeepsConsistent(f, r.entry);
    }
  }

  // ---------------------------------------------------------------------
  // Whole sessions

  /** One turn of the administrator's menu keeps the files consistent. */
  lemma AdminTurnKeepsConsistent(f: Files, input: seq<string>)
    requires Consistent(f)
    ensures Consistent(AdminTurn(f, input).step.files)
  {
    if |input| > 0 {
      var c := AdminMenuAction(AtoI(input[0]));
      if c == AcceptUsers {
        AcceptKeepsConsistent(f, input[1..]);
      } else if c == DeleteUsers {
        DeleteKeepsConsistent(f, input[1..]);
      }
    }
  }

  lemma {:induction false} AdminSessionKeepsConsistent(f: Files, input: seq<string>)
    requires Consistent(f)
    ensures Consistent(AdminSession(f, input).files)
    decreases |input|
  {
    var t := AdminTurn(f, input);
    AdminTurnKeepsConsistent(f, input);
    if t.more {
      AdminSessionKeepsConsistent(t.step.files, input[t.step.used..]);
    }
  }

  lemma LoginKeepsConsistent(f: Files, input: seq<string>)
    requires Consistent(f)
    ensures Consistent(LoginSession(f, input).files)
  {
    var g := LoginGate(f.credentials, f.pending, input);
    if g.Admitted? && g.userType == 3 {
      AdminSessionKeepsConsistent(f, input[g.used..]);
    }
  }

  /** No chunk holds a vertical tab or a form feed: the two characters that
      pass every test process_registration makes of a name and still end a
      "%s" word. */
  predicate NoVerticalSpace(input: seq<string>) {
    forall i :: 0 <= i < |input| ==> '\U{0B}' !in input[i] && '\U{0C}' !in input[i]
  }

  lemma NoVerticalSpaceAfter(input: seq<string>, k: nat)
    requires NoVerticalSpace(input) && k <= |input|
    ensures NoVerticalSpace(input[k..])
  {
    assert forall i :: 0 <= i < |input| - k ==> input[k..][i] == input[k + i];
  }

  /** A registration, finished or not, only ever appends to the files, and
      keeps them consistent under the corrected test, or under the test as
      written when the name sent holds no vertical tab or form feed. */
  lemma RegistrationKeepsConsistent(c: Checks, f: Files, input: seq<string>)
    requires Consistent(f)
    ensures var g := RegistrationSession(c, f, input).files;
      g.credentials == f.credentials
      && f.pending <= g.pending && f.engineers <= g.engineers && f.organizations <= g.organizations
    ensures (c == Corrected || NoVerticalSpace(input)) ==> Consistent(RegistrationSession(c, f, input).files)
  {
    var r := RegistrationGate(c, f.credentials, f.pending, input);
    if r.Queued? {
      QueuedAccount(c, f.credentials, f.pending, input);
      RegistrationKeepsDisjoint(c, f.credentials, f.pending, input);
      QueuedFiles(c, f, input);
      var u := r.account.username;
      if c == AsWritten && NoVerticalSpace(input) {
        assert u == input[0][..|u|];
        assert '\U{0B}' !in u && '\U{0C}' !in u;
      }
    }
  }

  /** What a queued registration writes: one pending line, and at most a
      profile appended to one of the profile files. */
  lemma QueuedFiles(c: Checks, f: Files, input: seq<string>)
    requires RegistrationGate(c, f.credentials, f.pending, input).Queued?
    ensures var a := RegistrationGate(c, f.credentials, f.pending, input).account;
      var g := RegistrationSession(c, f, input).files;
      g.credentials == f.credentials && g.pending == f.pending + SplitLines(FormatAccount(a))
      && f.engineers <= g.engineers && f.organizations <= g.organizations
  {
  }

  // ---------------------------------------------------------------------
  // Engineer profiles

  /** An answer passes exactly when it is all digits and, for the
      experience, the number it is taken for is at most 60: as written,
      atoi's value, which is the number written wrapped to 32 bits;
      corrected, the number written. */
  lemma ComplaintExactly(c: Checks, q: Question, answer: string)
    ensures Complaint(c, q, answer).None? <==>
      AllDigits(answer) && (q == YearsOfExperience ==>
        (if c == AsWritten then ToInt32(ClampLong(DigitsValue(answer))) else DigitsValue(answer)) <= MaxExperience)
  {
    if AllDigits(answer) && |answer| > 0 {
      DigitsAsNumber(answer);
    }
  }

  /** The two caps take every answer up to 2147483647 the same way: only a
      number an int cannot hold tells them apart. */
  lemma CapsAgree(q: Question, answer: string)
    ensures (!AllDigits(answer) || DigitsValue(answer) < 0x8000_0000) ==>
      Complaint(AsWritten, q, answer) == Complaint(Corrected, q, answer)
  {
    ComplaintExactly(AsWritten, q, answer);
    ComplaintExactly(Corrected, q, answer);
  }

  /** Finding, as written: the cap compares atoi's 32-bit value with 60, and
      "4294967296" wraps to 0, so the check as written accepts it; the
      corrected check refuses it as too many years. */
  lemma ExperienceCapAsWritten()
    ensures Complaint(AsWritten, YearsOfExperience, "4294967296").None?
    ensures Complaint(Corrected, YearsOfExperience, "4294967296") == Some(TooManyYears)
  {
    DigitsOf429496729();
    DigitsSnoc("429496729", '6');
    assert "429496729" + ['6'] == "4294967296";
    assert DigitsValue("4294967296") == 4294967296;
    assert ClampLong(4294967296) == 4294967296;
    assert ToInt32(4294967296) == 0 by {
      assert 4294967296 % 0x1_0000_0000 == 0;
    }
    ComplaintExactly(AsWritten, YearsOfExperience, "4294967296");
  }

  /** The experience loop as written therefore saves a profile of
      4294967296 years. */
  lemma WrappedExperienceSaved()
    ensures var r := ExperienceDialogue(AsWritten, "bob", "civil", ["4294967296", "12", "bridges"]);
      r.Saved? && r.profile.experience == "4294967296"
  {
    ExperienceCapAsWritten();
    var input := ["4294967296", "12", "bridges"];
    assert StripNewline(input[0]) == "4294967296";
    assert Insist(AsWritten, YearsOfExperience, input) == Answered("4294967296", [Ask(Experience)], 1);
    assert StripNewline(input[1]) == "12" && AllDigits("12");
    assert input[1..][1..] == input[2..];
    assert StripNewline(input[2]) == "bridges";
  }

  /** What the education loop and the skills answer save. */
  lemma EducationSaved(c: Checks, u: string, spec: string, years: string, input: seq<string>)
    ensures var r := EducationDialogue(c, u, spec, years, input);
      r.Saved? ==> (0 < r.used && r.profile.username == u && r.profile.specialization == spec
        && r.profile.experience == years && r.profile.skills == StripNewline(input[r.used - 1])
        && Complaint(c, YearsOfEducation, r.profile.education).None?)
  {
    InsistAccepts(c, YearsOfEducation, input);
  }

  /** What the experience loop and the questions after it save. */
  lemma ExperienceSaved(c: Checks, u: string, spec: string, input: seq<string>)
    ensures var r := ExperienceDialogue(c, u, spec, input);
      r.Saved? ==> (0 < r.used && r.profile.username == u && r.profile.specialization == spec
        && r.profile.skills == StripNewline(input[r.used - 1])
        && Complaint(c, YearsOfExperience, r.profile.experience).None?
        && Complaint(c, YearsOfEducation, r.profile.education).None?)
  {
    var exp := Insist(c, YearsOfExperience, input);
    InsistAccepts(c, YearsOfExperience, input);
    if exp.Answered? {
      var n := exp.used;
      var r := EducationDialogue(c, u, spec, exp.text, input[n..]);
      EducationSaved(c, u, spec, exp.text, input[n..]);
      if r.Saved? {
        assert input[n..][r.used - 1] == input[n + r.used - 1];
      }
    }
  }

  /** register_engineer saves a profile only with the specialization and
      skills as answered, an all-digit education, and an all-digit
      experience of at most 60 years: of at most 60 once wrapped to 32 bits
      as written, of at most 60 as written down once corrected. A refused
      answer is asked again, never saved. */
  lemma EngineerProfileValid(c: Checks, u: string, input: seq<string>)
    ensures var r := EngineerDialogue(c, u, input);
      r.Saved? ==> (0 < r.used && r.profile.username == u
        && r.profile.specialization == StripNewline(input[0])
        && r.profile.skills == StripNewline(input[r.used - 1])
        && AllDigits(r.profile.experience) && AllDigits(r.profile.education)
        && (c == AsWritten ==> ToInt32(ClampLong(DigitsValue(r.profile.experience))) <= MaxExperience)
        && (c == Corrected ==> DigitsValue(r.profile.experience) <= MaxExperience))
  {
    if |input| > 0 {
      var r := ExperienceDialogue(c, u, StripNewline(input[0]), input[1..]);
      ExperienceSaved(c, u, StripNewline(input[0]), input[1..]);
      if r.Saved? {
        assert input[1..][r.used - 1] == input[1 + r.used - 1];
        ComplaintExactly(c, YearsOfExperience, r.profile.experience);
        ComplaintExactly(c, YearsOfEducation, r.profile.education);
      }
    }
  }

  /** Finding, as written: once the client has closed the connection, a
      turn of process_client reads nothing, changes nothing and asks for
      another turn, so the loop never ends. */
  lemma LoginMenuSpinsAsWritten(f: Files)
    ensures var t := ClientTurnAsWritten(f, []);
      t.more && t.step.used == 0 && t.step.files == f && t.step.replies == [LoginMenu, Say(InvalidLoginChoice)]
  {
  }

  /** The corrected turn differs from the turn as written only on a closed
      connection, where it ends the session instead of spinning. */
  lemma ClientTurnCorrected(f: Files, input: seq<string>)
    ensures |input| > 0 ==> ClientTurn(AsWritten, f, input) == ClientTurnAsWritten(f, input)
    ensures |input| == 0 ==> !ClientTurn(AsWritten, f, input).more && ClientTurnAsWritten(f, input).more
  {
  }

  /** One turn of the login menu keeps the files consistent, under the
      corrected username test or on input without a vertical tab or form
      feed. */
  lemma ClientTurnKeepsConsistent(c: Checks, f: Files, input: seq<string>)
    requires Consistent(f)
    ensures (c == Corrected || NoVerticalSpace(input)) ==> Consistent(ClientTurn(c, f, input).step.files)
  {
    if |input| > 0 {
      var a := LoginMenuAction(AtoI(input[0]));
      if a == DoLogin {
        LoginKeepsConsistent(f, input[1..]);
      } else if a == DoRegister {
        RegistrationKeepsConsistent(c, f, input[1..]);
        if NoVerticalSpace(input) {
          NoVerticalSpaceAfter(input, 1);
        }
      }
    }
  }

  /** Whatever a client sends, the files stay consistent under the
      corrected username test, and under the test as written whenever no
      chunk holds a vertical tab or form feed: the invariant every forked
      session of the server keeps. */
  lemma {:induction false} ClientSessionKeepsConsistent(c: Checks, f: Files, input: seq<string>)
    requires Consistent(f)
    ensures (c == Corrected || NoVerticalSpace(input)) ==> Consistent(ClientSession(c, f, input).files)
    decreases |input|
  {
    var t := ClientTurn(c, f, input);
    ClientTurnKeepsConsistent(c, f, input);
    if t.more && (c == Corrected || NoVerticalSpace(input)) {
      if NoVerticalSpace(input) {
        NoVerticalSpaceAfter(input, t.step.used);
      }
      ClientSessionKeepsConsistent(c, t.step.files, input[t.step.used..]);
    }
  }

  /** An engineer's or organization's menu never writes a file. */
  lemma UserSessionReadOnly(u: string, userType: int, f: Files, input: seq<string>)
    requires userType != 3
    ensures MainMenu(u, userType, f, input).files == f
    ensures forall k :: 0 <= k < |MainMenu(u, userType, f, input).replies| ==>
      !MainMenu(u, userType, f, input).replies[k].AdminMenu?
  {
    UserSessionNoAdminMenu(u, userType, f, input);
  }

  lemma {:induction false} UserSessionNoAdminMenu(u: string, userType: int, f: Files, input: seq<string>)
    ensures forall k :: 0 <= k < |UserSession(u, userType, f, input).replies| ==>
      !UserSession(u, userType, f, input).replies[k].AdminMenu?
    decreases |input|
  {
    var t := UserTurn(u, userType, f, input);
    if t.more {
      UserSessionNoAdminMenu(u, userType, f, input[t.step.used..]);
    }
  }

  // ---------------------------------------------------------------------
  // Start-up

  /** create_admin_user makes the files consistent when no pending line
      carries the administrator's name, and running it again changes nothing. */
  lemma CreateAdminConsistent(f: Files)
    requires Disjoint(f.credentials, f.pending) && !HasUser(f.pending, AdminName)
    ensures Consistent(CreateAdmin(f))
    ensures CreateAdmin(CreateAdmin(f)) == CreateAdmin(f)
  {
    var admin := FormatAccount(AccountRecord(AdminName, AdminName, 3));
    AdminAccountLine();
    if !ScanForUser(f.credentials, AdminName) {
      forall v | HasUser(f.credentials + [admin], v) ensures !HasUser(f.pending, v) {
        HasUserAppend(f.credentials, admin, v);
      }
      HasUserAppend(f.credentials, admin, AdminName);
    }
  }

  lemma AdminAccountLine()
    ensures FirstWord(FormatAccount(AccountRecord(AdminName, AdminName, 3))) == Some(AdminName)
  {
    var r := AccountRecord(AdminName, AdminName, 3);
    assert !HasWhitespace(AdminName) by {
      assert forall i :: 0 <= i < |AdminName| ==> !IsSpace(AdminName[i]);
    }
    AccountFirstWord(r);
  }
}
