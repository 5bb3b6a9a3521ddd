/** The flat record files of the platform and how the servers read them.
    A file is the sequence of its lines, each without its terminating newline.
    credentials.txt and pending.txt hold "username password type" lines;
    engineers.txt holds "username|specialization|experience|education|skills"
    and organizations.txt "username|name|industry|description". */
module Records {
  import opened CText
  import opened Validation

  /** Listings shown to the administrator stop after MAX_USERS entries. */
  const MaxUsers: nat := 100

  const Space: set<char> := {' '}
  const Pipe: set<char> := {'|'}
  const Newline: set<char> := {'\n'}

  datatype AccountRecord = AccountRecord(username: string, password: string, userType: int)

  /** The line fprintf("%s %s %d\n") writes, without its newline. */
  function FormatAccount(r: AccountRecord): string {
    r.username + " " + r.password + " " + Decimal(r.userType)
  }

  /** A field that the account formats read back unchanged. */
  predicate FieldOk(s: string) { |s| > 0 && !HasWhitespace(s) }

  predicate Storable(r: AccountRecord) {
    FieldOk(r.username) && FieldOk(r.password) && IsInt32(r.userType)
  }

  /** check_credentials of etapa2.4.c reads a line as three strtok(" ")
      tokens and accepts it only when strtol consumes the whole third one. */
  function ParseCredentialLine(line: string): Option<AccountRecord> {
    match NextToken(line, Space)
    case None => None
    case Some((u, r1)) =>
      match NextToken(r1, Space)
      case None => None
      case Some((p, r2)) =>
        match NextToken(r2, Space)
        case None => None
        case Some((t, _)) =>
          match WholeNumber(t)
          case None => None
          case Some(v) => Some(AccountRecord(u, p, v))
  }

  /** sscanf(line, "%s %s %d", ...) == 3 */
  function ScanAccount(line: string): Option<AccountRecord> {
    match Word(line)
    case None => None
    case Some((u, r1)) =>
      match Word(r1)
      case None => None
      case Some((p, r2)) =>
        match ScanInt(r2)
        case None => None
        case Some(v) => Some(AccountRecord(u, p, v))
  }

  /** sscanf(line, "%s", name) == 1: the first word of a line. */
  function FirstWord(line: string): Option<string> {
    match Word(line)
    case None => None
    case Some((w, _)) => Some(w)
  }

  /** Some line of the file starts with the word u. */
  ghost predicate HasUser(lines: seq<string>, u: string) {
    exists i :: 0 <= i < |lines| && FirstWord(lines[i]) == Some(u)
  }

  /** The fgets/sscanf loop that looks for a line whose first word is u. */
  function ScanForUser(lines: seq<string>, u: string): (b: bool)
    ensures b <==> HasUser(lines, u)
  {
    if |lines| == 0 then false
    else if FirstWord(lines[0]) == Some(u) then true
    else
      var rest := ScanForUser(lines[1..], u);
      assert forall i :: 1 <= i < |lines| ==> lines[i] == lines[1..][i - 1];
      assert HasUser(lines[1..], u) ==> HasUser(lines, u) by {
        if HasUser(lines[1..], u) {
          var j :| 0 <= j < |lines[1..]| && FirstWord(lines[1..][j]) == Some(u);
          assert FirstWord(lines[j + 1]) == Some(u);
        }
      }
      rest
  }

  /** username_exists of etapa2.4.c: the name is the first word of a line of
      the active file or of the pending file (a missing file has no lines). */
  function UsernameExists(u: string, credentials: seq<string>, pending: seq<string>): (b: bool)
    ensures b <==> HasUser(credentials, u) || HasUser(pending, u)
  {
    ScanForUser(credentials, u) || ScanForUser(pending, u)
  }

  predicate CredentialMatch(line: string, u: string, p: string) {
    var r := ParseCredentialLine(line);
    r.Some? && r.value.username == u && r.value.password == p
  }

  /** The type on the first line that parses and carries u and p. */
  function FindCredential(lines: seq<string>, u: string, p: string): (t: Option<int>)
    ensures t.None? <==> forall i :: 0 <= i < |lines| ==> !CredentialMatch(lines[i], u, p)
    ensures t.Some? ==> exists i :: (0 <= i < |lines| && CredentialMatch(lines[i], u, p)
      && ParseCredentialLine(lines[i]).value.userType == t.value
      && forall j :: 0 <= j < i ==> !CredentialMatch(lines[j], u, p))
  {
    if |lines| == 0 then None
    else if CredentialMatch(lines[0], u, p) then Some(ParseCredentialLine(lines[0]).value.userType)
    else
      var t := FindCredential(lines[1..], u, p);
      assert forall i :: 1 <= i < |lines| ==> lines[i] == lines[1..][i - 1];
      if t.Some? then
        var k :| 0 <= k < |lines[1..]| && CredentialMatch(lines[1..][k], u, p)
          && ParseCredentialLine(lines[1..][k]).value.userType == t.value
          && forall j :: 0 <= j < k ==> !CredentialMatch(lines[1..][j], u, p);
        assert forall j :: 0 <= j < k + 1 ==> !CredentialMatch(lines[j], u, p) by {
          forall j | 0 <= j < k + 1 ensures !CredentialMatch(lines[j], u, p) {
            if j > 0 { assert lines[j] == lines[1..][j - 1]; }
          }
        }
        t
      else
        t
  }

  /** check_credentials of etapa2.4.c: admin/admin is type 3 without reading
      the file; otherwise the type of the first matching line; 0 when nothing
      matches or the file cannot be opened (file == None). */
  function CheckCredentials(u: string, p: string, file: Option<seq<string>>): (t: int)
    ensures u == AdminName && p == AdminName ==> t == 3
    ensures !(u == AdminName && p == AdminName) && file.None? ==> t == 0
    ensures !(u == AdminName && p == AdminName) && file.Some? ==>
      ((forall i :: 0 <= i < |file.value| ==> !CredentialMatch(file.value[i], u, p)) ==> t == 0)
    ensures !(u == AdminName && p == AdminName) && file.Some? && t != 0 ==>
      exists i :: (0 <= i < |file.value| && CredentialMatch(file.value[i], u, p)
        && ParseCredentialLine(file.value[i]).value.userType == t
        && forall j :: 0 <= j < i ==> !CredentialMatch(file.value[j], u, p))
    ensures !(u == AdminName && p == AdminName) && file.Some? ==>
      forall i :: (0 <= i < |file.value| && CredentialMatch(file.value[i], u, p)
        && forall j :: 0 <= j < i ==> !CredentialMatch(file.value[j], u, p))
        ==> t == ParseCredentialLine(file.value[i]).value.userType
  {
    if u == AdminName && p == AdminName then 3
    else match file
      case None => 0
      case Some(lines) =>
        match FindCredential(lines, u, p)
        case None => 0
        case Some(t) => t
  }

  /** Only lines whose first word differs from u survive (a line with no
      word is kept). This is the temp-file copy loop of the promote and
      delete operations. */
  function KeepOtherUsers(lines: seq<string>, u: string): (r: seq<string>)
    ensures |r| <= |lines|
  {
    if |lines| == 0 then []
    else
      var last := lines[|lines| - 1];
      KeepOtherUsers(lines[..|lines| - 1], u) + (if FirstWord(last) != Some(u) then [last] else [])
  }

  // ---------------------------------------------------------------------
  // Profile files

  datatype EngineerProfile = EngineerProfile(
    username: string, specialization: string, experience: string, education: string, skills: string)

  datatype OrganizationProfile = OrganizationProfile(
    username: string, orgName: string, industry: string, description: string)

  /** The next strtok field; a field strtok does not find reads as empty. */
  function Field(s: string, d: set<char>): (string, string) {
    match NextToken(s, d)
    case None => ([], [])
    case Some((f, rest)) => (f, rest)
  }

  /** strtok(line, "|") on the line as fgets returns it, newline included. */
  function ProfileKey(line: string): Option<string> {
    match NextToken(line + "\n", Pipe)
    case None => None
    case Some((k, _)) => Some(k)
  }

  /** The n fields strtok cuts after the first one: "|" ends each but the
      last, which runs to the newline. */
  function TrailingFields(s: string, n: nat): (fs: seq<string>)
    ensures |fs| == n
    decreases n
  {
    if n == 0 then []
    else if n == 1 then [Field(s, Newline).0]
    else
      var f := Field(s, Pipe);
      [f.0] + TrailingFields(f.1, n - 1)
  }

  /** The fields view_profile and list_engineers cut out of an engineer line. */
  function ParseEngineer(line: string): (r: Option<EngineerProfile>)
    ensures r.Some? <==> ProfileKey(line).Some?
    ensures r.Some? ==> r.value.username == ProfileKey(line).value
  {
    match NextToken(line + "\n", Pipe)
    case None => None
    case Some((u, rest)) =>
      var f := TrailingFields(rest, 4);
      Some(EngineerProfile(u, f[0], f[1], f[2], f[3]))
  }

  /** The fields view_profile and list_organizations cut out of an organization line. */
  function ParseOrganization(line: string): (r: Option<OrganizationProfile>)
    ensures r.Some? <==> ProfileKey(line).Some?
    ensures r.Some? ==> r.value.username == ProfileKey(line).value
  {
    match NextToken(line + "\n", Pipe)
    case None => None
    case Some((u, rest)) =>
      var f := TrailingFields(rest, 3);
      Some(OrganizationProfile(u, f[0], f[1], f[2]))
  }

  /** Fields separated by "|", as the "%s|%s|..." formats write them. */
  function JoinFields(fs: seq<string>): string {
    if |fs| == 0 then []
    else if |fs| == 1 then fs[0]
    else fs[0] + "|" + JoinFields(fs[1..])
  }

  function EngineerFields(p: EngineerProfile): seq<string> {
    [p.username, p.specialization, p.experience, p.education, p.skills]
  }

  function OrganizationFields(p: OrganizationProfile): seq<string> {
    [p.username, p.orgName, p.industry, p.description]
  }

  /** The line register_engineer writes, without its newline. */
  function FormatEngineer(p: EngineerProfile): string {
    JoinFields(EngineerFields(p))
  }

  /** The line register_organization writes, without its newline. */
  function FormatOrganization(p: OrganizationProfile): string {
    JoinFields(OrganizationFields(p))
  }

  /** The index of the first line whose first "|" field is u. */
  function FirstKeyed(lines: seq<string>, u: string): (r: Option<nat>)
    ensures r.None? <==> forall i :: 0 <= i < |lines| ==> ProfileKey(lines[i]) != Some(u)
    ensures r.Some? ==> (r.value < |lines| && ProfileKey(lines[r.value]) == Some(u)
      && forall j :: 0 <= j < r.value ==> ProfileKey(lines[j]) != Some(u))
  {
    if |lines| == 0 then None
    else if ProfileKey(lines[0]) == Some(u) then Some(0)
    else
      var tail := lines[1..];
      var r := FirstKeyed(tail, u);
      assert forall i :: 1 <= i < |lines| ==> lines[i] == tail[i - 1];
      if r.None? then
        assert forall i :: 0 <= i < |lines| ==> ProfileKey(lines[i]) != Some(u) by {
          forall i | 0 <= i < |lines| ensures ProfileKey(lines[i]) != Some(u) {
            if i > 0 { assert lines[i] == tail[i - 1]; }
          }
        }
        None
      else
        assert forall j :: 0 <= j < r.value + 1 ==> ProfileKey(lines[j]) != Some(u) by {
          forall j | 0 <= j < r.value + 1 ensures ProfileKey(lines[j]) != Some(u) {
            if j > 0 { assert lines[j] == tail[j - 1]; }
          }
        }
        Some(r.value + 1)
  }

  /** The profile view_profile shows for an engineer. */
  function LookupEngineer(lines: seq<string>, u: string): (r: Option<EngineerProfile>)
    ensures r.None? <==> forall i :: 0 <= i < |lines| ==> ProfileKey(lines[i]) != Some(u)
    ensures r.Some? ==> r.value.username == u && exists i :: (0 <= i < |lines| && ParseEngineer(lines[i]) == r
      && forall j :: 0 <= j < i ==> ProfileKey(lines[j]) != Some(u))
  {
    match FirstKeyed(lines, u)
    case None => None
    case Some(i) => ParseEngineer(lines[i])
  }

  /** The profile view_profile shows for an organization. */
  function LookupOrganization(lines: seq<string>, u: string): (r: Option<OrganizationProfile>)
    ensures r.None? <==> forall i :: 0 <= i < |lines| ==> ProfileKey(lines[i]) != Some(u)
    ensures r.Some? ==> r.value.username == u && exists i :: (0 <= i < |lines| && ParseOrganization(lines[i]) == r
      && forall j :: 0 <= j < i ==> ProfileKey(lines[j]) != Some(u))
  {
    match FirstKeyed(lines, u)
    case None => None
    case Some(i) => ParseOrganization(lines[i])
  }

  /** The values f picks out of s, in order. */
  function Collect<A, B>(s: seq<A>, f: A -> Option<B>): (r: seq<B>)
    ensures |r| <= |s|
  {
    if |s| == 0 then []
    else
      var last := f(s[|s| - 1]);
      Collect(s[..|s| - 1], f) + (if last.Some? then [last.value] else [])
  }

  /** Reading one more line adds its entry, if it has one. */
  lemma CollectStep<A, B>(s: seq<A>, f: A -> Option<B>, i: nat)
    requires i < |s|
    ensures Collect(s[..i + 1], f) == Collect(s[..i], f) + (if f(s[i]).Some? then [f(s[i]).value] else [])
  {
    assert s[..i + 1][..i] == s[..i];
  }

  /** The entries list_engineers numbers, in file order: every line that has a first "|" field. */
  function EngineerListing(lines: seq<string>): seq<EngineerProfile> {
    Collect(lines, ParseEngineer)
  }

  /** The entries list_organizations numbers, in file order. */
  function OrganizationListing(lines: seq<string>): seq<OrganizationProfile> {
    Collect(lines, ParseOrganization)
  }

  /** The profile copy loop of delete_user: a line survives when strtok finds
      a first "|" field and it differs from u. */
  function KeepOtherProfiles(lines: seq<string>, u: string): (r: seq<string>)
    ensures |r| <= |lines|
  {
    if |lines| == 0 then []
    else
      var last := lines[|lines| - 1];
      var k := ProfileKey(last);
      KeepOtherProfiles(lines[..|lines| - 1], u) + (if k.Some? && k.value != u then [last] else [])
  }

  // ---------------------------------------------------------------------
  // The administrator's listings

  function Take<T>(s: seq<T>, n: nat): (r: seq<T>)
    ensures |r| <= n && r <= s
    ensures |s| <= n ==> r == s
  {
    if |s| <= n then s else s[..n]
  }

  /** A pending line accept_new_user lists: it scans as "%s %s %d" and is not the administrator's. */
  function PendingEntryOf(line: string): (r: Option<AccountRecord>)
    ensures r.Some? ==> ScanAccount(line) == r && r.value.username != AdminName
  {
    var s := ScanAccount(line);
    if s.Some? && s.value.username != AdminName then s else None
  }

  /** The numbered list accept_new_user shows, at most MAX_USERS entries. */
  function PendingListing(lines: seq<string>): seq<AccountRecord> {
    Take(Collect(lines, PendingEntryOf), MaxUsers)
  }

  datatype UserEntry = UserEntry(username: string, userType: int)

  /** A credentials line delete_user lists: strtok finds a name, a password
      and a type (the type read with atoi), and the name is not "admin". */
  function UserEntryOf(line: string): (r: Option<UserEntry>)
    ensures r.Some? ==> r.value.username != AdminName
  {
    match NextToken(line + "\n", Space)
    case None => None
    case Some((u, r1)) =>
      match NextToken(r1, Space)
      case None => None
      case Some((_, r2)) =>
        match NextToken(r2, {' ', '\n'})
        case None => None
        case Some((t, _)) => if u == AdminName then None else Some(UserEntry(u, AtoI(t)))
  }

  /** The numbered list delete_user shows, at most MAX_USERS entries. */
  function UserListing(lines: seq<string>): seq<UserEntry> {
    Take(Collect(lines, UserEntryOf), MaxUsers)
  }

  // ---------------------------------------------------------------------
  // Lemmas

  /** A line the platform writes for an account is one line of the file and
      reads back as that account by every reader of the account files. */
  lemma AccountRoundTrip(r: AccountRecord)
    requires Storable(r)
    ensures SplitLines(FormatAccount(r)) == [FormatAccount(r)]
    ensures ParseCredentialLine(FormatAccount(r)) == Some(r)
    ensures ScanAccount(FormatAccount(r)) == Some(r)
    ensures FirstWord(FormatAccount(r)) == Some(r.username)
  {
    AccountOneLine(r);
    AccountParses(r);
    AccountScans(r);
  }

  /** The account line is a single line of the file when neither name nor password holds a newline. */
  lemma AccountOneLine(r: AccountRecord)
    requires '\n' !in r.username && '\n' !in r.password
    ensures SplitLines(FormatAccount(r)) == [FormatAccount(r)]
  {
    var d := Decimal(r.userType);
    assert forall i :: 0 <= i < |d| ==> !IsSpace(d[i]);
    SplitLinesSingle(FormatAccount(r));
  }

  lemma AccountParses(r: AccountRecord)
    requires Storable(r)
    ensures ParseCredentialLine(FormatAccount(r)) == Some(r)
  {
    var u, p, d := r.username, r.password, Decimal(r.userType);
    assert FormatAccount(r) == u + [' '] + (p + [' '] + d);
    assert forall i :: 0 <= i < |u| ==> !IsSpace(u[i]);
    assert forall i :: 0 <= i < |p| ==> !IsSpace(p[i]);
    assert forall i :: 0 <= i < |d| ==> !IsSpace(d[i]);
    TokenThenDelimiter(u, ' ', p + [' '] + d, Space);
    TokenThenDelimiter(p, ' ', d, Space);
    TokenWhole(d, Space);
    DecimalRoundTrip(r.userType);
  }

  lemma AccountScans(r: AccountRecord)
    requires Storable(r)
    ensures ScanAccount(FormatAccount(r)) == Some(r)
    ensures FirstWord(FormatAccount(r)) == Some(r.username)
  {
    var u, p, d := r.username, r.password, Decimal(r.userType);
    AccountFirstWord(r);
    assert forall i :: 0 <= i < |p| ==> !IsSpace(p[i]);
    TokenThenDelimiter(p, ' ', d, Whitespace);
    DecimalRoundTrip(r.userType);
  }

  /** The first word of an account line is its name when the name has no whitespace. */
  lemma AccountFirstWord(r: AccountRecord)
    requires FieldOk(r.username)
    ensures Word(FormatAccount(r)) == Some((r.username, r.password + [' '] + Decimal(r.userType)))
  {
    var u := r.username;
    assert FormatAccount(r) == u + [' '] + (r.password + [' '] + Decimal(r.userType));
    assert forall i :: 0 <= i < |u| ==> !IsSpace(u[i]);
    TokenThenDelimiter(u, ' ', r.password + [' '] + Decimal(r.userType), Whitespace);
  }

  /** An account read with "%s %s %d" can be written back and read again unchanged. */
  lemma ScannedStorable(line: string)
    requires ScanAccount(line).Some?
    ensures Storable(ScanAccount(line).value)
  {
    NextTokenFacts(line, Whitespace);
    NextTokenFacts(Word(line).value.1, Whitespace);
  }

  /** Appending one line adds exactly its first word to the names present. */
  lemma HasUserAppend(lines: seq<string>, x: string, v: string)
    ensures HasUser(lines + [x], v) <==> HasUser(lines, v) || FirstWord(x) == Some(v)
  {
    var all := lines + [x];
    assert forall i :: 0 <= i < |lines| ==> all[i] == lines[i];
    assert all[|lines|] == x;
    if HasUser(all, v) {
      var i :| 0 <= i < |all| && FirstWord(all[i]) == Some(v);
      if i < |lines| { assert FirstWord(lines[i]) == Some(v); }
    }
    if HasUser(lines, v) {
      var i :| 0 <= i < |lines| && FirstWord(lines[i]) == Some(v);
      assert FirstWord(all[i]) == Some(v);
    }
  }

  /** Skipping a smaller set of leading delimiters ends at the same place
      when the first character left is outside the larger set too. */
  lemma {:induction false} SkipInWider(s: string, d: set<char>, e: set<char>)
    requires d <= e
    requires var t := SkipIn(s, d); |t| > 0 && t[0] !in e
    ensures SkipIn(s, e) == SkipIn(s, d)
  {
    if |s| > 0 && s[0] in d {
      SkipInWider(s[1..], d, e);
    }
  }

  /** When check_credentials reads a name without whitespace from a line,
      that name is also the line's first "%s" word. */
  lemma ParsedUserHasWord(line: string)
    requires ParseCredentialLine(line).Some?
    requires !HasWhitespace(ParseCredentialLine(line).value.username)
    ensures FirstWord(line) == Some(ParseCredentialLine(line).value.username)
  {
    var u := ParseCredentialLine(line).value.username;
    var t := SkipIn(line, Space);
    var k := RunNotIn(t, Space);
    SkipInFacts(line, Space);
    RunNotInFacts(t, Space);
    assert u == t[..k];
    assert t[0] == u[0];
    SkipInWider(line, Space, Whitespace);
    assert forall i :: 0 <= i < |u| ==> !IsSpace(u[i]);
    RunNotInPrefix(t, u, Whitespace);
  }

  lemma MatchHasUser(lines: seq<string>, u: string, p: string, i: nat)
    requires i < |lines| && CredentialMatch(lines[i], u, p) && !HasWhitespace(u)
    ensures HasUser(lines, u)
  {
    ParsedUserHasWord(lines[i]);
  }

  /** An account appended to the active file by the administrator's approval
      logs in with its own type, provided no earlier line already used the name. */
  lemma PromoteThenAuthenticate(cred: seq<string>, r: AccountRecord)
    requires Storable(r) && !HasUser(cred, r.username)
    requires !(r.username == AdminName && r.password == AdminName)
    ensures CheckCredentials(r.username, r.password, Some(cred + [FormatAccount(r)])) == r.userType
  {
    var lines := cred + [FormatAccount(r)];
    AccountRoundTrip(r);
    assert CredentialMatch(lines[|cred|], r.username, r.password);
    forall j | 0 <= j < |cred| ensures !CredentialMatch(lines[j], r.username, r.password) {
      if CredentialMatch(lines[j], r.username, r.password) {
        assert lines[j] == cred[j];
        MatchHasUser(cred, r.username, r.password, j);
      }
    }
    var t := FindCredential(lines, r.username, r.password);
    var i :| 0 <= i < |lines| && CredentialMatch(lines[i], r.username, r.password)
      && ParseCredentialLine(lines[i]).value.userType == t.value
      && forall j :: 0 <= j < i ==> !CredentialMatch(lines[j], r.username, r.password);
    assert i == |cred|;
  }

  /** The lines KeepOtherUsers keeps are those of the file whose first word is not u. */
  lemma {:induction false} KeepOtherUsersMembers(lines: seq<string>, u: string, x: string)
    ensures x in KeepOtherUsers(lines, u) <==> x in lines && FirstWord(x) != Some(u)
  {
    if |lines| > 0 {
      KeepOtherUsersMembers(lines[..|lines| - 1], u, x);
      assert lines == lines[..|lines| - 1] + [lines[|lines| - 1]];
    }
  }

  /** After the copy loop, exactly the other names are still present. */
  lemma KeepOtherUsersHasUser(lines: seq<string>, u: string, v: string)
    ensures HasUser(KeepOtherUsers(lines, u), v) <==> v != u && HasUser(lines, v)
  {
    if HasUser(KeepOtherUsers(lines, u), v) {
      KeptHasUser(lines, u, v);
    }
    if v != u && HasUser(lines, v) {
      OtherHasUser(lines, u, v);
    }
  }

  lemma KeptHasUser(lines: seq<string>, u: string, v: string)
    requires HasUser(KeepOtherUsers(lines, u), v)
    ensures v != u && HasUser(lines, v)
  {
    var kept := KeepOtherUsers(lines, u);
    var i :| 0 <= i < |kept| && FirstWord(kept[i]) == Some(v);
    var x := kept[i];
    KeepOtherUsersMembers(lines, u, x);
    var j :| 0 <= j < |lines| && lines[j] == x;
  }

  lemma OtherHasUser(lines: seq<string>, u: string, v: string)
    requires v != u && HasUser(lines, v)
    ensures HasUser(KeepOtherUsers(lines, u), v)
  {
    var kept := KeepOtherUsers(lines, u);
    var j :| 0 <= j < |lines| && FirstWord(lines[j]) == Some(v);
    var x := lines[j];
    KeepOtherUsersMembers(lines, u, x);
    var i :| 0 <= i < |kept| && kept[i] == x;
  }

  /** A deleted account (one without whitespace in its name) can no longer log in. */
  lemma RemovedCannotAuthenticate(cred: seq<string>, u: string, p: string)
    requires !HasWhitespace(u) && !(u == AdminName && p == AdminName)
    ensures CheckCredentials(u, p, Some(KeepOtherUsers(cred, u))) == 0
  {
    var kept := KeepOtherUsers(cred, u);
    forall i | 0 <= i < |kept| ensures !CredentialMatch(kept[i], u, p) {
      if CredentialMatch(kept[i], u, p) {
        ParsedUserHasWord(kept[i]);
        KeepOtherUsersMembers(cred, u, kept[i]);
      }
    }
  }

  /** The lines KeepOtherProfiles keeps are those with a first "|" field other than u. */
  lemma {:induction false} KeepOtherProfilesMembers(lines: seq<string>, u: string, x: string)
    ensures x in KeepOtherProfiles(lines, u) <==> x in lines && ProfileKey(x).Some? && ProfileKey(x).value != u
  {
    if |lines| > 0 {
      KeepOtherProfilesMembers(lines[..|lines| - 1], u, x);
      assert lines == lines[..|lines| - 1] + [lines[|lines| - 1]];
    }
  }

  /** A removed profile is neither shown nor listed any more. */
  lemma RemovedProfileGone(lines: seq<string>, u: string)
    ensures LookupEngineer(KeepOtherProfiles(lines, u), u).None?
    ensures LookupOrganization(KeepOtherProfiles(lines, u), u).None?
    ensures forall e :: e in EngineerListing(KeepOtherProfiles(lines, u)) ==> e.username != u
    ensures forall o :: o in OrganizationListing(KeepOtherProfiles(lines, u)) ==> o.username != u
  {
    var kept := KeepOtherProfiles(lines, u);
    forall i | 0 <= i < |kept| ensures ProfileKey(kept[i]) != Some(u) {
      KeepOtherProfilesMembers(lines, u, kept[i]);
    }
    forall e | e in EngineerListing(kept) ensures e.username != u {
      CollectMembers(kept, ParseEngineer, e);
    }
    forall o | o in OrganizationListing(kept) ensures o.username != u {
      CollectMembers(kept, ParseOrganization, o);
    }
  }

  /** What Collect yields is exactly what f picks out of some element. */
  lemma {:induction false} CollectMembers<A, B>(s: seq<A>, f: A -> Option<B>, b: B)
    ensures b in Collect(s, f) <==> exists i :: 0 <= i < |s| && f(s[i]) == Some(b)
  {
    if |s| > 0 {
      var init := s[..|s| - 1];
      CollectMembers(init, f, b);
      assert forall i :: 0 <= i < |init| ==> init[i] == s[i];
      if f(s[|s| - 1]) == Some(b) {
        assert b in Collect(s, f);
      }
    }
  }

  /** Reading more of a file only extends the list collected from it. */
  lemma {:induction false} CollectPrefix<A, B>(s: seq<A>, f: A -> Option<B>, n: nat)
    requires n <= |s|
    ensures Collect(s[..n], f) <= Collect(s, f)
  {
    if n < |s| {
      assert s[..|s| - 1][..n] == s[..n];
      CollectPrefix(s[..|s| - 1], f, n);
    } else {
      assert s[..n] == s;
    }
  }

  /** A collecting loop that stops once n values are found yields the list cut at n. */
  lemma CollectCapped<A, B>(s: seq<A>, f: A -> Option<B>, i: nat, n: nat)
    requires i <= |s| && |Collect(s[..i], f)| <= n
    requires i == |s| || |Collect(s[..i], f)| == n
    ensures Take(Collect(s, f), n) == Collect(s[..i], f)
  {
    CollectPrefix(s, f, i);
    if i == |s| {
      assert s[..i] == s;
    }
  }

  /** Every entry accept_new_user numbers is a pending "%s %s %d" line other
      than the administrator's, and the list is cut at MAX_USERS. */
  lemma PendingListingSound(lines: seq<string>, r: AccountRecord)
    ensures |PendingListing(lines)| <= MaxUsers
    ensures r in PendingListing(lines) ==> (r.username != AdminName
      && exists i :: 0 <= i < |lines| && ScanAccount(lines[i]) == Some(r) && FirstWord(lines[i]) == Some(r.username))
  {
    if r in PendingListing(lines) {
      CollectMembers(lines, PendingEntryOf, r);
    }
  }

  /** With fewer than MAX_USERS candidates every pending account is listed. */
  lemma PendingListingComplete(lines: seq<string>, i: nat)
    requires i < |lines| && |Collect(lines, PendingEntryOf)| <= MaxUsers
    requires ScanAccount(lines[i]).Some? && ScanAccount(lines[i]).value.username != AdminName
    ensures ScanAccount(lines[i]).value in PendingListing(lines)
  {
    CollectMembers(lines, PendingEntryOf, ScanAccount(lines[i]).value);
  }

  /** Every entry delete_user numbers comes from a credentials line and is not the administrator. */
  lemma UserListingSound(lines: seq<string>, e: UserEntry)
    ensures |UserListing(lines)| <= MaxUsers
    ensures e in UserListing(lines) ==> (e.username != AdminName
      && exists i :: 0 <= i < |lines| && UserEntryOf(lines[i]) == Some(e))
  {
    if e in UserListing(lines) {
      CollectMembers(lines, UserEntryOf, e);
    }
  }

  predicate KeyField(s: string) { |s| > 0 && '|' !in s && '\n' !in s }
  predicate LastField(s: string) { |s| > 0 && '\n' !in s }

  /** Fields that "|" and newline delimiters read back unchanged. */
  predicate StorableFields(fs: seq<string>) {
    |fs| > 0 && (forall i :: 0 <= i < |fs| - 1 ==> KeyField(fs[i])) && LastField(fs[|fs| - 1])
  }

  predicate EngineerStorable(p: EngineerProfile) { StorableFields(EngineerFields(p)) }

  predicate OrganizationStorable(p: OrganizationProfile) { StorableFields(OrganizationFields(p)) }

  lemma NoDelimiter(s: string, c: char)
    requires c !in s
    ensures forall i :: 0 <= i < |s| ==> s[i] !in {c}
  {
  }

  lemma StorableTail(fs: seq<string>)
    requires |fs| >= 2 && StorableFields(fs)
    ensures KeyField(fs[0]) && StorableFields(fs[1..])
  {
    assert forall i :: 0 <= i < |fs[1..]| ==> fs[1..][i] == fs[i + 1];
  }

  /** strtok returns the fields joined by JoinFields one by one. */
  lemma {:induction false} TrailingFieldsJoin(fs: seq<string>)
    requires StorableFields(fs)
    ensures TrailingFields(JoinFields(fs) + "\n", |fs|) == fs
  {
    if |fs| == 1 {
      NoDelimiter(fs[0], '\n');
      assert JoinFields(fs) + "\n" == fs[0] + ['\n'] + [];
      TokenThenDelimiter(fs[0], '\n', [], Newline);
    } else {
      var rest := JoinFields(fs[1..]) + "\n";
      assert JoinFields(fs) + "\n" == fs[0] + ['|'] + rest;
      StorableTail(fs);
      NoDelimiter(fs[0], '|');
      TokenThenDelimiter(fs[0], '|', rest, Pipe);
      TrailingFieldsJoin(fs[1..]);
      assert fs == [fs[0]] + fs[1..];
    }
  }

  /** Fields without newlines join into a single line. */
  lemma {:induction false} JoinFieldsOneLine(fs: seq<string>)
    requires forall i :: 0 <= i < |fs| ==> '\n' !in fs[i]
    ensures '\n' !in JoinFields(fs)
  {
    if |fs| > 1 {
      assert forall i :: 0 <= i < |fs[1..]| ==> fs[1..][i] == fs[i + 1];
      JoinFieldsOneLine(fs[1..]);
    }
  }

  /** A joined line with a storable first field reads back through ProfileKey
      and TrailingFields as its fields. */
  lemma JoinedReadsBack(fs: seq<string>)
    requires |fs| >= 2 && StorableFields(fs)
    ensures NextToken(JoinFields(fs) + "\n", Pipe) == Some((fs[0], JoinFields(fs[1..]) + "\n"))
    ensures TrailingFields(JoinFields(fs[1..]) + "\n", |fs| - 1) == fs[1..]
    ensures SplitLines(JoinFields(fs)) == [JoinFields(fs)]
  {
    var rest := JoinFields(fs[1..]) + "\n";
    assert JoinFields(fs) + "\n" == fs[0] + ['|'] + rest;
    assert KeyField(fs[0]);
    NoDelimiter(fs[0], '|');
    TokenThenDelimiter(fs[0], '|', rest, Pipe);
    StorableTail(fs);
    TrailingFieldsJoin(fs[1..]);
    assert forall i :: 0 <= i < |fs| ==> '\n' !in fs[i] by {
      forall i | 0 <= i < |fs| ensures '\n' !in fs[i] {
        if i < |fs| - 1 { assert KeyField(fs[i]); }
      }
    }
    JoinFieldsOneLine(fs);
    SplitLinesSingle(JoinFields(fs));
  }

  /** The line register_engineer writes is one line of the file and reads back
      as the same profile. */
  lemma EngineerRoundTrip(p: EngineerProfile)
    requires EngineerStorable(p)
    ensures SplitLines(FormatEngineer(p)) == [FormatEngineer(p)]
    ensures ParseEngineer(FormatEngineer(p)) == Some(p)
  {
    var fs := EngineerFields(p);
    JoinedReadsBack(fs);
    assert fs[1..] == [p.specialization, p.experience, p.education, p.skills];
  }

  /** The line register_organization writes is one line of the file and reads
      back as the same profile. */
  lemma OrganizationRoundTrip(p: OrganizationProfile)
    requires OrganizationStorable(p)
    ensures SplitLines(FormatOrganization(p)) == [FormatOrganization(p)]
    ensures ParseOrganization(FormatOrganization(p)) == Some(p)
  {
    var fs := OrganizationFields(p);
    JoinedReadsBack(fs);
    assert fs[1..] == [p.orgName, p.industry, p.description];
  }

  lemma FirstKeyedAppend(lines: seq<string>, line: string, u: string)
    requires forall i :: 0 <= i < |lines| ==> ProfileKey(lines[i]) != Some(u)
    requires ProfileKey(line) == Some(u)
    ensures FirstKeyed(lines + [line], u) == Some(|lines|)
  {
    var all := lines + [line];
    var r := FirstKeyed(all, u);
    assert all[|lines|] == line;
    assert r.Some? by {
      assert ProfileKey(all[|lines|]) == Some(u);
    }
    assert r.value >= |lines| ==> r.value == |lines|;
    assert forall i :: 0 <= i < |lines| ==> all[i] == lines[i];
  }

  /** A profile appended for a name no earlier line carries is the one view_profile shows. */
  lemma EngineerAppendThenView(lines: seq<string>, p: EngineerProfile)
    requires EngineerStorable(p)
    requires forall i :: 0 <= i < |lines| ==> ProfileKey(lines[i]) != Some(p.username)
    ensures LookupEngineer(lines + [FormatEngineer(p)], p.username) == Some(p)
  {
    EngineerRoundTrip(p);
    FirstKeyedAppend(lines, FormatEngineer(p), p.username);
  }

  /** The organization counterpart of EngineerAppendThenView. */
  lemma OrganizationAppendThenView(lines: seq<string>, p: OrganizationProfile)
    requires OrganizationStorable(p)
    requires forall i :: 0 <= i < |lines| ==> ProfileKey(lines[i]) != Some(p.username)
    ensures LookupOrganization(lines + [FormatOrganization(p)], p.username) == Some(p)
  {
    OrganizationRoundTrip(p);
    FirstKeyedAppend(lines, FormatOrganization(p), p.username);
  }

  /** Every engineer line with a first "|" field is listed, and every listed entry comes from one. */
  lemma EngineerListed(lines: seq<string>, p: EngineerProfile)
    ensures p in EngineerListing(lines) <==> exists i :: 0 <= i < |lines| && ParseEngineer(lines[i]) == Some(p)
  {
    CollectMembers(lines, ParseEngineer, p);
  }

  /** Every organization line with a first "|" field is listed, and every listed entry comes from one. */
  lemma OrganizationListed(lines: seq<string>, p: OrganizationProfile)
    ensures p in OrganizationListing(lines) <==> exists i :: 0 <= i < |lines| && ParseOrganization(lines[i]) == Some(p)
  {
    CollectMembers(lines, ParseOrganization, p);
  }
}
