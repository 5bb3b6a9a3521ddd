/** The input checks of the platform server (etapa2.4.c): the character
    sets refused in names and passwords, the all-digits test used for
    numeric answers, the administrator name, and the file-name sanitiser. */
module Validation {
  import opened CText

  /** Usernames and passwords are held in 50-byte buffers: at most 49 characters. */
  const MaxUsernameLength: nat := 50
  const MaxPasswordLength: nat := 50
  const MinPasswordLength: nat := 4

  const AdminName: string := "admin"

  /** The characters contains_invalid_chars looks for with strpbrk. */
  const InvalidChars: set<char> := {' ', '\t', '\n', ';', '|', '&', '<', '>', '*', '"'}

  /** The characters contains_invalid_file_chars looks for. */
  const FileInvalidChars: set<char> := {'\n', '\r', ':', ' '}

  /** strpbrk(input, InvalidChars) != NULL */
  function ContainsInvalidChars(s: string): (b: bool)
    ensures b <==> exists i :: 0 <= i < |s| && s[i] in InvalidChars
  {
    if |s| == 0 then false
    else if s[0] in InvalidChars then true
    else
      var rest := ContainsInvalidChars(s[1..]);
      assert forall i :: 1 <= i < |s| ==> s[i] == s[1..][i - 1];
      rest
  }

  predicate HasFileInvalidChar(s: string) {
    exists i :: 0 <= i < |s| && s[i] in FileInvalidChars
  }

  /** The character loop of contains_invalid_file_chars. */
  method ContainsInvalidFileChars(s: string) returns (b: bool)
    ensures b <==> HasFileInvalidChar(s)
  {
    var i := 0;
    while i < |s|
      invariant 0 <= i <= |s|
      invariant forall j :: 0 <= j < i ==> s[j] !in FileInvalidChars
    {
      if s[i] == '\n' || s[i] == '\r' || s[i] == ':' || s[i] == ' ' {
        return true;
      }
      i := i + 1;
    }
    return false;
  }

  /** The character loop of is_valid_integer: every character is a digit,
      so the empty string is accepted. */
  method IsValidInteger(s: string) returns (ok: bool)
    ensures ok <==> forall i :: 0 <= i < |s| ==> IsDigit(s[i])
    ensures |s| == 0 ==> ok
  {
    var i := 0;
    while i < |s|
      invariant 0 <= i <= |s|
      invariant AllDigits(s[..i])
    {
      if !IsDigit(s[i]) {
        return false;
      }
      i := i + 1;
    }
    assert s[..i] == s;
    return true;
  }

  /** strcmp(username, "admin") == 0 */
  predicate IsAdmin(username: string) { username == AdminName }

  predicate FileNameChar(c: char) { IsAlnum(c) || c == '_' }

  /** The characters of s that sanitize_filename keeps, in order. */
  function SafeChars(s: string): (r: string)
    ensures |r| <= |s|
  {
    if |s| == 0 then []
    else SafeChars(s[..|s| - 1]) + (if FileNameChar(s[|s| - 1]) then [s[|s| - 1]] else [])
  }

  /** sanitize_filename: copies the letters, digits and underscores of src,
      stopping when max_len - 1 characters have been written.
      The caller passes the size of a buffer, so max_len is at least 1. */
  method SanitizeFilename(src: string, maxLen: nat) returns (dest: string)
    requires maxLen >= 1
    ensures |dest| <= maxLen - 1
    ensures dest <= SafeChars(src)
    ensures |dest| < maxLen - 1 ==> dest == SafeChars(src)
  {
    dest := [];
    var i := 0;
    while i < |src| && |dest| < maxLen - 1
      invariant 0 <= i <= |src|
      invariant dest == SafeChars(src[..i])
      invariant |dest| <= maxLen - 1
    {
      assert src[..i + 1][..i] == src[..i];
      if FileNameChar(src[i]) {
        dest := dest + [src[i]];
      }
      i := i + 1;
    }
    SafeCharsPrefix(src, i);
    if i == |src| {
      assert src[..i] == src;
    }
  }

  lemma {:induction false} SafeCharsPrefix(s: string, i: nat)
    requires i <= |s|
    ensures SafeChars(s[..i]) <= SafeChars(s)
  {
    if i < |s| {
      assert s[..|s| - 1][..i] == s[..i];
      SafeCharsPrefix(s[..|s| - 1], i);
    } else {
      assert s[..i] == s;
    }
  }

  /** What sanitize_filename keeps is exactly the letters, digits and
      underscores of its input. */
  lemma {:induction false} SafeCharsExactly(s: string, c: char)
    ensures c in SafeChars(s) <==> c in s && FileNameChar(c)
  {
    if |s| > 0 {
      SafeCharsExactly(s[..|s| - 1], c);
      assert s == s[..|s| - 1] + [s[|s| - 1]];
    }
  }
}
