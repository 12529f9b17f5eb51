/** Field-level validators and the two string transforms (input sanitising and slug
    generation). Every validator returns the pair `(is_valid, error_message)`. */
module Validators {
  import opened Values
  import opened Text
  import Constants

  /** The `(is_valid, error_message)` pair. */
  datatype Verdict = Verdict(isValid: bool, error: Option<string>)

  const Accept: Verdict := Verdict(true, None)

  function Reject(message: string): Verdict {
    Verdict(false, Some(message))
  }

  // ---------------------------------------------------------------- email

  predicate IsLocalChar(c: char) {
    IsAlnum(c) || c == '.' || c == '_' || c == '%' || c == '+' || c == '-'
  }

  predicate IsDomainChar(c: char) {
    IsAlnum(c) || c == '.' || c == '-'
  }

  /** `[a-zA-Z0-9._%+-]+@[a-zA-Z0-9.-]+\.[a-zA-Z]{2,}` spanning all of `s`: a local part,
      `@` at index `at`, a domain, `.` at index `dot` and two or more letters. */
  predicate EmailBody(s: string) {
    exists at: nat, dot: nat | at < |s| && dot < |s| :: EmailSplit(s, at, dot)
  }

  predicate EmailSplit(s: string, at: nat, dot: nat) {
    0 < at && at + 1 < dot && dot + 2 < |s| && s[at] == '@' && s[dot] == '.'
    && AllChars(s[..at], IsLocalChar) && AllChars(s[at + 1..dot], IsDomainChar) && AllChars(s[dot + 1..], IsLetter)
  }

  /** Whether `re.match` accepts a pattern `^body$` on `s`: `$` matches at the end and also
      just before one final newline, which no character class of these patterns contains. */
  predicate MatchesToEnd(s: string, body: string -> bool) {
    body(s) || (|s| > 0 && s[|s| - 1] == '\n' && body(s[..|s| - 1]))
  }

  /** `validate_email`: an empty email is accepted (the field is optional). */
  function ValidateEmail(email: string): (v: Verdict)
    ensures v.isValid <==> v.error.None?
  {
    if email == "" then Accept
    else if !MatchesToEnd(email, EmailBody) then Reject("Invalid email format")
    else Accept
  }

  /** Outside the `@` at index `at`, every character of a split email is a local, domain or
      top-level-domain character, none of which is `@` or a newline. */
  lemma EmailSplitChars(s: string, at: nat, dot: nat, i: int)
    requires EmailSplit(s, at, dot) && 0 <= i < |s| && i != at
    ensures s[i] != '@' && s[i] != '\n'
  {
    if i < at { assert s[i] == s[..at][i]; }
    else if i < dot { assert s[i] == s[at + 1..dot][i - at - 1]; }
    else if dot < i { assert s[i] == s[dot + 1..][i - dot - 1]; }
  }

  /** Whether `s` holds exactly one `@`. */
  predicate OneAt(s: string) {
    '@' in s && forall i, j :: 0 <= i < |s| && 0 <= j < |s| && s[i] == '@' && s[j] == '@' ==> i == j
  }

  lemma EmailBodyShape(b: string)
    requires EmailBody(b)
    ensures OneAt(b) && b[0] != '@' && IsLetter(b[|b| - 1]) && '\n' !in b
  {
    var at: nat, dot: nat :| at < |b| && dot < |b| && EmailSplit(b, at, dot);
    forall i | 0 <= i < |b| && i != at ensures b[i] != '@' && b[i] != '\n' {
      EmailSplitChars(b, at, dot, i);
    }
    assert b[|b| - 1] == b[dot + 1..][|b| - dot - 2];
  }

  /** A non-empty accepted email holds exactly one `@`, not at its start, and ends in a letter
      of its top-level domain, possibly followed by one newline. */
  lemma EmailShape(email: string)
    requires email != "" && ValidateEmail(email).isValid
    ensures OneAt(email) && email[0] != '@'
    ensures IsLetter(email[|email| - 1]) || (email[|email| - 1] == '\n' && |email| > 1 && IsLetter(email[|email| - 2]))
  {
    if EmailBody(email) {
      EmailBodyShape(email);
    } else {
      var b := email[..|email| - 1];
      EmailBodyShape(b);
      assert email == b + ['\n'];
    }
  }

  /** The intended reading of the email check: the pattern must span the whole string. */
  function ValidateEmailStrict(email: string): (v: Verdict)
    ensures v.isValid ==> '\n' !in email
    ensures v.isValid ==> ValidateEmail(email).isValid
  {
    if email == "" then Accept
    else if !EmailBody(email) then Reject("Invalid email format")
    else
      EmailBodyShape(email);
      Accept
  }

  /** `validate_email` accepts an address followed by a newline, which the stored value then carries. */
  lemma EmailTrailingNewlineAccepted()
    ensures ValidateEmail("a@b.co\n").isValid
    ensures !ValidateEmailStrict("a@b.co\n").isValid
  {
    var s := "a@b.co";
    assert s[..1] == "a" && s[2..3] == "b" && s[4..] == "co";
    assert EmailSplit(s, 1, 3);
    assert ("a@b.co\n")[..6] == s;
  }

  // ---------------------------------------------------------------- slug

  predicate IsSlugChar(c: char) {
    IsLowerLetter(c) || IsDigit(c) || c == '-'
  }

  /** `[a-z0-9-]+` spanning all of `s`. */
  predicate SlugBody(s: string) {
    s != [] && AllChars(s, IsSlugChar)
  }

  /** `'--' in s`. */
  predicate HasDoubleHyphen(s: string) {
    exists i :: 0 <= i < |s| - 1 && s[i] == '-' && s[i + 1] == '-'
  }

  function IsHyphen(c: char): bool { c == '-' }

  /** What a slug is meant to be: lowercase letters, digits and single inner hyphens. */
  predicate WellFormedSlug(s: string) {
    SlugBody(s) && s[0] != '-' && s[|s| - 1] != '-' && !HasDoubleHyphen(s)
  }

  /** `validate_slug`: four checks, in order: required, character class, end hyphens, `--`. */
  function ValidateSlug(slug: string): (v: Verdict)
    ensures v.isValid <==> v.error.None?
  {
    if slug == "" then Reject("Slug is required")
    else if !MatchesToEnd(slug, SlugBody) then Reject("Slug must contain only lowercase letters, numbers, and hyphens")
    else if slug[0] == '-' || slug[|slug| - 1] == '-' then Reject("Slug cannot start or end with a hyphen")
    else if HasDoubleHyphen(slug) then Reject("Slug cannot contain consecutive hyphens")
    else Accept
  }

  /** The slugs `validate_slug` accepts: the well-formed ones, and also a slug body followed by a
      newline, where the end-hyphen test looks at the newline and so lets a final hyphen through. */
  lemma ValidateSlugAccepts(slug: string)
    ensures ValidateSlug(slug).isValid <==>
      WellFormedSlug(slug) ||
      (|slug| > 1 && slug[|slug| - 1] == '\n' && SlugBody(slug[..|slug| - 1]) && slug[0] != '-'
       && !HasDoubleHyphen(slug[..|slug| - 1]))
  {
    if |slug| > 1 && slug[|slug| - 1] == '\n' {
      var t := slug[..|slug| - 1];
      assert HasDoubleHyphen(slug) <==> HasDoubleHyphen(t) by {
        if HasDoubleHyphen(slug) {
          var i :| 0 <= i < |slug| - 1 && slug[i] == '-' && slug[i + 1] == '-';
          assert t[i] == '-' && t[i + 1] == '-';
        }
        if HasDoubleHyphen(t) {
          var i :| 0 <= i < |t| - 1 && t[i] == '-' && t[i + 1] == '-';
          assert slug[i] == '-' && slug[i + 1] == '-';
        }
      }
    }
  }

  /** The intended reading of the slug check: the class test spans the whole string. */
  function ValidateSlugStrict(slug: string): (v: Verdict)
    ensures v.isValid <==> WellFormedSlug(slug)
    ensures v.isValid ==> ValidateSlug(slug).isValid
  {
    if slug == "" then Reject("Slug is required")
    else if !SlugBody(slug) then Reject("Slug must contain only lowercase letters, numbers, and hyphens")
    else if slug[0] == '-' || slug[|slug| - 1] == '-' then Reject("Slug cannot start or end with a hyphen")
    else if HasDoubleHyphen(slug) then Reject("Slug cannot contain consecutive hyphens")
    else Accept
  }

  /** `validate_slug` accepts `"ab-\n"`, which ends in a hyphen and a newline. */
  lemma SlugTrailingNewlineAccepted()
    ensures ValidateSlug("ab-\n").isValid
    ensures !ValidateSlugStrict("ab-\n").isValid
  {
    var s := "ab-\n";
    assert s[..3] == "ab-";
    assert !HasDoubleHyphen(s);
  }

  // ---------------------------------------------------------------- transcript, name, dates

  /** `validate_transcript`: non-empty, at least 50 characters once stripped, at most `maxLength`. */
  function ValidateTranscript(transcript: string, maxLength: int): (v: Verdict)
    ensures v.isValid <==> v.error.None?
  {
    if transcript == "" then Reject("Transcript cannot be empty")
    else if |Strip(transcript)| < 50 then Reject("Transcript is too short (minimum 50 characters)")
    else if |transcript| > maxLength then
      Reject("Transcript is too long (maximum " + Thousands(maxLength) + " characters)")
    else Accept
  }

  /** An accepted transcript has between 50 and `maxLength` characters and is not all whitespace;
      with the default bound the whole range of accepted lengths is 50..100000. */
  lemma TranscriptBounds(transcript: string, maxLength: int)
    requires ValidateTranscript(transcript, maxLength).isValid
    ensures Constants.MinTranscriptLength <= |transcript| <= maxLength
    ensures !AllChars(transcript, IsSpace)
  {
    TrimEmpty(transcript, IsSpace);
  }

  /** `re.search(r'[a-zA-Z0-9]', s)`. */
  predicate HasAlnum(s: string) {
    exists i :: 0 <= i < |s| && IsAlnum(s[i])
  }

  /** `validate_name`: 2 to 255 characters once stripped, and some ASCII letter or digit. */
  function ValidateName(name: string): (v: Verdict)
    ensures v.isValid <==> v.error.None?
  {
    if name == "" then Reject("Name is required")
    else
      var s := Strip(name);
      if |s| < 2 then Reject("Name must be at least 2 characters")
      else if |s| > 255 then Reject("Name is too long (maximum 255 characters)")
      else if !HasAlnum(s) then Reject("Name must contain at least one letter or number")
      else Accept
  }

  /** Stripping keeps every ASCII letter or digit of a name. */
  lemma StripKeepsAlnum(name: string)
    ensures HasAlnum(Strip(name)) <==> HasAlnum(name)
  {
    var s, k := Strip(name), Lead(name, IsSpace);
    if HasAlnum(name) {
      var i :| 0 <= i < |name| && IsAlnum(name[i]);
      assert k <= i < k + |s| by {
        assert !IsSpace(name[i]);
      }
      assert s[i - k] == name[i];
    }
    if HasAlnum(s) {
      var i :| 0 <= i < |s| && IsAlnum(s[i]);
      assert name[k + i] == s[i];
    }
  }

  /** A name is accepted iff its stripped length is in 2..255 and the name (stripped or not)
      holds an ASCII letter or digit. */
  lemma ValidateNameAccepts(name: string)
    ensures ValidateName(name).isValid <==> 2 <= |Strip(name)| <= 255 && HasAlnum(name)
  {
    StripKeepsAlnum(name);
  }

  /** `validate_date_range` on dates given as day numbers: it rejects only two given dates with
      the end before the start, so equal dates pass despite the message. */
  function ValidateDateRange(start: Option<int>, end: Option<int>): (v: Verdict)
    ensures v.isValid <==> start.None? || end.None? || start.value <= end.value
    ensures v.isValid <==> v.error.None?
  {
    if start.Some? && end.Some? && end.value < start.value then Reject("End date must be after start date")
    else Accept
  }

  // ---------------------------------------------------------------- sanitising

  /** Python's `t[:m]` for an integer `m`, negative values counting from the end. */
  function PrefixSlice(t: string, m: int): (r: string)
    ensures |r| <= |t| && r == t[..|r|]
    ensures m >= 0 ==> |r| == if m < |t| then m else |t|
    ensures m < 0 ==> |r| == if |t| + m > 0 then |t| + m else 0
  {
    if m >= 0 then (if m < |t| then t[..m] else t)
    else if |t| + m > 0 then t[..|t| + m] else []
  }

  /** Whitespace only as single blanks: no two adjacent whitespace characters, and every
      whitespace character a space. */
  predicate SingleSpaced(r: string) {
    NoAdjacent(r, IsSpace) && forall i :: 0 <= i < |r| && IsSpace(r[i]) ==> r[i] == ' '
  }

  /** Collapsing the whitespace runs of a text with no whitespace at either end leaves it
      single-spaced, still with no whitespace at either end. */
  lemma CollapseSpaces(s: string)
    requires s == [] || (!IsSpace(s[0]) && !IsSpace(s[|s| - 1]))
    ensures var t := CollapseRuns(s, IsSpace, ' ');
      SingleSpaced(t) && (t == [] || (!IsSpace(t[0]) && !IsSpace(t[|t| - 1])))
  {
    CollapseRunsNoAdjacent(s, IsSpace, ' ');
    CollapseRunsChars(s, IsSpace, ' ', c => true);
    CollapseRunsEnds(s, IsSpace, ' ');
  }

  /** `re.sub(r'\s+', ' ', text.strip())`: single-spaced, no whitespace at either end, and the
      characters other than whitespace are those of `text`, in order. */
  function StripCollapse(text: string): (t: string)
    ensures |t| <= |text| && SingleSpaced(t)
    ensures t == [] || (!IsSpace(t[0]) && !IsSpace(t[|t| - 1]))
    ensures Filter(t, NotSpace) == Filter(text, NotSpace)
  {
    var s := Strip(text);
    CollapseSpaces(s);
    TrimFilter(text, IsSpace, NotSpace);
    CollapseRunsFilter(s, IsSpace, ' ', NotSpace);
    CollapseRuns(s, IsSpace, ' ')
  }

  /** A prefix of a single-spaced text is single-spaced. */
  lemma PrefixSingleSpaced(t: string, n: nat)
    requires n <= |t| && SingleSpaced(t)
    ensures SingleSpaced(t[..n])
  {
    assert forall i :: 0 <= i < n ==> t[..n][i] == t[i];
  }

  /** `sanitize_input`: strip, collapse every whitespace run to one space, then truncate when a
      non-zero `maxLength` is given and exceeded. Without truncation, the characters other than
      whitespace are exactly those of `text`, in order. */
  function SanitizeInput(text: string, maxLength: Option<int>): (r: string)
    ensures text == "" ==> r == ""
    ensures r == [] || !IsSpace(r[0])
    ensures forall i :: 0 <= i < |r| - 1 ==> !(IsSpace(r[i]) && IsSpace(r[i + 1]))
    ensures forall i :: 0 <= i < |r| && IsSpace(r[i]) ==> r[i] == ' '
    ensures maxLength.Some? && maxLength.value > 0 ==> |r| <= maxLength.value
    ensures maxLength.None? ==> r == [] || !IsSpace(r[|r| - 1])
    ensures |r| <= |text|
    ensures maxLength.None? || maxLength == Some(0) ==> Filter(r, NotSpace) == Filter(text, NotSpace)
  {
    if text == "" then ""
    else
      var t := StripCollapse(text);
      if maxLength.Some? && maxLength.value != 0 && |t| > maxLength.value then
        var r := PrefixSlice(t, maxLength.value);
        PrefixSingleSpaced(t, |r|);
        r
      else t
  }

  /** A bound only cuts the unbounded result: `Some(0)` means no bound, any other value is
      Python's slice `[:m]` of the unbounded result (a prefix no longer than it is kept whole). */
  lemma SanitizeBoundIsPrefix(text: string, m: int)
    ensures SanitizeInput(text, Some(m)) ==
      if m == 0 then SanitizeInput(text, None) else PrefixSlice(SanitizeInput(text, None), m)
  {
    if text != "" && m > 0 {
      var t := StripCollapse(text);
      if |t| <= m {
        assert PrefixSlice(t, m) == t[..|t|] == t;
      }
    }
  }

  lemma {:induction false} CollapseRunsKeeps(s: string, p: char -> bool, c: char)
    requires p(c)
    requires forall i :: 0 <= i < |s| - 1 ==> !(p(s[i]) && p(s[i + 1]))
    requires forall i :: 0 <= i < |s| && p(s[i]) ==> s[i] == c
    ensures CollapseRuns(s, p, c) == s
  {
    if s != [] {
      CollapseRunsKeeps(s[1..], p, c);
      if p(s[0]) {
        assert s[1..] == [] || !p(s[1]);
        assert TrimStart(s[1..], p) == s[1..];
      }
    }
  }

  /** A string without whitespace at either end is its own `strip()`. */
  lemma StripFixed(s: string)
    requires s == [] || (!IsSpace(s[0]) && !IsSpace(s[|s| - 1]))
    ensures Strip(s) == s
  {
    TrimFixed(s, IsSpace);
  }

  /** A text already in sanitised form is its own sanitised form. */
  lemma SanitizeFixed(r: string)
    requires r == [] || (!IsSpace(r[0]) && !IsSpace(r[|r| - 1]))
    requires forall i :: 0 <= i < |r| - 1 ==> !(IsSpace(r[i]) && IsSpace(r[i + 1]))
    requires forall i :: 0 <= i < |r| && IsSpace(r[i]) ==> r[i] == ' '
    ensures SanitizeInput(r, None) == r
  {
    if r != "" {
      StripFixed(r);
        CollapseRunsKeeps(r, IsSpace, ' ');
    }
  }

  /** Sanitising without a length bound is idempotent. */
  lemma SanitizeIdempotent(text: string)
    ensures SanitizeInput(SanitizeInput(text, None), None) == SanitizeInput(text, None)
  {
    SanitizeFixed(SanitizeInput(text, None));
  }

  // ---------------------------------------------------------------- slug generation

  /** `re.sub(r'[^a-z0-9-]', '', s)`. */
  function KeepSlugChars(s: string): (r: string)
    ensures AllChars(r, IsSlugChar)
    ensures AllChars(s, IsSlugChar) ==> r == s
  {
    Filter(s, IsSlugChar)
  }

  /** `KeepSlugChars` works character by character: it keeps exactly the slug characters, in
      order, and drops every other one. */
  lemma KeepSlugCharsSplit(a: string, b: string, c: char)
    ensures KeepSlugChars(a + b) == KeepSlugChars(a) + KeepSlugChars(b)
    ensures KeepSlugChars([c]) == if IsSlugChar(c) then [c] else []
  {
    FilterAppend(a, b, IsSlugChar);
    assert [c][1..] == [];
  }

  /** The regex class `[a-z0-9]`: the slug characters other than the hyphen. */
  predicate IsLowerAlnum(c: char) { IsLowerLetter(c) || IsDigit(c) }

  /** `generate_slug_from_name`: lowercase, spaces to hyphens, drop other characters,
      collapse hyphen runs, strip hyphens at both ends. */
  function GenerateSlugFromName(name: string): (slug: string)
    ensures AllChars(slug, IsSlugChar)
    ensures slug == [] || (slug[0] != '-' && slug[|slug| - 1] != '-')
    ensures !HasDoubleHyphen(slug)
    ensures Filter(slug, IsLowerAlnum) == Filter(Lower(name), IsLowerAlnum)
  {
    var kept := KeepSlugChars(ReplaceChar(Lower(name), ' ', '-'));
    var collapsed := CollapseRuns(kept, IsHyphen, '-');
    SlugShape(kept, collapsed);
    SlugKeepsAlnum(Lower(name), kept, collapsed);
    Trim(collapsed, IsHyphen)
  }

  /** Collapsing the hyphen runs of slug characters and stripping the end hyphens leaves a slug
      with no hyphen at either end and no `--`. */
  lemma SlugShape(kept: string, collapsed: string)
    requires AllChars(kept, IsSlugChar) && collapsed == CollapseRuns(kept, IsHyphen, '-')
    ensures var slug := Trim(collapsed, IsHyphen);
      && AllChars(slug, IsSlugChar)
      && (slug == [] || (slug[0] != '-' && slug[|slug| - 1] != '-'))
      && !HasDoubleHyphen(slug)
  {
    CollapseRunsClass(kept, IsHyphen, '-', IsSlugChar);
    TrimSliceFacts(collapsed, IsHyphen, IsSlugChar);
    CollapseRunsNoAdjacent(kept, IsHyphen, '-');
    NoDoubleHyphen(collapsed);
  }

  /** Stripping the end hyphens of a text without adjacent hyphens leaves no `--`. */
  lemma NoDoubleHyphen(collapsed: string)
    requires NoAdjacent(collapsed, IsHyphen)
    ensures !HasDoubleHyphen(Trim(collapsed, IsHyphen))
  {
    TrimSliceFacts(collapsed, IsHyphen, IsHyphen);
    var slug := Trim(collapsed, IsHyphen);
    forall i | 0 <= i < |slug| - 1 ensures !(slug[i] == '-' && slug[i + 1] == '-') {
      assert !(IsHyphen(slug[i]) && IsHyphen(slug[i + 1]));
    }
  }

  /** Each step of slug generation keeps the `[a-z0-9]` characters, in order. */
  lemma SlugKeepsAlnum(lowered: string, kept: string, collapsed: string)
    requires kept == KeepSlugChars(ReplaceChar(lowered, ' ', '-'))
    requires collapsed == CollapseRuns(kept, IsHyphen, '-')
    ensures Filter(Trim(collapsed, IsHyphen), IsLowerAlnum) == Filter(lowered, IsLowerAlnum)
  {
    ReplaceFilter(lowered, ' ', '-', IsLowerAlnum);
    FilterFilter(ReplaceChar(lowered, ' ', '-'), IsSlugChar, IsLowerAlnum);
    CollapseRunsFilter(kept, IsHyphen, '-', IsLowerAlnum);
    TrimFilter(collapsed, IsHyphen, IsLowerAlnum);
  }

  /** Any non-empty generated slug passes `validate_slug` (and its strict reading). */
  lemma GeneratedSlugIsValid(name: string)
    requires GenerateSlugFromName(name) != ""
    ensures ValidateSlugStrict(GenerateSlugFromName(name)).isValid
    ensures ValidateSlug(GenerateSlugFromName(name)).isValid
  {
  }

  lemma LowerKeepsSlug(s: string)
    requires AllChars(s, IsSlugChar)
    ensures Lower(s) == s && ReplaceChar(s, ' ', '-') == s
  {
  }

  /** A well-formed slug, or the empty string, is its own generated slug. */
  lemma {:induction false} GenerateKeepsSlug(s: string)
    requires s == "" || WellFormedSlug(s)
    ensures GenerateSlugFromName(s) == s
  {
    LowerKeepsSlug(s);
    var kept := KeepSlugChars(ReplaceChar(Lower(s), ' ', '-'));
    assert kept == s;
    CollapseRunsKeeps(s, IsHyphen, '-');
    assert CollapseRuns(kept, IsHyphen, '-') == s;
    TrimFixed(s, IsHyphen);
  }

  /** Generating a slug from a generated slug changes nothing. */
  lemma GenerateSlugIdempotent(name: string)
    ensures GenerateSlugFromName(GenerateSlugFromName(name)) == GenerateSlugFromName(name)
  {
    GenerateKeepsSlug(GenerateSlugFromName(name));
  }

  // ---------------------------------------------------------------- roles and statuses

  /** `validate_member_role`: exactly the three group roles. */
  function ValidateMemberRole(role: string): (v: Verdict)
    ensures v.isValid <==> role == "facilitator" || role == "participant" || role == "observer"
  {
    if role !in Constants.GroupMemberRoles then
      Reject("Invalid role. Must be one of: " + JoinComma(Constants.GroupMemberRoles))
    else Accept
  }

  /** `validate_attendance_status`: exactly the six attendance statuses. */
  function ValidateAttendanceStatus(status: string): (v: Verdict)
    ensures v.isValid <==> status in {"present", "absent_without_updates", "travelling", "family_time", "work_business", "wellness"}
  {
    if status !in Constants.AttendanceStatuses then
      Reject("Invalid status. Must be one of: " + JoinComma(Constants.AttendanceStatuses))
    else Accept
  }
}
