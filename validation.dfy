/** The contact-form validators of the booking modal
    (components/MoodSelector.tsx, `validateForm`): whitespace and `trim` as
    JavaScript defines them, the name, e-mail and phone rules with their
    messages, and the error map a submit attempt rebuilds. The two regular
    expressions of the source are stated twice: once in the shape of the
    pattern (which split points it accepts) and once as a hand-coded check,
    and the two are proved to agree. */
module Validation {
  import opened Wrappers

  // ---------------------------------------------------------------------------
  // Whitespace and trimming
  // ---------------------------------------------------------------------------

  /** ECMAScript WhiteSpace and LineTerminator code points: the class `\s`
      matches, and the characters `String.prototype.trim` removes. */
  predicate IsSpace(c: char)
  {
    var n := c as int;
    n == 0x09 || n == 0x0A || n == 0x0B || n == 0x0C || n == 0x0D || n == 0x20 ||
    n == 0xA0 || n == 0x1680 || (0x2000 <= n <= 0x200A) || n == 0x2028 || n == 0x2029 ||
    n == 0x202F || n == 0x205F || n == 0x3000 || n == 0xFEFF
  }

  predicate NoSpace(s: string)
  {
    forall i :: 0 <= i < |s| ==> !IsSpace(s[i])
  }

  predicate AllSpace(s: string)
  {
    forall i :: 0 <= i < |s| ==> IsSpace(s[i])
  }

  /** `s` without its leading whitespace. */
  function TrimStart(s: string): string
  {
    if s != [] && IsSpace(s[0]) then TrimStart(s[1..]) else s
  }

  /** `s` without its trailing whitespace. */
  function TrimEnd(s: string): string
  {
    if s != [] && IsSpace(s[|s| - 1]) then TrimEnd(s[..|s| - 1]) else s
  }

  /** Trimming the start keeps a suffix, cuts only whitespace, and leaves no
      whitespace in front. */
  lemma {:induction false} TrimStartStrips(s: string)
    ensures |TrimStart(s)| <= |s| && TrimStart(s) == s[|s| - |TrimStart(s)|..]
    ensures AllSpace(s[..|s| - |TrimStart(s)|])
    ensures TrimStart(s) == [] || !IsSpace(TrimStart(s)[0])
  {
    if s != [] && IsSpace(s[0]) {
      var t := s[1..];
      TrimStartStrips(t);
      var n := |s| - |TrimStart(t)|;
      assert t[n - 1..] == s[n..];
      forall i | 0 <= i < n
        ensures IsSpace(s[..n][i])
      {
        if i > 0 {
          assert s[..n][i] == t[..n - 1][i - 1];
        }
      }
    }
  }

  /** Trimming the end keeps a prefix, cuts only whitespace, and leaves no
      whitespace at the back. */
  lemma {:induction false} TrimEndStrips(s: string)
    ensures |TrimEnd(s)| <= |s| && TrimEnd(s) == s[..|TrimEnd(s)|]
    ensures AllSpace(s[|TrimEnd(s)|..])
    ensures TrimEnd(s) == [] || !IsSpace(TrimEnd(s)[|TrimEnd(s)| - 1])
  {
    if s != [] && IsSpace(s[|s| - 1]) {
      var t := s[..|s| - 1];
      TrimEndStrips(t);
      var n := |TrimEnd(t)|;
      assert t[..n] == s[..n];
      forall i | 0 <= i < |s| - n
        ensures IsSpace(s[n..][i])
      {
        if i < |t| - n {
          assert s[n..][i] == t[n..][i];
        }
      }
    }
  }

  /** `String.prototype.trim`. */
  function Trim(s: string): string
  {
    TrimEnd(TrimStart(s))
  }

  /** `r` is the slice `s[i..j]` and only whitespace lies around it. */
  predicate SpaceAround(s: string, i: int, j: int, r: string)
  {
    0 <= i <= j <= |s| && r == s[i..j] && AllSpace(s[..i]) && AllSpace(s[j..])
  }

  /** `trim` cuts whitespace off both ends and nothing else: the result is a
      slice of `s` with only whitespace around it, and it neither starts nor
      ends with whitespace. */
  lemma TrimIsSlice(s: string)
    ensures exists i, j :: SpaceAround(s, i, j, Trim(s))
    ensures Trim(s) == [] || (!IsSpace(Trim(s)[0]) && !IsSpace(Trim(s)[|Trim(s)| - 1]))
  {
    var t := TrimStart(s);
    var i := |s| - |t|;
    var r := TrimEnd(t);
    TrimStartStrips(s);
    TrimEndStrips(t);
    TrimEndOfSuffix(s, i, t, r);
    assert SpaceAround(s, i, i + |r|, Trim(s));
    if r != [] {
      assert r[0] == t[0];
    }
  }

  lemma TrimEndOfSuffix(s: string, i: int, t: string, r: string)
    requires 0 <= i <= |s| && t == s[i..] && AllSpace(s[..i])
    requires |r| <= |t| && r == t[..|r|] && AllSpace(t[|r|..])
    ensures SpaceAround(s, i, i + |r|, r)
  {
    SuffixSlices(s, i, |r|);
  }

  /** Slicing a suffix is slicing the whole. */
  lemma SuffixSlices(s: string, i: int, n: int)
    requires 0 <= i <= |s| && 0 <= n <= |s| - i
    ensures s[i..] == s[i..i + n] + s[i + n..]
    ensures s[i..][..n] == s[i..i + n] && s[i..][n..] == s[i + n..]
  {
  }

  /** `!s.trim()` holds exactly when `s` is all whitespace (or empty). */
  lemma TrimEmptyIffAllSpace(s: string)
    ensures Trim(s) == [] <==> AllSpace(s)
  {
    var t := TrimStart(s);
    var k := |s| - |t|;
    TrimStartStrips(s);
    TrimEndStrips(t);
    assert t == s[k..];
    if Trim(s) == [] {
      assert t[0..] == t;
      assert t == [];
      forall i | 0 <= i < |s| ensures IsSpace(s[i]) {
        assert s[i] == s[..k][i];
      }
    } else {
      assert t != [] && s[k] == t[0];
    }
  }

  /** The number of UTF-16 code units of `s`, which JavaScript's `length`
      counts: a character above U+FFFF takes two. */
  function Utf16Length(s: string): (n: nat)
    ensures n >= |s|
  {
    if s == [] then 0 else (if s[0] as int > 0xFFFF then 2 else 1) + Utf16Length(s[1..])
  }

  /** A string is shorter than two code units exactly when it is empty or a
      single character of the Basic Multilingual Plane. */
  lemma Utf16ShorterThanTwo(s: string)
    ensures Utf16Length(s) < 2 <==> s == [] || (|s| == 1 && s[0] as int <= 0xFFFF)
  {
    if |s| == 1 {
      assert s[1..] == [];
    }
  }

  // ---------------------------------------------------------------------------
  // Name
  // ---------------------------------------------------------------------------

  const NAME_REQUIRED := "Name is required"
  const NAME_TOO_SHORT := "Name must be at least 2 characters"

  /** The name rule: required, then at least 2 code units once trimmed. */
  function NameError(name: string): Option<string>
  {
    var t := Trim(name);
    if t == [] then Some(NAME_REQUIRED)
    else if Utf16Length(t) < 2 then Some(NAME_TOO_SHORT)
    else None
  }

  /** The name is refused exactly when its trimmed length is below 2: with
      "required" for a blank name and the length message for a single
      character. */
  lemma NameRule(name: string)
    ensures NameError(name).None? <==> Utf16Length(Trim(name)) >= 2
    ensures NameError(name) == Some(NAME_REQUIRED) <==> AllSpace(name)
    ensures NameError(name) == Some(NAME_TOO_SHORT) <==>
      |Trim(name)| == 1 && Trim(name)[0] as int <= 0xFFFF
  {
    TrimEmptyIffAllSpace(name);
    Utf16ShorterThanTwo(Trim(name));
  }

  // ---------------------------------------------------------------------------
  // E-mail: /^[^\s@]+@[^\s@]+\.[^\s@]+$/
  // ---------------------------------------------------------------------------

  /** The character class `[^\s@]`. */
  predicate EmailChar(c: char)
  {
    !IsSpace(c) && c != '@'
  }

  predicate EmailChars(s: string)
  {
    forall i :: 0 <= i < |s| ==> EmailChar(s[i])
  }

  /** The e-mail pattern, split point by split point: a non-empty run of
      `[^\s@]`, an '@', a non-empty run, a '.', and a non-empty run to the end. */
  ghost predicate MatchesEmailPattern(s: string)
  {
    exists at, dot :: EmailSplit(s, at, dot)
  }

  /** The index of the first `c` in `s`. */
  function IndexOf(s: string, c: char): (k: nat)
    requires c in s
    ensures k < |s| && s[k] == c && c !in s[..k]
  {
    if s[0] == c then 0 else 1 + IndexOf(s[1..], c)
  }

  /** A '.' that is neither the first nor the last character of `d`. */
  predicate HasInnerDot(d: string)
  {
    |d| >= 3 && '.' in d[1..|d| - 1]
  }

  /** The hand-coded e-mail check: no whitespace, exactly one '@', a non-empty
      part before it, and a domain after it with an inner '.'. */
  predicate IsValidEmail(s: string)
  {
    && NoSpace(s)
    && multiset(s)['@'] == 1
    && var k := IndexOf(s, '@');
       k > 0 && HasInnerDot(s[k + 1..])
  }

  /** Splitting `s` at `k` around the character there. */
  lemma CountAround(s: string, k: nat, c: char)
    requires k < |s|
    ensures multiset(s)[c] == multiset(s[..k])[c] + (if s[k] == c then 1 else 0) + multiset(s[k + 1..])[c]
  {
    assert s == s[..k] + [s[k]] + s[k + 1..];
  }

  lemma EmailCharsOfSlice(s: string, lo: int, hi: int)
    requires 0 <= lo <= hi <= |s|
    ensures EmailChars(s[lo..hi]) <==> forall i :: lo <= i < hi ==> EmailChar(s[i])
  {
    if forall i :: lo <= i < hi ==> EmailChar(s[i]) {
      forall i | 0 <= i < hi - lo ensures EmailChar(s[lo..hi][i]) {
        assert s[lo..hi][i] == s[lo + i];
      }
    }
    if EmailChars(s[lo..hi]) {
      forall i | lo <= i < hi ensures EmailChar(s[i]) {
        assert s[i] == s[lo..hi][i - lo];
      }
    }
  }

  /** No character but the one at `k` is `c`. */
  predicate OnlyAt(s: string, k: int, c: char)
  {
    forall i :: 0 <= i < |s| && i != k ==> s[i] != c
  }

  lemma OnlyAtCount(s: string, k: nat, c: char)
    requires k < |s| && s[k] == c
    ensures OnlyAt(s, k, c) <==> multiset(s)[c] == 1
  {
    CountAround(s, k, c);
    if OnlyAt(s, k, c) {
      assert c !in s[..k] by {
        forall i | 0 <= i < k ensures s[..k][i] != c { assert s[..k][i] == s[i]; }
      }
      assert c !in s[k + 1..] by {
        var tail := s[k + 1..];
        forall i | 0 <= i < |tail| ensures tail[i] != c { assert tail[i] == s[k + 1 + i]; }
      }
    } else {
      var i :| 0 <= i < |s| && i != k && s[i] == c;
      if i < k {
        assert s[..k][i] == c;
      } else {
        assert s[k + 1..][i - k - 1] == c;
      }
    }
  }

  /** The split points of a pattern match. */
  predicate EmailSplit(s: string, at: int, dot: int)
  {
    0 < at < dot - 1 < |s| - 2 && s[at] == '@' && s[dot] == '.' &&
    EmailChars(s[..at]) && EmailChars(s[at + 1..dot]) && EmailChars(s[dot + 1..])
  }

  /** The characters outside the '@' and the '.' of a split are `[^\s@]`. */
  lemma EmailSplitChars(s: string, at: int, dot: int)
    requires EmailSplit(s, at, dot)
    ensures forall i :: 0 <= i < |s| && i != at && i != dot ==> EmailChar(s[i])
  {
    EmailCharsOfSlice(s, 0, at);
    EmailCharsOfSlice(s, at + 1, dot);
    EmailCharsOfSlice(s, dot + 1, |s|);
    assert s[..at] == s[0..at];
    assert s[dot + 1..] == s[dot + 1..|s|];
  }

  /** The pattern's split points give a string the hand-coded check accepts. */
  lemma EmailSplitSound(s: string, at: int, dot: int)
    requires EmailSplit(s, at, dot)
    ensures IsValidEmail(s)
  {
    EmailSplitChars(s, at, dot);
    assert NoSpace(s);
    assert OnlyAt(s, at, '@');
    OnlyAtCount(s, at, '@');
    var tail := s[at + 1..];
    assert tail[1..|tail| - 1][dot - at - 2] == s[dot];
  }

  lemma EmailPatternSound(s: string)
    requires MatchesEmailPattern(s)
    ensures IsValidEmail(s)
  {
    var at, dot :| EmailSplit(s, at, dot);
    EmailSplitSound(s, at, dot);
  }

  /** An accepted string has split points the pattern matches. */
  lemma EmailPatternComplete(s: string)
    requires IsValidEmail(s)
    ensures MatchesEmailPattern(s)
  {
    var k := IndexOf(s, '@');
    var tail := s[k + 1..];
    var j :| 0 <= j < |tail| - 2 && tail[1..|tail| - 1][j] == '.';
    var dot := k + 2 + j;
    assert s[dot] == '.' by { assert s[dot] == tail[j + 1]; }
    OnlyAtCount(s, k, '@');
    EmailCharsOfSlice(s, 0, k);
    EmailCharsOfSlice(s, k + 1, dot);
    EmailCharsOfSlice(s, dot + 1, |s|);
    assert s[..k] == s[0..k];
    assert s[dot + 1..] == s[dot + 1..|s|];
    assert EmailSplit(s, k, dot);
  }

  /** The hand-coded check accepts exactly the strings the pattern matches. */
  lemma EmailPatternIff(s: string)
    ensures MatchesEmailPattern(s) <==> IsValidEmail(s)
  {
    if MatchesEmailPattern(s) {
      EmailPatternSound(s);
    }
    if IsValidEmail(s) {
      EmailPatternComplete(s);
    }
  }

  const EMAIL_REQUIRED := "Email is required"
  const EMAIL_INVALID := "Please enter a valid email address"

  /** The e-mail rule: required once trimmed, then the pattern on the
      untrimmed string. */
  function EmailError(email: string): Option<string>
  {
    if Trim(email) == [] then Some(EMAIL_REQUIRED)
    else if !IsValidEmail(email) then Some(EMAIL_INVALID)
    else None
  }

  // ---------------------------------------------------------------------------
  // Phone: /^\+?[\d\s-]{10,}$/ applied after deleting every /\s/
  // ---------------------------------------------------------------------------

  predicate IsAsciiDigit(c: char)
  {
    '0' <= c <= '9'
  }

  /** The character class `[\d\s-]`. */
  predicate PhoneClassChar(c: char)
  {
    IsAsciiDigit(c) || IsSpace(c) || c == '-'
  }

  predicate PhoneClassChars(t: string)
  {
    forall i :: 0 <= i < |t| ==> PhoneClassChar(t[i])
  }

  /** The phone pattern by its two ways of matching: without the optional '+',
      or with it. */
  predicate MatchesPhonePattern(t: string)
  {
    || (|t| >= 10 && PhoneClassChars(t))
    || (|t| >= 11 && t[0] == '+' && PhoneClassChars(t[1..]))
  }

  /** `s.replace(/\s/g, '')`. */
  function RemoveSpaces(s: string): (r: string)
    ensures NoSpace(r) && |r| <= |s|
    ensures r == [] <==> AllSpace(s)
  {
    if s == [] then []
    else if IsSpace(s[0]) then RemoveSpaces(s[1..])
    else [s[0]] + RemoveSpaces(s[1..])
  }

  /** Deleting whitespace distributes over concatenation. */
  lemma {:induction false} RemoveSpacesAppend(a: string, b: string)
    ensures RemoveSpaces(a + b) == RemoveSpaces(a) + RemoveSpaces(b)
  {
    if a == [] {
      assert a + b == b;
    } else {
      assert (a + b)[1..] == a[1..] + b;
      RemoveSpacesAppend(a[1..], b);
    }
  }

  /** A string without whitespace is left unchanged. */
  lemma {:induction false} RemoveSpacesNoSpace(s: string)
    requires NoSpace(s)
    ensures RemoveSpaces(s) == s
  {
    if s != [] {
      RemoveSpacesNoSpace(s[1..]);
    }
  }

  /** The hand-coded phone check on the whitespace-free string: an optional
      leading '+', then at least ten characters, each an ASCII digit or '-'. */
  predicate IsValidPhone(s: string)
  {
    var body := PhoneBody(RemoveSpaces(s));
    |body| >= 10 && DigitsOrHyphens(body)
  }

  /** The string without its optional leading '+'. */
  function PhoneBody(t: string): string
  {
    if t != [] && t[0] == '+' then t[1..] else t
  }

  predicate DigitsOrHyphens(b: string)
  {
    forall i :: 0 <= i < |b| ==> IsAsciiDigit(b[i]) || b[i] == '-'
  }

  /** The hand-coded check accepts exactly what the pattern matches after
      whitespace is deleted. */
  lemma PhonePatternIff(s: string)
    ensures MatchesPhonePattern(RemoveSpaces(s)) <==> IsValidPhone(s)
  {
    var t := RemoveSpaces(s);
    if t != [] && t[0] == '+' {
      assert !PhoneClassChar(t[0]);
      var body := t[1..];
      forall i | 0 <= i < |body| ensures PhoneClassChar(body[i]) <==> IsAsciiDigit(body[i]) || body[i] == '-' {
        assert body[i] == t[i + 1];
      }
    } else {
      forall i | 0 <= i < |t| ensures PhoneClassChar(t[i]) <==> IsAsciiDigit(t[i]) || t[i] == '-' {
      }
    }
  }

  const PHONE_REQUIRED := "WhatsApp number is required"
  const PHONE_INVALID := "Enter a valid phone number (min 10 digits)"

  /** The WhatsApp rule: required once trimmed, then the pattern. */
  function PhoneError(phone: string): Option<string>
  {
    if Trim(phone) == [] then Some(PHONE_REQUIRED)
    else if !IsValidPhone(phone) then Some(PHONE_INVALID)
    else None
  }

  // ---------------------------------------------------------------------------
  // The contact form and its error map
  // ---------------------------------------------------------------------------

  /** The keys of the `form` and `errors` state: 'name', 'whatsapp', 'email'. */
  datatype Field = Name | Whatsapp | Email

  /** The `form` state cell. */
  datatype ContactForm = ContactForm(name: string, whatsapp: string, email: string)
  {
    function Get(f: Field): string
    {
      match f
      case Name => name
      case Whatsapp => whatsapp
      case Email => email
    }

    /** `{ ...prev, [field]: value }`. */
    function With(f: Field, v: string): (r: ContactForm)
      ensures r.Get(f) == v
      ensures forall g :: g != f ==> r.Get(g) == Get(g)
    {
      match f
      case Name => this.(name := v)
      case Whatsapp => this.(whatsapp := v)
      case Email => this.(email := v)
    }
  }

  const EMPTY_FORM := ContactForm("", "", "")

  function FieldError(f: Field, v: string): Option<string>
  {
    match f
    case Name => NameError(v)
    case Email => EmailError(v)
    case Whatsapp => PhoneError(v)
  }

  function RequiredMessage(f: Field): string
  {
    match f
    case Name => NAME_REQUIRED
    case Email => EMAIL_REQUIRED
    case Whatsapp => PHONE_REQUIRED
  }

  function FormatMessage(f: Field): string
  {
    match f
    case Name => NAME_TOO_SHORT
    case Email => EMAIL_INVALID
    case Whatsapp => PHONE_INVALID
  }

  /** The messages the error map can hold for a field. */
  predicate IsMessageFor(f: Field, msg: string)
  {
    msg == RequiredMessage(f) || msg == FormatMessage(f)
  }

  /** The single-entry map for a field's error, empty when it passes. */
  function EntryFor(f: Field, v: string): map<Field, string>
  {
    if FieldError(f, v).Some? then map[f := FieldError(f, v).value] else map[]
  }

  /** The map `validateForm` builds: one entry per failing field. */
  function ErrorsFor(form: ContactForm): map<Field, string>
  {
    EntryFor(Name, form.name) + EntryFor(Email, form.email) + EntryFor(Whatsapp, form.whatsapp)
  }

  /** The error map has an entry for a field exactly when that field fails,
      and the entry is the field's message. */
  lemma ErrorsForEntries(form: ContactForm, f: Field)
    ensures f in ErrorsFor(form) <==> FieldError(f, form.Get(f)).Some?
    ensures f in ErrorsFor(form) ==> ErrorsFor(form)[f] == FieldError(f, form.Get(f)).value
  {
  }

  /** Each rule yields one of its own two messages. */
  lemma FieldErrorMessage(f: Field, v: string)
    ensures FieldError(f, v).Some? ==> IsMessageFor(f, FieldError(f, v).value)
  {
    match f
    case Name =>
      assert NameError(v) == None || NameError(v) == Some(NAME_REQUIRED) || NameError(v) == Some(NAME_TOO_SHORT);
    case Email =>
      assert EmailError(v) == None || EmailError(v) == Some(EMAIL_REQUIRED) || EmailError(v) == Some(EMAIL_INVALID);
    case Whatsapp =>
      assert PhoneError(v) == None || PhoneError(v) == Some(PHONE_REQUIRED) || PhoneError(v) == Some(PHONE_INVALID);
  }

  /** At most one message per field, and it is one of that field's two
      messages; a blank field always gets the "required" message, which takes
      precedence over the format message. */
  lemma ErrorMessages(form: ContactForm, f: Field)
    ensures f in ErrorsFor(form) ==> IsMessageFor(f, ErrorsFor(form)[f])
    ensures AllSpace(form.Get(f)) ==> f in ErrorsFor(form) && ErrorsFor(form)[f] == RequiredMessage(f)
    ensures f in ErrorsFor(form) && ErrorsFor(form)[f] == FormatMessage(f) ==> !AllSpace(form.Get(f))
  {
    ErrorsForEntries(form, f);
    FieldErrorMessage(f, form.Get(f));
    TrimEmptyIffAllSpace(form.Get(f));
    assert RequiredMessage(f) != FormatMessage(f);
  }

  /** The e-mail passes exactly when it matches the pattern (a match is never
      blank). */
  lemma EmailRule(email: string)
    ensures EmailError(email).None? <==> MatchesEmailPattern(email)
  {
    EmailPatternIff(email);
    if IsValidEmail(email) {
      assert !IsSpace(email[0]);
      TrimEmptyIffAllSpace(email);
    }
  }

  /** The phone passes exactly when, after deleting whitespace, it matches the
      pattern (a match is never blank). */
  lemma PhoneRule(phone: string)
    ensures PhoneError(phone).None? <==> MatchesPhonePattern(RemoveSpaces(phone))
  {
    PhonePatternIff(phone);
    TrimEmptyIffAllSpace(phone);
  }

  /** Every entry of the error map is one of its field's messages. */
  lemma ErrorsForMessages(form: ContactForm)
    ensures forall f :: f in ErrorsFor(form) ==> IsMessageFor(f, ErrorsFor(form)[f])
  {
    forall f | f in ErrorsFor(form)
      ensures IsMessageFor(f, ErrorsFor(form)[f])
    {
      ErrorMessages(form, f);
    }
  }

  /** The error map is empty exactly when no rule reports an error. */
  lemma ErrorsForEmpty(form: ContactForm)
    ensures ErrorsFor(form) == map[] <==>
      NameError(form.name).None? && EmailError(form.email).None? && PhoneError(form.whatsapp).None?
  {
    ErrorsForEntries(form, Name);
    ErrorsForEntries(form, Email);
    ErrorsForEntries(form, Whatsapp);
    var errs := ErrorsFor(form);
    if errs == map[] {
      assert Name !in errs && Email !in errs && Whatsapp !in errs;
    } else {
      var f :| f in errs;
    }
  }

  /** Validation passes exactly when the trimmed name has at least 2 code
      units, the e-mail matches its pattern and the phone, with whitespace
      deleted, matches its pattern. */
  lemma ValidationPassesIff(form: ContactForm)
    ensures ErrorsFor(form) == map[] <==>
      && Utf16Length(Trim(form.name)) >= 2
      && MatchesEmailPattern(form.email)
      && MatchesPhonePattern(RemoveSpaces(form.whatsapp))
  {
    ErrorsForEmpty(form);
    NameRule(form.name);
    EmailRule(form.email);
    PhoneRule(form.whatsapp);
  }
}
