/** Worked examples of the contact-form rules: a complete form passes and a
    doubled '@' in the e-mail is reported as a format error. */
module ValidationExamples {
  import opened Wrappers
  import opened Validation

  lemma ExampleNamePasses()
    ensures NameError("Alex Rao") == None
  {
    var name := "Alex Rao";
    assert !IsSpace(name[0]) && !IsSpace(name[7]);
    assert Trim(name) == name;
    assert Utf16Length(name) >= 8;
  }

  lemma ExampleEmailSplit()
    ensures EmailSplit("alex@example.com", 4, 12)
  {
    var good := "alex@example.com";
    assert good[..4] == "alex" && good[5..12] == "example" && good[13..] == "com";
    assert EmailChars("alex") && EmailChars("example") && EmailChars("com");
  }

  /** A string that starts with a non-space is not blank. */
  lemma NotBlank(s: string)
    requires s != [] && !IsSpace(s[0])
    ensures Trim(s) != []
  {
    assert TrimStart(s) == s;
    TrimEndStrips(s);
    assert s[0..] == s;
  }

  lemma ExampleEmailNotBlank()
    ensures Trim("alex@example.com") != []
  {
    var good := "alex@example.com";
    assert !IsSpace(good[0]);
    NotBlank(good);
  }

  lemma ExampleEmailPasses()
    ensures EmailError("alex@example.com") == None
  {
    ExampleEmailSplit();
    ExampleEmailNotBlank();
    EmailSplitSound("alex@example.com", 4, 12);
  }

  lemma ExampleDoubleAtFails()
    ensures EmailError("alex@@") == Some(EMAIL_INVALID)
  {
    var bad := "alex@@";
    assert !IsSpace(bad[0]);
    NotBlank(bad);
    CountAround(bad, 4, '@');
    CountAround(bad[5..], 0, '@');
  }

  lemma ExampleSpaceRemoved()
    ensures RemoveSpaces(" ") == []
  {
  }

  /** Deleting whitespace around one space joins the two sides. */
  lemma RemoveSpaceJoin(a: string, b: string)
    ensures RemoveSpaces(a + " " + b) == RemoveSpaces(a) + RemoveSpaces(b)
  {
    ExampleSpaceRemoved();
    RemoveSpacesAppend(a + " ", b);
    RemoveSpacesAppend(a, " ");
  }

  lemma ExamplePhoneSpelled()
    ensures "123 4567" == "123" + " " + "4567"
    ensures "555 123 4567" == "555" + " " + "123 4567"
    ensures "+1 555 123 4567" == "+1" + " " + "555 123 4567"
  {
  }

  lemma ExamplePhoneJoined()
    ensures "123" + "4567" == "1234567"
    ensures "555" + "1234567" == "5551234567"
    ensures "+1" + "5551234567" == "+15551234567"
  {
  }

  lemma ExamplePhoneGroups()
    ensures RemoveSpaces("+1") == "+1" && RemoveSpaces("555") == "555"
    ensures RemoveSpaces("123") == "123" && RemoveSpaces("4567") == "4567"
  {
    ExampleGroupKept("+1");
    ExampleGroupKept("555");
    ExampleGroupKept("123");
    ExampleGroupKept("4567");
  }

  /** A group of digits, possibly led by '+', has no whitespace to delete. */
  lemma ExampleGroupKept(g: string)
    requires g in {"+1", "555", "123", "4567"}
    ensures RemoveSpaces(g) == g
  {
    assert forall i :: 0 <= i < |g| ==> g[i] == '+' || IsAsciiDigit(g[i]);
    RemoveSpacesNoSpace(g);
  }

  lemma ExamplePhoneDigits()
    ensures RemoveSpaces("+1 555 123 4567") == "+15551234567"
  {
    ExamplePhoneSpelled();
    ExamplePhoneGroups();
    ExamplePhoneJoined();
    RemoveSpaceJoin("123", "4567");
    RemoveSpaceJoin("555", "123 4567");
    RemoveSpaceJoin("+1", "555 123 4567");
  }

  lemma ExamplePhoneBody()
    ensures PhoneBody("+15551234567") == "15551234567"
    ensures DigitsOrHyphens("15551234567")
  {
  }

  lemma ExamplePhoneValid()
    ensures IsValidPhone("+1 555 123 4567")
  {
    ExamplePhoneDigits();
    ExamplePhoneBody();
  }

  lemma ExamplePhonePasses()
    ensures PhoneError("+1 555 123 4567") == None
  {
    ExamplePhoneValid();
    var phone := "+1 555 123 4567";
    assert !IsSpace(phone[0]);
    NotBlank(phone);
  }

  lemma EntryForPasses(f: Field, v: string)
    requires FieldError(f, v) == None
    ensures EntryFor(f, v) == map[]
  {
  }

  lemma UnionWithEmpty(e: map<Field, string>)
    ensures map[] + e + map[] == e
  {
  }

  /** The error map of a form whose name and phone pass is the e-mail's
      entry alone. */
  lemma ErrorsForOnlyEmail(form: ContactForm)
    requires NameError(form.name) == None && PhoneError(form.whatsapp) == None
    ensures ErrorsFor(form) == EntryFor(Email, form.email)
  {
    EntryForPasses(Name, form.name);
    EntryForPasses(Whatsapp, form.whatsapp);
    UnionWithEmpty(EntryFor(Email, form.email));
  }

  /** The complete form produces no errors; the same form with "alex@@" as
      its e-mail produces exactly the e-mail format error. */
  lemma ExampleForms()
    ensures ErrorsFor(ContactForm("Alex Rao", "+1 555 123 4567", "alex@example.com")) == map[]
    ensures ErrorsFor(ContactForm("Alex Rao", "+1 555 123 4567", "alex@@")) == map[Email := EMAIL_INVALID]
  {
    ExampleNamePasses();
    ExamplePhonePasses();
    ExampleEmailPasses();
    ExampleDoubleAtFails();
    ErrorsForOnlyEmail(ContactForm("Alex Rao", "+1 555 123 4567", "alex@example.com"));
    ErrorsForOnlyEmail(ContactForm("Alex Rao", "+1 555 123 4567", "alex@@"));
    EntryForPasses(Email, "alex@example.com");
  }
}
