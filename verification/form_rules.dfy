/**
 * Checks shared by the sign-up and password-reset forms: "blank after trim"
 * and the two-step email check (present, then contains `@`).
 */
module FormRules {
  import opened Wrappers
  import JsText

  const EmailMissingMsg := "Por favor, digite seu email"
  const EmailInvalidMsg := "Por favor, digite um email válido"

  /** `!s.trim()`: nothing but whitespace. */
  predicate Blank(s: string) {
    JsText.Trim(s) == []
  }

  /** Blank means made only of whitespace; the empty string is blank. */
  lemma BlankIff(s: string)
    ensures Blank(s) <==> JsText.AllWhitespace(s)
    ensures Blank("")
  {
    JsText.TrimEmptyIff(s);
  }

  /** The email checks in order: a blank email is reported as missing, before the `@` test. */
  function EmailError(email: string): (r: Option<string>)
    ensures r == Some(EmailMissingMsg) <==> Blank(email)
    ensures r == Some(EmailInvalidMsg) <==> !Blank(email) && '@' !in email
    ensures r.None? <==> !Blank(email) && '@' in email
  {
    if Blank(email) then Some(EmailMissingMsg)
    else if '@' !in email then Some(EmailInvalidMsg)
    else None
  }

  /** An email consisting only of `@` surrounded by whitespace passes: the `@` test looks at the untrimmed text. */
  lemma UntrimmedAtPasses()
    ensures EmailError(" @ ") == None
  {
    assert JsText.Trim(" @ ") == "@" by {
      assert " @ "[1..] == "@ ";
      assert !JsText.IsJsWhitespace('@');
      assert JsText.TrimStart("@ ") == "@ ";
      assert JsText.TrimStart(" @ ") == "@ ";
      assert "@ "[..1] == "@";
      assert JsText.TrimEnd("@") == "@";
      assert JsText.TrimEnd("@ ") == "@";
    }
  }
}
