/**
 * The contact form endpoint (POST in app/api/contact/route.ts): five checks
 * in a fixed order, the Israeli phone rule, the e-mail pattern, and the
 * message record built from an accepted request.
 */
module Contact {
  import opened Wrappers
  import opened Text
  import opened Fields
  import opened Seqs

  /** The request body; `None` is an absent or null field. */
  datatype ContactRequest = ContactRequest(
    name: Option<string>,
    phone: Option<string>,
    email: Option<string>,
    message: Option<string>)

  /** The 400 answers, in the order they are checked. */
  datatype ContactError = NameRequired | PhoneRequired | PhoneInvalid | MessageRequired | EmailInvalid

  // ------------------------------------------------------------ the phone rule

  /** `/^0\d{9}$/`: exactly ten ASCII digits, the first of them `0`. */
  predicate TenDigitsFromZero(p: string) {
    |p| == 10 && p[0] == '0' && All(p, IsAsciiDigit)
  }

  /** The phone is tested after deleting every `-`, with no trimming. */
  predicate PhoneOk(phone: string) {
    TenDigitsFromZero(DeleteChar(phone, '-'))
  }

  /** Dashes anywhere in the phone are ignored by the rule. */
  lemma DashesIgnored(a: string, b: string)
    ensures PhoneOk(a + "-" + b) <==> PhoneOk(a + b)
  {
    WithoutConcat(a + "-", b, '-');
    WithoutConcat(a, "-", '-');
    WithoutConcat(a, b, '-');
    assert DeleteChar("-", '-') == [] + DeleteChar([], '-');
    assert DeleteChar(a + "-", '-') == DeleteChar(a, '-');
  }

  /** A phone that passes is made of ASCII digits and dashes only. */
  lemma AcceptedPhoneChars(phone: string)
    requires PhoneOk(phone)
    ensures forall c :: c in phone ==> IsAsciiDigit(c) || c == '-'
  {
    var r := DeleteChar(phone, '-');
    forall c | c in phone
      ensures IsAsciiDigit(c) || c == '-'
    {
      if c != '-' {
        assert c in r;
        var i :| 0 <= i < |r| && r[i] == c;
      }
    }
  }

  /** A phone that passes has no surrounding blanks, so trimming it changes nothing. */
  lemma AcceptedPhoneIsTrimmed(phone: string)
    requires PhoneOk(phone)
    ensures Trim(phone) == phone
  {
    AcceptedPhoneChars(phone);
    forall i | 0 <= i < |phone|
      ensures !IsWhitespace(phone[i])
    {
      assert phone[i] in phone;
    }
  }

  /**
   * The rule is not preceded by a trim: a phone with white space in front
   * fails, even though the presence check trimmed it.
   */
  lemma LeadingBlankRejected(phone: string)
    requires |phone| > 0 && IsWhitespace(phone[0])
    ensures !PhoneOk(phone)
  {
    assert DeleteChar(phone, '-')[0] == phone[0];
  }

  // ------------------------------------------------------------ the e-mail rule

  /** `[^\s@]`: neither white space nor `@`. */
  predicate EmailChar(c: char) {
    !IsWhitespace(c) && c != '@'
  }

  /** A `.` strictly inside `e[from..]`: some character of the domain before it and after it. */
  predicate InnerDot(e: string, from: nat) {
    exists j :: from < j < |e| - 1 && e[j] == '.'
  }

  /**
   * The matcher of `/^[^\s@]+@[^\s@]+\.[^\s@]+$/`: a non-empty run of allowed
   * characters, an `@`, then allowed characters up to the end with a dot
   * strictly inside them (the dot is itself an allowed character, so the
   * pattern backtracks to any dot of the domain).
   */
  function MatchesEmail(e: string): bool {
    var k := SkipWhile(e, EmailChar, 0);
    && 0 < k < |e| && e[k] == '@'
    && SkipWhile(e, EmailChar, k + 1) == |e|
    && InnerDot(e, k + 1)
  }

  /**
   * The rule in words: no white space anywhere, exactly one `@` and not in
   * front, and a `.` after it with at least one character on each side.
   */
  predicate EmailShape(e: string) {
    && (forall i :: 0 <= i < |e| ==> !IsWhitespace(e[i]))
    && exists at ::
      && 0 < at < |e| && e[at] == '@'
      && (forall i :: 0 <= i < |e| && i != at ==> e[i] != '@')
      && InnerDot(e, at + 1)
  }

  /** The matcher accepts exactly the strings of that shape. */
  lemma EmailMatchIff(e: string)
    ensures MatchesEmail(e) <==> EmailShape(e)
  {
    if MatchesEmail(e) {
      var k := SkipWhile(e, EmailChar, 0);
      var m := SkipWhile(e, EmailChar, k + 1);
      assert forall i :: 0 <= i < |e| && i != k ==> EmailChar(e[i]);
    }
    if EmailShape(e) {
      var at :| && 0 < at < |e| && e[at] == '@'
                && (forall i :: 0 <= i < |e| && i != at ==> e[i] != '@')
                && InnerDot(e, at + 1);
      assert !EmailChar(e[at]);
      assert forall i :: 0 <= i < |e| && i != at ==> EmailChar(e[i]);
      var k := SkipWhile(e, EmailChar, 0);
      assert k == at;
      var m := SkipWhile(e, EmailChar, k + 1);
      assert m == |e|;
    }
  }

  /** Every `local@domain.tld` of allowed, non-empty parts is accepted. */
  lemma EmailPartsAccepted(local: string, domain: string, tld: string)
    requires |local| > 0 && |domain| > 0 && |tld| > 0
    requires All(local, EmailChar) && All(domain, EmailChar) && All(tld, EmailChar)
    ensures MatchesEmail(local + "@" + domain + "." + tld)
  {
    var e := local + "@" + domain + "." + tld;
    var at := |local|;
    var dot := |local| + 1 + |domain|;
    assert e[at] == '@' && e[dot] == '.';
    assert forall i :: 0 <= i < at ==> e[i] == local[i];
    assert forall i :: at < i < dot ==> e[i] == domain[i - at - 1];
    assert forall i :: dot < i < |e| ==> e[i] == tld[i - dot - 1];
    assert EmailShape(e);
    EmailMatchIff(e);
  }

  /** An accepted address has no white space, so trimming it changes nothing. */
  lemma AcceptedEmailIsTrimmed(e: string)
    requires MatchesEmail(e)
    ensures Trim(e) == e
  {
    EmailMatchIff(e);
  }

  /** `email?.trim() || null` on an e-mail that passed the check is `email || null`. */
  lemma StoredEmail(email: Option<string>)
    requires Truthy(email) ==> MatchesEmail(email.value)
    ensures TrimOrNull(email) == OrNull(email)
  {
    if Truthy(email) {
      AcceptedEmailIsTrimmed(email.value);
    }
  }

  // ------------------------------------------------------------ the handler

  /** The validation chain: the first failing check decides the answer. */
  function Validate(req: ContactRequest): (r: Option<ContactError>)
    ensures r == Some(NameRequired) <==> Missing(req.name)
    ensures r == Some(PhoneRequired) <==> !Missing(req.name) && Missing(req.phone)
    ensures r == Some(PhoneInvalid) <==>
      !Missing(req.name) && !Missing(req.phone) && !PhoneOk(req.phone.value)
    ensures r == Some(MessageRequired) <==>
      !Missing(req.name) && !Missing(req.phone) && PhoneOk(req.phone.value) && Missing(req.message)
    ensures r == Some(EmailInvalid) <==>
      && !Missing(req.name) && !Missing(req.phone) && PhoneOk(req.phone.value) && !Missing(req.message)
      && Truthy(req.email) && !MatchesEmail(req.email.value)
    ensures r.None? <==>
      && !Missing(req.name) && !Missing(req.phone) && PhoneOk(req.phone.value) && !Missing(req.message)
      && (Truthy(req.email) ==> MatchesEmail(req.email.value))
  {
    if Missing(req.name) then Some(NameRequired)
    else if Missing(req.phone) then Some(PhoneRequired)
    else if !PhoneOk(req.phone.value) then Some(PhoneInvalid)
    else if Missing(req.message) then Some(MessageRequired)
    else if Truthy(req.email) && !MatchesEmail(req.email.value) then Some(EmailInvalid)
    else None
  }

  /** The stored message. */
  datatype ContactRecord = ContactRecord(name: string, phone: string, email: Option<string>, message: string)

  /**
   * The record created for an accepted request: name and message trimmed and
   * non-empty; the phone and a non-empty e-mail are stored exactly as sent,
   * because trimming cannot change a value that passed its rule; an empty or
   * absent e-mail is stored as null.
   */
  function BuildRecord(req: ContactRequest): (m: ContactRecord)
    requires Validate(req).None?
    ensures m.name == Trim(req.name.value) && m.name != ""
    ensures m.message == Trim(req.message.value) && m.message != ""
    ensures m.phone == req.phone.value
    ensures m.email == OrNull(req.email)
  {
    AcceptedPhoneIsTrimmed(req.phone.value);
    StoredEmail(req.email);
    ContactRecord(Trim(req.name.value), Trim(req.phone.value), TrimOrNull(req.email), Trim(req.message.value))
  }
}
