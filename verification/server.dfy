/**
 * The server-side input checks of the contact endpoint: the e-mail
 * format test, the sanitiser applied to every stored field, and the
 * order in which the handler rejects a request before anything is
 * stored or mailed.
 */
module Server {
  import opened Wrappers
  import Text
  import Seqs
  import Contact

  // ---------------------------------------------------------------------
  // validate_email
  // ---------------------------------------------------------------------

  predicate IsAsciiLetter(c: char)
  {
    ('a' <= c <= 'z') || ('A' <= c <= 'Z')
  }

  predicate IsAsciiDigit(c: char)
  {
    '0' <= c <= '9'
  }

  /** `[a-zA-Z0-9._%+-]`: a character allowed before the `@`. */
  predicate IsLocalChar(c: char)
  {
    IsAsciiLetter(c) || IsAsciiDigit(c) || c == '.' || c == '_' || c == '%' || c == '+' || c == '-'
  }

  /** `[a-zA-Z0-9.-]`: a character allowed between the `@` and the final dot. */
  predicate IsDomainChar(c: char)
  {
    IsAsciiLetter(c) || IsAsciiDigit(c) || c == '.' || c == '-'
  }

  predicate AllOf(s: string, p: char -> bool)
  {
    forall k :: 0 <= k < |s| ==> p(s[k])
  }

  /**
   * The whole of `w` is `[a-zA-Z0-9._%+-]+@[a-zA-Z0-9.-]+\.[a-zA-Z]{2,}`:
   * `i` is the `@`, `j` the dot before a top-level label of two or more
   * letters.
   */
  predicate EmailBody(w: string)
  {
    exists i, j :: 0 < i && i + 1 < j && j + 3 <= |w| && w[i] == '@' && w[j] == '.'
      && AllOf(w[..i], IsLocalChar) && AllOf(w[i + 1..j], IsDomainChar)
      && AllOf(w[j + 1..], IsAsciiLetter)
  }

  /**
   * `re.match` anchors the pattern at the start; Python's `$` matches at
   * the very end or just before one final newline, so a single trailing
   * `"\n"` is accepted too.
   */
  predicate ValidateEmail(email: string)
  {
    EmailBody(email)
    || (|email| > 0 && email[|email| - 1] == '\n' && EmailBody(email[..|email| - 1]))
  }

  /** A server-accepted body ends in a letter of its top-level label. */
  lemma BodyEndsInLetter(w: string)
    requires EmailBody(w)
    ensures |w| >= 6 && IsAsciiLetter(w[|w| - 1])
  {
    var i, j :| 0 < i && i + 1 < j && j + 3 <= |w| && w[i] == '@' && w[j] == '.'
      && AllOf(w[..i], IsLocalChar) && AllOf(w[i + 1..j], IsDomainChar)
      && AllOf(w[j + 1..], IsAsciiLetter);
    assert w[j + 1..][|w| - j - 2] == w[|w| - 1];
  }

  /**
   * Python's `$` also matches before a final newline: an address followed
   * by one `"\n"` is accepted exactly when the address itself is.
   */
  lemma TrailingNewlineAccepted(w: string)
    ensures ValidateEmail(w + "\n") <==> EmailBody(w)
  {
    var v := w + "\n";
    assert v[..|v| - 1] == w;
    if EmailBody(v) {
      BodyEndsInLetter(v);
    }
  }

  /**
   * The server's pattern is stricter than the browser's: an address that
   * matches it in full, without the trailing newline `$` also lets through,
   * matches the browser's pattern too.
   */
  lemma ServerEmailPassesForm(w: string)
    requires EmailBody(w)
    ensures Contact.EmailRegex(w)
  {
    var i, j :| 0 < i && i + 1 < j && j + 3 <= |w| && w[i] == '@' && w[j] == '.'
      && AllOf(w[..i], IsLocalChar) && AllOf(w[i + 1..j], IsDomainChar)
      && AllOf(w[j + 1..], IsAsciiLetter);
    forall k | 0 <= k < |w| && k != i && k != j
      ensures Contact.IsPlainChar(w[k])
    {
      if k < i {
        assert IsLocalChar(w[..i][k]);
      } else if k < j {
        assert IsDomainChar(w[i + 1..j][k - i - 1]);
      } else {
        assert IsAsciiLetter(w[j + 1..][k - j - 1]);
      }
    }
    assert Contact.Plain(w[..i]) && Contact.Plain(w[i + 1..j]) && Contact.Plain(w[j + 1..]);
  }

  /** A server-accepted body neither starts nor ends with whitespace. */
  lemma BodyUntrimmed(w: string)
    requires EmailBody(w)
    ensures w != [] && !Text.IsJsSpace(w[0]) && !Text.IsJsSpace(w[|w| - 1])
  {
    var i, j :| 0 < i && i + 1 < j && j + 3 <= |w| && w[i] == '@' && w[j] == '.'
      && AllOf(w[..i], IsLocalChar) && AllOf(w[i + 1..j], IsDomainChar)
      && AllOf(w[j + 1..], IsAsciiLetter);
    assert IsLocalChar(w[..i][0]);
    BodyEndsInLetter(w);
  }

  /**
   * Every value the server's check accepts, a trailing newline included,
   * matches the browser's pattern once trimmed.
   */
  lemma ServerEmailTrimmed(w: string)
    requires ValidateEmail(w)
    ensures Contact.EmailRegex(Text.Trim(w, Text.IsJsSpace))
  {
    if EmailBody(w) {
      BodyUntrimmed(w);
      Text.TrimUnchanged(w, Text.IsJsSpace);
      ServerEmailPassesForm(w);
    } else {
      var body := w[..|w| - 1];
      assert w == body + ['\n'];
      BodyUntrimmed(body);
      Text.TrimDropsTrailingSpace(body, '\n', Text.IsJsSpace);
      ServerEmailPassesForm(body);
    }
  }

  /** So every value the server's check accepts passes the form's e-mail rule. */
  lemma ServerEmailPassesFormRule(values: map<string, string>)
    requires "email" in values && ValidateEmail(values["email"])
    ensures Contact.Outcome(values, "email").None?
  {
    ServerEmailTrimmed(values["email"]);
    Contact.EmailRule(values);
  }

  /** The converse fails: a one-letter top-level label passes the form and is refused here. */
  lemma FormEmailNotServerEmail()
    ensures Contact.EmailRegex("a@b.c") && !ValidateEmail("a@b.c")
  {
    var v := "a@b.c";
    assert v[..1] == "a" && v[2..3] == "b" && v[4..] == "c";
    assert Contact.IsPlainChar('a') && Contact.IsPlainChar('b') && Contact.IsPlainChar('c');
    assert 0 < 1 && 1 + 1 < 3 && 3 + 1 < |v| && v[1] == '@' && v[3] == '.'
      && Contact.Plain(v[..1]) && Contact.Plain(v[1 + 1..3]) && Contact.Plain(v[3 + 1..]);
  }

  // ---------------------------------------------------------------------
  // sanitize_input
  // ---------------------------------------------------------------------

  predicate IsCloseChar(c: char)
  {
    c == '>'
  }

  /** No `>` anywhere in `s`. */
  predicate NoClose(s: string)
  {
    forall k :: 0 <= k < |s| ==> s[k] != '>'
  }

  /** No `<` is followed, anywhere later, by a `>`: nothing that looks like a tag is left. */
  predicate NoTag(s: string)
  {
    forall i, j :: 0 <= i < j < |s| && s[i] == '<' ==> s[j] != '>'
  }

  lemma NoTagSlice(s: string, a: nat, b: nat)
    requires NoTag(s) && a <= b <= |s|
    ensures NoTag(s[a..b])
  {
    forall i, j | 0 <= i < j < b - a && s[a..b][i] == '<'
      ensures s[a..b][j] != '>'
    {
      assert s[a + i] == '<' && s[a..b][j] == s[a + j];
    }
  }

  lemma NoTagTail(s: string)
    requires NoTag(s) && s != [] && s[0] == '<'
    ensures NoClose(s[1..])
  {
    forall k | 0 <= k < |s| - 1 ensures s[1..][k] != '>' {
      assert s[1..][k] == s[k + 1];
    }
  }

  /**
   * `re.sub(r'<[^>]*>', '', s)`: scanning left to right, a `<` that has a
   * `>` somewhere after it is deleted together with everything up to and
   * including the first such `>`; any other character is kept.
   */
  function StripTags(s: string): (r: string)
    ensures |r| <= |s|
    ensures NoClose(s) ==> NoClose(r)
    ensures NoTag(r)
    decreases |s|
  {
    if s == [] then []
    else if s[0] == '<' then
      match Seqs.FindIndex(s[1..], IsCloseChar)
      case Some(k) =>
        var rest := StripTags(s[1..][k + 1..]);
        assert !NoClose(s) by { assert s[k + 1] == s[1..][k]; }
        rest
      case None =>
        assert NoClose(s[1..]);
        [s[0]] + StripTags(s[1..])
    else
      assert NoClose(s) ==> NoClose(s[1..]) by {
        if NoClose(s) {
          forall k | 0 <= k < |s| - 1 ensures s[1..][k] != '>' { assert s[1..][k] == s[k + 1]; }
        }
      }
      [s[0]] + StripTags(s[1..])
  }

  /** A string with no tag left is its own tag-stripped form. */
  lemma {:induction false} StripTagsKeepsTagless(s: string)
    requires NoTag(s)
    ensures StripTags(s) == s
    decreases |s|
  {
    if s != [] {
      NoTagSlice(s, 1, |s|);
      StripTagsKeepsTagless(s[1..]);
      if s[0] == '<' {
        NoTagTail(s);
        assert Seqs.FindIndex(s[1..], IsCloseChar).None?;
      }
    }
  }

  /** Removing tags twice is removing them once. */
  lemma StripTagsIdempotent(s: string)
    ensures StripTags(StripTags(s)) == StripTags(s)
  {
    StripTagsKeepsTagless(StripTags(s));
  }

  const Scheme := "javascript:"

  /** The eleven characters at the front of `s` spell `javascript:` in any ASCII case. */
  predicate SchemeAt(s: string)
  {
    |s| >= |Scheme| && Text.Lower(s[..|Scheme|]) == Scheme
  }

  /**
   * `re.sub(r'javascript:', '', s, flags=re.IGNORECASE)`: one left-to-right
   * pass that deletes each non-overlapping occurrence.
   */
  function RemoveScheme(s: string): (r: string)
    ensures |r| <= |s|
    ensures NoClose(s) ==> NoClose(r)
    ensures NoTag(s) ==> NoTag(r)
    decreases |s|
  {
    if SchemeAt(s) then
      var rest := RemoveScheme(s[|Scheme|..]);
      assert NoTag(s) ==> NoTag(s[|Scheme|..]) by {
        if NoTag(s) { NoTagSlice(s, |Scheme|, |s|); }
      }
      assert NoClose(s) ==> NoClose(s[|Scheme|..]) by {
        if NoClose(s) {
          forall k | 0 <= k < |s| - |Scheme| ensures s[|Scheme|..][k] != '>' {
            assert s[|Scheme|..][k] == s[k + |Scheme|];
          }
        }
      }
      rest
    else if s == [] then []
    else
      var rest := RemoveScheme(s[1..]);
      assert NoTag(s) ==> NoTag(s[1..]) by {
        if NoTag(s) { NoTagSlice(s, 1, |s|); }
      }
      assert NoClose(s) ==> NoClose(s[1..]) by {
        if NoClose(s) {
          forall k | 0 <= k < |s| - 1 ensures s[1..][k] != '>' { assert s[1..][k] == s[k + 1]; }
        }
      }
      assert NoTag(s) && s[0] == '<' ==> NoClose(rest) by {
        if NoTag(s) && s[0] == '<' { NoTagTail(s); }
      }
      [s[0]] + rest
  }

  /** A string too short to hold the scheme passes through unchanged. */
  lemma {:induction false} RemoveSchemeShort(s: string)
    requires |s| < |Scheme|
    ensures RemoveScheme(s) == s
    decreases |s|
  {
    if s != [] {
      RemoveSchemeShort(s[1..]);
    }
  }

  /** Python's `s[:n]`, where a negative `n` counts from the end. */
  function PyPrefix(s: string, n: int): (r: string)
    ensures |r| <= |s| && r == s[..|r|]
    ensures n >= 0 ==> |r| == if n <= |s| then n else |s|
    ensures n < 0 ==> |r| == if |s| + n >= 0 then |s| + n else 0
  {
    if n >= 0 then s[..if n <= |s| then n else |s|]
    else s[..if |s| + n >= 0 then |s| + n else 0]
  }

  /** No whitespace, in Python's sense, at either end. */
  predicate EdgesTrimmed(r: string)
  {
    r == [] || (!Text.IsPySpace(r[0]) && !Text.IsPySpace(r[|r| - 1]))
  }

  lemma TrimKeepsNoTag(t: string)
    requires NoTag(t)
    ensures NoTag(Text.Trim(t, Text.IsPySpace))
  {
    var i := Text.TrimOffset(t, Text.IsPySpace);
    NoTagSlice(t, i, i + |Text.Trim(t, Text.IsPySpace)|);
  }

  /** Tags removed, the scheme removed, edge whitespace removed: everything but the length cap. */
  function Cleaned(text: string): (r: string)
    ensures |r| <= |text|
    ensures NoTag(r)
    ensures EdgesTrimmed(r)
  {
    var t := RemoveScheme(StripTags(text));
    TrimKeepsNoTag(t);
    Text.Trim(t, Text.IsPySpace)
  }

  /**
   * `sanitize_input(text, max_length)`: `None` stands for Python's `None`
   * in both places; a `max_length` of 0 is falsy too and disables the cap.
   */
  function SanitizeInput(text: Option<string>, maxLength: Option<int>): (r: string)
    ensures text.None? || text == Some([]) ==> r == []
    ensures NoTag(r)
  {
    if text.None? || text.value == [] then []
    else
      var t := Cleaned(text.value);
      if maxLength.Some? && maxLength.value != 0 && |t| > maxLength.value then
        var r := PyPrefix(t, maxLength.value);
        NoTagSlice(t, 0, |r|);
        r
      else t
  }

  /** A positive cap bounds the length; no cap (or a cap of 0) leaves the cleaned text whole. */
  lemma SanitizeLength(text: string, maxLength: Option<int>)
    ensures maxLength.Some? && maxLength.value > 0 ==> |SanitizeInput(Some(text), maxLength)| <= maxLength.value
    ensures maxLength.None? || maxLength == Some(0) ==> SanitizeInput(Some(text), maxLength) == Cleaned(text)
  {
  }

  /** Unless the cap cut it short, the result has no whitespace at either end. */
  lemma SanitizeTrimmed(text: string, maxLength: Option<int>)
    requires maxLength.None? || maxLength.value == 0 || |Cleaned(text)| <= maxLength.value
    ensures EdgesTrimmed(SanitizeInput(Some(text), maxLength))
  {
  }

  /** A positive cap shorter than the cleaned text keeps exactly its first `n` characters. */
  lemma SanitizeCut(text: string, n: nat)
    requires text != [] && 0 < n < |Cleaned(text)|
    ensures SanitizeInput(Some(text), Some(n)) == Cleaned(text)[..n]
  {
  }

  /** Text with nothing to clean is only cut by the cap. */
  lemma CleanTextTruncated(s: string, n: nat)
    requires s != [] && |s| < |Scheme| && NoTag(s) && EdgesTrimmed(s)
    requires 0 < n < |s|
    ensures SanitizeInput(Some(s), Some(n)) == s[..n]
  {
    StripTagsKeepsTagless(s);
    RemoveSchemeShort(s);
    Text.TrimUnchanged(s, Text.IsPySpace);
    assert Cleaned(s) == s;
    SanitizeCut(s, n);
  }

  /** The cap applies after trimming, so a cut can end on whitespace. */
  lemma TruncationMayEndInSpace()
    ensures SanitizeInput(Some("a b"), Some(2)) == "a "
  {
    var s := "a b";
    assert NoTag(s) && EdgesTrimmed(s);
    CleanTextTruncated(s, 2);
  }

  /** A value made only of a tag passes the required-field test and is stored empty. */
  lemma TagOnlyBecomesEmpty()
    ensures SanitizeInput(Some("<b>"), Some(100)) == []
  {
    var s := "<b>";
    assert Seqs.FindIndex(s[1..], IsCloseChar) == Some(1);
    assert StripTags(s) == [];
    assert RemoveScheme([]) == [];
  }

  // ---------------------------------------------------------------------
  // handle_contact_form
  // ---------------------------------------------------------------------

  /** A decoded JSON body; numbers are integers in this model. */
  datatype Json =
    | JNull
    | JBool(b: bool)
    | JNum(n: int)
    | JStr(s: string)
    | JArr(items: seq<Json>)
    | JObj(fields: map<string, Json>)

  /** Python truthiness of the decoded value. */
  predicate Truthy(j: Json)
  {
    match j
    case JNull => false
    case JBool(b) => b
    case JNum(n) => n != 0
    case JStr(s) => s != []
    case JArr(items) => items != []
    case JObj(fields) => fields != map[]
  }

  /** `data.get(key, default)`. */
  function Get(fields: map<string, Json>, key: string, default: Json): (r: Json)
    ensures key !in fields ==> r == default
  {
    if key in fields then fields[key] else default
  }

  /**
   * `sanitize_input(v, cap)` on a JSON value: a falsy value of any type
   * becomes `""`; a truthy value that is not a string makes `re.sub`
   * raise, shown as `None`.
   */
  function SanitizeValue(v: Json, cap: nat): (r: Option<string>)
    ensures r.None? <==> Truthy(v) && !v.JStr?
    ensures r.Some? && cap > 0 ==> |r.value| <= cap
  {
    if !Truthy(v) then Some([])
    else if v.JStr? then
      SanitizeLength(v.s, Some(cap));
      Some(SanitizeInput(Some(v.s), Some(cap)))
    else None
  }

  /** The row the handler stores when every check passes. */
  datatype Record = Record(
    name: string, email: string, company: string, projectType: string,
    budget: string, timeline: string, message: string, newsletter: bool)

  datatype Reply =
    | Rejected(message: string)   // 400 with `success: false`
    | Failed                      // 500: an exception escaped into the catch-all
    | Accepted(record: Record)    // the submission goes on to storage and mail

  const RequiredFields := ["name", "email", "message"]

  /** `field.title()` for the three required field names. */
  function Title(field: string): string
  {
    if field == "name" then "Name" else if field == "email" then "Email"
    else if field == "message" then "Message" else field
  }

  function RequiredMessage(field: string): string
  {
    Title(field) + " is required"
  }

  /** The request keys whose values go through `sanitize_input`. */
  const SanitizedKeys := {"name", "email", "company", "projectType", "budget", "timeline", "message"}

  const NameCap := 100
  const EmailCap := 255
  const CompanyCap := 100
  const ProjectTypeCap := 50
  const BudgetCap := 50
  const TimelineCap := 50
  const MessageCap := 2000

  /** The first required field whose value is absent or falsy. */
  function FirstMissing(fields: map<string, Json>): (r: Option<string>)
    ensures r == Some("name") <==> !Truthy(Get(fields, "name", JNull))
    ensures r == Some("email") <==> Truthy(Get(fields, "name", JNull)) && !Truthy(Get(fields, "email", JNull))
    ensures r == Some("message") <==>
              Truthy(Get(fields, "name", JNull)) && Truthy(Get(fields, "email", JNull))
              && !Truthy(Get(fields, "message", JNull))
    ensures r.Some? ==> r.value in RequiredFields
    ensures r.None? ==> forall f :: f in RequiredFields ==> f in fields && Truthy(fields[f])
  {
    if !Truthy(Get(fields, "name", JNull)) then Some("name")
    else if !Truthy(Get(fields, "email", JNull)) then Some("email")
    else if !Truthy(Get(fields, "message", JNull)) then Some("message")
    else None
  }

  /** The stored fields that are sanitised, with the key each is read from and its cap. */
  predicate WithinCaps(rec: Record)
  {
    && |rec.name| <= NameCap && |rec.email| <= EmailCap && |rec.company| <= CompanyCap
    && |rec.projectType| <= ProjectTypeCap && |rec.budget| <= BudgetCap
    && |rec.timeline| <= TimelineCap && |rec.message| <= MessageCap
  }

  /**
   * Sanitise every stored field with its cap; `None` when one of them
   * raises because a truthy value is not a string.
   */
  function BuildRecord(fields: map<string, Json>): (r: Option<Record>)
    ensures r.None? <==> exists key :: key in fields && key in SanitizedKeys
                                       && Truthy(fields[key]) && !fields[key].JStr?
    ensures r.Some? ==> WithinCaps(r.value)
    ensures r.Some? ==> r.value.newsletter == Truthy(Get(fields, "newsletter", JBool(false)))
  {
    var name := SanitizeValue(Get(fields, "name", JNull), NameCap);
    var email := SanitizeValue(Get(fields, "email", JNull), EmailCap);
    var company := SanitizeValue(Get(fields, "company", JStr([])), CompanyCap);
    var projectType := SanitizeValue(Get(fields, "projectType", JStr([])), ProjectTypeCap);
    var budget := SanitizeValue(Get(fields, "budget", JStr([])), BudgetCap);
    var timeline := SanitizeValue(Get(fields, "timeline", JStr([])), TimelineCap);
    var message := SanitizeValue(Get(fields, "message", JNull), MessageCap);
    if name.None? || email.None? || company.None? || projectType.None?
      || budget.None? || timeline.None? || message.None? then None
    else
      Some(Record(name.value, email.value, company.value, projectType.value,
        budget.value, timeline.value, message.value,
        Truthy(Get(fields, "newsletter", JBool(false)))))
  }

  /**
   * The decisions of the contact handler up to storage: no body, then the
   * first missing required field, then the e-mail format, then
   * sanitising. A non-object body or a non-string value where a string is
   * needed raises, and the catch-all answers 500.
   */
  function HandleContactForm(data: Json): (r: Reply)
  {
    if !Truthy(data) then Rejected("No data provided")
    else if !data.JObj? then Failed
    else
      var fields := data.fields;
      match FirstMissing(fields)
      case Some(f) => Rejected(RequiredMessage(f))
      case None =>
        var email := fields["email"];
        if !email.JStr? then Failed
        else if !ValidateEmail(email.s) then Rejected("Invalid email address format")
        else match BuildRecord(fields)
          case None => Failed
          case Some(rec) => Accepted(rec)
  }

  /** An empty or falsy body is refused before anything else is looked at. */
  lemma NoDataFirst(data: Json)
    ensures !Truthy(data) <==> HandleContactForm(data) == Rejected("No data provided")
  {
    var r := HandleContactForm(data);
    if Truthy(data) && r.Rejected? {
      var m := "No data provided";
      assert RequiredMessage("name")[1] != m[1];
      assert |RequiredMessage("email")| != |m| && |RequiredMessage("message")| != |m|;
      assert |"Invalid email address format"| != |m|;
    }
  }

  /**
   * For an object body, "<Field> is required" names exactly the first of
   * name, email, message that is absent or falsy, and no later check can
   * produce one of those messages.
   */
  lemma RequiredInOrder(fields: map<string, Json>)
    requires fields != map[]
    ensures FirstMissing(fields).Some? ==>
              HandleContactForm(JObj(fields)) == Rejected(RequiredMessage(FirstMissing(fields).value))
    ensures FirstMissing(fields).None? ==>
              forall f :: f in RequiredFields ==> HandleContactForm(JObj(fields)) != Rejected(RequiredMessage(f))
  {
    assert Truthy(JObj(fields));
    if FirstMissing(fields).None? {
      var r := HandleContactForm(JObj(fields));
      assert r.Failed? || r.Accepted? || |r.message| == 28;
      assert forall f :: f in RequiredFields ==> |RequiredMessage(f)| < 20;
    }
  }

  /** With all three present, a string e-mail outside the format is refused on format. */
  lemma FormatCheckedAfterRequired(fields: map<string, Json>)
    requires forall f :: f in RequiredFields ==> f in fields && Truthy(fields[f])
    requires fields["email"].JStr?
    ensures HandleContactForm(JObj(fields)) == Rejected("Invalid email address format")
            <==> !ValidateEmail(fields["email"].s)
  {
    assert "name" in fields;
  }

  /**
   * What an accepted submission guarantees: all three required values
   * were non-empty strings, the e-mail passed the format test, every
   * stored field is within its cap, and the required ones are the
   * sanitised request values.
   */
  lemma AcceptedSpec(data: Json)
    requires HandleContactForm(data).Accepted?
    ensures data.JObj?
    ensures forall f :: f in RequiredFields ==> f in data.fields && data.fields[f].JStr? && data.fields[f].s != []
    ensures ValidateEmail(data.fields["email"].s)
    ensures WithinCaps(HandleContactForm(data).record)
    ensures var rec := HandleContactForm(data).record;
      && rec.name == SanitizeInput(Some(data.fields["name"].s), Some(NameCap))
      && rec.email == SanitizeInput(Some(data.fields["email"].s), Some(EmailCap))
      && rec.message == SanitizeInput(Some(data.fields["message"].s), Some(MessageCap))
  {
    var fields := data.fields;
    assert "name" in RequiredFields && "email" in RequiredFields && "message" in RequiredFields;
    assert "name" in SanitizedKeys && "message" in SanitizedKeys;
  }

  /**
   * The converse: an object body whose three required values are non-empty
   * strings, whose e-mail passes the format test and which holds no truthy
   * non-string under a sanitised key is accepted, with the record
   * `BuildRecord` makes of it.
   */
  lemma AcceptedWhenValid(fields: map<string, Json>)
    requires forall f :: f in RequiredFields ==> f in fields && fields[f].JStr? && fields[f].s != []
    requires ValidateEmail(fields["email"].s)
    requires forall key :: key in fields && key in SanitizedKeys && Truthy(fields[key]) ==> fields[key].JStr?
    ensures BuildRecord(fields).Some?
    ensures HandleContactForm(JObj(fields)) == Accepted(BuildRecord(fields).value)
  {
    assert "name" in RequiredFields && "email" in RequiredFields && "message" in RequiredFields;
    assert Truthy(JObj(fields)) by {
      assert "name" in fields;
    }
  }
}
