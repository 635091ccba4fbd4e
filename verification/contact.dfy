/**
 * The contact form of the portfolio (js/contact.js): a table of validation
 * rules, per-field and whole-form validation into an error map, the
 * re-entry guard around submission, the budget/project-type suggestions,
 * the submission log kept in local storage and its top-3 statistics.
 */
module Contact {
  import opened Wrappers
  import Seqs
  import Text
  import Tallies

  // ---------------------------------------------------------------------------
  // Validation rules
  // ---------------------------------------------------------------------------

  datatype Pattern = NoPattern | LettersAndSpaces | EmailAddress

  /**
   * One entry of `validationRules`. A bound of 0 stands for an absent
   * `minLength`/`maxLength`: the source tests the bound for truthiness first,
   * so an absent bound and 0 behave alike.
   */
  datatype Rule = Rule(required: bool, minLength: nat, maxLength: nat, pattern: Pattern, message: string)

  /** The rule fields in the order `Object.keys(validationRules)` lists them. */
  const RuleFields: seq<string> := ["name", "email", "company", "projectType", "budget", "timeline", "message"]

  /** `validationRules[field]`; the form has rules for exactly the seven rule fields. */
  function RuleFor(field: string): (r: Option<Rule>)
    ensures r.Some? <==> field in RuleFields
  {
    if field == "name" then
      Some(Rule(true, 2, 50, LettersAndSpaces, "Please enter a valid name (2-50 characters, letters only)"))
    else if field == "email" then
      Some(Rule(true, 0, 0, EmailAddress, "Please enter a valid email address"))
    else if field == "company" then
      Some(Rule(false, 0, 100, NoPattern, "Company name must be less than 100 characters"))
    else if field == "projectType" then
      Some(Rule(false, 0, 0, NoPattern, "Please select a project type"))
    else if field == "budget" then
      Some(Rule(false, 0, 0, NoPattern, "Please select a budget range"))
    else if field == "timeline" then
      Some(Rule(false, 0, 0, NoPattern, "Please select a timeline"))
    else if field == "message" then
      Some(Rule(true, 10, 1000, NoPattern, "Please enter a message (10-1000 characters)"))
    else None
  }

  /** `getFieldLabel`: the display label of a rule field; any other name is its own label. */
  function GetFieldLabel(field: string): (r: string)
    ensures field !in RuleFields ==> r == field
    ensures field in RuleFields ==> r != [] && 'A' <= r[0] <= 'Z'
  {
    if field == "name" then "Name"
    else if field == "email" then "Email"
    else if field == "company" then "Company"
    else if field == "projectType" then "Project Type"
    else if field == "budget" then "Budget"
    else if field == "timeline" then "Timeline"
    else if field == "message" then "Message"
    else field
  }

  /** Distinct rule fields have distinct labels, so every error message names its field. */
  lemma LabelsDistinct(f: string, g: string)
    requires f in RuleFields && g in RuleFields && f != g
    ensures GetFieldLabel(f) != GetFieldLabel(g)
  {
  }

  predicate IsAsciiLetter(c: char)
  {
    'a' <= c <= 'z' || 'A' <= c <= 'Z'
  }

  /** `[^\s@]`: neither whitespace nor `@`. */
  predicate IsPlainChar(c: char)
  {
    c != '@' && !Text.IsJsSpace(c)
  }

  predicate Plain(s: string)
  {
    forall i :: 0 <= i < |s| ==> IsPlainChar(s[i])
  }

  /** `/^[a-zA-Z\s]+$/.test(v)` */
  predicate NameRegex(v: string)
  {
    v != [] && forall i :: 0 <= i < |v| ==> IsAsciiLetter(v[i]) || Text.IsJsSpace(v[i])
  }

  /**
   * `/^[^\s@]+@[^\s@]+\.[^\s@]+$/.test(v)`, read as the split the regex
   * makes: a plain part, `@`, a plain part, `.`, a plain part.
   */
  predicate EmailRegex(v: string)
  {
    exists i, j :: 0 < i && i + 1 < j && j + 1 < |v| && v[i] == '@' && v[j] == '.'
      && Plain(v[..i]) && Plain(v[i + 1..j]) && Plain(v[j + 1..])
  }

  /** A `.` strictly inside `d`, with at least one character on each side. */
  predicate InnerDot(d: string)
  {
    exists j :: 0 < j < |d| - 1 && d[j] == '.'
  }

  lemma PlainSlice(s: string, a: int, b: int)
    requires Plain(s) && 0 <= a <= b <= |s|
    ensures Plain(s[a..b])
  {
    forall k | 0 <= k < b - a ensures IsPlainChar(s[a..b][k]) {
      assert s[a..b][k] == s[a + k];
    }
  }

  lemma PlainJoin(x: string, c: char, y: string)
    requires Plain(x) && IsPlainChar(c) && Plain(y)
    ensures Plain(x + [c] + y)
  {
    var s := x + [c] + y;
    forall k | 0 <= k < |s| ensures IsPlainChar(s[k]) {
      if k < |x| {
        assert s[k] == x[k];
      } else if k > |x| {
        assert s[k] == y[k - |x| - 1];
      }
    }
  }

  /** The part after the `@` in the plain-words reading of the email pattern. */
  predicate EmailShapeAt(v: string, i: int)
  {
    0 < i < |v| && v[i] == '@' && Plain(v[..i]) && Plain(v[i + 1..]) && InnerDot(v[i + 1..])
  }

  lemma EmailRegexToShape(v: string, i: int, j: int)
    requires 0 < i && i + 1 < j && j + 1 < |v| && v[i] == '@' && v[j] == '.'
    requires Plain(v[..i]) && Plain(v[i + 1..j]) && Plain(v[j + 1..])
    ensures EmailShapeAt(v, i)
  {
    var d := v[i + 1..];
    assert d == v[i + 1..j] + [v[j]] + v[j + 1..];
    PlainJoin(v[i + 1..j], v[j], v[j + 1..]);
    assert d[j - i - 1] == '.';
  }

  lemma EmailShapeToRegex(v: string, i: int) returns (j: int)
    requires EmailShapeAt(v, i)
    ensures 0 < i && i + 1 < j && j + 1 < |v| && v[i] == '@' && v[j] == '.'
    ensures Plain(v[..i]) && Plain(v[i + 1..j]) && Plain(v[j + 1..])
  {
    var d := v[i + 1..];
    var k :| 0 < k < |d| - 1 && d[k] == '.';
    j := i + 1 + k;
    assert v[i + 1..j] == d[..k];
    assert v[j + 1..] == d[k + 1..];
    PlainSlice(d, 0, k);
    PlainSlice(d, k + 1, |d|);
  }

  /**
   * The email pattern in plain words: a single `@` with a non-empty part
   * before it, no whitespace anywhere, and a dot strictly inside the part
   * after it (the regex's plain parts may themselves contain dots).
   */
  lemma EmailRegexShape(v: string)
    ensures EmailRegex(v) <==> exists i :: EmailShapeAt(v, i)
  {
    if EmailRegex(v) {
      var i, j :| 0 < i && i + 1 < j && j + 1 < |v| && v[i] == '@' && v[j] == '.'
        && Plain(v[..i]) && Plain(v[i + 1..j]) && Plain(v[j + 1..]);
      EmailRegexToShape(v, i, j);
    }
    if exists i :: EmailShapeAt(v, i) {
      var i :| EmailShapeAt(v, i);
      var j := EmailShapeToRegex(v, i);
    }
  }

  /** The `@` of a matching address is its only one: every other character is plain. */
  lemma EmailSingleAt(v: string, i: int)
    requires EmailShapeAt(v, i)
    ensures forall k :: 0 <= k < |v| && k != i ==> v[k] != '@'
  {
    forall k | 0 <= k < |v| && k != i ensures v[k] != '@' {
      if k < i {
        assert v[k] == v[..i][k];
      } else {
        assert v[k] == v[i + 1..][k - i - 1];
      }
    }
  }

  function MatchesPattern(p: Pattern, v: string): bool
  {
    match p
    case NoPattern => true
    case LettersAndSpaces => NameRegex(v)
    case EmailAddress => EmailRegex(v)
  }

  /**
   * The checks of `validateField` on a trimmed value: None when it passes,
   * otherwise the message the source leaves in `errorMessage` (the last
   * failing check overwrites the earlier ones).
   */
  function Check(rule: Rule, caption: string, value: string): Option<string>
  {
    if rule.required && value == [] then Some(caption + " is required")
    else if value == [] then None
    else
      var afterMin :=
        if rule.minLength > 0 && Text.JsLength(value) < rule.minLength
        then Some(caption + " must be at least " + Text.NatToString(rule.minLength) + " characters")
        else None;
      var afterMax :=
        if rule.maxLength > 0 && Text.JsLength(value) > rule.maxLength
        then Some(caption + " must be less than " + Text.NatToString(rule.maxLength) + " characters")
        else afterMin;
      if !MatchesPattern(rule.pattern, value) then Some(rule.message) else afterMax
  }

  /** An empty value fails exactly when the field is required, with the "is required" message. */
  lemma CheckEmpty(rule: Rule, caption: string)
    ensures Check(rule, caption, []) == if rule.required then Some(caption + " is required") else None
  {
  }

  /** A non-empty value passes exactly when it is within both bounds and matches the pattern. */
  lemma CheckValidIff(rule: Rule, caption: string, value: string)
    requires value != []
    ensures Check(rule, caption, value).None? <==>
      (rule.minLength == 0 || Text.JsLength(value) >= rule.minLength)
      && (rule.maxLength == 0 || Text.JsLength(value) <= rule.maxLength)
      && MatchesPattern(rule.pattern, value)
  {
  }

  /** A pattern failure reports the rule's own message, whatever the length checks said. */
  lemma PatternWins(rule: Rule, caption: string, value: string)
    requires value != [] && !MatchesPattern(rule.pattern, value)
    ensures Check(rule, caption, value) == Some(rule.message)
  {
  }

  /** When both bounds fail only the maximum is reported, the later check overwriting the earlier. */
  lemma MaxOverridesMin(rule: Rule, caption: string, value: string)
    requires value != [] && MatchesPattern(rule.pattern, value)
    requires rule.maxLength > 0 && Text.JsLength(value) > rule.maxLength
    ensures Check(rule, caption, value) == Some(caption + " must be less than " + Text.NatToString(rule.maxLength) + " characters")
  {
  }

  function Trimmed(raw: string): string
  {
    Text.Trim(raw, Text.IsJsSpace)
  }

  /**
   * What `validateField(field)` decides for the current field values: None
   * for valid (including a field with no element or no rule), otherwise the
   * error message.
   */
  function Outcome(values: map<string, string>, field: string): Option<string>
  {
    if field in values && RuleFor(field).Some?
    then Check(RuleFor(field).value, GetFieldLabel(field), Trimmed(values[field]))
    else None
  }

  /** A field without an element or without a rule is always valid. */
  lemma MissingFieldValid(values: map<string, string>, field: string)
    requires field !in values || field !in RuleFields
    ensures Outcome(values, field) == None
  {
  }

  /** A required field whose trimmed value is empty fails with "<Label> is required". */
  lemma RequiredBlankFails(values: map<string, string>, field: string)
    requires field in values && field in ["name", "email", "message"]
    requires Text.AllSpace(values[field], Text.IsJsSpace)
    ensures Outcome(values, field) == Some(GetFieldLabel(field) + " is required")
  {
    Text.TrimEmptyIff(values[field], Text.IsJsSpace);
  }

  /** A value the name pattern accepts holds no astral character, so its `length` is its size. */
  lemma NameLength(v: string)
    ensures NameRegex(v) ==> Text.JsLength(v) == |v|
  {
    if NameRegex(v) {
      forall i | 0 <= i < |v| ensures !Text.IsAstral(v[i]) {
        assert IsAsciiLetter(v[i]) || Text.IsJsSpace(v[i]);
      }
      Text.JsLengthPlain(v);
    }
  }

  /** The name rule: 2 to 50 characters after trimming, letters and whitespace only. */
  lemma NameRule(values: map<string, string>)
    requires "name" in values
    ensures Outcome(values, "name").None? <==>
      var v := Trimmed(values["name"]);
      2 <= |v| <= 50 && forall i :: 0 <= i < |v| ==> IsAsciiLetter(v[i]) || Text.IsJsSpace(v[i])
  {
    var v := Trimmed(values["name"]);
    if v != [] {
      CheckValidIff(RuleFor("name").value, "Name", v);
      NameLength(v);
    }
  }

  /** The email rule: the trimmed value matches the email pattern. */
  lemma EmailRule(values: map<string, string>)
    requires "email" in values
    ensures Outcome(values, "email").None? <==> EmailRegex(Trimmed(values["email"]))
  {
    var v := Trimmed(values["email"]);
    if v != [] { CheckValidIff(RuleFor("email").value, "Email", v); }
  }

  /** The company rule: optional, at most 100 UTF-16 units after trimming. */
  lemma CompanyRule(values: map<string, string>)
    requires "company" in values
    ensures Outcome(values, "company").None? <==> Text.JsLength(Trimmed(values["company"])) <= 100
  {
    var v := Trimmed(values["company"]);
    if v != [] { CheckValidIff(RuleFor("company").value, "Company", v); }
  }

  /** The message rule: 10 to 1000 UTF-16 units after trimming. */
  lemma MessageRule(values: map<string, string>)
    requires "message" in values
    ensures Outcome(values, "message").None? <==> 10 <= Text.JsLength(Trimmed(values["message"])) <= 1000
  {
    var v := Trimmed(values["message"]);
    if v != [] { CheckValidIff(RuleFor("message").value, "Message", v); }
  }

  /**
   * The bounds count UTF-16 units: a message of 5 to 500 characters outside
   * the Basic Multilingual Plane (emoji, say) passes the 10 to 1000 rule.
   */
  lemma AstralMessageRule(values: map<string, string>)
    requires "message" in values && 5 <= |values["message"]| <= 500
    requires forall i :: 0 <= i < |values["message"]| ==> Text.IsAstral(values["message"][i])
    ensures Outcome(values, "message").None?
  {
    var m := values["message"];
    Text.TrimUnchanged(m, Text.IsJsSpace);
    Text.JsLengthAstral(m);
    MessageRule(values);
  }

  /** The three select fields carry no check and always pass. */
  lemma SelectsAlwaysPass(values: map<string, string>, field: string)
    requires field in ["projectType", "budget", "timeline"]
    ensures Outcome(values, field) == None
  {
  }

  /** The error map `validateForm` leaves: one message per failing rule field. */
  function FormErrors(values: map<string, string>, fields: seq<string>): map<string, string>
  {
    map f | f in fields && Outcome(values, f).Some? :: Outcome(values, f).value
  }

  lemma RuleFieldsDistinct()
    ensures forall i, j :: 0 <= i < j < |RuleFields| ==> RuleFields[i] != RuleFields[j]
  {
  }

  /** Validating one more field adds its message when it fails and changes nothing when it passes. */
  lemma FormErrorsStep(values: map<string, string>, fields: seq<string>, f: string)
    requires f !in fields
    ensures f !in FormErrors(values, fields)
    ensures FormErrors(values, fields + [f]) ==
      if Outcome(values, f).Some? then FormErrors(values, fields)[f := Outcome(values, f).value]
      else FormErrors(values, fields)
  {
  }

  /** A rule field does not occur before its own position. */
  lemma RuleFieldFirst(i: nat)
    requires i < |RuleFields|
    ensures RuleFields[i] !in RuleFields[..i]
  {
    RuleFieldsDistinct();
  }

  /**
   * One round of `validateForm`'s loop: `validateField` on the next field
   * extends the error map to one more field, and the map stays empty exactly
   * while every field so far has passed.
   */
  lemma ValidateFormStep(values: map<string, string>, fields: seq<string>, i: nat,
                         before: map<string, string>, after: map<string, string>, valid: bool)
    requires i < |fields| && fields[i] !in fields[..i]
    requires before == FormErrors(values, fields[..i])
    requires valid <==> Outcome(values, fields[i]).None?
    requires fields[i] !in values ==> after == before
    requires fields[i] in values ==>
      after == if valid then before - {fields[i]} else before[fields[i] := Outcome(values, fields[i]).value]
    ensures after == FormErrors(values, fields[..i + 1])
    ensures after == map[] <==> before == map[] && valid
  {
    var f := fields[i];
    assert fields[..i + 1] == fields[..i] + [f];
    FormErrorsStep(values, fields[..i], f);
    if valid {
      assert before - {f} == before;
      assert after == before;
    } else {
      assert f in after;
    }
  }

  /** The error map is empty exactly when every field listed passes. */
  lemma FormErrorsEmpty(values: map<string, string>, fields: seq<string>)
    ensures FormErrors(values, fields) == map[] <==> forall f :: f in fields ==> Outcome(values, f).None?
  {
    if exists f :: f in fields && Outcome(values, f).Some? {
      var f :| f in fields && Outcome(values, f).Some?;
      assert f in FormErrors(values, fields);
    }
  }

  // ---------------------------------------------------------------------------
  // Suggestions
  // ---------------------------------------------------------------------------

  /** The budget-to-timeline table of `suggestTimeline`. */
  function TimelineFor(budget: string): (r: Option<string>)
    ensures r.Some? <==> budget in ["1k-5k", "5k-10k", "10k-25k", "25k+"]
    ensures r.Some? ==> r.value != []
  {
    if budget == "1k-5k" then Some("1-2weeks")
    else if budget == "5k-10k" then Some("1month")
    else if budget == "10k-25k" || budget == "25k+" then Some("2-3months")
    else None
  }

  /** The project-type-to-message table of `suggestMessageTemplate`. */
  function TemplateFor(projectType: string): Option<string>
  {
    if projectType == "backend" then
      Some("I need help with backend development for my project. The requirements include API development, database design, and server architecture.")
    else if projectType == "ai" then
      Some("I'm looking for AI integration services for my application. I need assistance with machine learning implementation and data analysis.")
    else if projectType == "fullstack" then
      Some("I need a full-stack developer to build a complete web application from frontend to backend.")
    else if projectType == "automation" then
      Some("I want to automate some of my business processes. Looking for custom automation solutions.")
    else if projectType == "consultation" then
      Some("I need technical consultation for my project. Looking for expert advice on architecture and best practices.")
    else None
  }

  // ---------------------------------------------------------------------------
  // Submission log and statistics
  // ---------------------------------------------------------------------------

  /** One entry of the `formSubmissions` log; a field the form lacks is None. */
  datatype Submission = Submission(timestamp: string, projectType: Option<string>, budget: Option<string>)

  /** What `getFormData` collects: trimmed text fields, the checkbox and the timestamp. */
  datatype FormData = FormData(fields: map<string, string>, newsletter: bool, timestamp: string)

  const SubmissionLogCap: nat := 10

  /** `trackFormSubmission`'s record of a submission. */
  function SubmissionOf(data: FormData): Submission
  {
    Submission(data.timestamp,
      if "projectType" in data.fields then Some(data.fields["projectType"]) else None,
      if "budget" in data.fields then Some(data.fields["budget"]) else None)
  }

  /** `submissions.slice(-10)` after the push. */
  function LogSubmission(log: seq<Submission>, s: Submission): seq<Submission>
  {
    Seqs.KeepLast(log + [s], SubmissionLogCap)
  }

  /** The log never exceeds 10 entries, ends with the new one and keeps the latest 9 before it. */
  lemma LogSubmissionSpec(log: seq<Submission>, s: Submission)
    ensures |LogSubmission(log, s)| == if |log| < SubmissionLogCap then |log| + 1 else SubmissionLogCap
    ensures LogSubmission(log, s)[|LogSubmission(log, s)| - 1] == s
    ensures LogSubmission(log, s)[..|LogSubmission(log, s)| - 1] == Seqs.KeepLast(log, SubmissionLogCap - 1)
  {
    Seqs.KeepLastAppend(log, s, SubmissionLogCap);
  }

  /** The key `getMostPopularProjectTypes` counts under: a truthy project type. */
  function ProjectTypeKey(s: Submission): Option<string>
  {
    if s.projectType.Some? && s.projectType.value != [] then s.projectType else None
  }

  datatype TypeCount = TypeCount(projectType: string, count: nat)

  function NegCount(e: TypeCount): int
  {
    -(e.count as int)
  }

  /** How many submissions name project type `t`. */
  function Popularity(log: seq<Submission>, t: string): nat
  {
    Tallies.Occurrences(log, ProjectTypeKey, t)
  }

  /** An entry carrying the tallied count of its type. */
  predicate Tallied(e: TypeCount, counts: map<string, nat>)
  {
    e.projectType in counts && e.count == counts[e.projectType]
  }

  /** The `Object.entries(counts)` of a tally, in key order. */
  function Entries(keys: seq<string>, counts: map<string, nat>): (r: seq<TypeCount>)
    requires forall k :: k in keys ==> k in counts
    ensures |r| == |keys|
    ensures forall i :: 0 <= i < |r| ==> r[i].projectType == keys[i] && Tallied(r[i], counts)
    ensures Seqs.Distinct(keys) ==> Seqs.Distinct(r)
  {
    seq(|keys|, i requires 0 <= i < |keys| => TypeCount(keys[i], counts[keys[i]]))
  }

  /** A permutation of the entries of a tally lists every tallied type once, with its count. */
  lemma PermutedEntries(keys: seq<string>, counts: map<string, nat>, sorted: seq<TypeCount>)
    requires Seqs.Distinct(keys) && forall k :: k in counts <==> k in keys
    requires multiset(sorted) == multiset(Entries(keys, counts))
    ensures forall i :: 0 <= i < |sorted| ==> Tallied(sorted[i], counts)
    ensures forall i, j :: 0 <= i < j < |sorted| ==> sorted[i].projectType != sorted[j].projectType
    ensures forall k :: k in counts ==> exists p :: 0 <= p < |sorted| && sorted[p].projectType == k
  {
    var entries := Entries(keys, counts);
    Seqs.DistinctPermutation(entries, sorted);
    forall i | 0 <= i < |sorted| ensures Tallied(sorted[i], counts) {
      assert sorted[i] in multiset(entries);
    }
    forall k | k in counts ensures exists p :: 0 <= p < |sorted| && sorted[p].projectType == k {
      var q :| 0 <= q < |keys| && keys[q] == k;
      assert entries[q] in multiset(sorted);
      var p :| 0 <= p < |sorted| && sorted[p] == entries[q];
    }
  }

  /** The first three entries, or all of them when there are fewer (`slice(0, 3)`). */
  function TopThree(sorted: seq<TypeCount>): (r: seq<TypeCount>)
    ensures |r| <= 3 && |r| <= |sorted| && r == sorted[..|r|]
    ensures |r| == 3 || r == sorted
  {
    if |sorted| <= 3 then sorted else sorted[..3]
  }

  /**
   * The first three of entries sorted by descending count: listed without
   * repetition, in non-increasing order, and no type left out has a higher
   * count than the third.
   */
  lemma TopThreeSpec(sorted: seq<TypeCount>, counts: map<string, nat>)
    requires Seqs.SortedBy(sorted, NegCount)
    requires forall i :: 0 <= i < |sorted| ==> Tallied(sorted[i], counts)
    requires forall i, j :: 0 <= i < j < |sorted| ==> sorted[i].projectType != sorted[j].projectType
    requires forall k :: k in counts ==> exists p :: 0 <= p < |sorted| && sorted[p].projectType == k
    ensures var r := TopThree(sorted); forall i, j :: 0 <= i < j < |r| ==> r[i].count >= r[j].count
    ensures var r := TopThree(sorted); forall i :: 0 <= i < |r| ==> Tallied(r[i], counts)
    ensures var r := TopThree(sorted); forall i, j :: 0 <= i < j < |r| ==> r[i].projectType != r[j].projectType
    ensures var r := TopThree(sorted);
      forall k :: k in counts && (forall i :: 0 <= i < |r| ==> r[i].projectType != k) ==> |r| == 3 && counts[k] <= r[2].count
  {
    var r := TopThree(sorted);
    assert forall i :: 0 <= i < |r| ==> r[i] == sorted[i];
    forall i, j | 0 <= i < j < |r| ensures r[i].count >= r[j].count {
      assert NegCount(sorted[i]) <= NegCount(sorted[j]);
    }
    forall k | k in counts && (forall i :: 0 <= i < |r| ==> r[i].projectType != k)
      ensures |r| == 3 && counts[k] <= r[2].count
    {
      var p :| 0 <= p < |sorted| && sorted[p].projectType == k;
      assert p >= |r|;
      assert NegCount(sorted[2]) <= NegCount(sorted[p]);
    }
  }

  /**
   * `getMostPopularProjectTypes`: count the submissions per non-empty project
   * type, sort the entries by descending count and keep the first three. The
   * result lists distinct types with their exact counts, in non-increasing
   * order, and every type left out is no more popular than the third one.
   */
  method GetMostPopularProjectTypes(log: seq<Submission>) returns (r: seq<TypeCount>)
    ensures |r| <= 3
    ensures forall i, j :: 0 <= i < j < |r| ==> r[i].count >= r[j].count
    ensures forall i :: 0 <= i < |r| ==> r[i].count == Popularity(log, r[i].projectType) > 0
    ensures forall i, j :: 0 <= i < j < |r| ==> r[i].projectType != r[j].projectType
    ensures forall t :: Popularity(log, t) > 0 && (forall i :: 0 <= i < |r| ==> r[i].projectType != t) ==>
      |r| == 3 && Popularity(log, t) <= r[2].count
  {
    var keys, counts := Tallies.Tally(log, ProjectTypeKey);
    var sorted := Seqs.SortBy(Entries(keys, counts), NegCount);
    PermutedEntries(keys, counts, sorted);
    TopThreeSpec(sorted, counts);
    r := TopThree(sorted);
    forall t | Popularity(log, t) > 0 ensures t in counts {
      Tallies.OccurrencesPositive(log, ProjectTypeKey, t);
    }
  }

  // ---------------------------------------------------------------------------
  // The form object
  // ---------------------------------------------------------------------------

  datatype SubmitStart = AlreadySubmitting | InvalidForm | Sending(data: FormData)

  /**
   * The `ContactForm` object. `values` holds the value of each text or
   * select element the form has (a missing element is an absent key),
   * `newsletter` the checkbox, `errors` the `this.errors` object and
   * `submissions` the `formSubmissions` log in local storage.
   */
  class ContactForm {
    var values: map<string, string>
    var newsletter: bool
    var errors: map<string, string>
    var isSubmitting: bool
    var submissions: seq<Submission>

    constructor(values: map<string, string>, newsletter: bool, submissions: seq<Submission>)
      ensures this.values == values && this.newsletter == newsletter && this.submissions == submissions
      ensures errors == map[] && !isSubmitting
    {
      this.values := values;
      this.newsletter := newsletter;
      this.errors := map[];
      this.isSubmitting := false;
      this.submissions := submissions;
    }

    /**
     * `validateField`: true exactly when the field passes; a failing field's
     * message is stored under its name, a passing field's entry removed, and a
     * field without element or rule leaves the errors alone.
     */
    method ValidateField(field: string) returns (ok: bool)
      modifies this
      ensures ok <==> Outcome(values, field).None?
      ensures field !in values || field !in RuleFields ==> errors == old(errors)
      ensures field in values && field in RuleFields ==>
        errors == if ok then old(errors) - {field} else old(errors)[field := Outcome(values, field).value]
      ensures values == old(values) && newsletter == old(newsletter)
      ensures isSubmitting == old(isSubmitting) && submissions == old(submissions)
    {
      if field !in values || RuleFor(field).None? {
        return true;
      }
      var rules := RuleFor(field).value;
      var value := Trimmed(values[field]);
      ok := true;
      var errorMessage := "";
      if rules.required && value == [] {
        ok := false;
        errorMessage := GetFieldLabel(field) + " is required";
      }
      if ok && value != [] {
        if rules.minLength > 0 && Text.JsLength(value) < rules.minLength {
          ok := false;
          errorMessage := GetFieldLabel(field) + " must be at least " + Text.NatToString(rules.minLength) + " characters";
        }
        if rules.maxLength > 0 && Text.JsLength(value) > rules.maxLength {
          ok := false;
          errorMessage := GetFieldLabel(field) + " must be less than " + Text.NatToString(rules.maxLength) + " characters";
        }
        if !MatchesPattern(rules.pattern, value) {
          ok := false;
          errorMessage := rules.message;
        }
      }
      assert ok <==> Outcome(values, field).None?;
      assert !ok ==> Outcome(values, field) == Some(errorMessage);
      if ok {
        errors := errors - {field};
      } else {
        errors := errors[field := errorMessage];
      }
    }

    /**
     * `validateForm`: clears the errors, validates every rule field without
     * stopping at the first failure, and is true exactly when all pass.
     */
    method ValidateForm() returns (ok: bool)
      modifies this
      ensures ok <==> forall f :: f in RuleFields ==> Outcome(values, f).None?
      ensures errors == FormErrors(values, RuleFields)
      ensures values == old(values) && newsletter == old(newsletter)
      ensures isSubmitting == old(isSubmitting) && submissions == old(submissions)
    {
      errors := map[];
      ok := true;
      for i := 0 to |RuleFields|
        invariant errors == FormErrors(values, RuleFields[..i])
        invariant ok <==> errors == map[]
        invariant values == old(values) && newsletter == old(newsletter)
        invariant isSubmitting == old(isSubmitting) && submissions == old(submissions)
      {
        var before, f := errors, RuleFields[i];
        assert f in RuleFields;
        RuleFieldFirst(i);
        var valid := ValidateField(f);
        ValidateFormStep(values, RuleFields, i, before, errors, valid);
        ok := ok && valid;
      }
      assert RuleFields[..|RuleFields|] == RuleFields;
      FormErrorsEmpty(values, RuleFields);
    }

    /** `getFormData`: the trimmed value of every text element, the checkbox and the time. */
    function GetFormData(timestamp: string): (d: FormData)
      reads this
      ensures d.fields.Keys == values.Keys
      ensures forall f :: f in d.fields ==> d.fields[f] == Trimmed(values[f])
      ensures d.newsletter == newsletter && d.timestamp == timestamp
    {
      FormData(map f | f in values :: Trimmed(values[f]), newsletter, timestamp)
    }

    /**
     * The synchronous part of `handleSubmit`, up to the `await`: a second
     * submit while one is in flight is ignored; an invalid form is reported
     * without entering the submitting state; otherwise the form is marked as
     * submitting and its data is sent.
     */
    method BeginSubmit(timestamp: string) returns (r: SubmitStart)
      modifies this
      ensures old(isSubmitting) ==> r == AlreadySubmitting && errors == old(errors) && isSubmitting
      ensures !old(isSubmitting) ==> errors == FormErrors(old(values), RuleFields)
      ensures !old(isSubmitting) ==>
        (r == InvalidForm <==> exists f :: f in RuleFields && Outcome(values, f).Some?)
      ensures r == InvalidForm ==> !isSubmitting
      ensures r.Sending? ==> isSubmitting && r.data == GetFormData(timestamp)
      ensures !old(isSubmitting) && (forall f :: f in RuleFields ==> Outcome(values, f).None?) ==>
        r == Sending(GetFormData(timestamp)) && isSubmitting
      ensures values == old(values) && newsletter == old(newsletter) && submissions == old(submissions)
    {
      if isSubmitting {
        return AlreadySubmitting;
      }
      var valid := ValidateForm();
      if !valid {
        return InvalidForm;
      }
      isSubmitting := true;
      r := Sending(GetFormData(timestamp));
    }

    /**
     * The rest of `handleSubmit`, once the server has answered: on success the
     * fields are emptied, the checkbox unticked and the submission logged
     * (keeping the last 10); in every case the submitting state ends.
     */
    method FinishSubmit(data: FormData, success: bool)
      modifies this
      ensures !isSubmitting
      ensures success ==> values == (map f | f in old(values) :: "") && !newsletter
      ensures success ==> submissions == LogSubmission(old(submissions), SubmissionOf(data))
      ensures !success ==> values == old(values) && newsletter == old(newsletter) && submissions == old(submissions)
      ensures errors == old(errors)
    {
      if success {
        ClearForm();
        TrackFormSubmission(data);
      }
      isSubmitting := false;
    }

    /** `clearForm`: every element emptied, the checkbox unticked; `errors` is left as it is. */
    method ClearForm()
      modifies this
      ensures values.Keys == old(values).Keys && forall f :: f in values ==> values[f] == ""
      ensures !newsletter
      ensures errors == old(errors) && isSubmitting == old(isSubmitting) && submissions == old(submissions)
    {
      values := map f | f in values :: "";
      newsletter := false;
    }

    /** `trackFormSubmission`: appends the submission and keeps the last 10. */
    method TrackFormSubmission(data: FormData)
      modifies this
      ensures submissions == LogSubmission(old(submissions), SubmissionOf(data))
      ensures |submissions| <= SubmissionLogCap
      ensures submissions[|submissions| - 1] == SubmissionOf(data)
      ensures values == old(values) && newsletter == old(newsletter)
      ensures errors == old(errors) && isSubmitting == old(isSubmitting)
    {
      submissions := LogSubmission(submissions, SubmissionOf(data));
    }

    /**
     * `suggestTimeline`: fills an empty timeline from the budget table when a
     * budget is chosen; it never overwrites a timeline already set.
     */
    method SuggestTimeline()
      requires "budget" in values && "timeline" in values
      modifies this
      ensures var b := old(values)["budget"];
        if b != [] && old(values)["timeline"] == [] && TimelineFor(b).Some?
        then values == old(values)["timeline" := TimelineFor(b).value]
        else values == old(values)
      ensures values["timeline"] != [] ==> values["timeline"] == old(values)["timeline"] || old(values)["timeline"] == []
      ensures newsletter == old(newsletter) && errors == old(errors)
      ensures isSubmitting == old(isSubmitting) && submissions == old(submissions)
    {
      var budget := values["budget"];
      if budget == [] || values["timeline"] != [] {
        return;
      }
      var suggestion := TimelineFor(budget);
      if suggestion.Some? {
        values := values["timeline" := suggestion.value];
      }
    }

    /**
     * `suggestMessageTemplate`: fills a blank message with the template of the
     * chosen project type; it never overwrites a message with content.
     */
    method SuggestMessageTemplate()
      requires "projectType" in values && "message" in values
      modifies this
      ensures var p := old(values)["projectType"];
        if p != [] && Trimmed(old(values)["message"]) == [] && TemplateFor(p).Some?
        then values == old(values)["message" := TemplateFor(p).value]
        else values == old(values)
      ensures newsletter == old(newsletter) && errors == old(errors)
      ensures isSubmitting == old(isSubmitting) && submissions == old(submissions)
    {
      var projectType := values["projectType"];
      if projectType == [] || Trimmed(values["message"]) != [] {
        return;
      }
      var template := TemplateFor(projectType);
      if template.Some? {
        values := values["message" := template.value];
      }
    }
  }

  /** A suggested timeline is never empty, so a second suggestion changes nothing. */
  lemma SuggestTimelineOnce(values: map<string, string>)
    requires "budget" in values && "timeline" in values
    requires values["budget"] != [] && values["timeline"] == [] && TimelineFor(values["budget"]).Some?
    ensures values["timeline" := TimelineFor(values["budget"]).value]["timeline"] != []
  {
  }

}
