/** The contact-form submit handler of js/script.js and the `currentPage`
    derivation used to highlight the navigation link. The page's state is
    the form's five input values, the `error` class on each input, the text
    and `show` class of each error element that exists on the page, and the
    visibility of the success banner. */
module ContactForm {
  import opened Wrappers
  import opened Text

  datatype Field = NameInput | EmailInput | PhoneInput | SubjectInput | MessageInput

  /** The order in which the handler lists the inputs and the error elements. */
  const FieldOrder: seq<Field> := [NameInput, EmailInput, PhoneInput, SubjectInput, MessageInput]

  /** A set of fields that holds none of the listed fields is empty. */
  lemma NoFieldLeft(S: set<Field>)
    requires forall j :: 0 <= j < |FieldOrder| ==> FieldOrder[j] !in S
    ensures S == {}
  {
    forall f ensures f !in S {
      match f
      case NameInput => assert FieldOrder[0] == f;
      case EmailInput => assert FieldOrder[1] == f;
      case PhoneInput => assert FieldOrder[2] == f;
      case SubjectInput => assert FieldOrder[3] == f;
      case MessageInput => assert FieldOrder[4] == f;
    }
  }

  /** The position of `f` in the handler's order of checks. */
  function Rank(f: Field): (n: nat)
    ensures n < |FieldOrder| && FieldOrder[n] == f
  {
    match f
    case NameInput => 0
    case EmailInput => 1
    case PhoneInput => 2
    case SubjectInput => 3
    case MessageInput => 4
  }

  /** Only `f` itself has the rank of `f`. */
  lemma RankOthers(f: Field)
    ensures forall g :: g != f ==> (Rank(g) < Rank(f) + 1 <==> Rank(g) < Rank(f))
  {
    forall g | g != f ensures Rank(g) != Rank(f) {
      assert FieldOrder[Rank(g)] != FieldOrder[Rank(f)];
    }
  }

  /** The raw `value` of each input. */
  datatype Values = Values(name: string, email: string, phone: string, subject: string, message: string)

  /** A piece of the email pattern: `[^\s@]+` without the `+`. */
  predicate NoSpaceOrAt(s: string) {
    forall k :: 0 <= k < |s| ==> !IsSpace(s[k]) && s[k] != '@'
  }

  /** `/^[^\s@]+@[^\s@]+\.[^\s@]+$/.test(s)`: `s` splits into three non-empty
      runs without white space or `@`, joined by an `@` and then a `.`. */
  predicate MatchesEmailPattern(s: string) {
    exists i, j :: 0 < i && i + 1 < j && j + 1 < |s| && s[i] == '@' && s[j] == '.' &&
      NoSpaceOrAt(s[..i]) && NoSpaceOrAt(s[i + 1..j]) && NoSpaceOrAt(s[j + 1..])
  }

  /** The same pattern read as a description of the address: no white space
      anywhere, exactly one `@`, not in first position, and after it a `.`
      that is neither the first nor the last character of the domain. */
  predicate EmailShape(s: string) {
    NoSpace(s) &&
    exists i :: 0 < i < |s| && s[i] == '@' && (forall k :: 0 <= k < |s| && k != i ==> s[k] != '@') &&
      exists j :: i + 1 < j < |s| - 1 && s[j] == '.'
  }

  lemma EmailPatternIsShape(s: string)
    ensures MatchesEmailPattern(s) <==> EmailShape(s)
  {
    if MatchesEmailPattern(s) {
      PatternGivesShape(s);
    }
    if EmailShape(s) {
      ShapeGivesPattern(s);
    }
  }

  lemma PatternGivesShape(s: string)
    requires MatchesEmailPattern(s)
    ensures EmailShape(s)
  {
    var i, j :| 0 < i && i + 1 < j && j + 1 < |s| && s[i] == '@' && s[j] == '.' &&
      NoSpaceOrAt(s[..i]) && NoSpaceOrAt(s[i + 1..j]) && NoSpaceOrAt(s[j + 1..]);
    forall k | 0 <= k < |s| && k != i && k != j ensures !IsSpace(s[k]) && s[k] != '@' {
      if k < i {
        SliceChar(s, 0, i, k);
      } else if k < j {
        SliceChar(s, i + 1, j, k);
      } else {
        SliceChar(s, j + 1, |s|, k);
      }
    }
    assert s[j] == '.' && i + 1 < j < |s| - 1;
  }

  lemma ShapeGivesPattern(s: string)
    requires EmailShape(s)
    ensures MatchesEmailPattern(s)
  {
    var i :| 0 < i < |s| && s[i] == '@' && (forall k :: 0 <= k < |s| && k != i ==> s[k] != '@') &&
      exists j :: i + 1 < j < |s| - 1 && s[j] == '.';
    var j :| i + 1 < j < |s| - 1 && s[j] == '.';
    NoSpaceOrAtSlice(s, 0, i);
    NoSpaceOrAtSlice(s, i + 1, j);
    NoSpaceOrAtSlice(s, j + 1, |s|);
  }

  /** A character of a slice without white space or `@` has neither. */
  lemma SliceChar(s: string, a: nat, b: nat, k: nat)
    requires a <= k < b <= |s| && NoSpaceOrAt(s[a..b])
    ensures !IsSpace(s[k]) && s[k] != '@'
  {
    assert s[a..b][k - a] == s[k];
  }

  lemma NoSpaceOrAtSlice(s: string, a: nat, b: nat)
    requires a <= b <= |s|
    requires forall k :: a <= k < b ==> !IsSpace(s[k]) && s[k] != '@'
    ensures NoSpaceOrAt(s[a..b])
  {
    assert forall k :: 0 <= k < b - a ==> s[a..b][k] == s[a + k];
  }

  /** One character of `[\d\s\-\+\(\)]`. */
  predicate IsPhoneChar(c: char) {
    '0' <= c <= '9' || IsSpace(c) || c == '-' || c == '+' || c == '(' || c == ')'
  }

  /** `/^[\d\s\-\+\(\)]+$/.test(s)`. */
  predicate MatchesPhonePattern(s: string) {
    |s| > 0 && forall k :: 0 <= k < |s| ==> IsPhoneChar(s[k])
  }

  const NameRequired: string := "Name is required"
  const EmailRequired: string := "Email is required"
  const EmailInvalid: string := "Please enter a valid email address"
  const PhoneInvalid: string := "Please enter a valid phone number"
  const SubjectRequired: string := "Please select a subject"
  const MessageRequired: string := "Message is required"
  const MessageTooShort: string := "Message must be at least 10 characters"

  /** The name is required: it fails when the value is all white space. */
  function NameError(name: string): Option<string> {
    if AllSpace(name) then Some(NameRequired) else None
  }

  /** Required (not all white space), then the email pattern on the raw value. */
  function EmailError(email: string): Option<string> {
    if AllSpace(email) then Some(EmailRequired)
    else if !MatchesEmailPattern(email) then Some(EmailInvalid)
    else None
  }

  /** Optional: a value that is not all white space must, as it stands,
      match the phone pattern. */
  function PhoneError(phone: string): Option<string> {
    if !AllSpace(phone) && !MatchesPhonePattern(phone) then Some(PhoneInvalid) else None
  }

  /** A subject must be selected: only the empty value fails. */
  function SubjectError(subject: string): Option<string> {
    if subject == [] then Some(SubjectRequired) else None
  }

  /** Required, then at least ten UTF-16 units once trimmed. */
  function MessageError(message: string): Option<string> {
    if AllSpace(message) then Some(MessageRequired)
    else if Utf16Length(Trim(message)) < 10 then Some(MessageTooShort)
    else None
  }

  /** The message the handler shows for field `f` of `v`, if its check fails. */
  function ErrorFor(v: Values, f: Field): Option<string> {
    match f
    case NameInput => NameError(v.name)
    case EmailInput => EmailError(v.email)
    case PhoneInput => PhoneError(v.phone)
    case SubjectInput => SubjectError(v.subject)
    case MessageInput => MessageError(v.message)
  }

  /** The outcome of all five checks on one set of values. */
  datatype Errors = Errors(name: Option<string>, email: Option<string>, phone: Option<string>,
                           subject: Option<string>, message: Option<string>)
  {
    function At(f: Field): Option<string> {
      match f
      case NameInput => name
      case EmailInput => email
      case PhoneInput => phone
      case SubjectInput => subject
      case MessageInput => message
    }
  }

  function ErrorsOf(v: Values): Errors {
    Errors(NameError(v.name), EmailError(v.email), PhoneError(v.phone), SubjectError(v.subject), MessageError(v.message))
  }

  /** The name check `!name.value.trim()`: "Name is required" exactly when
      the trimmed name is empty. */
  lemma NameCheck(v: Values)
    ensures ErrorFor(v, NameInput) == if Trim(v.name) == [] then Some(NameRequired) else None
  {
  }

  /** The email check: blank after trimming is "required", whatever else the
      value holds; otherwise it fails exactly when the raw (untrimmed) value
      is not of the email shape. */
  lemma EmailCheck(v: Values)
    ensures Trim(v.email) == [] ==> ErrorFor(v, EmailInput) == Some(EmailRequired)
    ensures Trim(v.email) != [] ==> (ErrorFor(v, EmailInput) == Some(EmailInvalid) <==> !EmailShape(v.email))
    ensures ErrorFor(v, EmailInput).None? <==> EmailShape(v.email)
  {
    EmailPatternIsShape(v.email);
    if EmailShape(v.email) {
      assert Trim(v.email) != [] by {
        assert !IsSpace(v.email[0]);
      }
    }
  }

  /** The phone check: a blank value never fails; otherwise it fails exactly
      when some character of the raw value is outside the phone class. */
  lemma PhoneCheck(v: Values)
    ensures AllSpace(v.phone) ==> ErrorFor(v, PhoneInput).None?
    ensures !AllSpace(v.phone) ==>
              (ErrorFor(v, PhoneInput).Some? <==> exists k :: 0 <= k < |v.phone| && !IsPhoneChar(v.phone[k]))
  {
  }

  /** The message check: blank is "required"; otherwise fewer than ten
      UTF-16 units after trimming is "too short". Ten characters of the
      Basic Multilingual Plane are always enough. */
  lemma MessageCheck(v: Values)
    ensures AllSpace(v.message) ==> ErrorFor(v, MessageInput) == Some(MessageRequired)
    ensures !AllSpace(v.message) && |Trim(v.message)| >= 10 ==> ErrorFor(v, MessageInput).None?
    ensures !AllSpace(v.message) && |Trim(v.message)| < 5 ==> ErrorFor(v, MessageInput) == Some(MessageTooShort)
  {
  }

  /** The marks once the first `done` checks, with outcomes `e`, have run:
      `marked` holds the inputs with the `error` class, `shown` the error
      elements with `show`, and `text` the text of each element in `slots`. */
  ghost predicate Shows(slots: set<Field>, marked: set<Field>, shown: set<Field>, text: map<Field, string>,
                        e: Errors, done: nat)
  {
    && (forall f :: f in marked <==> Rank(f) < done && e.At(f).Some?)
    && (forall f :: f in shown <==> Rank(f) < done && f in slots && e.At(f).Some?)
    && (forall f :: f in slots && f in text ==> text[f] == if Rank(f) < done then e.At(f).GetOr("") else "")
  }

  /** Flagging the next field in order adds it to the marks. */
  lemma FlagShows(slots: set<Field>, marked: set<Field>, shown: set<Field>, text: map<Field, string>,
                  e: Errors, f: Field, message: string)
    requires Shows(slots, marked, shown, text, e, Rank(f)) && e.At(f) == Some(message)
    ensures Shows(slots, marked + {f}, if f in slots then shown + {f} else shown,
                  if f in slots then text[f := message] else text, e, Rank(f) + 1)
  {
    RankOthers(f);
  }

  /** A passing check keeps the marks of the next field in order. */
  lemma PassShows(slots: set<Field>, marked: set<Field>, shown: set<Field>, text: map<Field, string>,
                  e: Errors, f: Field)
    requires Shows(slots, marked, shown, text, e, Rank(f)) && e.At(f).None?
    ensures Shows(slots, marked, shown, text, e, Rank(f) + 1)
  {
    RankOthers(f);
  }

  /** Once all five checks have run, the marks are exactly the failed checks. */
  lemma ShowsAll(slots: set<Field>, marked: set<Field>, shown: set<Field>, text: map<Field, string>,
                 e: Errors, v: Values)
    requires Shows(slots, marked, shown, text, e, |FieldOrder|)
    requires e == ErrorsOf(v)
    ensures (e.name.None? && e.email.None? && e.phone.None? && e.subject.None? && e.message.None?)
            <==> forall f :: ErrorFor(v, f).None?
    ensures forall f :: f in marked <==> ErrorFor(v, f).Some?
    ensures forall f :: f in shown <==> f in slots && ErrorFor(v, f).Some?
    ensures forall f :: f in slots && f in text ==> text[f] == ErrorFor(v, f).GetOr("")
  {
    forall f ensures e.At(f) == ErrorFor(v, f) {
      match f
      case NameInput =>
      case EmailInput =>
      case PhoneInput =>
      case SubjectInput =>
      case MessageInput =>
    }
    if forall f :: ErrorFor(v, f).None? {
      assert ErrorFor(v, NameInput).None? && ErrorFor(v, EmailInput).None? && ErrorFor(v, PhoneInput).None?;
      assert ErrorFor(v, SubjectInput).None? && ErrorFor(v, MessageInput).None?;
    }
  }

  /** The contact page's form, error elements and success banner. */
  class Page {
    var values: Values
    /** What `contactForm.reset()` restores. */
    const defaults: Values
    /** The fields whose error element exists on the page (`if (error)`). */
    const errorSlots: set<Field>
    /** Whether the `formSuccess` element exists. */
    const hasSuccessBanner: bool
    /** Inputs carrying the `error` class. */
    var marked: set<Field>
    /** Error elements carrying the `show` class. */
    var shown: set<Field>
    /** `textContent` of each existing error element. */
    var errorText: map<Field, string>
    var successVisible: bool

    ghost predicate Valid()
      reads this
    {
      errorText.Keys == errorSlots && shown <= errorSlots && (successVisible ==> hasSuccessBanner)
    }

    constructor (values: Values, defaults: Values, errorSlots: set<Field>, hasSuccessBanner: bool)
      ensures this.values == values && this.defaults == defaults
      ensures this.errorSlots == errorSlots && this.hasSuccessBanner == hasSuccessBanner
      ensures marked == {} && shown == {} && !successVisible
      ensures errorText == map f | f in errorSlots :: ""
      ensures Valid()
    {
      this.values := values;
      this.defaults := defaults;
      this.errorSlots := errorSlots;
      this.hasSuccessBanner := hasSuccessBanner;
      marked := {};
      shown := {};
      errorText := map f | f in errorSlots :: "";
      successVisible := false;
    }

    /** The state reached once the first `done` checks have run on the
        values `v`, whose outcomes are `e`: exactly the failed ones among
        them are marked. */
    ghost predicate Reflects(v: Values, e: Errors, done: nat)
      reads this
    {
      Valid() && values == v && !successVisible && Shows(errorSlots, marked, shown, errorText, e, done)
    }

    /** The reset at the start of a submit: every input loses `error`, every
        existing error element loses its text and `show`, and the success
        banner is hidden. */
    method ClearErrors(ghost e: Errors)
      requires Valid()
      modifies this
      ensures Reflects(old(values), e, 0)
    {
      var k := 0;
      while k < |FieldOrder|
        invariant 0 <= k <= |FieldOrder|
        invariant Valid() && values == old(values)
        invariant forall j :: 0 <= j < k ==> FieldOrder[j] !in marked
      {
        marked := marked - {FieldOrder[k]};
        k := k + 1;
      }
      NoFieldLeft(marked);
      k := 0;
      while k < |FieldOrder|
        invariant 0 <= k <= |FieldOrder|
        invariant Valid() && values == old(values) && marked == {}
        invariant forall j :: 0 <= j < k ==> FieldOrder[j] !in shown
        invariant forall j :: 0 <= j < k && FieldOrder[j] in errorSlots ==> errorText[FieldOrder[j]] == ""
      {
        var f := FieldOrder[k];
        if f in errorSlots {
          shown := shown - {f};
          errorText := errorText[f := ""];
        }
        k := k + 1;
      }
      NoFieldLeft(shown);
      assert forall f :: f in errorSlots ==> errorText[f] == "" by {
        forall f | f in errorSlots ensures errorText[f] == "" {
          match f
          case NameInput => assert FieldOrder[0] == f;
          case EmailInput => assert FieldOrder[1] == f;
          case PhoneInput => assert FieldOrder[2] == f;
          case SubjectInput => assert FieldOrder[3] == f;
          case MessageInput => assert FieldOrder[4] == f;
        }
      }
      successVisible := false;
    }

    /** Marks one failed field: the input gets `error`, and its error
        element, when it exists, gets the message and `show`. */
    method Flag(f: Field, message: string, ghost v: Values, ghost e: Errors)
      requires Reflects(v, e, Rank(f)) && e.At(f) == Some(message)
      modifies this
      ensures Reflects(v, e, Rank(f) + 1)
    {
      FlagShows(errorSlots, marked, shown, errorText, e, f, message);
      marked := marked + {f};
      if f in errorSlots {
        errorText := errorText[f := message];
        shown := shown + {f};
      }
    }

    /** A check that passes marks nothing. */
    lemma Pass(f: Field, v: Values, e: Errors)
      requires Reflects(v, e, Rank(f)) && e.At(f).None?
      ensures Reflects(v, e, Rank(f) + 1)
    {
      PassShows(errorSlots, marked, shown, errorText, e, f);
    }

    /** `if (!name.value.trim())`. */
    method CheckName(ghost v: Values, ghost e: Errors) returns (ok: bool)
      requires Reflects(v, e, 0) && e.name == NameError(v.name)
      modifies this
      ensures Reflects(v, e, 1) && (ok <==> e.name.None?)
    {
      ok := true;
      if Trim(values.name) == [] {
        ok := false;
        Flag(NameInput, NameRequired, v, e);
      } else {
        Pass(NameInput, v, e);
      }
    }

    /** Required first, then the pattern, on the raw value. */
    method CheckEmail(ghost v: Values, ghost e: Errors) returns (ok: bool)
      requires Reflects(v, e, 1) && e.email == EmailError(v.email)
      modifies this
      ensures Reflects(v, e, 2) && (ok <==> e.email.None?)
    {
      ok := true;
      if Trim(values.email) == [] {
        ok := false;
        Flag(EmailInput, EmailRequired, v, e);
      } else if !MatchesEmailPattern(values.email) {
        ok := false;
        Flag(EmailInput, EmailInvalid, v, e);
      } else {
        Pass(EmailInput, v, e);
      }
    }

    /** Only a value that is not blank is checked, and then the raw value. */
    method CheckPhone(ghost v: Values, ghost e: Errors) returns (ok: bool)
      requires Reflects(v, e, 2) && e.phone == PhoneError(v.phone)
      modifies this
      ensures Reflects(v, e, 3) && (ok <==> e.phone.None?)
    {
      ok := true;
      if Trim(values.phone) != [] && !MatchesPhonePattern(values.phone) {
        ok := false;
        Flag(PhoneInput, PhoneInvalid, v, e);
      } else {
        Pass(PhoneInput, v, e);
      }
    }

    /** `if (!subject.value)`: no trimming here. */
    method CheckSubject(ghost v: Values, ghost e: Errors) returns (ok: bool)
      requires Reflects(v, e, 3) && e.subject == SubjectError(v.subject)
      modifies this
      ensures Reflects(v, e, 4) && (ok <==> e.subject.None?)
    {
      ok := true;
      if values.subject == [] {
        ok := false;
        Flag(SubjectInput, SubjectRequired, v, e);
      } else {
        Pass(SubjectInput, v, e);
      }
    }

    /** Required first, then at least ten UTF-16 units after trimming. */
    method CheckMessage(ghost v: Values, ghost e: Errors) returns (ok: bool)
      requires Reflects(v, e, 4) && e.message == MessageError(v.message)
      modifies this
      ensures Reflects(v, e, 5) && (ok <==> e.message.None?)
    {
      ok := true;
      if Trim(values.message) == [] {
        ok := false;
        Flag(MessageInput, MessageRequired, v, e);
      } else if Utf16Length(Trim(values.message)) < 10 {
        ok := false;
        Flag(MessageInput, MessageTooShort, v, e);
      } else {
        Pass(MessageInput, v, e);
      }
    }

    /** The submit handler. All marks are cleared first; then each check
        that fails marks its field and clears `isValid`. `isValid` ends true
        exactly when no check failed, and only then is the form reset and the
        success banner shown. */
    method Submit() returns (isValid: bool)
      requires Valid()
      modifies this
      ensures Valid()
      ensures isValid <==> forall f :: ErrorFor(old(values), f).None?
      ensures forall f :: f in marked <==> ErrorFor(old(values), f).Some?
      ensures forall f :: f in shown <==> f in errorSlots && ErrorFor(old(values), f).Some?
      ensures forall f :: f in errorSlots ==> errorText[f] == ErrorFor(old(values), f).GetOr("")
      ensures isValid ==> values == defaults && successVisible == hasSuccessBanner
      ensures !isValid ==> values == old(values) && !successVisible
    {
      ghost var v := values;
      ghost var e := ErrorsOf(v);
      ClearErrors(e);
      var okName := CheckName(v, e);
      var okEmail := CheckEmail(v, e);
      var okPhone := CheckPhone(v, e);
      var okSubject := CheckSubject(v, e);
      var okMessage := CheckMessage(v, e);
      isValid := okName && okEmail && okPhone && okSubject && okMessage;
      ShowsAll(errorSlots, marked, shown, errorText, e, v);
      if isValid {
        SubmitSucceeded();
      }
    }

    /** The end of a submit that passed every check: the banner is shown when
        it exists and `contactForm.reset()` restores the defaults. */
    method SubmitSucceeded()
      requires Valid()
      modifies this
      ensures Valid()
      ensures values == defaults && successVisible == hasSuccessBanner
      ensures marked == old(marked) && shown == old(shown) && errorText == old(errorText)
    {
      if hasSuccessBanner {
        successVisible := true;
      }
      values := defaults;
    }
  }

  /** `location.pathname.split('/').pop()`: the longest suffix of `path`
      without a `/`. */
  function LastSegment(path: string): (r: string)
    ensures '/' !in r
    ensures |r| <= |path| && r == path[|path| - |r|..]
    ensures |r| < |path| ==> path[|path| - |r| - 1] == '/'
  {
    if path == [] || path[|path| - 1] == '/' then []
    else
      var r := LastSegment(path[..|path| - 1]);
      assert path[..|path| - 1][|path| - 1 - |r|..] + [path[|path| - 1]] == path[|path| - |r| - 1..];
      r + [path[|path| - 1]]
  }

  /** `currentPage`: the last segment of the path, or `index.html` when the
      path is empty or ends in `/`. It is never empty and has no `/`. */
  function CurrentPage(pathname: string): (r: string)
    ensures r != [] && '/' !in r
    ensures pathname == [] || pathname[|pathname| - 1] == '/' ==> r == "index.html"
    ensures pathname != [] && pathname[|pathname| - 1] != '/' ==>
              EndsWith(pathname, r) && (|r| == |pathname| || pathname[|pathname| - |r| - 1] == '/')
  {
    var last := LastSegment(pathname);
    if last == [] then "index.html" else last
  }
}
