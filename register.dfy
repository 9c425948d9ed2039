/**
 * The registration form of `src/app/register/page.jsx`: the form-field
 * update `handleChange`, the password rule `/^(?=.*[a-z])(?=.*[A-Z]).{6,}$/`
 * and the accept/reject branch of `handleRegister`.
 *
 * A JavaScript string is a sequence of UTF-16 code units, and a regular
 * expression without the `u` flag reads it unit by unit; the password rule
 * is therefore stated on code units, and `Utf16` turns a Dafny string
 * (Unicode scalar values) into them.
 */
module Register {

  type CodeUnit = x: int | 0 <= x < 0x1_0000
  type JsString = seq<CodeUnit>

  /** The UTF-16 encoding of one Unicode scalar value: one unit, or a surrogate pair. */
  function EncodeChar(c: char): (u: JsString)
    ensures |u| == (if c as int < 0x1_0000 then 1 else 2)
    ensures c as int < 0x1_0000 ==> u[0] == c as int
    ensures c as int >= 0x1_0000 ==> 0xD800 <= u[0] < 0xDC00 && 0xDC00 <= u[1] < 0xE000
  {
    var n := c as int;
    if n < 0x1_0000 then [n]
    else
      var m := n - 0x1_0000;
      [0xD800 + m / 0x400, 0xDC00 + m % 0x400]
  }

  function Utf16(s: string): JsString {
    if s == [] then [] else EncodeChar(s[0]) + Utf16(s[1..])
  }

  /** A string of characters below U+10000 is one code unit per character. */
  lemma {:induction false} Utf16Bmp(s: string)
    requires forall i :: 0 <= i < |s| ==> s[i] as int < 0x1_0000
    ensures |Utf16(s)| == |s|
    ensures forall i :: 0 <= i < |s| ==> Utf16(s)[i] == s[i] as int
  {
    if s != [] {
      Utf16Bmp(s[1..]);
      assert Utf16(s) == [s[0] as int as CodeUnit] + Utf16(s[1..]);
    }
  }

  /** ECMAScript line terminators, the code units that `.` does not match. */
  predicate IsLineTerminator(u: CodeUnit) {
    u == 0x0A || u == 0x0D || u == 0x2028 || u == 0x2029
  }

  /** `[a-z]` */
  predicate IsLower(u: CodeUnit) {
    0x61 <= u <= 0x7A
  }

  /** `[A-Z]` */
  predicate IsUpper(u: CodeUnit) {
    0x41 <= u <= 0x5A
  }

  /** `.` without the `s` flag. */
  predicate Dot(u: CodeUnit) {
    !IsLineTerminator(u)
  }

  /** `^(?=.*[a-z])`: from the start, some run of `.` followed by a lowercase letter. */
  predicate LookaheadLower(s: JsString) {
    exists j :: 0 <= j < |s| && (forall i :: 0 <= i < j ==> Dot(s[i])) && IsLower(s[j])
  }

  /** `^(?=.*[A-Z])` */
  predicate LookaheadUpper(s: JsString) {
    exists j :: 0 <= j < |s| && (forall i :: 0 <= i < j ==> Dot(s[i])) && IsUpper(s[j])
  }

  /** `^.{6,}$` without the `m` flag: six or more units, all matched by `.`, to the end of input. */
  predicate DotsToEnd(s: JsString) {
    |s| >= 6 && forall i :: 0 <= i < |s| ==> Dot(s[i])
  }

  /** `passwordRegex.test(s)`, read as the regular expression is built. */
  predicate PasswordRegexTest(s: JsString) {
    LookaheadLower(s) && LookaheadUpper(s) && DotsToEnd(s)
  }

  /** The rule in words: at least six units, no line terminator, an ASCII lowercase and an ASCII uppercase letter. */
  predicate PasswordRule(s: JsString) {
    && |s| >= 6
    && (forall i :: 0 <= i < |s| ==> !IsLineTerminator(s[i]))
    && (exists i :: 0 <= i < |s| && IsLower(s[i]))
    && (exists i :: 0 <= i < |s| && IsUpper(s[i]))
  }

  /** The regular expression accepts exactly the strings that satisfy the rule in words. */
  lemma PasswordRegexCharacterized(s: JsString)
    ensures PasswordRegexTest(s) <==> PasswordRule(s)
  {
    if PasswordRule(s) {
      var l :| 0 <= l < |s| && IsLower(s[l]);
      var u :| 0 <= u < |s| && IsUpper(s[u]);
      assert (forall i :: 0 <= i < l ==> Dot(s[i])) && IsLower(s[l]);
      assert (forall i :: 0 <= i < u ==> Dot(s[i])) && IsUpper(s[u]);
    }
  }

  /** Appending any unit other than a line terminator to an accepted password keeps it accepted. */
  lemma PasswordExtends(s: JsString, c: CodeUnit)
    requires PasswordRegexTest(s)
    requires !IsLineTerminator(c)
    ensures PasswordRegexTest(s + [c])
  {
    PasswordRegexCharacterized(s);
    var t := s + [c];
    var l :| 0 <= l < |s| && IsLower(s[l]);
    var u :| 0 <= u < |s| && IsUpper(s[u]);
    assert IsLower(t[l]) && IsUpper(t[u]);
    PasswordRegexCharacterized(t);
  }

  /** Doc-comment example: "Pass12" is accepted. */
  lemma PasswordExampleAccepted()
    ensures PasswordRegexTest(Utf16("Pass12"))
  {
    Utf16Bmp("Pass12");
    var u := Utf16("Pass12");
    assert IsUpper(u[0]) && IsLower(u[1]);
    PasswordRegexCharacterized(u);
  }

  /** Doc-comment example: "password" has no uppercase letter and is rejected. */
  lemma PasswordExampleNoUpper()
    ensures !PasswordRegexTest(Utf16("password"))
  {
    Utf16Bmp("password");
    var u := Utf16("password");
    assert u == [0x70, 0x61, 0x73, 0x73, 0x77, 0x6F, 0x72, 0x64];
    assert forall j :: 0 <= j < |u| ==> !IsUpper(u[j]);
    assert !LookaheadUpper(u);
  }

  /** Doc-comment example: "PASSWORD" has no lowercase letter and is rejected. */
  lemma PasswordExampleNoLower()
    ensures !PasswordRegexTest(Utf16("PASSWORD"))
  {
    Utf16Bmp("PASSWORD");
    var u := Utf16("PASSWORD");
    assert u == [0x50, 0x41, 0x53, 0x53, 0x57, 0x4F, 0x52, 0x44];
    assert forall j :: 0 <= j < |u| ==> !IsLower(u[j]);
    assert !LookaheadLower(u);
  }

  /** Doc-comment example: "Pass1" has five units and is rejected. */
  lemma PasswordExampleTooShort()
    ensures !PasswordRegexTest(Utf16("Pass1"))
  {
    Utf16Bmp("Pass1");
  }

  /**
   * Length is counted in code units: two letters and two emoji (U+1F600,
   * a surrogate pair each) make six units and are accepted.
   */
  lemma PasswordCountsCodeUnits()
    ensures |"Pa\U{1F600}\U{1F600}"| == 4
    ensures PasswordRegexTest(Utf16("Pa\U{1F600}\U{1F600}"))
  {
    var e := EncodeChar('\U{1F600}');
    var u := Utf16("Pa\U{1F600}\U{1F600}");
    assert u == [0x50, 0x61] + e + e;
    assert IsUpper(u[0]) && IsLower(u[1]);
    PasswordRegexCharacterized(u);
  }

  /** The form state `{ nid, name, email, contact, password }`; every input yields a string. */
  type Form = map<string, string>

  const InitialForm: Form := map["nid" := "", "name" := "", "email" := "", "contact" := "", "password" := ""]

  /** `handleChange(e)`: `{ ...formData, [e.target.name]: e.target.value }`. */
  function HandleChange(form: Form, name: string, value: string): (r: Form)
    ensures r.Keys == form.Keys + {name}
    ensures r[name] == value
    ensures forall k :: k in form && k != name ==> r[k] == form[k]
  {
    form[name := value]
  }

  /** One change event: the input's `name` and its new `value`. */
  datatype Change = Change(name: string, value: string)

  /** The form after a run of change events, applied in order. */
  function ApplyChanges(form: Form, changes: seq<Change>): Form
    decreases |changes|
  {
    if changes == [] then form
    else
      var last := changes[|changes| - 1];
      HandleChange(ApplyChanges(form, changes[..|changes| - 1]), last.name, last.value)
  }

  /** The value of the last event for field `k`, or `v0` when there is none. */
  function LastValue(changes: seq<Change>, k: string, v0: string): string
    decreases |changes|
  {
    if changes == [] then v0
    else if changes[|changes| - 1].name == k then changes[|changes| - 1].value
    else LastValue(changes[..|changes| - 1], k, v0)
  }

  /** Each field holds what was last typed into it; fields are never dropped. */
  lemma {:induction false} ApplyChangesLastWins(form: Form, changes: seq<Change>, k: string)
    requires k in form
    ensures k in ApplyChanges(form, changes)
    ensures ApplyChanges(form, changes)[k] == LastValue(changes, k, form[k])
    decreases |changes|
  {
    if changes != [] {
      ApplyChangesLastWins(form, changes[..|changes| - 1], k);
    }
  }

  const PasswordAlert: string := "Password must be 6+ chars, with 1 uppercase and 1 lowercase letter."

  /** What `handleRegister` does: alert and return, or navigate. */
  datatype RegisterOutcome = Alert(message: string) | Navigate(path: string)

  /** `formData.password`; `RegExp.prototype.test` turns a missing value into the text "undefined". */
  function PasswordOf(form: Form): string {
    if "password" in form then form["password"] else "undefined"
  }

  /** `handleRegister`: a rejected password alerts and returns early; an accepted one navigates to "/". */
  function HandleRegister(form: Form): (o: RegisterOutcome)
    ensures o.Navigate? <==> PasswordRule(Utf16(PasswordOf(form)))
    ensures o.Navigate? ==> o.path == "/"
    ensures o.Alert? ==> o.message == PasswordAlert
  {
    PasswordRegexCharacterized(Utf16(PasswordOf(form)));
    if !PasswordRegexTest(Utf16(PasswordOf(form))) then Alert(PasswordAlert) else Navigate("/")
  }

  /** Registering after a run of edits checks the password last typed, starting from the empty form. */
  lemma RegisterChecksLastPassword(changes: seq<Change>)
    ensures HandleRegister(ApplyChanges(InitialForm, changes)).Navigate? <==>
            PasswordRule(Utf16(LastValue(changes, "password", "")))
  {
    ApplyChangesLastWins(InitialForm, changes, "password");
  }
}
