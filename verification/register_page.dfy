/**
 * The client's registration page: the password-strength score and its label, and
 * the checks `handleSubmit` makes before it sends the registration request.
 */
module RegisterPage {
  import opened Wrappers
  import opened Utf16

  const MISMATCH := "Passwords do not match"
  const TOO_WEAK := "Please choose a stronger password"
  const REGISTRATION_FAILED := "Registration failed"

  /** The four things each worth 25 points of strength. */
  datatype Criterion = Length | Upper | Digit | Symbol

  predicate IsUpper(c: CodeUnit) { 'A' as int <= c as int <= 'Z' as int }
  predicate IsLower(c: CodeUnit) { 'a' as int <= c as int <= 'z' as int }
  predicate IsDigit(c: CodeUnit) { '0' as int <= c as int <= '9' as int }

  /**
   * `/[^A-Za-z0-9]/`: any code unit but an ASCII letter or digit, so each half of a
   * surrogate pair is a symbol.
   */
  predicate IsSymbol(c: CodeUnit) { !IsUpper(c) && !IsLower(c) && !IsDigit(c) }

  predicate HasUpper(p: JsString) { exists i :: 0 <= i < |p| && IsUpper(p[i]) }
  predicate HasDigit(p: JsString) { exists i :: 0 <= i < |p| && IsDigit(p[i]) }
  predicate HasSymbol(p: JsString) { exists i :: 0 <= i < |p| && IsSymbol(p[i]) }

  /** The criteria a password meets; its length is `password.length`, in code units. */
  function Met(p: JsString): (m: set<Criterion>)
    ensures Length in m <==> |p| >= 8
    ensures Upper in m <==> exists i :: 0 <= i < |p| && IsUpper(p[i])
    ensures Digit in m <==> exists i :: 0 <= i < |p| && IsDigit(p[i])
    ensures Symbol in m <==> exists i :: 0 <= i < |p| && IsSymbol(p[i])
  {
    (if |p| >= 8 then {Length} else {})
    + (if HasUpper(p) then {Upper} else {})
    + (if HasDigit(p) then {Digit} else {})
    + (if HasSymbol(p) then {Symbol} else {})
  }

  /** The strength the page shows: 25 for each criterion met. */
  function Score(p: JsString): (s: nat)
    ensures s == 25 * |Met(p)|
    ensures s in {0, 25, 50, 75, 100}
  {
    var a := if |p| >= 8 then {Length} else {};
    var b := if HasUpper(p) then {Upper} else {};
    var c := if HasDigit(p) then {Digit} else {};
    var d := if HasSymbol(p) then {Symbol} else {};
    assert a !! b && (a + b) !! c && (a + b + c) !! d;
    25 * |Met(p)|
  }

  /** `getPasswordStrength`: 25 is added for each criterion that holds. */
  method PasswordStrength(password: JsString) returns (strength: nat)
    ensures strength == Score(password)
    ensures strength == 100 <==> |password| >= 8 && HasUpper(password) && HasDigit(password) && HasSymbol(password)
    ensures strength == 0 <==> |password| < 8 && !HasUpper(password) && !HasDigit(password) && !HasSymbol(password)
  {
    strength := 0;
    if |password| >= 8 {
      strength := strength + 25;
    }
    if HasUpper(password) {
      strength := strength + 25;
    }
    if HasDigit(password) {
      strength := strength + 25;
    }
    if HasSymbol(password) {
      strength := strength + 25;
    }
    var a := if |password| >= 8 then {Length} else {};
    var b := if HasUpper(password) then {Upper} else {};
    var c := if HasDigit(password) then {Digit} else {};
    var d := if HasSymbol(password) then {Symbol} else {};
    assert a !! b && (a + b) !! c && (a + b + c) !! d;
  }

  /** Extending a password never lowers its strength: every criterion met stays met. */
  lemma ScoreGrowsWithExtension(p: JsString, more: JsString)
    ensures Met(p) <= Met(p + more)
    ensures Score(p) <= Score(p + more)
  {
    var q := p + more;
    if HasUpper(p) {
      var i :| 0 <= i < |p| && IsUpper(p[i]);
      assert q[i] == p[i];
    }
    if HasDigit(p) {
      var i :| 0 <= i < |p| && IsDigit(p[i]);
      assert q[i] == p[i];
    }
    if HasSymbol(p) {
      var i :| 0 <= i < |p| && IsSymbol(p[i]);
      assert q[i] == p[i];
    }
    SubsetSize(Met(p), Met(q));
  }

  lemma SubsetSize(a: set<Criterion>, b: set<Criterion>)
    requires a <= b
    ensures |a| <= |b|
  {
    assert b == a + (b - a);
  }

  /**
   * Four emoji are eight code units, all of them symbols: the page scores such a
   * password 50, enough to send it, though it has four characters and no capital
   * or digit.
   */
  lemma EmojiPassword()
    ensures var p := Encode("\U{1F600}\U{1F600}\U{1F600}\U{1F600}");
      |p| == 8 && Met(p) == {Length, Symbol} && Score(p) == 50
  {
    var smile := "\U{1F600}";
    var pair := UnitsOf(smile[0]);
    assert Encode(smile) == pair;
    assert Encode(smile + smile) == pair + pair by {
      assert (smile + smile)[1..] == smile;
    }
    assert Encode(smile + smile + smile) == pair + pair + pair by {
      assert (smile + smile + smile)[1..] == smile + smile;
    }
    var text := smile + smile + smile + smile;
    assert text == "\U{1F600}\U{1F600}\U{1F600}\U{1F600}";
    assert Encode(text) == pair + pair + pair + pair by {
      assert text[1..] == smile + smile + smile;
    }
    var p := pair + pair + pair + pair;
    assert forall i :: 0 <= i < |p| ==> p[i] as int >= 0xD800;
    assert IsSymbol(p[0]);
    assert Met(p) == {Length, Symbol};
  }

  /** The label and Bootstrap variant shown under the password box. */
  datatype StrengthLabel = StrengthLabel(text: string, variant: string)

  /** `getPasswordStrengthLabel`: thresholds at 25, 50 and 75. */
  function LabelFor(strength: int): (l: StrengthLabel)
    ensures l.text == "Weak" <==> strength < 25
    ensures l.text == "Fair" <==> 25 <= strength < 50
    ensures l.text == "Good" <==> 50 <= strength < 75
    ensures l.text == "Strong" <==> strength >= 75
    ensures l.text in {"Weak", "Fair", "Good", "Strong"}
  {
    if strength < 25 then StrengthLabel("Weak", "danger")
    else if strength < 50 then StrengthLabel("Fair", "warning")
    else if strength < 75 then StrengthLabel("Good", "info")
    else StrengthLabel("Strong", "success")
  }

  /** For an actual password: Weak only at 0, Fair at 25, Good at 50, Strong at 75 or 100. */
  lemma LabelOfPassword(p: JsString)
    ensures LabelFor(Score(p)).text == "Weak" <==> |Met(p)| == 0
    ensures LabelFor(Score(p)).text == "Fair" <==> |Met(p)| == 1
    ensures LabelFor(Score(p)).text == "Good" <==> |Met(p)| == 2
    ensures LabelFor(Score(p)).text == "Strong" <==> |Met(p)| >= 3
  {
  }

  /** The body of the registration request. */
  datatype RegisterRequest = RegisterRequest(name: JsString, email: JsString, password: JsString)

  /** What the server did with a request: accepted it, or refused it with the body's message if any. */
  datatype ServerAnswer = Accepted | Refused(message: Option<string>)

  /** The form's state. */
  class RegisterForm {
    var name: JsString
    var email: JsString
    var password: JsString
    var confirmPassword: JsString
    var loading: bool
    var error: string

    constructor ()
      ensures name == [] && email == [] && password == [] && confirmPassword == []
      ensures !loading && error == ""
    {
      name, email, password, confirmPassword := [], [], [], [];
      loading, error := false, "";
    }

    /**
     * `handleSubmit`: a mismatched confirmation is reported first, then a strength
     * under 50; only then is the request sent, with `answer` standing for the
     * server's reply. A refusal shows the server's message, or "Registration failed"
     * when there is none or it is empty. The form is never left loading.
     */
    method HandleSubmit(answer: ServerAnswer) returns (sent: Option<RegisterRequest>)
      modifies this`loading, this`error
      ensures sent.Some? <==> password == confirmPassword && Score(password) >= 50
      ensures sent.Some? ==> sent.value == RegisterRequest(name, email, password)
      ensures password != confirmPassword ==> error == MISMATCH
      ensures password == confirmPassword && Score(password) < 50 ==> error == TOO_WEAK
      ensures sent.Some? && answer.Accepted? ==> error == ""
      ensures sent.Some? && answer.Refused? ==>
        error == if answer.message.Some? && answer.message.value != "" then answer.message.value
                 else REGISTRATION_FAILED
      ensures !loading
    {
      loading := true;
      error := "";
      if password != confirmPassword {
        error := MISMATCH;
        loading := false;
        return None;
      }
      var strength := PasswordStrength(password);
      if strength < 50 {
        error := TOO_WEAK;
        loading := false;
        return None;
      }
      sent := Some(RegisterRequest(name, email, password));
      match answer {
        case Accepted =>
        case Refused(message) =>
          error := if message.Some? && message.value != "" then message.value else REGISTRATION_FAILED;
      }
      loading := false;
    }
  }

  /**
   * A four-emoji password typed twice is sent; the same password with a different
   * confirmation is stopped with the mismatch message.
   */
  method SubmitExamples(form: RegisterForm, name: JsString, email: JsString)
    returns (emoji: Option<RegisterRequest>, mismatched: Option<RegisterRequest>)
    modifies form
    ensures emoji == Some(RegisterRequest(name, email, Encode("\U{1F600}\U{1F600}\U{1F600}\U{1F600}")))
    ensures mismatched.None? && form.error == MISMATCH && !form.loading
  {
    var p := Encode("\U{1F600}\U{1F600}\U{1F600}\U{1F600}");
    EmojiPassword();
    form.name, form.email := name, email;
    form.password, form.confirmPassword := p, p;
    emoji := form.HandleSubmit(Accepted);
    form.confirmPassword := p[..7];
    mismatched := form.HandleSubmit(Accepted);
  }
}
