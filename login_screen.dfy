/**
 * The login screen: its email check is an ordered chain of messages ending
 * in a test of `^[^\s@]+@[^\s@]+\.[^\s@]+$`, and `login` signs in only when
 * the chain has nothing to say.
 */
module LoginScreenModel {
  import opened Common
  import JsArray
  import JsString
  import Password
  import opened AuthenticationStoreModel

  /** `\s`: the ECMAScript white space and line terminator code units. */
  predicate IsWhitespace(x: int)
  {
    || x == 0x09 || x == 0x0A || x == 0x0B || x == 0x0C || x == 0x0D || x == 0x20
    || x == 0xA0 || x == 0x1680 || (0x2000 <= x <= 0x200A)
    || x == 0x2028 || x == 0x2029 || x == 0x202F || x == 0x205F || x == 0x3000 || x == 0xFEFF
  }

  const At: int := '@' as int
  const Dot: int := '.' as int

  /** `[^\s@]`. */
  predicate Clean(x: int)
  {
    !IsWhitespace(x) && x != At
  }

  predicate AllClean(u: seq<int>)
  {
    forall i :: 0 <= i < |u| ==> Clean(u[i])
  }

  /** Some position in [i, j) holds a '.'. */
  predicate HasDotIn(u: seq<int>, i: nat, j: nat)
    requires i <= j <= |u|
    decreases j - i
  {
    i < j && (u[i] == Dot || HasDotIn(u, i + 1, j))
  }

  /**
   * How the pattern is matched: the '@' the local part stops at is the first
   * one; nothing before it and nothing after it may be white space or a
   * further '@'; and the domain needs a '.' with at least one code unit on
   * either side.
   */
  predicate EmailPatternTest(u: seq<int>)
  {
    var p := JsArray.IndexOf(u, At);
    && 0 < p
    && AllClean(u[..p])
    && AllClean(u[p + 1..])
    && p + 2 <= |u| - 1
    && HasDotIn(u, p + 2, |u| - 1)
  }

  /** The language of the pattern: local part, '@', domain head, '.', top-level part, each one or more clean code units. */
  predicate SplitsAt(u: seq<int>, p: int, q: int)
  {
    && 0 < p < q - 1 && q + 1 < |u|
    && u[p] == At && u[q] == Dot
    && AllClean(u[..p]) && AllClean(u[p + 1..q]) && AllClean(u[q + 1..])
  }

  lemma {:induction false} HasDotInWitness(u: seq<int>, i: nat, j: nat) returns (q: nat)
    requires i <= j <= |u|
    requires HasDotIn(u, i, j)
    ensures i <= q < j && u[q] == Dot
    decreases j - i
  {
    if u[i] == Dot {
      q := i;
    } else {
      q := HasDotInWitness(u, i + 1, j);
    }
  }

  lemma {:induction false} HasDotInWhenThere(u: seq<int>, i: nat, j: nat, q: nat)
    requires i <= q < j <= |u| && u[q] == Dot
    ensures HasDotIn(u, i, j)
    decreases j - i
  {
    if u[i] != Dot {
      HasDotInWhenThere(u, i + 1, j, q);
    }
  }

  /** The test accepts exactly the code-unit sequences of the pattern's language. */
  lemma EmailPatternIff(u: seq<int>)
    ensures EmailPatternTest(u) <==> exists p, q :: SplitsAt(u, p, q)
  {
    var p := JsArray.IndexOf(u, At);
    if EmailPatternTest(u) {
      var q := HasDotInWitness(u, p + 2, |u| - 1);
      assert u[p + 1..q] == u[p + 1..][..q - p - 1];
      assert u[q + 1..] == u[p + 1..][q - p..];
      assert SplitsAt(u, p, q);
    }
    if exists p', q' :: SplitsAt(u, p', q') {
      var p', q' :| SplitsAt(u, p', q');
      assert forall k :: 0 <= k < p' ==> u[k] != At by {
        forall k | 0 <= k < p' ensures u[k] != At {
          assert u[..p'][k] == u[k];
        }
      }
      assert p == p';
      var tail := u[p + 1..];
      forall k | 0 <= k < |tail|
        ensures Clean(tail[k])
      {
        var m := p + 1 + k;
        if m < q' {
          assert u[p + 1..q'][k] == u[m];
        } else if m > q' {
          assert u[q' + 1..][m - q' - 1] == u[m];
        }
      }
      HasDotInWhenThere(u, p + 2, |u| - 1, q');
    }
  }

  /** Every local@head.top with non-empty clean parts passes. */
  lemma EmailPatternAccepts(a: seq<int>, b: seq<int>, c: seq<int>)
    requires a != [] && b != [] && c != []
    requires AllClean(a) && AllClean(b) && AllClean(c)
    ensures EmailPatternTest(a + [At] + b + [Dot] + c)
  {
    var u := a + [At] + b + [Dot] + c;
    var p, q := |a|, |a| + 1 + |b|;
    assert u[..p] == a;
    assert u[p + 1..q] == b;
    assert u[q + 1..] == c;
    assert SplitsAt(u, p, q);
    EmailPatternIff(u);
  }

  const Blank: string := "can't be blank"
  const TooShort: string := "must be at least 6 characters"
  const Malformed: string := "must be a valid email address"

  /**
   * `validationError()`: the first message that applies, in the order
   * blank, shorter than 6 code units, not matching the pattern; "" when
   * none does.
   */
  function ValidationError(email: string): (r: string)
    ensures r == "" <==> JsString.Length(email) >= 6 && exists p, q :: SplitsAt(JsString.CodeUnits(email), p, q)
    ensures email == [] <==> r == Blank
    ensures 0 < JsString.Length(email) < 6 <==> r == TooShort
    ensures r in {Blank, TooShort, Malformed, ""}
  {
    EmailPatternIff(JsString.CodeUnits(email));
    var n := JsString.Length(email);
    if n == 0 then Blank
    else if n < 6 then TooShort
    else if !EmailPatternTest(JsString.CodeUnits(email)) then Malformed
    else ""
  }

  const DefaultEmail: string := "user@email.com"
  const DefaultPassword: string := "ThisIsStrong1!"

  /** An address of clean parts at least 6 code units long draws no message. */
  lemma ValidationErrorAccepts(a: string, b: string, c: string)
    requires a != [] && b != [] && c != []
    requires AllClean(JsString.CodeUnits(a)) && AllClean(JsString.CodeUnits(b)) && AllClean(JsString.CodeUnits(c))
    requires JsString.Length(a) + JsString.Length(b) + JsString.Length(c) >= 4
    ensures ValidationError(a + "@" + b + "." + c) == ""
  {
    var ua, ub, uc := JsString.CodeUnits(a), JsString.CodeUnits(b), JsString.CodeUnits(c);
    assert JsString.CodeUnits("@") == [At];
    assert JsString.CodeUnits(".") == [Dot];
    JsString.CodeUnitsAppend(a, "@");
    JsString.CodeUnitsAppend(a + "@", b);
    JsString.CodeUnitsAppend(a + "@" + b, ".");
    JsString.CodeUnitsAppend(a + "@" + b + ".", c);
    EmailPatternAccepts(ua, ub, uc);
    EmailPatternIff(ua + [At] + ub + [Dot] + uc);
  }

  class LoginScreen {
    var authEmail: string
    var authPassword: string
    var hasBeenTouched: bool
    var isAuthPasswordHidden: bool

    constructor ()
      ensures authEmail == "" && authPassword == "" && !hasBeenTouched && isAuthPasswordHidden
    {
      authEmail := "";
      authPassword := "";
      hasBeenTouched := false;
      isAuthPasswordHidden := true;
    }

    /** The mount effect: demo credentials are filled in. */
    method PrefillCredentials()
      modifies this
      ensures authEmail == DefaultEmail && authPassword == DefaultPassword
      ensures hasBeenTouched == old(hasBeenTouched) && isAuthPasswordHidden == old(isAuthPasswordHidden)
    {
      authEmail := DefaultEmail;
      authPassword := DefaultPassword;
    }

    /** The unmount cleanup: both fields are emptied and the email field is untouched again. */
    method ClearCredentials()
      modifies this
      ensures authEmail == "" && authPassword == "" && !hasBeenTouched
      ensures isAuthPasswordHidden == old(isAuthPasswordHidden)
    {
      authEmail := "";
      authPassword := "";
      hasBeenTouched := false;
    }

    /** Leaving the email field marks it touched; its message is shown from then on. */
    method TouchEmail()
      modifies this
      ensures hasBeenTouched
      ensures authEmail == old(authEmail) && authPassword == old(authPassword) && isAuthPasswordHidden == old(isAuthPasswordHidden)
    {
      hasBeenTouched := true;
    }

    /** `login`: signs in with the entered credentials only when `validationError()` is "". */
    method Login(store: AuthenticationStore, response: Response<User>) returns (sent: Option<Credentials>)
      modifies store
      ensures sent.Some? <==> ValidationError(authEmail) == ""
      ensures sent.Some? ==> sent.value == Credentials(authEmail, authPassword)
      ensures sent.Some? && response.Ok? ==> store.user == Some(response.payload)
      ensures sent.None? || response.Problem? ==> store.user == old(store.user)
    {
      if ValidationError(authEmail) != "" {
        return None;
      }
      var credentials, _ := store.SignIn(authEmail, authPassword, response);
      sent := Some(credentials);
    }
  }
}
