/**
 * `isPasswordValid(password)`: the test of
 * `^(?=.*[a-z])(?=.*[A-Z])(?=.*\d)(?=.*[-._!"`'#%&,:;<>=@{}~$()*+/\\?[\]^|]).{8,}$`
 * (no flags) against the password's UTF-16 code units. `.` is any code unit
 * but a line terminator, and `$` only matches at the very end.
 */
module Password {
  import JsString

  /** The line terminators `.` does not match: LF, CR, LINE SEPARATOR, PARAGRAPH SEPARATOR. */
  predicate IsLineTerminator(x: int)
  {
    x == 0x0A || x == 0x0D || x == 0x2028 || x == 0x2029
  }

  predicate IsLower(x: int)
  {
    'a' as int <= x <= 'z' as int
  }

  predicate IsUpper(x: int)
  {
    'A' as int <= x <= 'Z' as int
  }

  /** `\d` without the `u` flag: the ASCII digits. */
  predicate IsDigit(x: int)
  {
    '0' as int <= x <= '9' as int
  }

  /** The characters of the fourth lookahead's class. */
  const SpecialChars: set<char> := {
    '-', '.', '_', '!', '"', '`', '\'', '#', '%', '&', ',', ':', ';', '<', '>', '=',
    '@', '{', '}', '~', '$', '(', ')', '*', '+', '/', '\\', '?', '[', ']', '^', '|'
  }

  predicate IsSpecial(x: int)
  {
    x in set c | c in SpecialChars :: c as int
  }

  /** `(?=.*cls)` at position i: after some run of non-terminators, a code unit of the class. */
  predicate LookaheadFinds(u: seq<int>, i: nat, cls: int -> bool)
    requires i <= |u|
    decreases |u| - i
  {
    if i == |u| then false
    else if cls(u[i]) then true
    else if IsLineTerminator(u[i]) then false
    else LookaheadFinds(u, i + 1, cls)
  }

  /** `.{n,}$` at position i: at least n more code units, none of them a line terminator, up to the end. */
  predicate DotsToEnd(u: seq<int>, i: nat, n: nat)
    requires i <= |u|
    decreases |u| - i
  {
    if i == |u| then n == 0
    else !IsLineTerminator(u[i]) && DotsToEnd(u, i + 1, if n == 0 then 0 else n - 1)
  }

  /** The whole pattern, anchored at the start. */
  predicate Matches(u: seq<int>)
  {
    && LookaheadFinds(u, 0, IsLower)
    && LookaheadFinds(u, 0, IsUpper)
    && LookaheadFinds(u, 0, IsDigit)
    && LookaheadFinds(u, 0, IsSpecial)
    && DotsToEnd(u, 0, 8)
  }

  predicate IsPasswordValid(password: string)
  {
    Matches(JsString.CodeUnits(password))
  }

  // The requirements the pattern encodes, stated on characters.

  predicate NoLineTerminator(s: string)
  {
    forall i :: 0 <= i < |s| ==> !IsLineTerminator(s[i] as int)
  }

  predicate HasLower(s: string)
  {
    exists i :: 0 <= i < |s| && 'a' <= s[i] <= 'z'
  }

  predicate HasUpper(s: string)
  {
    exists i :: 0 <= i < |s| && 'A' <= s[i] <= 'Z'
  }

  predicate HasDigit(s: string)
  {
    exists i :: 0 <= i < |s| && '0' <= s[i] <= '9'
  }

  predicate HasSpecial(s: string)
  {
    exists i :: 0 <= i < |s| && s[i] in SpecialChars
  }

  /** A lookahead finds its class exactly when, before any line terminator, some code unit is in it. */
  lemma {:induction false} LookaheadFindsMeans(u: seq<int>, i: nat, cls: int -> bool)
    requires i <= |u|
    requires forall x :: cls(x) ==> !IsLineTerminator(x)
    ensures LookaheadFinds(u, i, cls) <==>
      exists k :: i <= k < |u| && cls(u[k]) && forall j :: i <= j < k ==> !IsLineTerminator(u[j])
    decreases |u| - i
  {
    if i < |u| {
      LookaheadFindsMeans(u, i + 1, cls);
      if !cls(u[i]) && !IsLineTerminator(u[i]) && !LookaheadFinds(u, i, cls) {
        forall k | i <= k < |u| && cls(u[k])
          ensures exists j :: i <= j < k && IsLineTerminator(u[j])
        {
          assert k != i;
        }
      }
    }
  }

  /** `.{n,}$` holds exactly when at least n code units are left and none of them is a line terminator. */
  lemma {:induction false} DotsToEndMeans(u: seq<int>, i: nat, n: nat)
    requires i <= |u|
    ensures DotsToEnd(u, i, n) <==> |u| - i >= n && forall j :: i <= j < |u| ==> !IsLineTerminator(u[j])
    decreases |u| - i
  {
    if i < |u| {
      DotsToEndMeans(u, i + 1, if n == 0 then 0 else n - 1);
    }
  }

  /** The string has no line terminator exactly when none of its code units is one. */
  lemma NoLineTerminatorIff(s: string)
    ensures NoLineTerminator(s) <==> forall j :: 0 <= j < |JsString.CodeUnits(s)| ==> !IsLineTerminator(JsString.CodeUnits(s)[j])
  {
    JsString.SomeUnitIffSomeChar(s, IsLineTerminator);
  }

  /** Without line terminators, a lookahead for an ASCII class finds it exactly when some character is in it. */
  lemma LookaheadIffSomeChar(s: string, cls: int -> bool)
    requires forall x :: cls(x) ==> 0 <= x < 0x80 && !IsLineTerminator(x)
    requires NoLineTerminator(s)
    ensures LookaheadFinds(JsString.CodeUnits(s), 0, cls) <==> exists i :: 0 <= i < |s| && cls(s[i] as int)
  {
    var u := JsString.CodeUnits(s);
    NoLineTerminatorIff(s);
    LookaheadFindsMeans(u, 0, cls);
    JsString.SomeUnitIffSomeChar(s, cls);
  }

  lemma SpecialIff(s: string)
    ensures HasSpecial(s) <==> exists i :: 0 <= i < |s| && IsSpecial(s[i] as int)
  {
    forall i | 0 <= i < |s|
      ensures s[i] in SpecialChars <==> IsSpecial(s[i] as int)
    {
      if IsSpecial(s[i] as int) {
        var c :| c in SpecialChars && c as int == s[i] as int;
        assert c == s[i];
      }
    }
  }

  lemma LowerLookaheadIff(s: string)
    requires NoLineTerminator(s)
    ensures LookaheadFinds(JsString.CodeUnits(s), 0, IsLower) <==> HasLower(s)
  {
    LookaheadIffSomeChar(s, IsLower);
    assert HasLower(s) <==> exists i :: 0 <= i < |s| && IsLower(s[i] as int);
  }

  lemma UpperLookaheadIff(s: string)
    requires NoLineTerminator(s)
    ensures LookaheadFinds(JsString.CodeUnits(s), 0, IsUpper) <==> HasUpper(s)
  {
    LookaheadIffSomeChar(s, IsUpper);
    assert HasUpper(s) <==> exists i :: 0 <= i < |s| && IsUpper(s[i] as int);
  }

  lemma DigitLookaheadIff(s: string)
    requires NoLineTerminator(s)
    ensures LookaheadFinds(JsString.CodeUnits(s), 0, IsDigit) <==> HasDigit(s)
  {
    LookaheadIffSomeChar(s, IsDigit);
    assert HasDigit(s) <==> exists i :: 0 <= i < |s| && IsDigit(s[i] as int);
  }

  lemma SpecialLookaheadIff(s: string)
    requires NoLineTerminator(s)
    ensures LookaheadFinds(JsString.CodeUnits(s), 0, IsSpecial) <==> HasSpecial(s)
  {
    LookaheadIffSomeChar(s, IsSpecial);
    SpecialIff(s);
  }

  /**
   * A password is valid exactly when it is at least 8 code units long, has
   * no line terminator, and has an ASCII lower-case letter, an ASCII
   * upper-case letter, an ASCII digit and one of the special characters.
   */
  lemma PasswordValidIff(s: string)
    ensures IsPasswordValid(s) <==>
      && JsString.Length(s) >= 8
      && NoLineTerminator(s)
      && HasLower(s) && HasUpper(s) && HasDigit(s) && HasSpecial(s)
  {
    var u := JsString.CodeUnits(s);
    DotsToEndMeans(u, 0, 8);
    NoLineTerminatorIff(s);
    if NoLineTerminator(s) {
      LowerLookaheadIff(s);
      UpperLookaheadIff(s);
      DigitLookaheadIff(s);
      SpecialLookaheadIff(s);
    }
  }

  /** Any string holding a line terminator is rejected, whatever else it holds. */
  lemma LineTerminatorInvalid(s: string, i: nat)
    requires i < |s| && IsLineTerminator(s[i] as int)
    ensures !IsPasswordValid(s)
  {
    PasswordValidIff(s);
  }

  /** A valid password stays valid when characters other than line terminators are appended. */
  lemma AppendKeepsValid(s: string, t: string)
    requires IsPasswordValid(s)
    requires NoLineTerminator(t)
    ensures IsPasswordValid(s + t)
  {
    PasswordValidIff(s);
    PasswordValidIff(s + t);
    JsString.CodeUnitsAppend(s, t);
    var st := s + t;
    assert forall i :: 0 <= i < |s| ==> st[i] == s[i];
    assert forall i :: |s| <= i < |st| ==> st[i] == t[i - |s|];
  }
}
