/**
 * The pure string logic of the login form on the home page: the e-mail and
 * password validators, the input sanitiser, the password length cap and the
 * composition of the e-mail address from its two input fields.
 */
module LoginValidation {
  import opened Wrappers
  import opened JsString

  const EmailRequired := "이메일을 입력해주세요."
  const EmailFormat := "올바른 이메일 형식이 아닙니다."
  const PasswordRequired := "비밀번호를 입력해주세요."
  const PasswordFormat := "영문, 숫자, 특수문자를 포함하여 8~16자로 입력해주세요."

  // ---------------------------------------------------------------------
  // Character classes of the e-mail pattern /^[\w-\.]+@([\w-]+\.)+[\w-]{2,4}$/
  // ---------------------------------------------------------------------

  /** `\w` without the `u` or `i` flag: ASCII letters, digits and `_`. */
  predicate IsWordChar(c: char) {
    ('a' <= c <= 'z') || ('A' <= c <= 'Z') || ('0' <= c <= '9') || c == '_'
  }

  /** `[\w-\.]`: the `-` after a class escape is a literal `-`. */
  predicate IsLocalChar(c: char) { IsWordChar(c) || c == '-' || c == '.' }

  /** `[\w-]` */
  predicate IsLabelChar(c: char) { IsWordChar(c) || c == '-' }

  predicate AllLocalChars(s: string) { forall i :: 0 <= i < |s| ==> IsLocalChar(s[i]) }

  predicate AllLabelChars(s: string) { forall i :: 0 <= i < |s| ==> IsLabelChar(s[i]) }

  /** `[\w-\.]+` */
  predicate IsLocalPart(u: string) { |u| >= 1 && AllLocalChars(u) }

  /** `[\w-]+`, the label of one `([\w-]+\.)` group. */
  predicate IsLabel(g: string) { |g| >= 1 && AllLabelChars(g) }

  predicate AllLabels(gs: seq<string>) { forall i :: 0 <= i < |gs| ==> IsLabel(gs[i]) }

  /** `[\w-]{2,4}` */
  predicate IsTld(t: string) { 2 <= |t| <= 4 && AllLabelChars(t) }

  /** The text matched by the groups `g0.g1. ... gk.` */
  function Groups(gs: seq<string>): string {
    if gs == [] then "" else gs[0] + "." + Groups(gs[1..])
  }

  /** `([\w-]+\.)+[\w-]{2,4}`: one or more dotted groups, then a 2 to 4 character label. */
  ghost predicate DomainPattern(d: string) {
    exists gs: seq<string>, tld: string :: |gs| >= 1 && AllLabels(gs) && IsTld(tld) && d == Groups(gs) + tld
  }

  /** The whole e-mail pattern, read as a regular expression. */
  ghost predicate EmailPattern(s: string) {
    exists user: string, domain: string :: IsLocalPart(user) && DomainPattern(domain) && s == user + "@" + domain
  }

  // ---------------------------------------------------------------------
  // A matcher for the e-mail pattern, scanning for '@' and '.'
  // ---------------------------------------------------------------------

  /**
   * Matches `([\w-]+\.)* [\w-]{2,4}` (when `seenGroup`) or
   * `([\w-]+\.)+ [\w-]{2,4}` (otherwise).  No label character is a '.', so
   * each group ends at the next '.'.
   */
  predicate MatchDomain(d: string, seenGroup: bool)
    decreases |d|
  {
    match IndexOf(d, '.')
    case None => seenGroup && IsTld(d)
    case Some(j) => j >= 1 && AllLabelChars(d[..j]) && MatchDomain(d[j + 1..], true)
  }

  /** No local character is '@', so the local part ends at the first '@'. */
  predicate MatchEmail(s: string) {
    match IndexOf(s, '@')
    case None => false
    case Some(i) => i >= 1 && AllLocalChars(s[..i]) && MatchDomain(s[i + 1..], false)
  }

  /** Everything the domain pattern describes, the matcher accepts. */
  lemma {:induction false} MatchDomainComplete(gs: seq<string>, tld: string, seenGroup: bool)
    requires AllLabels(gs) && IsTld(tld) && (seenGroup || |gs| >= 1)
    ensures MatchDomain(Groups(gs) + tld, seenGroup)
  {
    var d := Groups(gs) + tld;
    if gs == [] {
      assert d == tld;
      assert '.' !in tld;
    } else {
      var rest := Groups(gs[1..]) + tld;
      assert d == gs[0] + ['.'] + rest;
      assert '.' !in gs[0];
      IndexOfAfter(gs[0], '.', rest);
      var j := |gs[0]|;
      assert d[..j] == gs[0] && d[j + 1..] == rest;
      MatchDomainComplete(gs[1..], tld, true);
    }
  }

  /** Everything the matcher accepts, the domain pattern describes; returns the groups. */
  lemma {:induction false} MatchDomainSound(d: string, seenGroup: bool) returns (gs: seq<string>, tld: string)
    requires MatchDomain(d, seenGroup)
    ensures AllLabels(gs) && IsTld(tld) && (seenGroup || |gs| >= 1)
    ensures d == Groups(gs) + tld
    decreases |d|
  {
    var head, tail := MatchDomainUnfold(d, seenGroup);
    if head.None? {
      gs, tld := [], d;
      assert Groups(gs) == "";
    } else {
      var more, t := MatchDomainSound(tail, true);
      gs, tld := [head.value] + more, t;
      GroupsCons(head.value, more, t);
    }
  }

  /** One step of the domain matcher: the last label, or a first group and the rest. */
  lemma MatchDomainUnfold(d: string, seenGroup: bool) returns (head: Option<string>, tail: string)
    requires MatchDomain(d, seenGroup)
    ensures head.None? ==> seenGroup && IsTld(d)
    ensures head.Some? ==> IsLabel(head.value) && MatchDomain(tail, true) && |tail| < |d|
    ensures head.Some? ==> d == head.value + "." + tail
  {
    var found := IndexOf(d, '.');
    if found.None? {
      head, tail := None, d;
    } else {
      var j := found.value;
      head, tail := Some(d[..j]), d[j + 1..];
      SplitAround(d, j);
    }
  }

  lemma SplitAround(s: string, i: nat)
    requires i < |s|
    ensures s == s[..i] + [s[i]] + s[i + 1..]
  {
  }

  lemma GroupsCons(head: string, more: seq<string>, t: string)
    ensures Groups([head] + more) + t == head + "." + (Groups(more) + t)
    ensures IsLabel(head) && AllLabels(more) ==> AllLabels([head] + more)
  {
    var gs := [head] + more;
    assert gs[0] == head && gs[1..] == more;
    if IsLabel(head) && AllLabels(more) {
      forall i | 0 <= i < |gs| ensures IsLabel(gs[i]) {
        if i > 0 { assert gs[i] == more[i - 1]; }
      }
    }
  }

  lemma MatchEmailSound(s: string)
    requires MatchEmail(s)
    ensures EmailPattern(s)
  {
    var i := IndexOf(s, '@').value;
    var user, domain := s[..i], s[i + 1..];
    var gs, tld := MatchDomainSound(domain, false);
    SplitAround(s, i);
    EmailPatternIntro(user, domain, gs, tld);
  }

  lemma EmailPatternIntro(user: string, domain: string, gs: seq<string>, tld: string)
    requires IsLocalPart(user) && |gs| >= 1 && AllLabels(gs) && IsTld(tld) && domain == Groups(gs) + tld
    ensures EmailPattern(user + "@" + domain)
  {
    assert DomainPattern(domain);
  }

  lemma MatchEmailComplete(user: string, domain: string)
    requires IsLocalPart(user) && DomainPattern(domain)
    ensures MatchEmail(user + "@" + domain)
  {
    var s := user + "@" + domain;
    var gs, tld :| |gs| >= 1 && AllLabels(gs) && IsTld(tld) && domain == Groups(gs) + tld;
    assert '@' !in user;
    IndexOfAfter(user, '@', domain);
    assert s[..|user|] == user && s[|user| + 1..] == domain;
    MatchDomainComplete(gs, tld, false);
  }

  /** The matcher decides exactly the e-mail pattern. */
  lemma MatchEmailCorrect(s: string)
    ensures MatchEmail(s) <==> EmailPattern(s)
  {
    if MatchEmail(s) {
      MatchEmailSound(s);
    }
    if EmailPattern(s) {
      var user, domain :| IsLocalPart(user) && DomainPattern(domain) && s == user + "@" + domain;
      MatchEmailComplete(user, domain);
    }
  }

  // ---------------------------------------------------------------------
  // validateEmail
  // ---------------------------------------------------------------------

  /**
   * `validateEmail`: the "enter e-mail" message for the empty string, the
   * format message for a non-matching one, `''` for a valid address.  (The
   * pattern carries the `g` flag, but a fresh regular expression is built on
   * every call, so `test` always starts at index 0.)
   */
  function ValidateEmail(s: string): (r: string)
    ensures s == "" ==> r == EmailRequired
    ensures s != "" && !EmailPattern(s) ==> r == EmailFormat
    ensures r == "" <==> s != "" && EmailPattern(s)
    ensures r == "" || r == EmailRequired || r == EmailFormat
  {
    MatchEmailCorrect(s);
    if s == "" then EmailRequired
    else if !MatchEmail(s) then EmailFormat
    else ""
  }

  lemma {:induction false} GroupsAvoid(gs: seq<string>, c: char)
    requires AllLabels(gs) && !IsLabelChar(c) && c != '.'
    ensures c !in Groups(gs)
  {
    if gs != [] {
      GroupsAvoid(gs[1..], c);
      assert c !in gs[0];
    }
  }

  lemma DomainAvoidsAt(d: string)
    requires DomainPattern(d)
    ensures '@' !in d
  {
    var gs, tld :| |gs| >= 1 && AllLabels(gs) && IsTld(tld) && d == Groups(gs) + tld;
    GroupsAvoid(gs, '@');
    assert '@' !in tld;
  }

  /** A string with a single '@' splits around it in only one way. */
  lemma SplitAtUnique(u: string, d: string, user: string, domain: string)
    requires '@' !in u && '@' !in d && u + "@" + d == user + "@" + domain
    ensures u == user && d == domain
  {
    var s := u + "@" + d;
    assert multiset(s) == multiset(u) + multiset("@") + multiset(d);
    assert multiset(s) == multiset(user) + multiset("@") + multiset(domain);
    assert multiset(s)['@'] == 1;
    assert multiset(user)['@'] == 0;
    IndexOfAfter(u, '@', d);
    IndexOfAfter(user, '@', domain);
    assert |u| == |user|;
    assert u == s[..|u|] && user == s[..|user|];
    assert d == s[|u| + 1..] && domain == s[|user| + 1..];
  }

  /**
   * An address composed as `user@domain` is valid exactly when `user` is a
   * valid local part and `domain` a valid domain: the '@' can only be the
   * one written between them.
   */
  lemma ComposedEmailValid(user: string, domain: string)
    ensures ValidateEmail(user + "@" + domain) == "" <==> IsLocalPart(user) && DomainPattern(domain)
  {
    var s := user + "@" + domain;
    if EmailPattern(s) {
      var u, d :| IsLocalPart(u) && DomainPattern(d) && s == u + "@" + d;
      DomainAvoidsAt(d);
      assert '@' !in u;
      SplitAtUnique(u, d, user, domain);
    }
  }

  // ---------------------------------------------------------------------
  // validatePassword: /^(?=.*[a-zA-Z])(?=.*[0-9])(?=.*[specials]).{8,16}$/
  // ---------------------------------------------------------------------

  /** The characters `.` does not match (no `s` flag). */
  predicate IsLineTerminator(c: char) {
    c == '\n' || c == '\r' || c == '\U{2028}' || c == '\U{2029}'
  }

  predicate IsAsciiLetter(c: char) { ('a' <= c <= 'z') || ('A' <= c <= 'Z') }

  /** The class `[!@#$%^&*()_+\-=\[\]{};':"\\|,.<>\/?]`. */
  const PasswordSpecials: set<char> := {
    '!', '@', '#', '$', '%', '^', '&', '*', '(', ')', '_', '+', '-', '=', '[', ']',
    '{', '}', ';', '\'', ':', '"', '\\', '|', ',', '.', '<', '>', '/', '?'
  }

  predicate IsPasswordSpecial(c: char) { c in PasswordSpecials }

  predicate NoLineTerminator(s: string) { forall i :: 0 <= i < |s| ==> !IsLineTerminator(s[i]) }

  /** A lookahead `(?=.*[class])` at the start of `s`. */
  predicate LookaheadFinds(s: string, inClass: char -> bool) {
    exists i :: 0 <= i < |s| && NoLineTerminator(s[..i]) && inClass(s[i])
  }

  /** The password pattern, read as a regular expression. */
  predicate PasswordPattern(s: string) {
    && LookaheadFinds(s, IsAsciiLetter)
    && LookaheadFinds(s, IsDigitChar)
    && LookaheadFinds(s, IsPasswordSpecial)
    && 8 <= |s| <= 16 && NoLineTerminator(s)
  }

  /** The password rule in plain words: 8 to 16 characters on one line, with a letter, a digit and a special character. */
  ghost predicate PasswordRule(s: string) {
    && 8 <= |s| <= 16 && NoLineTerminator(s)
    && (exists i :: 0 <= i < |s| && IsAsciiLetter(s[i]))
    && (exists i :: 0 <= i < |s| && IsDigitChar(s[i]))
    && (exists i :: 0 <= i < |s| && IsPasswordSpecial(s[i]))
  }

  /** Once `.{8,16}$` has ruled out line terminators, each lookahead only asks for an occurrence. */
  lemma PasswordPatternIsRule(s: string)
    ensures PasswordPattern(s) <==> PasswordRule(s)
  {
    if PasswordRule(s) {
      forall inClass: char -> bool | exists i :: 0 <= i < |s| && inClass(s[i])
        ensures LookaheadFinds(s, inClass)
      {
        var i :| 0 <= i < |s| && inClass(s[i]);
        assert NoLineTerminator(s[..i]);
      }
    }
  }

  /** `validatePassword` */
  function ValidatePassword(s: string): (r: string)
    ensures s == "" ==> r == PasswordRequired
    ensures s != "" && !PasswordRule(s) ==> r == PasswordFormat
    ensures r == "" <==> PasswordRule(s)
    ensures r == "" || r == PasswordRequired || r == PasswordFormat
  {
    PasswordPatternIsRule(s);
    if s == "" then PasswordRequired
    else if !PasswordPattern(s) then PasswordFormat
    else ""
  }

  // ---------------------------------------------------------------------
  // The sanitiser s.replace(/[ㄱ-ㅎ|ㅏ-ㅣ|가-힣]/g, '')
  // ---------------------------------------------------------------------

  /**
   * The class `[ㄱ-ㅎ|ㅏ-ㅣ|가-힣]`: Hangul compatibility consonants and
   * vowels, precomposed Hangul syllables, and `|`, which inside a class is a
   * literal character and not an alternation.
   */
  predicate IsStripped(c: char) {
    || ('\U{3131}' <= c <= '\U{314E}')
    || ('\U{314F}' <= c <= '\U{3163}')
    || ('\U{AC00}' <= c <= '\U{D7A3}')
    || c == '|'
  }

  predicate IsClean(s: string) { forall i :: 0 <= i < |s| ==> !IsStripped(s[i]) }

  /** Deletes every character of the class and keeps the rest. */
  function Sanitize(s: string): (r: string)
    ensures |r| <= |s|
    ensures IsClean(r)
    ensures IsClean(s) ==> r == s
  {
    if s == [] then []
    else (if IsStripped(s[0]) then [] else [s[0]]) + Sanitize(s[1..])
  }

  /** Sanitising twice is sanitising once. */
  lemma SanitizeIdempotent(s: string)
    ensures Sanitize(Sanitize(s)) == Sanitize(s)
  {
  }

  /** The sanitiser works character by character, so it keeps the order of what it keeps. */
  lemma {:induction false} SanitizeConcat(a: string, b: string)
    ensures Sanitize(a + b) == Sanitize(a) + Sanitize(b)
  {
    if a != [] {
      assert (a + b)[1..] == a[1..] + b;
      SanitizeConcat(a[1..], b);
    } else {
      assert a + b == b;
    }
  }

  /** A character survives exactly when it was there and is not in the class. */
  lemma {:induction false} SanitizeKeeps(s: string, c: char)
    ensures c in Sanitize(s) <==> c in s && !IsStripped(c)
  {
    if s != [] {
      SanitizeKeeps(s[1..], c);
      assert s == [s[0]] + s[1..];
    }
  }

  // ---------------------------------------------------------------------
  // handlePasswordChange: sanitise, then keep at most 16 characters
  // ---------------------------------------------------------------------

  const MaxPasswordLength := 16

  /** The value `handlePasswordChange` stores for a typed value `raw`. */
  function StoredPassword(raw: string): (r: string)
    ensures |r| == if |Sanitize(raw)| > MaxPasswordLength then MaxPasswordLength else |Sanitize(raw)|
    ensures r == Sanitize(raw)[..|r|]
  {
    var p := Sanitize(raw);
    if |p| > MaxPasswordLength then p[..MaxPasswordLength] else p
  }

  /** The stored password is clean and never longer than 16 characters. */
  lemma StoredPasswordClean(raw: string)
    ensures |StoredPassword(raw)| <= MaxPasswordLength
    ensures IsClean(StoredPassword(raw))
  {
    var p := Sanitize(raw);
    assert forall i :: 0 <= i < |StoredPassword(raw)| ==> StoredPassword(raw)[i] == p[i];
  }

  /**
   * `|` is both stripped by the sanitiser and listed as a special character,
   * so a stored password is accepted only through another special character.
   */
  lemma StoredPasswordNeedsOtherSpecial(raw: string)
    requires ValidatePassword(StoredPassword(raw)) == ""
    ensures exists i :: 0 <= i < |StoredPassword(raw)| && IsPasswordSpecial(StoredPassword(raw)[i]) && StoredPassword(raw)[i] != '|'
  {
    var p := StoredPassword(raw);
    StoredPasswordClean(raw);
    var i :| 0 <= i < |p| && IsPasswordSpecial(p[i]);
    assert !IsStripped(p[i]);
  }

  lemma AlphanumericNotSpecial(c: char)
    requires IsAsciiLetter(c) || IsDigitChar(c)
    ensures !IsPasswordSpecial(c)
  {
  }

  lemma AcceptsBarPassword()
    ensures ValidatePassword("abcdefg1|") == ""
  {
    var s := "abcdefg1|";
    assert IsAsciiLetter(s[0]) && IsDigitChar(s[7]) && IsPasswordSpecial(s[8]);
    assert PasswordRule(s);
  }

  lemma RejectsBarlessPassword()
    ensures ValidatePassword("abcdefg1") == PasswordFormat
  {
    var p := "abcdefg1";
    assert !PasswordRule(p) by {
      forall i | 0 <= i < |p| ensures !IsPasswordSpecial(p[i]) {
        AlphanumericNotSpecial(p[i]);
      }
    }
  }

  /** A clean password of at most 15 characters followed by `|` is stored without the `|`. */
  lemma StoredDropsTrailingBar(p: string)
    requires IsClean(p) && |p| < MaxPasswordLength
    ensures StoredPassword(p + "|") == p
  {
    assert Sanitize("|") == "";
    SanitizeConcat(p, "|");
  }

  /** A password the validator accepts on its own, which the form can never hold. */
  lemma BarOnlyPasswordIsLost()
    ensures ValidatePassword("abcdefg1|") == ""
    ensures StoredPassword("abcdefg1|") == "abcdefg1"
    ensures ValidatePassword(StoredPassword("abcdefg1|")) == PasswordFormat
  {
    var p := "abcdefg1";
    assert "abcdefg1|" == p + "|";
    assert IsClean(p);
    StoredDropsTrailingBar(p);
    AcceptsBarPassword();
    RejectsBarlessPassword();
  }

  // ---------------------------------------------------------------------
  // The e-mail composition effect
  // ---------------------------------------------------------------------

  /**
   * The address the effect stores: empty in direct-input mode while the
   * domain is blank after trimming, `user@domain` otherwise.
   */
  function ComposeEmail(user: string, domain: string, directInput: bool): (r: string)
    ensures r == "" <==> directInput && AllWhitespace(domain)
    ensures r != "" ==> r == user + "@" + domain
  {
    if directInput && Trim(domain) == "" then "" else user + "@" + domain
  }

  /** The error the effect stores: cleared when both fields are empty. */
  function ComposedEmailError(user: string, domain: string, directInput: bool): (r: string)
    ensures user == "" && domain == "" ==> r == ""
    ensures user != "" || domain != "" ==> r == ValidateEmail(ComposeEmail(user, domain, directInput))
  {
    if user != "" || domain != "" then ValidateEmail(ComposeEmail(user, domain, directInput)) else ""
  }

  /**
   * In direct-input mode a blank domain (empty, as right after choosing
   * direct input, or nothing but spaces) yields no address, so the effect
   * reports the "enter e-mail" message whenever either field is filled in.
   */
  lemma BlankDirectDomainAsksForEmail(user: string, domain: string)
    requires (user != "" || domain != "") && AllWhitespace(domain)
    ensures ComposedEmailError(user, domain, true) == EmailRequired
  {
  }

  /** Once a field is filled in, the effect clears the error exactly when both fields are valid. */
  lemma ComposedErrorClearedIff(user: string, domain: string, directInput: bool)
    requires user != "" || domain != ""
    ensures ComposedEmailError(user, domain, directInput) == "" <==> IsLocalPart(user) && DomainPattern(domain)
  {
    if directInput && AllWhitespace(domain) {
      BlankIsNotDomain(domain);
    } else {
      ComposedEmailValid(user, domain);
    }
  }

  /** A blank string is no domain: the pattern ends in a label character. */
  lemma BlankIsNotDomain(d: string)
    requires AllWhitespace(d)
    ensures !DomainPattern(d)
  {
    forall gs: seq<string>, tld: string | |gs| >= 1 && AllLabels(gs) && IsTld(tld)
      ensures d != Groups(gs) + tld
    {
      var e := Groups(gs) + tld;
      assert e[|e| - 1] == tld[|tld| - 1];
    }
  }
}
