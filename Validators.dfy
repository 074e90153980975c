/**
 * The field checks of the contact screen: the e-mail and telephone patterns,
 * the trimmed-name length and their conjunction, which alone decides whether
 * the request can be sent.
 *
 * Each pattern is given twice: as a hand-written recogniser that scans the
 * string (ValidateEmail, ValidatePhone) and as the plain meaning of the
 * regular expression, "the string splits into these pieces" (EmailPattern,
 * PhonePattern); a lemma shows the two agree on every string.
 */
module Validators {
  import opened Answers

  /**
   * The characters of the JavaScript class `\s`, which are also the ones
   * `String.prototype.trim` removes: the ASCII controls tab to carriage return,
   * the Unicode space separators, the line and paragraph separators and the
   * byte-order mark.
   */
  predicate IsSpace(c: char)
    ensures c == ' ' || c == '\t' || c == '\n' || c == '\r' ==> IsSpace(c)
    ensures IsSpace(c) ==> c != '@' && c != '.' && c != '-' && c != '/' && c != '+' && !('0' <= c <= '9')
  {
    var n := c as int;
    || 0x09 <= n <= 0x0D
    || n == 0x20 || n == 0xA0 || n == 0x1680
    || 0x2000 <= n <= 0x200A
    || n == 0x2028 || n == 0x2029 || n == 0x202F || n == 0x205F
    || n == 0x3000 || n == 0xFEFF
  }

  // ---------------------------------------------------------------------------
  // trim
  // ---------------------------------------------------------------------------

  /** The number of whitespace characters `s` starts with. */
  function LeadingSpace(s: string): (n: nat)
    ensures n <= |s|
    ensures forall k | 0 <= k < n :: IsSpace(s[k])
    ensures n < |s| ==> !IsSpace(s[n])
  {
    if |s| > 0 && IsSpace(s[0]) then 1 + LeadingSpace(s[1..]) else 0
  }

  /** The number of whitespace characters `s` ends with. */
  function TrailingSpace(s: string): (n: nat)
    ensures n <= |s|
    ensures forall k | |s| - n <= k < |s| :: IsSpace(s[k])
    ensures n < |s| ==> !IsSpace(s[|s| - 1 - n])
  {
    if |s| > 0 && IsSpace(s[|s| - 1]) then 1 + TrailingSpace(s[..|s| - 1]) else 0
  }

  /**
   * `s.trim()`: `s` without its leading and trailing whitespace.  The result
   * is the slice of `s` that starts at the first non-space character, it
   * neither starts nor ends with whitespace, and it keeps every non-space
   * character of `s`.
   */
  function Trim(s: string): (r: string)
    ensures LeadingSpace(s) + |r| <= |s|
    ensures r == s[LeadingSpace(s)..LeadingSpace(s) + |r|]
    ensures r != [] ==> !IsSpace(r[0]) && !IsSpace(r[|r| - 1])
    ensures forall k | 0 <= k < |s| && !IsSpace(s[k]) :: LeadingSpace(s) <= k < LeadingSpace(s) + |r|
  {
    var a := LeadingSpace(s);
    if a == |s| then []
    else
      var b := TrailingSpace(s);
      assert !IsSpace(s[a]);
      s[a..|s| - b]
  }

  /** The trimmed name is longer than one character exactly when the name holds two non-space characters. */
  lemma TrimLongerThanOne(s: string)
    ensures |Trim(s)| > 1 <==> exists i, j | 0 <= i < j < |s| :: !IsSpace(s[i]) && !IsSpace(s[j])
  {
    var a, r := LeadingSpace(s), Trim(s);
    if |r| > 1 {
      assert s[a] == r[0] && s[a + |r| - 1] == r[|r| - 1];
      assert !IsSpace(s[a]) && !IsSpace(s[a + |r| - 1]);
    }
  }

  // ---------------------------------------------------------------------------
  // e-mail: /^[^\s@]+@[^\s@]+\.[^\s@]+$/
  // ---------------------------------------------------------------------------

  /** The position of the first `c` in `s`, or |s| when there is none. */
  function IndexOf(s: string, c: char): (i: nat)
    ensures i <= |s|
    ensures i < |s| ==> s[i] == c
    ensures forall k | 0 <= k < i :: s[k] != c
  {
    if |s| == 0 || s[0] == c then 0 else 1 + IndexOf(s[1..], c)
  }

  /** A character of the class `[^\s@]`. */
  predicate EmailChar(c: char)
  {
    !IsSpace(c) && c != '@'
  }

  predicate AllEmailChars(t: string)
  {
    forall k | 0 <= k < |t| :: EmailChar(t[k])
  }

  /**
   * The e-mail recogniser: cut at the first `@`; the part before it must be
   * non-empty and free of whitespace and `@`, and so must the part after it,
   * which also needs a `.` with at least one character on either side.
   */
  predicate ValidateEmail(s: string)
    ensures ValidateEmail(s) ==> 5 <= |s| && EmailChar(s[0]) && EmailChar(s[|s| - 1])
  {
    var at := IndexOf(s, '@');
    && 0 < at < |s|
    && AllEmailChars(s[..at])
    && var domain := s[at + 1..];
       && AllEmailChars(domain)
       && |domain| >= 3
       && '.' in domain[1..|domain| - 1]
  }

  /** `s` is `A@B.C` with `@` at i and `.` at j, each of A, B, C a non-empty run of `[^\s@]`. */
  ghost predicate EmailSplit(s: string, i: int, j: int)
  {
    && 0 < i && i + 1 < j && j + 1 < |s|
    && s[i] == '@' && s[j] == '.'
    && AllEmailChars(s[..i]) && AllEmailChars(s[i + 1..j]) && AllEmailChars(s[j + 1..])
  }

  /** What the regular expression matches. */
  ghost predicate EmailPattern(s: string)
  {
    exists i, j :: EmailSplit(s, i, j)
  }

  /** Every address the recogniser accepts splits as the regular expression demands. */
  lemma EmailRecogniserSound(s: string)
    requires ValidateEmail(s)
    ensures EmailPattern(s)
  {
    var at := IndexOf(s, '@');
    var domain := s[at + 1..];
    var inner := domain[1..|domain| - 1];
    var k :| 0 <= k < |inner| && inner[k] == '.';
    var j := at + 2 + k;
    assert s[j] == '.';
    assert s[at + 1..j] == domain[..k + 1];
    assert s[j + 1..] == domain[k + 2..];
    assert EmailSplit(s, at, j);
  }

  /** Every split the regular expression allows is found by the recogniser. */
  lemma EmailRecogniserComplete(s: string, i: int, j: int)
    requires EmailSplit(s, i, j)
    ensures ValidateEmail(s)
  {
    var at := IndexOf(s, '@');
    assert forall k | 0 <= k < i :: s[k] != '@' by {
      forall k | 0 <= k < i ensures s[k] != '@' { assert s[k] == s[..i][k]; }
    }
    assert at == i;
    var domain := s[at + 1..];
    assert domain == s[i + 1..j] + [s[j]] + s[j + 1..];
    assert domain[1..|domain| - 1][j - i - 2] == '.';
  }

  /** The recogniser accepts exactly the strings the regular expression matches. */
  lemma ValidateEmailIsPattern(s: string)
    ensures ValidateEmail(s) <==> EmailPattern(s)
  {
    if ValidateEmail(s) {
      EmailRecogniserSound(s);
    }
    if EmailPattern(s) {
      var i, j :| EmailSplit(s, i, j);
      EmailRecogniserComplete(s, i, j);
    }
  }

  /** `s` has exactly one `@`, at position i. */
  ghost predicate SingleAt(s: string, i: int)
  {
    0 <= i < |s| && s[i] == '@' && forall k | 0 <= k < |s| && k != i :: s[k] != '@'
  }

  /**
   * What an accepted address looks like: no whitespace, exactly one `@`, a
   * non-empty part before it, and a `.` after it with at least one character
   * on each side.
   */
  lemma EmailMeaning(s: string)
    ensures ValidateEmail(s) <==>
      && (forall k | 0 <= k < |s| :: !IsSpace(s[k]))
      && exists i :: SingleAt(s, i) && 0 < i && exists j | i + 1 < j < |s| - 1 :: s[j] == '.'
  {
    ValidateEmailIsPattern(s);
    if ValidateEmail(s) {
      var i, j :| EmailSplit(s, i, j);
      forall k | 0 <= k < |s| ensures !IsSpace(s[k]) && (k != i ==> s[k] != '@') {
        if k < i { assert s[k] == s[..i][k]; }
        else if i < k < j { assert s[k] == s[i + 1..j][k - i - 1]; }
        else if j < k { assert s[k] == s[j + 1..][k - j - 1]; }
      }
      assert SingleAt(s, i);
    }
    if (forall k | 0 <= k < |s| :: !IsSpace(s[k]))
       && exists i :: SingleAt(s, i) && 0 < i && exists j | i + 1 < j < |s| - 1 :: s[j] == '.'
    {
      var i :| SingleAt(s, i) && 0 < i && exists j | i + 1 < j < |s| - 1 :: s[j] == '.';
      var j :| i + 1 < j < |s| - 1 && s[j] == '.';
      assert EmailSplit(s, i, j);
    }
  }

  /** Three non-empty runs of `[^\s@]` joined by `@` and `.` make an address the recogniser accepts. */
  lemma EmailOfParts(local: string, host: string, top: string)
    requires |local| > 0 && |host| > 0 && |top| > 0
    requires AllEmailChars(local) && AllEmailChars(host) && AllEmailChars(top)
    ensures ValidateEmail(local + "@" + host + "." + top)
  {
    var s := local + "@" + host + "." + top;
    var i, j := |local|, |local| + 1 + |host|;
    assert s[..i] == local && s[i + 1..j] == host && s[j + 1..] == top;
    assert EmailSplit(s, i, j);
    ValidateEmailIsPattern(s);
  }

  /** An accepted address contains an `@` and a `.` and no whitespace. */
  lemma EmailNeeds(s: string)
    ensures ValidateEmail(s) ==> '@' in s && '.' in s
    ensures ValidateEmail(s) ==> forall k | 0 <= k < |s| :: !IsSpace(s[k])
  {
    EmailMeaning(s);
  }

  /** Lower-case letters are neither whitespace nor `@`. */
  lemma LettersAreEmailChars(t: string)
    requires forall k | 0 <= k < |t| :: 'a' <= t[k] <= 'z'
    ensures AllEmailChars(t)
  {
  }

  /** The example address splits at its `@` (position 3) and its last `.` (position 13). */
  lemma EmailExampleSplit()
    ensures EmailSplit("jan@voorbeeld.nl", 3, 13)
  {
    var s := "jan@voorbeeld.nl";
    assert s[..3] == "jan" && s[4..13] == "voorbeeld" && s[14..] == "nl";
    LettersAreEmailChars("jan");
    LettersAreEmailChars("voorbeeld");
    LettersAreEmailChars("nl");
  }

  lemma EmailAcceptsExample()
    ensures ValidateEmail("jan@voorbeeld.nl")
  {
    EmailExampleSplit();
    EmailRecogniserComplete("jan@voorbeeld.nl", 3, 13);
  }

  lemma EmailRejectsMissingDot()
    ensures !ValidateEmail("jan@voorbeeld")
  {
    var noDot := "jan@voorbeeld";
    assert '.' !in noDot;
    EmailNeeds(noDot);
  }

  lemma EmailRejectsSpace()
    ensures !ValidateEmail("jan voorbeeld.nl")
  {
    var spaced := "jan voorbeeld.nl";
    assert IsSpace(spaced[3]);
    EmailNeeds(spaced);
  }

  // ---------------------------------------------------------------------------
  // telephone: /^[+]?[(]?[0-9]{1,4}[)]?[-\s./0-9]{7,15}$/
  // ---------------------------------------------------------------------------

  predicate IsDigit(c: char)
  {
    '0' <= c <= '9'
  }

  predicate AllDigits(t: string)
  {
    forall k | 0 <= k < |t| :: IsDigit(t[k])
  }

  /** A character of the class `[-\s./0-9]`. */
  predicate PhoneTailChar(c: char)
  {
    c == '-' || IsSpace(c) || c == '.' || c == '/' || IsDigit(c)
  }

  /** Seven to fifteen characters of `[-\s./0-9]`. */
  predicate PhoneTail(t: string)
  {
    7 <= |t| <= 15 && forall k | 0 <= k < |t| :: PhoneTailChar(t[k])
  }

  /** `u` is n digits, an optional `)`, then a valid tail. */
  predicate DigitsThenTail(u: string, n: nat)
  {
    && n <= |u|
    && AllDigits(u[..n])
    && (PhoneTail(u[n..]) || (n < |u| && u[n] == ')' && PhoneTail(u[n + 1..])))
  }

  /**
   * The telephone recogniser: skip a leading `+` and then a `(` when present
   * (neither can start the digit group, so taking them is forced), then try
   * each length of the leading digit group from one to four.
   */
  predicate ValidatePhone(s: string)
    ensures ValidatePhone(s) ==> 8 <= |s| <= 22
  {
    var p := if 0 < |s| && s[0] == '+' then 1 else 0;
    var o := if p < |s| && s[p] == '(' then 1 else 0;
    var u := s[p + o..];
    DigitsThenTail(u, 1) || DigitsThenTail(u, 2) || DigitsThenTail(u, 3) || DigitsThenTail(u, 4)
  }

  /**
   * `s` splits as an optional `+` (p of them), an optional `(` (o), n digits,
   * an optional `)` (c) and a tail.
   */
  ghost predicate PhoneSplit(s: string, p: nat, o: nat, n: nat, c: nat)
  {
    && p <= 1 && o <= 1 && 1 <= n <= 4 && c <= 1
    && p + o + n + c <= |s|
    && (p == 1 ==> s[0] == '+')
    && (o == 1 ==> s[p] == '(')
    && AllDigits(s[p + o..p + o + n])
    && (c == 1 ==> s[p + o + n] == ')')
    && PhoneTail(s[p + o + n + c..])
  }

  /** What the regular expression matches. */
  ghost predicate PhonePattern(s: string)
  {
    exists p: nat, o: nat, n: nat, c: nat :: PhoneSplit(s, p, o, n, c)
  }

  /** Every string the recogniser accepts splits as the regular expression demands. */
  lemma PhoneRecogniserSound(s: string)
    requires ValidatePhone(s)
    ensures PhonePattern(s)
  {
    var p := if 0 < |s| && s[0] == '+' then 1 else 0;
    var o := if p < |s| && s[p] == '(' then 1 else 0;
    var u := s[p + o..];
    var n := if DigitsThenTail(u, 1) then 1 else if DigitsThenTail(u, 2) then 2
             else if DigitsThenTail(u, 3) then 3 else 4;
    assert DigitsThenTail(u, n);
    assert u[..n] == s[p + o..p + o + n];
    if PhoneTail(u[n..]) {
      assert u[n..] == s[p + o + n..];
      assert PhoneSplit(s, p, o, n, 0);
    } else {
      assert u[n + 1..] == s[p + o + n + 1..];
      assert PhoneSplit(s, p, o, n, 1);
    }
  }

  /** Every split the regular expression allows is found by the recogniser. */
  lemma PhoneRecogniserComplete(s: string, p: nat, o: nat, n: nat, c: nat)
    requires PhoneSplit(s, p, o, n, c)
    ensures ValidatePhone(s)
  {
    assert IsDigit(s[p + o..p + o + n][0]);
    var p0 := if 0 < |s| && s[0] == '+' then 1 else 0;
    assert p0 == p;
    var o0 := if p < |s| && s[p] == '(' then 1 else 0;
    assert o0 == o;
    var u := s[p + o..];
    assert u[..n] == s[p + o..p + o + n];
    if c == 0 {
      assert u[n..] == s[p + o + n..];
    } else {
      assert u[n + 1..] == s[p + o + n + 1..];
    }
    assert DigitsThenTail(u, n);
  }

  /** The recogniser accepts exactly the strings the regular expression matches. */
  lemma ValidatePhoneIsPattern(s: string)
    ensures ValidatePhone(s) <==> PhonePattern(s)
  {
    if ValidatePhone(s) {
      PhoneRecogniserSound(s);
    }
    if PhonePattern(s) {
      var p: nat, o: nat, n: nat, c: nat :| PhoneSplit(s, p, o, n, c);
      PhoneRecogniserComplete(s, p, o, n, c);
    }
  }

  /** A character that can appear in an accepted number: `+ ( ) 0-9 - . /` or whitespace. */
  predicate PhoneChar(c: char)
  {
    c == '+' || c == '(' || c == ')' || PhoneTailChar(c)
  }

  /** Every accepted number has 8 to 22 characters, all of them from the allowed set. */
  lemma PhoneAccepted(s: string)
    requires ValidatePhone(s)
    ensures 8 <= |s| <= 22
    ensures forall k | 0 <= k < |s| :: PhoneChar(s[k])
  {
    ValidatePhoneIsPattern(s);
    var p: nat, o: nat, n: nat, c: nat :| PhoneSplit(s, p, o, n, c);
    var head := p + o + n + c;
    var tail := s[head..];
    forall k | 0 <= k < |s| ensures PhoneChar(s[k]) {
      if k >= head {
        assert s[k] == tail[k - head];
      } else if p + o <= k < p + o + n {
        assert s[k] == s[p + o..p + o + n][k - p - o];
      }
    }
  }

  lemma PhoneRejectsLetters()
    ensures !ValidatePhone("abc")
  {
  }

  lemma PhoneAcceptsExample()
    ensures ValidatePhone("+31 6 12345678")
  {
    var ok := "+31 6 12345678";
    assert ok[1..][..2] == "31";
    assert ok[1..][2..] == " 6 12345678";
    assert DigitsThenTail(ok[1..], 2);
  }

  // ---------------------------------------------------------------------------
  // the contact screen
  // ---------------------------------------------------------------------------

  /**
   * `name.trim().length > 1` for `name = formData['contact-name'] || ''`.
   * Only text can be trimmed; a stored boolean true would make the check
   * throw and stop the form from rendering.  No input writes a boolean
   * there; the model reads that case as not valid.
   */
  predicate NameLongEnough(v: Val)
    ensures NameLongEnough(v) <==>
      v.Str? && exists i, j | 0 <= i < j < |v.s| :: !IsSpace(v.s[i]) && !IsSpace(v.s[j])
  {
    if v.Str? then TrimLongerThanOne(v.s); |Trim(v.s)| > 1 else false
  }

  /** The composite check that enables the send button on the contact screen. */
  predicate IsContactStepValid(d: Store)
    ensures IsContactStepValid(d) ==>
      TextAt(d, "contact-name") && TextAt(d, "contact-email") && TextAt(d, "contact-phone")
  {
    FallbacksRejected();
    && NameLongEnough(OrEmpty(d, "contact-name"))
    && ValidateEmail(ToText(OrEmpty(d, "contact-email")))
    && ValidatePhone(ToText(OrEmpty(d, "contact-phone")))
  }

  /** A text answer is stored under `key`. */
  predicate TextAt(d: Store, key: string)
  {
    key in d && d[key].Str?
  }

  /** Neither an empty field nor the text a stored boolean turns into passes either pattern. */
  lemma FallbacksRejected()
    ensures !ValidateEmail("") && !ValidateEmail("true") && !ValidateEmail("false")
    ensures !ValidatePhone("") && !ValidatePhone("true") && !ValidatePhone("false")
  {
    assert IndexOf("true", '@') == 4;
    assert IndexOf("false", '@') == 5;
    assert !IsDigit("true"[0]) && !IsDigit("false"[0]);
  }

  /**
   * The JavaScript string conversion `RegExp.prototype.test` applies to its
   * argument: text is tested as it is, and a boolean turns into a word that
   * neither pattern accepts.
   */
  function ToText(v: Val): (t: string)
    ensures v.Str? ==> t == v.s
    ensures v.Bool? ==> !ValidateEmail(t) && !ValidatePhone(t)
  {
    match v
    case Str(s) => s
    case Bool(b) => FallbacksRejected(); if b then "true" else "false"
  }

  /**
   * The contact screen is valid exactly when name, e-mail and telephone are all
   * stored as text, the trimmed name is longer than one character and the
   * e-mail and telephone match their patterns.
   */
  lemma ContactStepValidMeaning(d: Store)
    ensures IsContactStepValid(d) <==>
      && TextAt(d, "contact-name") && |Trim(d["contact-name"].s)| > 1
      && TextAt(d, "contact-email") && EmailPattern(d["contact-email"].s)
      && TextAt(d, "contact-phone") && PhonePattern(d["contact-phone"].s)
  {
    EmailFieldMeaning(d);
    PhoneFieldMeaning(d);
  }

  /** The e-mail field passes exactly when it holds text that matches the pattern. */
  lemma EmailFieldMeaning(d: Store)
    ensures ValidateEmail(ToText(OrEmpty(d, "contact-email")))
        <==> TextAt(d, "contact-email") && EmailPattern(d["contact-email"].s)
  {
    FallbacksRejected();
    ValidateEmailIsPattern(ToText(OrEmpty(d, "contact-email")));
  }

  /** The telephone field passes exactly when it holds text that matches the pattern. */
  lemma PhoneFieldMeaning(d: Store)
    ensures ValidatePhone(ToText(OrEmpty(d, "contact-phone")))
        <==> TextAt(d, "contact-phone") && PhonePattern(d["contact-phone"].s)
  {
    FallbacksRejected();
    ValidatePhoneIsPattern(ToText(OrEmpty(d, "contact-phone")));
  }
}
