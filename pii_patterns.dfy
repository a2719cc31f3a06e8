/** The six regular expressions of piiremover.py, each written as the
    function that gives where the match re.search would find starting at a
    given position ends. Each returns the first success in Python's
    backtracking order. Where giving a character back cannot lead to a
    match, the greedy choice is the only one that succeeds. Where it can (a
    piece at the end of a pattern, NI's adjacent \s*), Python still keeps
    the greedy choice, because it tries it first. */
module PiiPatterns {
  import opened Wrappers

  /** \d, restricted to the ASCII digits. */
  predicate IsDigit(c: char) { '0' <= c <= '9' }

  /** [a-zA-Z] */
  predicate IsLetter(c: char) { 'a' <= c <= 'z' || 'A' <= c <= 'Z' }

  /** \s on a str pattern: the characters Python's str.isspace() accepts. */
  predicate IsSpace(c: char)
  {
    c == ' ' || c == '\t' || c == '\n' || c == '\r' || c == '\U{0B}' || c == '\U{0C}'
    || ('\U{1C}' <= c <= '\U{1F}') || c == '\U{85}' || c == '\U{A0}' || c == '\U{1680}'
    || ('\U{2000}' <= c <= '\U{200A}') || c == '\U{2028}' || c == '\U{2029}'
    || c == '\U{202F}' || c == '\U{205F}' || c == '\U{3000}'
  }

  /** The characters every match of the six patterns must contain one of. */
  predicate IsMarker(c: char) { IsDigit(c) || c == '@' }

  /** s[i..i+n] exists and is made of digits (\d{n}). */
  predicate DigitsAt(s: string, i: nat, n: nat)
    ensures DigitsAt(s, i, n) ==> i + n <= |s|
    decreases n
  {
    if n == 0 then i <= |s| else i < |s| && IsDigit(s[i]) && DigitsAt(s, i + 1, n - 1)
  }

  /** s[i..i+n] exists and is made of letters ([a-zA-Z]{n}). */
  predicate LettersAt(s: string, i: nat, n: nat)
    ensures LettersAt(s, i, n) ==> i + n <= |s|
    decreases n
  {
    if n == 0 then i <= |s| else i < |s| && IsLetter(s[i]) && LettersAt(s, i + 1, n - 1)
  }

  /** s[i..i+n] exists and holds no digit (\D{n}). */
  predicate NonDigitsAt(s: string, i: nat, n: nat)
    ensures NonDigitsAt(s, i, n) ==> i + n <= |s|
    decreases n
  {
    if n == 0 then i <= |s| else i < |s| && !IsDigit(s[i]) && NonDigitsAt(s, i + 1, n - 1)
  }

  /** The literal lit occurs in s at i, compared from its k-th character on. */
  predicate LitFrom(s: string, i: nat, lit: string, k: nat)
    ensures LitFrom(s, i, lit, k) ==> i + |lit| <= |s|
    decreases |lit| - k
  {
    if k >= |lit| then i + |lit| <= |s| else i + k < |s| && s[i + k] == lit[k] && LitFrom(s, i, lit, k + 1)
  }

  /** The literal lit occurs in s at i. */
  predicate LitAt(s: string, i: nat, lit: string)
  {
    LitFrom(s, i, lit, 0)
  }

  /** \s? in front of a token no whitespace can match: take the space if
      there is one. */
  function OptSpace(s: string, i: nat): (j: nat)
    ensures i <= j <= i + 1 && (i < |s| ==> j <= |s|)
  {
    if i < |s| && IsSpace(s[i]) then i + 1 else i
  }

  /** \s*, greedy. */
  function SkipSpaces(s: string, i: nat): (j: nat)
    requires i <= |s|
    ensures i <= j <= |s|
    decreases |s| - i
  {
    if i < |s| && IsSpace(s[i]) then SkipSpaces(s, i + 1) else i
  }

  // ---- passport: [0-9]{9,10}GBR[0-9]{7}[U,M,F]{1}[0-9]{7} ----

  /** [U,M,F]: the class holds the comma as well as the three letters. */
  predicate IsSexChar(c: char) { c == 'U' || c == ',' || c == 'M' || c == 'F' }

  function PassportTail(s: string, j: nat): (r: Option<nat>)
    ensures r.Some? ==> r.value == j + 18 <= |s|
  {
    if LitAt(s, j, "GBR") && DigitsAt(s, j + 3, 7) && j + 10 < |s| && IsSexChar(s[j + 10])
       && DigitsAt(s, j + 11, 7)
    then Some(j + 18) else None
  }

  /** {9,10} tries ten digits first; falling back to nine cannot help when a
      tenth digit is there, since 'G' must follow. */
  function PassportAt(s: string, i: nat): (r: Option<nat>)
    ensures r.Some? ==> i < r.value <= |s|
  {
    if DigitsAt(s, i, 10) then PassportTail(s, i + 10)
    else if DigitsAt(s, i, 9) then PassportTail(s, i + 9)
    else None
  }

  // ---- phone ----
  // (((\+44\s?\d{4}|\(?0\d{4}\)?)\s?\d{3}\s?\d{3})|((\+44\s?\d{3}|\(?0\d{3}\)?)\s?\d{3}\s?\d{4})
  //  |((\+44\s?\d{2}|\(?0\d{2}\)?)\s?\d{4}\s?\d{4}))(\s?\#(\d{4}|\d{3}))?

  /** (\+44\s?\d{n}|\(?0\d{n}\)?): the two alternatives start with different
      characters, and '(' or ')' left unmatched could not be matched by what
      follows. */
  function PhoneHead(s: string, i: nat, n: nat): (r: Option<nat>)
    ensures r.Some? ==> i < r.value <= |s|
  {
    if LitAt(s, i, "+44") then
      var j := OptSpace(s, i + 3);
      if DigitsAt(s, j, n) then Some(j + n) else None
    else
      var j := if LitAt(s, i, "(") then i + 1 else i;
      if LitAt(s, j, "0") && DigitsAt(s, j + 1, n) then
        Some(if LitAt(s, j + 1 + n, ")") then j + 2 + n else j + 1 + n)
      else None
  }

  /** One of the three alternatives: head, then \s?\d{a}\s?\d{b}. */
  function PhoneAlternative(s: string, i: nat, n: nat, a: nat, b: nat): (r: Option<nat>)
    ensures r.Some? ==> i < r.value <= |s|
  {
    match PhoneHead(s, i, n)
    case None => None
    case Some(h) =>
      var j := OptSpace(s, h);
      if !DigitsAt(s, j, a) then None
      else
        var k := OptSpace(s, j + a);
        if DigitsAt(s, k, b) then Some(k + b) else None
  }

  /** The optional extension (\s?\#(\d{4}|\d{3}))?, which never fails. */
  function PhoneExtension(s: string, e: nat): (r: nat)
    requires e <= |s|
    ensures e <= r <= |s|
  {
    var k := OptSpace(s, e);
    if LitAt(s, k, "#") then
      (if DigitsAt(s, k + 1, 4) then k + 5 else if DigitsAt(s, k + 1, 3) then k + 4 else e)
    else e
  }

  function PhoneAt(s: string, i: nat): (r: Option<nat>)
    ensures r.Some? ==> i < r.value <= |s|
  {
    var core :=
      match PhoneAlternative(s, i, 4, 3, 3)
      case Some(e) => Some(e)
      case None =>
        match PhoneAlternative(s, i, 3, 3, 4)
        case Some(e) => Some(e)
        case None => PhoneAlternative(s, i, 2, 4, 4);
    match core
    case Some(e) => Some(PhoneExtension(s, e))
    case None => None
  }

  // ---- national insurance: [a-zA-Z]{2}(?:\s*\d\s*){6}[a-zA-Z]? ----

  /** n repetitions of \s*\d\s*; the greedy split of a run of whitespace
      between the two \s* makes no difference to what can follow. */
  function NiDigits(s: string, i: nat, n: nat): (r: Option<nat>)
    requires i <= |s|
    ensures r.Some? ==> i <= r.value <= |s|
    ensures r.Some? && n > 0 ==> i < r.value
    decreases n
  {
    if n == 0 then Some(i)
    else
      var j := SkipSpaces(s, i);
      if j < |s| && IsDigit(s[j]) then NiDigits(s, SkipSpaces(s, j + 1), n - 1) else None
  }

  function NiAt(s: string, i: nat): (r: Option<nat>)
    ensures r.Some? ==> i < r.value <= |s|
  {
    if LettersAt(s, i, 2) then
      match NiDigits(s, i + 2, 6)
      case Some(j) => Some(if j < |s| && IsLetter(s[j]) then j + 1 else j)
      case None => None
    else None
  }

  // ---- date ----
  // ((?:\d{1,2})(?:rd|nd|th)?([\/\.\-\ ])((?:[0-9]{1,2})|(?:\D{3})|(?:January|...|December))
  //  (?:[\/\.\-\ ])\d{2,4})

  predicate IsDateSep(c: char) { c == '/' || c == '.' || c == '-' || c == ' ' }

  const MonthNames: seq<string> := ["January", "February", "March", "April", "May", "June",
    "July", "August", "September", "October", "November", "December"]

  /** [\/\.\-\ ]\d{2,4}, the end of the pattern: as many digits as allowed. */
  function DateYear(s: string, d: nat): (r: Option<nat>)
    ensures r.Some? ==> d < r.value <= |s|
  {
    if d < |s| && IsDateSep(s[d]) && DigitsAt(s, d + 1, 2) then
      Some(if DigitsAt(s, d + 1, 4) then d + 5 else if DigitsAt(s, d + 1, 3) then d + 4 else d + 3)
    else None
  }

  /** The month alternatives from c, the first giving a complete match. */
  function DateMonth(s: string, c: nat): (r: Option<nat>)
    ensures r.Some? ==> c < r.value <= |s|
  {
    if c < |s| && IsDigit(s[c]) then
      // [0-9]{1,2}: one digit less would leave a digit where a separator
      // must stand; neither other alternative starts with a digit.
      DateYear(s, if DigitsAt(s, c, 2) then c + 2 else c + 1)
    else if NonDigitsAt(s, c, 3) && DateYear(s, c + 3).Some? then DateYear(s, c + 3)
    else DateMonthName(s, c, 0)
  }

  function DateMonthName(s: string, c: nat, m: nat): (r: Option<nat>)
    requires m <= |MonthNames|
    ensures r.Some? ==> c < r.value <= |s|
    decreases |MonthNames| - m
  {
    if m == |MonthNames| then None
    else if LitAt(s, c, MonthNames[m]) && DateYear(s, c + |MonthNames[m]|).Some? then
      DateYear(s, c + |MonthNames[m]|)
    else DateMonthName(s, c, m + 1)
  }

  function DateAt(s: string, i: nat): (r: Option<nat>)
    ensures r.Some? ==> i < r.value <= |s|
  {
    if !DigitsAt(s, i, 1) then None
    else
      // \d{1,2}: giving back the second digit leaves a digit where a suffix
      // letter or separator must stand; likewise for the suffix.
      var a := if DigitsAt(s, i, 2) then i + 2 else i + 1;
      var b := if LitAt(s, a, "rd") || LitAt(s, a, "nd") || LitAt(s, a, "th") then a + 2 else a;
      if b < |s| && IsDateSep(s[b]) then DateMonth(s, b + 1) else None
  }

  // ---- vehicle registration plate ----
  // ((?:[a-zA-Z]{2}\s?[0-9]{2}\s?[a-zA-Z]{3})|(?:[a-zA-Z]{3}\s?\d{4}))

  function VrpAt(s: string, i: nat): (r: Option<nat>)
    ensures r.Some? ==> i < r.value <= |s|
  {
    var j := OptSpace(s, i + 2);
    var k := OptSpace(s, j + 2);
    var j2 := OptSpace(s, i + 3);
    if LettersAt(s, i, 2) && DigitsAt(s, j, 2) && LettersAt(s, k, 3) then Some(k + 3)
    else if LettersAt(s, i, 3) && DigitsAt(s, j2, 4) then Some(j2 + 4)
    else None
  }

  // ---- email: ([a-zA-Z0-9_.+-]+@[a-zA-Z0-9-]+\.[a-zA-Z0-9-.]+) ----

  datatype CharClass = LocalPart | DomainPart | TopPart

  predicate InClass(cls: CharClass, c: char)
  {
    match cls
    case LocalPart => IsLetter(c) || IsDigit(c) || c == '_' || c == '.' || c == '+' || c == '-'
    case DomainPart => IsLetter(c) || IsDigit(c) || c == '-'
    case TopPart => IsLetter(c) || IsDigit(c) || c == '-' || c == '.'
  }

  /** The end of the longest run of class characters from i. */
  function RunEnd(s: string, i: nat, cls: CharClass): (j: nat)
    requires i <= |s|
    ensures i <= j <= |s|
    decreases |s| - i
  {
    if i < |s| && InClass(cls, s[i]) then RunEnd(s, i + 1, cls) else i
  }

  /** Each run is greedy. For the local part and the domain a shorter run
      could not help: the character after it is a class character, never
      the '@' or '.' the pattern needs next. The final run ends the pattern,
      so a shorter one would also succeed; Python keeps the longest because
      it tries it first. */
  function EmailAt(s: string, i: nat): (r: Option<nat>)
    ensures r.Some? ==> i < r.value <= |s|
  {
    if i >= |s| then None
    else
      var a := RunEnd(s, i, LocalPart);
      if a == i || a >= |s| || s[a] != '@' then None
      else
        var b := RunEnd(s, a + 1, DomainPart);
        if b == a + 1 || b >= |s| || s[b] != '.' then None
        else
          var c := RunEnd(s, b + 1, TopPart);
          if c == b + 1 then None else Some(c)
  }

  /** The six patterns, in the roles piiremover.py gives them. */
  datatype Pattern = Passport | Phone | Ni | Date | Vrp | Email

  /** A compiled pattern: given s and i, where the match that starts at i
      ends, if there is one. */
  type Matcher = (string, nat) -> Option<nat>

  /** m never matches the empty string and never runs past the end. */
  ghost predicate Advances(m: Matcher)
  {
    forall s: string, i: nat :: m(s, i).Some? ==> i < m(s, i).value <= |s|
  }

  /** The matcher of each pattern. */
  function MatcherOf(p: Pattern): (m: Matcher)
    ensures Advances(m)
  {
    match p
    case Passport => PassportAt
    case Phone => PhoneAt
    case Ni => NiAt
    case Date => DateAt
    case Vrp => VrpAt
    case Email => EmailAt
  }

  /** Where the match of p that starts at i ends, if there is one. */
  function MatchAt(p: Pattern, s: string, i: nat): Option<nat>
  {
    MatcherOf(p)(s, i)
  }

  /** s[i..e] holds a digit or an '@'. */
  predicate HasMarker(s: string, i: nat, e: nat)
  {
    exists j :: i <= j < e && j < |s| && IsMarker(s[j])
  }

  lemma {:induction false} NiDigitsMarker(s: string, i: nat, n: nat)
    requires i <= |s| && n > 0 && NiDigits(s, i, n).Some?
    ensures HasMarker(s, i, NiDigits(s, i, n).value)
    decreases n
  {
    var j := SkipSpaces(s, i);
    assert IsMarker(s[j]);
    if n > 1 {
      NiDigitsMarker(s, SkipSpaces(s, j + 1), n - 1);
    }
  }

  lemma PhoneAlternativeMarker(s: string, i: nat, n: nat, a: nat, b: nat)
    requires n > 0 && PhoneAlternative(s, i, n, a, b).Some?
    ensures HasMarker(s, i, PhoneAlternative(s, i, n, a, b).value)
  {
    if LitAt(s, i, "+44") {
      var j := OptSpace(s, i + 3);
      assert IsMarker(s[j]);
    } else {
      var j := if LitAt(s, i, "(") then i + 1 else i;
      assert s[j] == "0"[0];
      assert IsMarker(s[j]);
    }
  }

  /** Every match of every one of the six patterns contains a digit or an '@'. */
  lemma MatchHasMarker(p: Pattern, s: string, i: nat)
    requires MatchAt(p, s, i).Some?
    ensures HasMarker(s, i, MatchAt(p, s, i).value)
  {
    var e := MatchAt(p, s, i).value;
    match p
    case Passport =>
      assert IsMarker(s[i]);
    case Phone =>
      if PhoneAlternative(s, i, 4, 3, 3).Some? {
        PhoneAlternativeMarker(s, i, 4, 3, 3);
      } else if PhoneAlternative(s, i, 3, 3, 4).Some? {
        PhoneAlternativeMarker(s, i, 3, 3, 4);
      } else {
        PhoneAlternativeMarker(s, i, 2, 4, 4);
      }
    case Ni =>
      NiDigitsMarker(s, i + 2, 6);
    case Date =>
      assert IsMarker(s[i]);
    case Vrp =>
      if LettersAt(s, i, 2) && DigitsAt(s, OptSpace(s, i + 2), 2) && LettersAt(s, OptSpace(s, OptSpace(s, i + 2) + 2), 3) {
        assert IsMarker(s[OptSpace(s, i + 2)]);
      } else {
        assert IsMarker(s[OptSpace(s, i + 3)]);
      }
    case Email =>
      var a := RunEnd(s, i, LocalPart);
      assert IsMarker(s[a]);
  }

  /** Every match of m holds a digit or an '@'. */
  ghost predicate MarksMatches(m: Matcher)
  {
    forall s: string, i: nat :: m(s, i).Some? ==> HasMarker(s, i, m(s, i).value)
  }

  lemma MatcherMarks(p: Pattern)
    ensures MarksMatches(MatcherOf(p))
  {
    forall s: string, i: nat | MatcherOf(p)(s, i).Some?
      ensures HasMarker(s, i, MatcherOf(p)(s, i).value)
    {
      MatchHasMarker(p, s, i);
    }
  }
}
