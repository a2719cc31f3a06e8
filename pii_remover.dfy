/** pii_remover: the cascade of re.sub calls of piiremover.py, over the six
    module patterns. */
module PiiRemover {
  import opened Wrappers
  import opened PiiPatterns

  // ---- digits and '@' in a string ----

  /** How many digits and '@' signs t holds. */
  function Markers(t: string): nat
  {
    if |t| == 0 then 0 else (if IsMarker(t[0]) then 1 else 0) + Markers(t[1..])
  }

  lemma {:induction false} MarkersAppend(a: string, b: string)
    ensures Markers(a + b) == Markers(a) + Markers(b)
  {
    if |a| > 0 {
      assert (a + b)[1..] == a[1..] + b;
      MarkersAppend(a[1..], b);
    } else {
      assert a + b == b;
    }
  }

  /** Putting s[i] in front of t and of s[i + 1..] adds the same to both counts. */
  lemma MarkersCons(s: string, i: nat, t: string)
    requires i < |s|
    ensures Markers([s[i]] + t) - Markers(t) == Markers(s[i..]) - Markers(s[i + 1..])
  {
    assert s[i..] == [s[i]] + s[i + 1..];
    MarkersAppend([s[i]], t);
    MarkersAppend([s[i]], s[i + 1..]);
  }

  /** A stretch that holds a digit or an '@' adds at least one to the count. */
  lemma MarkedStretch(s: string, k: nat, e: nat)
    requires k <= e <= |s| && HasMarker(s, k, e)
    ensures Markers(s[k..e]) >= 1
  {
    var j :| k <= j < e && j < |s| && IsMarker(s[j]);
    assert s[k..e] == s[k..j] + s[j..e];
    MarkersAppend(s[k..j], s[j..e]);
    assert Markers(s[j..e]) >= 1 by {
      assert s[j..e][0] == s[j];
    }
  }

  lemma {:induction false} NoMarkersAt(t: string, k: nat)
    requires k < |t| && Markers(t) == 0
    ensures !IsMarker(t[k])
  {
    if k > 0 {
      assert t[1..][k - 1] == t[k];
      NoMarkersAt(t[1..], k - 1);
    }
  }

  // ---- re.sub with one pattern ----

  /** re.sub(p, repl, s), from position i on, with m the matcher of p: at
      each position, the match that starts there is replaced by repl and the
      scan resumes where it ended; otherwise the character is kept and the
      scan moves on by one. No pattern matches the empty string, so there is
      nothing to replace at the end of s. */
  function Sub(m: Matcher, repl: string, s: string, i: nat): string
    requires Advances(m) && i <= |s|
    decreases |s| - i
  {
    if i == |s| then []
    else
      match m(s, i)
      case Some(e) => repl + Sub(m, repl, s, e)
      case None => [s[i]] + Sub(m, repl, s, i + 1)
  }

  /** One step of the scan where nothing matches. */
  lemma SubSkip(m: Matcher, repl: string, s: string, i: nat)
    requires Advances(m) && i < |s| && m(s, i).None?
    ensures Sub(m, repl, s, i) == [s[i]] + Sub(m, repl, s, i + 1)
  {
  }

  /** One step of the scan at a match. */
  lemma SubHit(m: Matcher, repl: string, s: string, i: nat)
    requires Advances(m) && i < |s| && m(s, i).Some?
    ensures Sub(m, repl, s, i) == repl + Sub(m, repl, s, m(s, i).value)
  {
  }

  lemma ConsSlice(s: string, i: nat, k: nat, repl: string, rest: string)
    requires i < k <= |s|
    ensures [s[i]] + (s[i + 1..k] + repl + rest) == s[i..k] + repl + rest
  {
    assert s[i..k] == [s[i]] + s[i + 1..k];
  }

  /** No match of m starts at or after i. */
  predicate NoMatchFrom(m: Matcher, s: string, i: nat)
  {
    forall k :: i <= k < |s| ==> m(s, k).None?
  }

  /** Without a match, re.sub returns its input. */
  lemma {:induction false} SubNoMatch(m: Matcher, repl: string, s: string, i: nat)
    requires Advances(m) && i <= |s| && NoMatchFrom(m, s, i)
    ensures Sub(m, repl, s, i) == s[i..]
    decreases |s| - i
  {
    if i < |s| {
      SubNoMatch(m, repl, s, i + 1);
      SubSkip(m, repl, s, i);
      assert s[i..] == [s[i]] + s[i + 1..];
    }
  }

  /** re.sub replaces the leftmost match: what comes before it is kept, and
      the scan resumes after it. */
  lemma {:induction false} SubLeftmost(m: Matcher, repl: string, s: string, i: nat, k: nat)
    requires Advances(m) && i <= k < |s| && m(s, k).Some?
    requires forall j :: i <= j < k ==> m(s, j).None?
    ensures Sub(m, repl, s, i) == s[i..k] + repl + Sub(m, repl, s, m(s, k).value)
    decreases k - i
  {
    if i < k {
      SubLeftmost(m, repl, s, i + 1, k);
      SubLeftmostStep(m, repl, s, i, k);
    } else {
      SubHit(m, repl, s, i);
      assert s[i..k] == [];
    }
  }

  /** The inductive step of SubLeftmost: a position without a match is kept. */
  lemma SubLeftmostStep(m: Matcher, repl: string, s: string, i: nat, k: nat)
    requires Advances(m) && i < k < |s| && m(s, i).None? && m(s, k).Some?
    ensures Sub(m, repl, s, i + 1) == s[i + 1..k] + repl + Sub(m, repl, s, m(s, k).value) ==>
      Sub(m, repl, s, i) == s[i..k] + repl + Sub(m, repl, s, m(s, k).value)
  {
    SubSkip(m, repl, s, i);
    ConsSlice(s, i, k, repl, Sub(m, repl, s, m(s, k).value));
  }

  /** A replacement text free of digits and '@' never adds any, and whenever
      re.sub changes the string it removes at least one. */
  lemma {:induction false} SubMarkers(m: Matcher, repl: string, s: string, i: nat)
    requires Advances(m) && MarksMatches(m) && i <= |s| && Markers(repl) == 0
    ensures Markers(Sub(m, repl, s, i)) <= Markers(s[i..])
    ensures Sub(m, repl, s, i) != s[i..] ==> Markers(Sub(m, repl, s, i)) < Markers(s[i..])
    decreases |s| - i
  {
    if i < |s| {
      match m(s, i)
      case Some(e) =>
        SubMatchedHere(m, repl, s, i);
      case None =>
        SubMarkers(m, repl, s, i + 1);
        SubSkip(m, repl, s, i);
        MarkersCons(s, i, Sub(m, repl, s, i + 1));
    }
  }

  /** A match at i strictly lowers the count. */
  lemma {:induction false} SubMatchedHere(m: Matcher, repl: string, s: string, i: nat)
    requires Advances(m) && MarksMatches(m) && i < |s| && Markers(repl) == 0 && m(s, i).Some?
    ensures Markers(Sub(m, repl, s, i)) < Markers(s[i..])
    decreases |s| - i, 0
  {
    var e := m(s, i).value;
    SubHit(m, repl, s, i);
    SubMarkers(m, repl, s, e);
    MarkersAppend(repl, Sub(m, repl, s, e));
    MarkedStretch(s, i, e);
    assert s[i..] == s[i..e] + s[e..];
    MarkersAppend(s[i..e], s[e..]);
  }

  /** Any match from i on strictly lowers the count. */
  lemma {:induction false} SubMatchedLater(m: Matcher, repl: string, s: string, i: nat, k: nat)
    requires Advances(m) && MarksMatches(m) && i <= k < |s| && Markers(repl) == 0 && m(s, k).Some?
    ensures Markers(Sub(m, repl, s, i)) < Markers(s[i..])
    decreases k - i
  {
    if m(s, i).Some? {
      SubMatchedHere(m, repl, s, i);
    } else {
      SubMatchedLater(m, repl, s, i + 1, k);
      SubSkip(m, repl, s, i);
      MarkersCons(s, i, Sub(m, repl, s, i + 1));
    }
  }

  /** With a replacement free of digits and '@', re.sub leaves the string
      as it was exactly when the pattern matches nowhere in it. */
  lemma SubUnchanged(m: Matcher, repl: string, s: string)
    requires Advances(m) && MarksMatches(m) && Markers(repl) == 0
    ensures Sub(m, repl, s, 0) == s <==> NoMatchFrom(m, s, 0)
  {
    assert s[0..] == s;
    if NoMatchFrom(m, s, 0) {
      SubNoMatch(m, repl, s, 0);
    } else {
      var k :| 0 <= k < |s| && m(s, k).Some?;
      SubMatchedLater(m, repl, s, 0, k);
    }
  }

  /** A string without digits and '@' holds no match of a matcher whose
      matches all hold one. */
  lemma NoMarkersNoMatch(m: Matcher, s: string)
    requires MarksMatches(m) && Markers(s) == 0
    ensures NoMatchFrom(m, s, 0)
  {
    forall k | 0 <= k < |s|
      ensures m(s, k).None?
    {
      if m(s, k).Some? {
        var j :| k <= j < m(s, k).value && j < |s| && IsMarker(s[j]);
        NoMarkersAt(s, j);
      }
    }
  }

  // ---- the cascade ----

  const PassportTag := "{{ PASSPORT NUMBER }}"
  const PhoneTag := "{{ PHONE NUMBER }}"
  const NiTag := "{{ NI NUMBER }}"
  const DateTag := "{{ DATE }}"
  const VrpTag := "{{ VEHICLE REGISTRATION PLATE }}"
  const EmailTag := "{{ EMAIL }}"

  /** A keyword argument of pii_remover: a false value (None, '', False)
      switches its substitution off; otherwise it is one of the six
      patterns. */
  datatype Slot = Off | On(p: Pattern)

  datatype Config = Config(ni: Slot, phone: Slot, vrp: Slot, passport: Slot, date: Slot, email: Slot)

  /** Every argument left at its default: the pattern of the same name. */
  const Defaults := Config(On(Ni), On(Phone), On(Vrp), On(Passport), On(Date), On(Email))

  /** The values pii_remover is applied to: strings, and the other cell
      values of a column (numbers, missing values). */
  datatype Cell = Text(s: string) | Number(n: int) | Missing

  /** One guarded substitution: `if slot: x = sub(slot, tag, x)`. */
  function Step(slot: Slot, tag: string, s: string): string
  {
    match slot
    case Off => s
    case On(p) => Sub(MatcherOf(p), tag, s, 0)
  }

  /** pii_remover(x, ...): on a string, the passport, phone, NI, date,
      vehicle plate and e-mail substitutions in that order; anything else
      is returned as it is. */
  function PiiRemove(x: Cell, cfg: Config): Cell
  {
    match x
    case Text(s) =>
      var a := Step(cfg.passport, PassportTag, s);
      var b := Step(cfg.phone, PhoneTag, a);
      var c := Step(cfg.ni, NiTag, b);
      var d := Step(cfg.date, DateTag, c);
      var e := Step(cfg.vrp, VrpTag, d);
      Text(Step(cfg.email, EmailTag, e))
    case _ => x
  }

  /** The substitutions of a configuration, in the order they run. */
  function Cascade(cfg: Config): seq<(Slot, string)>
  {
    [(cfg.passport, PassportTag), (cfg.phone, PhoneTag), (cfg.ni, NiTag),
     (cfg.date, DateTag), (cfg.vrp, VrpTag), (cfg.email, EmailTag)]
  }

  /** Apply a list of substitutions left to right. */
  function RunSteps(steps: seq<(Slot, string)>, s: string): string
    decreases |steps|
  {
    if |steps| == 0 then s else RunSteps(steps[1..], Step(steps[0].0, steps[0].1, s))
  }

  /** No placeholder holds a digit or an '@'. */
  predicate CleanTags(steps: seq<(Slot, string)>)
  {
    forall k, j :: 0 <= k < |steps| && 0 <= j < |steps[k].1| ==> !IsMarker(steps[k].1[j])
  }

  /** Every enabled step of the list finds no match in s. */
  predicate NothingToRemove(steps: seq<(Slot, string)>, s: string)
  {
    forall k :: 0 <= k < |steps| && steps[k].0.On? ==> NoMatchFrom(MatcherOf(steps[k].0.p), s, 0)
  }

  lemma StepMarkers(slot: Slot, tag: string, s: string)
    requires Markers(tag) == 0
    ensures Markers(Step(slot, tag, s)) <= Markers(s)
    ensures Step(slot, tag, s) != s ==> Markers(Step(slot, tag, s)) < Markers(s)
    ensures Step(slot, tag, s) == s <==> (slot.On? ==> NoMatchFrom(MatcherOf(slot.p), s, 0))
  {
    if slot.On? {
      MatcherMarks(slot.p);
      SubMarkers(MatcherOf(slot.p), tag, s, 0);
      SubUnchanged(MatcherOf(slot.p), tag, s);
      assert s[0..] == s;
    }
  }

  /** Running the steps never adds digits or '@' signs, removes some
      whenever it changes the string, and changes it exactly when some
      enabled pattern matches in it. */
  lemma {:induction false} RunStepsMarkers(steps: seq<(Slot, string)>, s: string)
    requires CleanTags(steps)
    ensures Markers(RunSteps(steps, s)) <= Markers(s)
    ensures RunSteps(steps, s) != s ==> Markers(RunSteps(steps, s)) < Markers(s)
    ensures RunSteps(steps, s) == s <==> NothingToRemove(steps, s)
    decreases |steps|
  {
    if |steps| > 0 {
      var t := Step(steps[0].0, steps[0].1, s);
      NoMarkerChars(steps[0].1);
      StepMarkers(steps[0].0, steps[0].1, s);
      assert CleanTags(steps[1..]) by {
        forall k | 0 <= k < |steps[1..]| ensures steps[1..][k] == steps[k + 1] {
        }
      }
      RunStepsMarkers(steps[1..], t);
      if t == s {
        assert NothingToRemove(steps, s) <==> NothingToRemove(steps[1..], s) by {
          if NothingToRemove(steps[1..], s) {
            forall k | 0 <= k < |steps| && steps[k].0.On? ensures NoMatchFrom(MatcherOf(steps[k].0.p), s, 0) {
              if k > 0 {
                assert steps[1..][k - 1] == steps[k];
              }
            }
          }
          if NothingToRemove(steps, s) {
            forall k | 0 <= k < |steps[1..]| && steps[1..][k].0.On?
              ensures NoMatchFrom(MatcherOf(steps[1..][k].0.p), s, 0)
            {
              assert steps[1..][k] == steps[k + 1];
            }
          }
        }
      } else {
        assert !NothingToRemove(steps, s) by {
          assert steps[0].0.On? && !NoMatchFrom(MatcherOf(steps[0].0.p), s, 0);
        }
      }
    }
  }

  /** pii_remover is the cascade run over a string. */
  lemma PiiRemoveIsCascade(s: string, cfg: Config)
    ensures PiiRemove(Text(s), cfg) == Text(RunSteps(Cascade(cfg), s))
  {
    var c := Cascade(cfg);
    var s1 := Step(cfg.passport, PassportTag, s);
    var s2 := Step(cfg.phone, PhoneTag, s1);
    var s3 := Step(cfg.ni, NiTag, s2);
    var s4 := Step(cfg.date, DateTag, s3);
    var s5 := Step(cfg.vrp, VrpTag, s4);
    var s6 := Step(cfg.email, EmailTag, s5);
    assert RunSteps(c, s) == RunSteps(c[1..], s1);
    assert RunSteps(c[1..], s1) == RunSteps(c[2..], s2) by { assert c[1..][1..] == c[2..]; }
    assert RunSteps(c[2..], s2) == RunSteps(c[3..], s3) by { assert c[2..][1..] == c[3..]; }
    assert RunSteps(c[3..], s3) == RunSteps(c[4..], s4) by { assert c[3..][1..] == c[4..]; }
    assert RunSteps(c[4..], s4) == RunSteps(c[5..], s5) by { assert c[4..][1..] == c[5..]; }
    assert RunSteps(c[5..], s5) == RunSteps(c[6..], s6) by { assert c[5..][1..] == c[6..]; }
    assert c[6..] == [];
  }

  lemma TagsAreClean(cfg: Config)
    ensures CleanTags(Cascade(cfg))
  {
    assert forall j :: 0 <= j < |PassportTag| ==> !IsMarker(PassportTag[j]);
    assert forall j :: 0 <= j < |PhoneTag| ==> !IsMarker(PhoneTag[j]);
    assert forall j :: 0 <= j < |NiTag| ==> !IsMarker(NiTag[j]);
    assert forall j :: 0 <= j < |DateTag| ==> !IsMarker(DateTag[j]);
    assert forall j :: 0 <= j < |VrpTag| ==> !IsMarker(VrpTag[j]);
    assert forall j :: 0 <= j < |EmailTag| ==> !IsMarker(EmailTag[j]);
  }

  /** A string none of whose characters is a digit or an '@' counts none. */
  lemma {:induction false} NoMarkerChars(t: string)
    requires forall k :: 0 <= k < |t| ==> !IsMarker(t[k])
    ensures Markers(t) == 0
  {
    if |t| > 0 {
      assert forall k :: 0 <= k < |t[1..]| ==> t[1..][k] == t[k + 1];
      NoMarkerChars(t[1..]);
    }
  }


  // ---- what pii_remover promises ----

  /** pii_remover returns anything but a string as it is. */
  lemma PiiRemoveNonText(x: Cell, cfg: Config)
    requires !x.Text?
    ensures PiiRemove(x, cfg) == x
  {
  }

  /** The result on a string is a string; it never holds more digits and
      '@' signs than the input, holds fewer whenever it differs, and equals
      the input exactly when no enabled pattern matches anywhere in it. */
  lemma PiiRemoveText(s: string, cfg: Config)
    ensures PiiRemove(Text(s), cfg).Text?
    ensures Markers(PiiRemove(Text(s), cfg).s) <= Markers(s)
    ensures PiiRemove(Text(s), cfg).s != s ==> Markers(PiiRemove(Text(s), cfg).s) < Markers(s)
    ensures PiiRemove(Text(s), cfg).s == s <==> NothingToRemove(Cascade(cfg), s)
  {
    PiiRemoveIsCascade(s, cfg);
    TagsAreClean(cfg);
    RunStepsMarkers(Cascade(cfg), s);
  }

  /** With every argument false there is nothing to do. */
  lemma PiiRemoveAllOff(x: Cell)
    ensures PiiRemove(x, Config(Off, Off, Off, Off, Off, Off)) == x
  {
  }

  /** A string with no digit and no '@' comes back unchanged, whatever the
      configuration. */
  lemma PiiRemoveNoMarkers(s: string, cfg: Config)
    requires Markers(s) == 0
    ensures PiiRemove(Text(s), cfg) == Text(s)
  {
    PiiRemoveText(s, cfg);
    var c := Cascade(cfg);
    forall k | 0 <= k < |c| && c[k].0.On? ensures NoMatchFrom(MatcherOf(c[k].0.p), s, 0) {
      MatcherMarks(c[k].0.p);
      NoMarkersNoMatch(MatcherOf(c[k].0.p), s);
    }
  }

  /** No match of any pattern lies inside a stretch of text free of digits
      and '@', such as any part of a placeholder: a later step cannot match
      wholly inside what an earlier one wrote. */
  lemma MatchNotInsidePlaceholder(p: Pattern, s: string, i: nat, tag: string, a: nat)
    requires MatchAt(p, s, i).Some?
    requires forall j :: 0 <= j < |tag| ==> !IsMarker(tag[j])
    ensures var e := MatchAt(p, s, i).value;
      !(a + (e - i) <= |tag| && tag[a..a + (e - i)] == s[i..e])
  {
    var e := MatchAt(p, s, i).value;
    MatchHasMarker(p, s, i);
    var j :| i <= j < e && j < |s| && IsMarker(s[j]);
    if a + (e - i) <= |tag| {
      assert tag[a..a + (e - i)][j - i] == tag[a + (j - i)];
      assert s[i..e][j - i] == s[j];
    }
  }

  // ---- an example ----

  /** A passport number holds the letter 'G' of "GBR". */
  lemma PassportNeedsG(s: string, k: nat)
    requires PassportAt(s, k).Some?
    ensures exists j :: k <= j < PassportAt(s, k).value && s[j] == 'G'
  {
    var j := if DigitsAt(s, k, 10) then k + 10 else k + 9;
    assert s[j] == "GBR"[0];
  }

  lemma NoPassportWithoutG(s: string)
    requires forall j :: 0 <= j < |s| ==> s[j] != 'G'
    ensures NoMatchFrom(MatcherOf(Passport), s, 0)
  {
    forall k | 0 <= k < |s| ensures MatchAt(Passport, s, k).None? {
      if PassportAt(s, k).Some? {
        PassportNeedsG(s, k);
      }
    }
  }

  /** "07911 123456" is matched whole by the first phone alternative, a
      trunk 0, four digits, a space, three digits and three digits. */
  lemma PhoneExampleMatch()
    ensures PhoneAlternative("07911 123456", 0, 4, 3, 3) == Some(12)
    ensures MatchAt(Phone, "07911 123456", 0) == Some(12)
  {
    var s := "07911 123456";
    assert !LitAt(s, 0, "+44");
    assert !LitAt(s, 0, "(");
    assert LitAt(s, 0, "0");
    assert DigitsAt(s, 1, 4);
    assert !LitAt(s, 5, ")");
    assert PhoneHead(s, 0, 4) == Some(5);
    assert OptSpace(s, 5) == 6;
    assert DigitsAt(s, 6, 3);
    assert OptSpace(s, 9) == 9;
    assert DigitsAt(s, 9, 3);
    assert PhoneAlternative(s, 0, 4, 3, 3) == Some(12);
    assert PhoneExtension(s, 12) == 12;
  }

  lemma PassportStepExample()
    ensures Step(On(Passport), PassportTag, "07911 123456") == "07911 123456"
  {
    var s := "07911 123456";
    assert forall j :: 0 <= j < |s| ==> s[j] != 'G';
    NoPassportWithoutG(s);
    SubNoMatch(MatcherOf(Passport), PassportTag, s, 0);
    assert s[0..] == s;
  }

  lemma PhoneStepExample()
    ensures Step(On(Phone), PhoneTag, "07911 123456") == PhoneTag
  {
    var s := "07911 123456";
    PhoneExampleMatch();
    SubHit(MatcherOf(Phone), PhoneTag, s, 0);
    assert Sub(MatcherOf(Phone), PhoneTag, s, 12) == [];
    assert PhoneTag + [] == PhoneTag;
  }

  /** A step applied to text free of digits and '@' changes nothing. */
  lemma StepKeepsClean(slot: Slot, tag: string, t: string)
    requires Markers(t) == 0
    ensures Step(slot, tag, t) == t
  {
    if slot.On? {
      MatcherMarks(slot.p);
      NoMarkersNoMatch(MatcherOf(slot.p), t);
      SubNoMatch(MatcherOf(slot.p), tag, t, 0);
      assert t[0..] == t;
    }
  }

  lemma PhoneTagClean()
    ensures Markers(PhoneTag) == 0
  {
    assert forall j :: 0 <= j < |PhoneTag| ==> !IsMarker(PhoneTag[j]);
    NoMarkerChars(PhoneTag);
  }

  /** With every argument at its default, the mobile number becomes the
      phone placeholder and nothing else is touched. */
  lemma PiiRemovePhoneExample()
    ensures PiiRemove(Text("07911 123456"), Defaults) == Text(PhoneTag)
  {
    PassportStepExample();
    PhoneStepExample();
    PhoneTagClean();
    var t := PhoneTag;
    StepKeepsClean(On(Ni), NiTag, t);
    StepKeepsClean(On(Date), DateTag, t);
    StepKeepsClean(On(Vrp), VrpTag, t);
    StepKeepsClean(On(Email), EmailTag, t);
    var a := Step(On(Passport), PassportTag, "07911 123456");
    assert a == "07911 123456";
    var b := Step(On(Phone), PhoneTag, a);
    assert b == PhoneTag;
  }

  /** Order matters: on its own the NI pattern would take the two letters
      and the first six digits of "AB07911 123456"... */
  lemma PrecedenceNiMatch(s: string)
    requires s == "AB07911 123456"
    ensures MatchAt(Ni, s, 0) == Some(9)
  {
    PrecedenceNiShape(s);
    NiSixDigits(s);
    NiAtNine(s);
  }

  lemma PrecedenceNiShape(s: string)
    requires s == "AB07911 123456"
    ensures 10 <= |s| && IsLetter(s[0]) && IsLetter(s[1]) && IsSpace(s[7]) && !IsSpace(s[9]) && !IsLetter(s[9])
    ensures IsDigit(s[2]) && IsDigit(s[3]) && IsDigit(s[4]) && IsDigit(s[5]) && IsDigit(s[6]) && IsDigit(s[8])
  {
  }

  /** Two letters and six NI digits ending at 9, followed by no letter: an
      NI number that ends at 9. */
  lemma NiAtNine(s: string)
    requires 10 <= |s| && IsLetter(s[0]) && IsLetter(s[1]) && !IsLetter(s[9])
    requires NiDigits(s, 2, 6) == Some(9)
    ensures NiAt(s, 0) == Some(9)
  {
    assert LettersAt(s, 0, 2);
  }

  /** Five digits from index 2, a space and a sixth digit followed by no
      space make up the digits of an NI number ending at 9. */
  lemma NiSixDigits(s: string)
    requires 10 <= |s| && IsSpace(s[7]) && !IsSpace(s[9])
    requires IsDigit(s[2]) && IsDigit(s[3]) && IsDigit(s[4]) && IsDigit(s[5]) && IsDigit(s[6]) && IsDigit(s[8])
    ensures NiDigits(s, 2, 6) == Some(9)
  {
    NiDigitNext(s, 2, 6);
    NiDigitNext(s, 3, 5);
    NiDigitNext(s, 4, 4);
    NiDigitNext(s, 5, 3);
    NiDigitSpace(s, 6, 2);
    NiDigitLast(s, 8, 1);
    assert NiDigits(s, 9, 0) == Some(9);
  }

  /** A digit of the NI number at i, directly followed by the next one. */
  lemma NiDigitNext(s: string, i: nat, n: nat)
    requires 0 < n && i + 1 < |s| && IsDigit(s[i]) && IsDigit(s[i + 1])
    ensures NiDigits(s, i, n) == NiDigits(s, i + 1, n - 1)
  {
    DigitNotSpace(s[i + 1]);
    NiDigitLast(s, i, n);
  }

  /** A digit of the NI number at i, then one space before the next one. */
  lemma NiDigitSpace(s: string, i: nat, n: nat)
    requires 0 < n && i + 2 < |s| && IsDigit(s[i]) && IsSpace(s[i + 1]) && IsDigit(s[i + 2])
    ensures NiDigits(s, i, n) == NiDigits(s, i + 2, n - 1)
  {
    DigitNotSpace(s[i]);
    DigitNotSpace(s[i + 2]);
    assert SkipSpaces(s, i + 2) == i + 2;
    assert SkipSpaces(s, i + 1) == i + 2;
  }

  /** A digit of the NI number at i, followed by no space. */
  lemma NiDigitLast(s: string, i: nat, n: nat)
    requires 0 < n && i + 1 < |s| && IsDigit(s[i]) && !IsSpace(s[i + 1])
    ensures NiDigits(s, i, n) == NiDigits(s, i + 1, n - 1)
  {
    DigitNotSpace(s[i]);
    assert SkipSpaces(s, i) == i;
    assert SkipSpaces(s, i + 1) == i + 1;
  }

  lemma DigitNotSpace(c: char)
    requires IsDigit(c)
    ensures !IsSpace(c)
  {
  }

  lemma PrecedencePhoneMatch(s: string)
    requires s == "AB07911 123456"
    ensures MatchAt(Phone, s, 0).None? && MatchAt(Phone, s, 1).None?
    ensures MatchAt(Phone, s, 2) == Some(14)
  {
    assert !LitAt(s, 0, "+44") && !LitAt(s, 0, "(") && !LitAt(s, 0, "0");
    assert !LitAt(s, 1, "+44") && !LitAt(s, 1, "(") && !LitAt(s, 1, "0");
    assert !LitAt(s, 2, "+44") && !LitAt(s, 2, "(") && LitAt(s, 2, "0");
    assert DigitsAt(s, 3, 4);
    assert !LitAt(s, 7, ")");
    assert PhoneHead(s, 2, 4) == Some(7);
    assert OptSpace(s, 7) == 8;
    assert DigitsAt(s, 8, 3);
    assert OptSpace(s, 11) == 11;
    assert DigitsAt(s, 11, 3);
    assert PhoneAlternative(s, 2, 4, 3, 3) == Some(14);
    assert PhoneExtension(s, 14) == 14;
  }

  lemma PrecedencePhoneTail(s: string)
    requires s == "AB07911 123456"
    ensures Sub(MatcherOf(Phone), PhoneTag, s, 2) == PhoneTag
  {
    PrecedencePhoneMatch(s);
    SubHit(MatcherOf(Phone), PhoneTag, s, 2);
    assert Sub(MatcherOf(Phone), PhoneTag, s, 14) == [];
    assert PhoneTag + [] == PhoneTag;
  }

  lemma PrecedencePhoneHead(s: string)
    requires s == "AB07911 123456"
    ensures Sub(MatcherOf(Phone), PhoneTag, s, 0) == [s[0]] + ([s[1]] + Sub(MatcherOf(Phone), PhoneTag, s, 2))
  {
    PrecedencePhoneMatch(s);
    SubSkip(MatcherOf(Phone), PhoneTag, s, 0);
    SubSkip(MatcherOf(Phone), PhoneTag, s, 1);
  }

  lemma PrecedenceLetters(s: string, tag: string)
    requires s == "AB07911 123456"
    ensures [s[0]] + ([s[1]] + tag) == "AB" + tag
  {
  }

  lemma PrecedencePhoneStep(s: string)
    requires s == "AB07911 123456"
    ensures Step(On(Phone), PhoneTag, s) == "AB" + PhoneTag
  {
    PrecedencePhoneHead(s);
    PrecedencePhoneTail(s);
    PrecedenceLetters(s, PhoneTag);
  }

  lemma PrecedencePassportStep(s: string)
    requires s == "AB07911 123456"
    ensures Step(On(Passport), PassportTag, s) == s
  {
    assert forall j :: 0 <= j < |s| ==> s[j] != 'G';
    NoPassportWithoutG(s);
    SubNoMatch(MatcherOf(Passport), PassportTag, s, 0);
    assert s[0..] == s;
  }

  /** ...but phone runs first and takes the whole number, leaving the
      letters in front of it. */
  lemma PiiRemovePrecedenceExample(s: string)
    requires s == "AB07911 123456"
    ensures PiiRemove(Text(s), Defaults) == Text("AB" + PhoneTag)
    ensures MatchAt(Ni, s, 0) == Some(9)
  {
    PrecedenceNiMatch(s);
    PrecedencePassportStep(s);
    PrecedencePhoneStep(s);
    PhoneTagClean();
    var t := "AB" + PhoneTag;
    MarkersAppend("AB", PhoneTag);
    assert Markers("AB") == 0;
    StepKeepsClean(On(Ni), NiTag, t);
    StepKeepsClean(On(Date), DateTag, t);
    StepKeepsClean(On(Vrp), VrpTag, t);
    StepKeepsClean(On(Email), EmailTag, t);
  }
}
