/**
 * `where[search_*]` over people (pcomirror/db.py, the normalisers and matchers, and
 * `_search_clause` of pcomirror/serving.py): word prefixes, substrings and digit
 * suffixes, one arm at a time.
 */
module Search {
  import opened Types

  /** The text rules the platform brings: which characters are white space, which are
      digits, and lower-casing, which may look at the whole string. */
  datatype Rules = Rules(space: char -> bool, digit: char -> bool, lower: string -> string)

  ghost predicate Sane(rules: Rules) {
    && rules.space(' ')
    && (forall c :: rules.space(c) ==> !rules.digit(c))
    && (forall s :: rules.lower(rules.lower(s)) == rules.lower(s))
    && (forall s :: rules.lower(s) == "" <==> s == "")
    && (forall s, c :: c in rules.lower(s) && rules.space(c) ==> c in s)
  }

  // ----- str.split() and " ".join() -----------------------------------------------

  function FirstWord(rules: Rules, s: string): (w: string)
    ensures |w| <= |s| && w == s[..|w|]
    ensures forall c :: c in w ==> !rules.space(c)
    ensures s != "" && !rules.space(s[0]) ==> w != ""
  {
    if s == "" || rules.space(s[0]) then "" else [s[0]] + FirstWord(rules, s[1..])
  }

  function Words(rules: Rules, s: string): seq<string>
    decreases |s|
  {
    if s == "" then []
    else if rules.space(s[0]) then Words(rules, s[1..])
    else var w := FirstWord(rules, s); [w] + Words(rules, s[|w|..])
  }

  function Join(words: seq<string>): string {
    if words == [] then ""
    else if |words| == 1 then words[0]
    else words[0] + " " + Join(words[1..])
  }

  /** `probe` occurs in `s`: SQL `instr(s, probe) > 0`. */
  predicate Contains(s: string, probe: string) {
    exists i :: 0 <= i <= |s| && OccursAt(s, probe, i)
  }

  predicate OccursAt(s: string, probe: string, i: nat) {
    i + |probe| <= |s| && s[i..i + |probe|] == probe
  }

  predicate StartsWith(s: string, probe: string) {
    |probe| <= |s| && s[..|probe|] == probe
  }

  predicate EndsWith(s: string, probe: string) {
    |probe| <= |s| && s[|s| - |probe|..] == probe
  }

  lemma ContainsShifts(front: string, s: string, back: string, probe: string)
    requires Contains(s, probe)
    ensures Contains(front + s + back, probe)
  {
    var i :| 0 <= i <= |s| && OccursAt(s, probe, i);
    assert OccursAt(front + s + back, probe, |front| + i);
  }

  /** Every word is a stretch of the text it was split from. */
  lemma {:induction false} WordsAreInside(rules: Rules, s: string, k: nat)
    requires k < |Words(rules, s)|
    ensures var w := Words(rules, s)[k];
            w != "" && Contains(s, w) && forall c :: c in w ==> !rules.space(c)
    decreases |s|
  {
    if rules.space(s[0]) {
      WordsAreInside(rules, s[1..], k);
      assert [s[0]] + s[1..] + "" == s;
      ContainsShifts([s[0]], s[1..], "", Words(rules, s)[k]);
    } else {
      var w := FirstWord(rules, s);
      if k == 0 {
        assert OccursAt(s, w, 0);
      } else {
        WordsAreInside(rules, s[|w|..], k - 1);
        assert s[..|w|] + s[|w|..] + "" == s;
        ContainsShifts(s[..|w|], s[|w|..], "", Words(rules, s)[k]);
      }
    }
  }

  lemma {:induction false} OneWord(rules: Rules, s: string)
    requires s != "" && forall c :: c in s ==> !rules.space(c)
    ensures Words(rules, s) == [s]
  {
    FirstWordIsAll(rules, s);
    assert s[|s|..] == "";
  }

  lemma {:induction false} FirstWordIsAll(rules: Rules, s: string)
    requires forall c :: c in s ==> !rules.space(c)
    ensures FirstWord(rules, s) == s
  {
    if s != "" {
      assert s[0] in s;
      assert forall c :: c in s[1..] ==> c in s;
      FirstWordIsAll(rules, s[1..]);
    }
  }

  lemma {:induction false} NoWordsIsBlank(rules: Rules, s: string)
    requires Words(rules, s) == []
    ensures forall c :: c in s ==> rules.space(c)
    decreases |s|
  {
    if s != "" {
      NoWordsIsBlank(rules, s[1..]);
      assert s == [s[0]] + s[1..];
    }
  }

  /** Joined words are separated by blanks and carry no other white space. */
  lemma {:induction false} JoinAddsOnlyBlanks(rules: Rules, words: seq<string>)
    requires forall k :: 0 <= k < |words| ==> forall c :: c in words[k] ==> !rules.space(c)
    ensures forall c :: c in Join(words) && rules.space(c) ==> c == ' '
    ensures Join(words) == "" && (forall k :: 0 <= k < |words| ==> words[k] != "") ==> words == []
  {
    if |words| > 1 {
      assert forall k :: 0 <= k < |words[1..]| ==> words[1..][k] == words[k + 1];
      JoinAddsOnlyBlanks(rules, words[1..]);
    }
  }

  // ----- normalisers and matchers ----------------------------------------------------

  function NormText(rules: Rules, s: string): string {
    rules.lower(Join(Words(rules, s)))
  }

  function NormDigits(rules: Rules, s: string): string {
    if s == "" then ""
    else (if rules.digit(s[0]) then [s[0]] else "") + NormDigits(rules, s[1..])
  }

  /** The needle's words prefix the leading words of the haystack. */
  method NameMatches(rules: Rules, haystack: Option<string>, needle: string) returns (matches: bool)
    ensures matches == NameMatch(rules, haystack, needle)
  {
    if haystack.None? {
      return false;
    }
    var words := Words(rules, NormText(rules, haystack.value));
    var probe := Words(rules, NormText(rules, needle));
    if probe == [] {
      return true;
    }
    if |probe| > |words| {
      return false;
    }
    for i := 0 to |probe|
      invariant forall k :: 0 <= k < i ==> StartsWith(words[k], probe[k])
    {
      if !StartsWith(words[i], probe[i]) {
        return false;
      }
    }
    return true;
  }

  ghost predicate NameMatch(rules: Rules, haystack: Option<string>, needle: string) {
    haystack.Some? &&
    var words, probe := Words(rules, NormText(rules, haystack.value)), Words(rules, NormText(rules, needle));
    |probe| <= |words| && forall k :: 0 <= k < |probe| ==> StartsWith(words[k], probe[k])
  }

  predicate TextContains(rules: Rules, haystack: Option<string>, probe: string) {
    haystack.Some? && Contains(NormText(rules, haystack.value), probe)
  }

  predicate DigitsSuffix(rules: Rules, haystack: Option<string>, needle: string) {
    haystack.Some? &&
    var stored, probe := NormDigits(rules, haystack.value), NormDigits(rules, needle);
    stored != "" && probe != "" && EndsWith(stored, probe)
  }

  predicate DigitsEqual(rules: Rules, haystack: Option<string>, needle: string) {
    haystack.Some? &&
    var stored, probe := NormDigits(rules, haystack.value), NormDigits(rules, needle);
    stored != "" && probe != "" && stored == probe
  }

  // ----- the filters ------------------------------------------------------------------

  datatype Arm = EmailContains | PhoneSuffix | PhoneExact

  /** A declared filter: whether names are searched, the or-email exception for a
      needle without blanks, and the child arms in order. */
  datatype Filter = Filter(names: bool, singleTokenContains: bool, children: seq<Arm>)

  const SEARCH_NAME := Filter(true, false, [])
  const SEARCH_NAME_OR_EMAIL := Filter(true, true, [EmailContains])
  const SEARCH_PHONE_NUMBER := Filter(false, false, [PhoneSuffix])
  const SEARCH_PHONE_NUMBER_E164 := Filter(false, false, [PhoneExact])
  const SEARCH_NAME_OR_EMAIL_OR_PHONE_NUMBER := Filter(true, true, [EmailContains, PhoneSuffix])

  datatype Term = NameWords(text: string) | NameContains(text: string) | Child(arm: Arm, param: string)

  /** What the filter becomes: nothing at all, a filter no row passes, or a disjunction. */
  datatype Clause = NoFilter | Nobody | AnyOf(terms: seq<Term>)

  /** A person row: the name haystacks, and the searched columns of its live children. */
  datatype Person = Person(names: seq<Option<string>>, emails: seq<Option<string>>, numbers: seq<Option<string>>, e164s: seq<Option<string>>)

  ghost predicate TermHolds(rules: Rules, t: Term, p: Person) {
    match t
    case NameWords(text) => exists i :: 0 <= i < |p.names| && NameMatch(rules, p.names[i], text)
    case NameContains(text) => exists i :: 0 <= i < |p.names| && TextContains(rules, p.names[i], text)
    case Child(EmailContains, param) => exists i :: 0 <= i < |p.emails| && TextContains(rules, p.emails[i], param)
    case Child(PhoneSuffix, param) => exists i :: 0 <= i < |p.numbers| && DigitsSuffix(rules, p.numbers[i], param)
    case Child(PhoneExact, param) => exists i :: 0 <= i < |p.e164s| && DigitsEqual(rules, p.e164s[i], param)
  }

  ghost predicate Passes(rules: Rules, c: Clause, p: Person) {
    match c
    case NoFilter => true
    case Nobody => false
    case AnyOf(terms) => exists t :: t in terms && TermHolds(rules, t, p)
  }

  predicate Digital(arm: Arm) {
    arm.PhoneSuffix? || arm.PhoneExact?
  }

  function ArmTerms(rules: Rules, arm: Arm, needle: string): seq<Term> {
    var probe := if Digital(arm) then NormDigits(rules, needle) else NormText(rules, needle);
    if probe == "" then [] else [Child(arm, if Digital(arm) then needle else probe)]
  }

  function ChildTerms(rules: Rules, arms: seq<Arm>, needle: string): seq<Term> {
    if arms == [] then [] else ChildTerms(rules, arms[..|arms| - 1], needle) + ArmTerms(rules, arms[|arms| - 1], needle)
  }

  function NameTerms(rules: Rules, f: Filter, needle: string): seq<Term> {
    var text := NormText(rules, needle);
    if !f.names || text == "" then []
    else if f.singleTokenContains && ' ' !in text then [NameContains(text)]
    else [NameWords(text)]
  }

  function ClauseOf(rules: Rules, f: Filter, needle: string): Clause {
    var terms := NameTerms(rules, f, needle) + ChildTerms(rules, f.children, needle);
    if terms != [] then AnyOf(terms) else if NormText(rules, needle) == "" then NoFilter else Nobody
  }

  lemma NoArmYet(rules: Rules, f: Filter, needle: string)
    ensures NameTerms(rules, f, needle) == NameTerms(rules, f, needle) + ChildTerms(rules, f.children[..0], needle)
  {
  }

  lemma OneMoreArm(rules: Rules, arms: seq<Arm>, needle: string, i: nat)
    requires i < |arms|
    ensures ChildTerms(rules, arms[..i + 1], needle) ==
            ChildTerms(rules, arms[..i], needle) + ArmTerms(rules, arms[i], needle)
  {
    assert arms[..i + 1][..i] == arms[..i];
  }

  /** The name arm, at most one term. */
  method NameArm(rules: Rules, f: Filter, needle: string) returns (terms: seq<Term>)
    ensures terms == NameTerms(rules, f, needle)
  {
    terms := [];
    var text := NormText(rules, needle);
    if text != "" && f.names {
      if f.singleTokenContains && ' ' !in text {
        terms := terms + [NameContains(text)];
      } else {
        terms := terms + [NameWords(text)];
      }
    }
  }

  method SearchClause(rules: Rules, f: Filter, needle: string) returns (clause: Clause)
    ensures clause == ClauseOf(rules, f, needle)
  {
    hide NormText, NormDigits, ChildTerms, NameTerms;
    var terms := NameArm(rules, f, needle);
    NoArmYet(rules, f, needle);
    for i := 0 to |f.children|
      invariant terms == NameTerms(rules, f, needle) + ChildTerms(rules, f.children[..i], needle)
    {
      OneMoreArm(rules, f.children, needle, i);
      var arm := f.children[i];
      var probe := if Digital(arm) then NormDigits(rules, needle) else NormText(rules, needle);
      if probe != "" {
        terms := terms + [Child(arm, if Digital(arm) then needle else probe)];
      }
    }
    assert f.children[..|f.children|] == f.children;
    if terms != [] {
      return AnyOf(terms);
    }
    return if NormText(rules, needle) == "" then NoFilter else Nobody;
  }

  ghost predicate Matches(rules: Rules, f: Filter, needle: string, p: Person) {
    Passes(rules, ClauseOf(rules, f, needle), p)
  }

  // ----- the arms are nested ----------------------------------------------------------

  lemma WordsAreClean(rules: Rules, s: string)
    ensures forall k :: 0 <= k < |Words(rules, s)| ==>
              Words(rules, s)[k] != "" && forall c :: c in Words(rules, s)[k] ==> !rules.space(c)
  {
    forall k | 0 <= k < |Words(rules, s)|
      ensures Words(rules, s)[k] != "" && forall c :: c in Words(rules, s)[k] ==> !rules.space(c)
    {
      WordsAreInside(rules, s, k);
    }
  }

  /** Normalised text has no white space but blanks; without a blank it is one word,
      and normalising it again changes nothing. */
  lemma ATokenIsOneWord(rules: Rules, needle: string)
    requires Sane(rules) && NormText(rules, needle) != "" && ' ' !in NormText(rules, needle)
    ensures var text := NormText(rules, needle);
            NormText(rules, text) == text && Words(rules, text) == [text]
  {
    var text := NormText(rules, needle);
    WordsAreClean(rules, needle);
    JoinAddsOnlyBlanks(rules, Words(rules, needle));
    forall c | c in text ensures !rules.space(c) {
    }
    OneWord(rules, text);
  }

  /** A token that prefixes a name's first word occurs in the name. */
  lemma PrefixOccurs(rules: Rules, haystack: Option<string>, needle: string)
    requires Sane(rules) && NormText(rules, needle) != "" && ' ' !in NormText(rules, needle)
    requires NameMatch(rules, haystack, NormText(rules, needle))
    ensures TextContains(rules, haystack, NormText(rules, needle))
  {
    var text, hay := NormText(rules, needle), NormText(rules, haystack.value);
    ATokenIsOneWord(rules, needle);
    var first := Words(rules, hay)[0];
    assert StartsWith(first, Words(rules, text)[0]);
    WordsAreInside(rules, hay, 0);
    var i :| 0 <= i <= |hay| && OccursAt(hay, first, i);
    assert hay[i..i + |text|] == first[..|text|];
    assert OccursAt(hay, text, i);
  }

  /** White space alone is no needle: it holds no word and no digit. */
  lemma BlankNeedles(rules: Rules, needle: string)
    requires Sane(rules) && NormText(rules, needle) == ""
    ensures NormDigits(rules, needle) == ""
  {
    WordsAreClean(rules, needle);
    JoinAddsOnlyBlanks(rules, Words(rules, needle));
    NoWordsIsBlank(rules, needle);
    NoDigits(rules, needle);
  }

  lemma {:induction false} NoDigits(rules: Rules, s: string)
    requires forall c :: c in s ==> !rules.digit(c)
    ensures NormDigits(rules, s) == ""
  {
    if s != "" {
      assert s[0] in s;
      NoDigits(rules, s[1..]);
    }
  }

  lemma OrEmailTerms(rules: Rules, needle: string)
    ensures ChildTerms(rules, SEARCH_NAME.children, needle) == []
    ensures ChildTerms(rules, SEARCH_NAME_OR_EMAIL.children, needle) == ArmTerms(rules, EmailContains, needle)
    ensures ChildTerms(rules, SEARCH_NAME_OR_EMAIL_OR_PHONE_NUMBER.children, needle) ==
            ArmTerms(rules, EmailContains, needle) + ArmTerms(rules, PhoneSuffix, needle)
  {
    assert SEARCH_NAME_OR_EMAIL.children[..0] == [];
    assert SEARCH_NAME_OR_EMAIL_OR_PHONE_NUMBER.children[..1] == [EmailContains];
    assert [EmailContains][..0] == [];
  }

  /** Whoever `search_name` finds, `search_name_or_email` finds. */
  lemma NameIsNestedInNameOrEmail(rules: Rules, needle: string, p: Person)
    requires Sane(rules) && Matches(rules, SEARCH_NAME, needle, p)
    ensures Matches(rules, SEARCH_NAME_OR_EMAIL, needle, p)
  {
    OrEmailTerms(rules, needle);
    var text := NormText(rules, needle);
    if text != "" {
      var narrow, wide := NameTerms(rules, SEARCH_NAME, needle)[0], NameTerms(rules, SEARCH_NAME_OR_EMAIL, needle)[0];
      assert TermHolds(rules, narrow, p);
      var i :| 0 <= i < |p.names| && NameMatch(rules, p.names[i], text);
      if ' ' !in text {
        PrefixOccurs(rules, p.names[i], needle);
      }
      assert TermHolds(rules, wide, p);
      assert wide in ClauseOf(rules, SEARCH_NAME_OR_EMAIL, needle).terms;
    }
  }

  /** Whoever `search_name_or_email` finds, the arm with phone numbers finds. */
  lemma NameOrEmailIsNestedInAll(rules: Rules, needle: string, p: Person)
    requires Sane(rules) && Matches(rules, SEARCH_NAME_OR_EMAIL, needle, p)
    ensures Matches(rules, SEARCH_NAME_OR_EMAIL_OR_PHONE_NUMBER, needle, p)
  {
    OrEmailTerms(rules, needle);
    if NormText(rules, needle) == "" {
      BlankNeedles(rules, needle);
    } else {
      var t :| t in ClauseOf(rules, SEARCH_NAME_OR_EMAIL, needle).terms && TermHolds(rules, t, p);
      assert t in ClauseOf(rules, SEARCH_NAME_OR_EMAIL_OR_PHONE_NUMBER, needle).terms;
    }
  }

  /** A blank needle filters nothing under any of the three, and only a blank one does. */
  lemma OnlyBlanksFilterNothing(rules: Rules, needle: string, f: Filter)
    requires Sane(rules)
    requires f in {SEARCH_NAME, SEARCH_NAME_OR_EMAIL, SEARCH_NAME_OR_EMAIL_OR_PHONE_NUMBER}
    ensures ClauseOf(rules, f, needle) == NoFilter <==> forall c :: c in needle ==> rules.space(c)
  {
    OrEmailTerms(rules, needle);
    if NormText(rules, needle) == "" {
      BlankNeedles(rules, needle);
      WordsAreClean(rules, needle);
      JoinAddsOnlyBlanks(rules, Words(rules, needle));
      NoWordsIsBlank(rules, needle);
    } else if forall c :: c in needle ==> rules.space(c) {
      BlankHasNoWords(rules, needle);
    }
  }

  /** A phone search finds nobody -- rather than everybody -- exactly for a needle that
      is something but holds no digit; it filters nothing exactly for a blank one. */
  lemma ANameInAPhoneSearch(rules: Rules, needle: string, f: Filter)
    requires Sane(rules) && f in {SEARCH_PHONE_NUMBER, SEARCH_PHONE_NUMBER_E164}
    ensures ClauseOf(rules, f, needle) == Nobody <==> NormText(rules, needle) != "" && NormDigits(rules, needle) == ""
    ensures ClauseOf(rules, f, needle) == NoFilter <==> NormText(rules, needle) == ""
  {
    var arm := f.children[0];
    assert ChildTerms(rules, f.children, needle) == ArmTerms(rules, arm, needle) by {
      assert f.children[..0] == [];
    }
    if NormText(rules, needle) == "" {
      BlankNeedles(rules, needle);
    }
  }

  lemma {:induction false} BlankHasNoWords(rules: Rules, s: string)
    requires forall c :: c in s ==> rules.space(c)
    ensures Words(rules, s) == []
    decreases |s|
  {
    if s != "" {
      assert s[0] in s;
      BlankHasNoWords(rules, s[1..]);
    }
  }

  /** The or-email family departs from `search_name` on names for a single token only:
      of two or more words it finds exactly those whose name matches word by word, and
      those with a matching address. */
  lemma SeveralWordsMatchLikeNames(rules: Rules, needle: string, p: Person)
    requires Sane(rules) && ' ' in NormText(rules, needle)
    ensures Matches(rules, SEARCH_NAME_OR_EMAIL, needle, p) <==>
            || Matches(rules, SEARCH_NAME, needle, p)
            || exists i :: 0 <= i < |p.emails| && TextContains(rules, p.emails[i], NormText(rules, needle))
  {
    OrEmailTerms(rules, needle);
    var text := NormText(rules, needle);
    var wide := ClauseOf(rules, SEARCH_NAME_OR_EMAIL, needle).terms;
    assert wide == [NameWords(text), Child(EmailContains, text)];
    assert wide[0] in wide && wide[1] in wide;
    assert ClauseOf(rules, SEARCH_NAME, needle).terms == [NameWords(text)];
  }

  // ----- what is found, said of the texts alone ---------------------------------------

  /** `text` is somewhere in `s`. */
  ghost predicate Inside(s: string, text: string) {
    exists front, back :: s == front + text + back
  }

  lemma ContainsIsInside(s: string, text: string)
    ensures Contains(s, text) <==> Inside(s, text)
  {
    if Contains(s, text) {
      var i :| 0 <= i <= |s| && OccursAt(s, text, i);
      assert s == s[..i] + text + s[i + |text|..];
    }
    if Inside(s, text) {
      var front, back :| s == front + text + back;
      assert OccursAt(s, text, |front|);
    }
  }

  ghost predicate IsInside(rules: Rules, haystack: Option<string>, text: string) {
    haystack.Some? && Inside(NormText(rules, haystack.value), text)
  }

  /** A single token is looked for inside: the or-email search finds exactly the people with a
      name or an address that has it anywhere. */
  lemma ATokenIsFoundInside(rules: Rules, needle: string, p: Person)
    requires Sane(rules) && NormText(rules, needle) != "" && ' ' !in NormText(rules, needle)
    ensures Matches(rules, SEARCH_NAME_OR_EMAIL, needle, p) <==>
            || (exists i :: 0 <= i < |p.names| && IsInside(rules, p.names[i], NormText(rules, needle)))
            || (exists i :: 0 <= i < |p.emails| && IsInside(rules, p.emails[i], NormText(rules, needle)))
  {
    OrEmailTerms(rules, needle);
    var text := NormText(rules, needle);
    forall h: Option<string> | h.Some? ensures TextContains(rules, h, text) <==> IsInside(rules, h, text) {
      ContainsIsInside(NormText(rules, h.value), text);
    }
    var wide := ClauseOf(rules, SEARCH_NAME_OR_EMAIL, needle).terms;
    assert wide == [NameContains(text)] + [Child(EmailContains, text)];
    EitherTerm(rules, [NameContains(text)], [Child(EmailContains, text)], p);
    OneTerm(rules, NameContains(text), p);
    OneTerm(rules, Child(EmailContains, text), p);
    hide NormText, TextContains, IsInside, ClauseOf, Passes;
  }

  /** The digits of the number end in the digits of the needle. */
  ghost predicate EndsInDigits(rules: Rules, number: Option<string>, needle: string) {
    number.Some? && exists front :: NormDigits(rules, number.value) == front + NormDigits(rules, needle)
  }

  lemma SuffixIsEnding(rules: Rules, number: Option<string>, needle: string)
    requires NormDigits(rules, needle) != ""
    ensures DigitsSuffix(rules, number, needle) <==> EndsInDigits(rules, number, needle)
  {
    if number.Some? {
      var stored, probe := NormDigits(rules, number.value), NormDigits(rules, needle);
      if EndsWith(stored, probe) {
        assert stored == stored[..|stored| - |probe|] + probe;
      }
    }
  }

  lemma OneTerm(rules: Rules, t: Term, p: Person)
    ensures Passes(rules, AnyOf([t]), p) <==> TermHolds(rules, t, p)
  {
    hide TermHolds;
    assert t in [t];
  }

  lemma EitherTerm(rules: Rules, a: seq<Term>, b: seq<Term>, p: Person)
    ensures Passes(rules, AnyOf(a + b), p) <==> Passes(rules, AnyOf(a), p) || Passes(rules, AnyOf(b), p)
  {
    hide TermHolds;
    if Passes(rules, AnyOf(a), p) {
      var t :| t in a && TermHolds(rules, t, p);
      assert t in a + b;
    }
    if Passes(rules, AnyOf(b), p) {
      var t :| t in b && TermHolds(rules, t, p);
      assert t in a + b;
    }
  }

  /** A phone search finds exactly the people with a number that ends in the digits typed. */
  lemma APhoneIsFoundByItsEnd(rules: Rules, needle: string, p: Person)
    requires Sane(rules) && NormDigits(rules, needle) != ""
    ensures Matches(rules, SEARCH_PHONE_NUMBER, needle, p) <==>
              exists i :: 0 <= i < |p.numbers| && EndsInDigits(rules, p.numbers[i], needle)
  {
    OneArm(rules, needle);
    SuffixesAreEndings(rules, needle);
    OneTerm(rules, Child(PhoneSuffix, needle), p);
    hide NormDigits, NormText, DigitsSuffix, EndsInDigits, ClauseOf, Passes;
  }

  /** And the exact one those with a number of exactly these digits. */
  lemma APhoneIsFoundExactly(rules: Rules, needle: string, p: Person)
    requires Sane(rules) && NormDigits(rules, needle) != ""
    ensures Matches(rules, SEARCH_PHONE_NUMBER_E164, needle, p) <==>
              exists i :: 0 <= i < |p.e164s| && p.e164s[i].Some? && NormDigits(rules, p.e164s[i].value) == NormDigits(rules, needle)
  {
    OneArm(rules, needle);
    OneTerm(rules, Child(PhoneExact, needle), p);
    hide NormDigits, NormText, ClauseOf, Passes;
  }

  lemma SuffixesAreEndings(rules: Rules, needle: string)
    requires NormDigits(rules, needle) != ""
    ensures forall h: Option<string> :: DigitsSuffix(rules, h, needle) <==> EndsInDigits(rules, h, needle)
  {
    forall h: Option<string> ensures DigitsSuffix(rules, h, needle) <==> EndsInDigits(rules, h, needle) {
      SuffixIsEnding(rules, h, needle);
    }
  }

  lemma OneArm(rules: Rules, needle: string)
    requires NormDigits(rules, needle) != ""
    ensures ClauseOf(rules, SEARCH_PHONE_NUMBER, needle) == AnyOf([Child(PhoneSuffix, needle)])
    ensures ClauseOf(rules, SEARCH_PHONE_NUMBER_E164, needle) == AnyOf([Child(PhoneExact, needle)])
  {
    assert SEARCH_PHONE_NUMBER.children[..0] == [] && SEARCH_PHONE_NUMBER_E164.children[..0] == [];
    assert ChildTerms(rules, SEARCH_PHONE_NUMBER.children, needle) == ArmTerms(rules, PhoneSuffix, needle);
    assert ChildTerms(rules, SEARCH_PHONE_NUMBER_E164.children, needle) == ArmTerms(rules, PhoneExact, needle);
  }

  /** The widest search finds whom the or-email search or the phone search finds, and
      nobody else. */
  lemma TheWidestIsTheUnion(rules: Rules, needle: string, p: Person)
    requires Sane(rules) && NormText(rules, needle) != ""
    ensures Matches(rules, SEARCH_NAME_OR_EMAIL_OR_PHONE_NUMBER, needle, p) <==>
            || Matches(rules, SEARCH_NAME_OR_EMAIL, needle, p)
            || (NormDigits(rules, needle) != "" && exists i :: 0 <= i < |p.numbers| && EndsInDigits(rules, p.numbers[i], needle))
  {
    OrEmailTerms(rules, needle);
    var narrow := ClauseOf(rules, SEARCH_NAME_OR_EMAIL, needle).terms;
    var wide := ClauseOf(rules, SEARCH_NAME_OR_EMAIL_OR_PHONE_NUMBER, needle).terms;
    var suffix := Child(PhoneSuffix, needle);
    assert wide == narrow + if NormDigits(rules, needle) != "" then [suffix] else [];
    hide NormDigits, NormText, DigitsSuffix, EndsInDigits, TextContains, NameMatch, ClauseOf, Passes;
    if NormDigits(rules, needle) != "" {
      EitherTerm(rules, narrow, [suffix], p);
      OneTerm(rules, suffix, p);
      SuffixesAreEndings(rules, needle);
    }
  }

  /** How a number is written does not matter: its digits are kept, in order, and nothing
      else is. */
  lemma {:induction false} DigitsAreKeptInOrder(rules: Rules, a: string, b: string)
    ensures NormDigits(rules, a + b) == NormDigits(rules, a) + NormDigits(rules, b)
  {
    if a == "" {
      assert a + b == b;
    } else {
      assert (a + b)[1..] == a[1..] + b;
      DigitsAreKeptInOrder(rules, a[1..], b);
    }
  }

  lemma {:induction false} OnlyDigitsAreKept(rules: Rules, a: string)
    ensures (forall c :: c in a ==> rules.digit(c)) ==> NormDigits(rules, a) == a
    ensures (forall c :: c in a ==> !rules.digit(c)) ==> NormDigits(rules, a) == ""
  {
    if a != "" {
      OnlyDigitsAreKept(rules, a[1..]);
      assert a == [a[0]] + a[1..];
    }
  }

  /** A name is matched word by word: each word typed begins the word in its place. */
  lemma WordsBeginWords(rules: Rules, haystack: string, needle: string)
    ensures var words, probe := Words(rules, NormText(rules, haystack)), Words(rules, NormText(rules, needle));
            NameMatch(rules, Some(haystack), needle) <==>
              |probe| <= |words| && forall k :: 0 <= k < |probe| ==> Begins(words[k], probe[k])
  {
    var words, probe := Words(rules, NormText(rules, haystack)), Words(rules, NormText(rules, needle));
    hide Words, NormText;
    forall k | 0 <= k < |probe| && k < |words| ensures StartsWith(words[k], probe[k]) <==> Begins(words[k], probe[k]) {
      if StartsWith(words[k], probe[k]) {
        assert words[k] == probe[k] + words[k][|probe[k]|..];
      }
    }
  }

  ghost predicate Begins(word: string, probe: string) {
    exists rest :: word == probe + rest
  }

  ghost predicate CleanWords(rules: Rules, words: seq<string>) {
    forall k :: 0 <= k < |words| ==> words[k] != "" && forall c :: c in words[k] ==> !rules.space(c)
  }

  /** Splitting undoes joining: no word is lost, none is made up, and the order stays. */
  lemma {:induction false} SplittingUndoesJoining(rules: Rules, words: seq<string>)
    requires rules.space(' ') && CleanWords(rules, words)
    ensures Words(rules, Join(words)) == words
  {
    if |words| == 1 {
      OneWord(rules, words[0]);
    } else if |words| > 1 {
      var w, rest := words[0], words[1..];
      assert forall k :: 0 <= k < |rest| ==> rest[k] == words[k + 1];
      SplittingUndoesJoining(rules, rest);
      FirstWordEnds(rules, w, Join(rest));
      var s := Join(words);
      assert s == w + " " + Join(rest);
      assert s[|w|..] == " " + Join(rest);
      assert (" " + Join(rest))[1..] == Join(rest);
      assert w[0] in w && s[0] == w[0];
    }
  }

  lemma {:induction false} FirstWordEnds(rules: Rules, w: string, rest: string)
    requires rules.space(' ') && forall c :: c in w ==> !rules.space(c)
    ensures FirstWord(rules, w + " " + rest) == w
  {
    if w == "" {
      assert (w + " " + rest)[0] == ' ';
    } else {
      assert w[0] in w && forall c :: c in w[1..] ==> c in w;
      assert (w + " " + rest)[1..] == w[1..] + " " + rest;
      FirstWordEnds(rules, w[1..], rest);
    }
  }

  /** How a needle is spaced and cased does not matter to the searches by name. */
  lemma SpacingAndCaseDoNotMatter(rules: Rules, a: string, b: string, f: Filter)
    requires Sane(rules) && f in {SEARCH_NAME, SEARCH_NAME_OR_EMAIL}
    requires rules.lower(Join(Words(rules, a))) == rules.lower(Join(Words(rules, b)))
    ensures rules.lower(NormText(rules, a)) == NormText(rules, a)
    ensures ClauseOf(rules, f, a) == ClauseOf(rules, f, b)
  {
    OrEmailTerms(rules, a);
    OrEmailTerms(rules, b);
  }
}
