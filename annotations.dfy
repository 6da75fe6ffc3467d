/** The fixed regular expressions the two CSV scripts apply to spreadsheet
    cells: the superset tag `\(Superset ([AB])(\d+)\)`, the annotations
    `(NEW)`, `(optional)` and `(Mechanical Dropset)`, and the RPE pattern
    `(\d+)(?:-(\d+))?`. scripts/convert-program-csv.js compiles the first
    four with the `i` flag, scripts/transform-week1.js without it; the
    `ignoreCase` parameter is that difference. Each regex is stated
    directly as a matcher at a position, with the leftmost-match search the
    regex engine performs. */
module Annotations {
  import opened Wrappers
  import opened Text

  /** Character equality under the regex `i` flag. Without the `u` flag,
      case folding never maps a non-ASCII character onto an ASCII one, so
      for the ASCII patterns used here it is ASCII case folding. */
  predicate CharMatch(c: char, p: char, ignoreCase: bool) {
    c == p || (ignoreCase && LowerChar(c) == LowerChar(p))
  }

  /** `t` spells `lit`, character by character, under `ignoreCase`. */
  predicate CharsMatch(t: string, lit: string, ignoreCase: bool) {
    |t| == |lit| && forall k :: 0 <= k < |lit| ==> CharMatch(t[k], lit[k], ignoreCase)
  }

  predicate LiteralAt(s: string, i: nat, lit: string, ignoreCase: bool) {
    i + |lit| <= |s| && CharsMatch(s[i..i + |lit|], lit, ignoreCase)
  }

  /** One mismatching character rules a literal out at a position. */
  lemma Mismatch(s: string, i: nat, lit: string, ignoreCase: bool, m: nat)
    requires m < |lit| && i + m < |s| && !CharMatch(s[i + m], lit[m], ignoreCase)
    ensures !LiteralAt(s, i, lit, ignoreCase)
  {
    if i + |lit| <= |s| {
      var t := s[i..i + |lit|];
      assert t[m] == s[i + m];
    }
  }

  /** The class `[AB]`. */
  predicate IsGroupLetter(c: char, ignoreCase: bool) {
    CharMatch(c, 'A', ignoreCase) || CharMatch(c, 'B', ignoreCase)
  }

  datatype Pattern =
    | Superset          // \(Superset [AB]\d+\)
    | Literal(text: string)

  const SupersetOpen := "(Superset "
  const New := Literal("(NEW)")
  const Optional := Literal("(optional)")
  const MechanicalDropset := Literal("(Mechanical Dropset)")

  /** The length of the match of `p` that starts at position `i`, if any.
      For the superset tag the greedy `\d+` takes the whole run of digits
      and must then see `)`: giving back digits would leave a digit, not
      `)`, so there is at most one match at a position. */
  function MatchLength(p: Pattern, s: string, i: nat, ignoreCase: bool): (r: Option<nat>)
    ensures r.Some? ==> i + r.value <= |s|
  {
    match p
    case Literal(t) => if LiteralAt(s, i, t, ignoreCase) then Some(|t|) else None
    case Superset =>
      if LiteralAt(s, i, SupersetOpen, ignoreCase) && i + 10 < |s| && IsGroupLetter(s[i + 10], ignoreCase) then
        var d := LeadingDigits(s[i + 11..]);
        if d != [] && i + 11 + |d| < |s| && s[i + 11 + |d|] == ')' then Some(12 + |d|) else None
      else None
  }

  /** The leftmost position at or after `i` where `p` matches. */
  function FirstMatchFrom(p: Pattern, s: string, i: nat, ignoreCase: bool): (r: Option<nat>)
    decreases |s| + 1 - i
    ensures r.Some? ==> i <= r.value && MatchLength(p, s, r.value, ignoreCase).Some?
    ensures r.Some? ==> forall k: nat :: i <= k < r.value ==> MatchLength(p, s, k, ignoreCase).None?
    ensures r.None? ==> forall k: nat :: i <= k ==> MatchLength(p, s, k, ignoreCase).None?
  {
    if i > |s| then None
    else if MatchLength(p, s, i, ignoreCase).Some? then Some(i)
    else FirstMatchFrom(p, s, i + 1, ignoreCase)
  }

  /** `p` matches at `i` and at no earlier position of `s`. */
  predicate LeftmostMatch(p: Pattern, s: string, i: nat, ignoreCase: bool) {
    MatchLength(p, s, i, ignoreCase).Some? && forall k: nat :: k < i ==> MatchLength(p, s, k, ignoreCase).None?
  }

  /** The search from the start finds exactly the leftmost match. */
  lemma LeftmostIsFirst(p: Pattern, s: string, ignoreCase: bool)
    ensures forall i: nat :: LeftmostMatch(p, s, i, ignoreCase) ==> FirstMatchFrom(p, s, 0, ignoreCase) == Some(i)
  {
    forall i: nat | LeftmostMatch(p, s, i, ignoreCase) ensures FirstMatchFrom(p, s, 0, ignoreCase) == Some(i) {
      FirstMatchAt(p, s, i, ignoreCase);
    }
  }

  /** `s.replace(p, '')`: the leftmost match, if there is one, is cut out. */
  function RemoveFirst(s: string, p: Pattern, ignoreCase: bool): (r: string)
    ensures |r| <= |s|
    ensures (forall k: nat :: MatchLength(p, s, k, ignoreCase).None?) ==> r == s
    ensures forall i: nat :: LeftmostMatch(p, s, i, ignoreCase) ==>
      r == s[..i] + s[i + MatchLength(p, s, i, ignoreCase).value..]
  {
    LeftmostIsFirst(p, s, ignoreCase);
    match FirstMatchFrom(p, s, 0, ignoreCase)
    case None => s
    case Some(i) => s[..i] + s[i + MatchLength(p, s, i, ignoreCase).value..]
  }

  /** extractExerciseGroup: the letter captured by the leftmost superset
      tag, or `None` (JavaScript `null`) when the name has none. */
  function ExtractExerciseGroup(name: string, ignoreCase: bool): (r: Option<char>)
    ensures r.Some? <==> exists i: nat :: MatchLength(Superset, name, i, ignoreCase).Some?
    ensures r.Some? ==> IsGroupLetter(r.value, ignoreCase)
    ensures r.Some? && !ignoreCase ==> r.value == 'A' || r.value == 'B'
    ensures forall i: nat :: LeftmostMatch(Superset, name, i, ignoreCase) ==> r == Some(name[i + 10])
  {
    LeftmostIsFirst(Superset, name, ignoreCase);
    match FirstMatchFrom(Superset, name, 0, ignoreCase)
    case None => None
    case Some(i) => Some(name[i + 10])
  }

  /** cleanExerciseName: each of the four annotations loses its leftmost
      occurrence, in this order, and the result is trimmed. */
  function CleanExerciseName(name: string, ignoreCase: bool): (r: string)
    ensures IsTrimmed(r) && |r| <= |name|
    ensures (forall k: nat ::
      MatchLength(Superset, name, k, ignoreCase).None? && MatchLength(New, name, k, ignoreCase).None? &&
      MatchLength(Optional, name, k, ignoreCase).None? && MatchLength(MechanicalDropset, name, k, ignoreCase).None?) ==>
        r == Trim(name)
  {
    var a := RemoveFirst(name, Superset, ignoreCase);
    var b := RemoveFirst(a, New, ignoreCase);
    var c := RemoveFirst(b, Optional, ignoreCase);
    var d := RemoveFirst(c, MechanicalDropset, ignoreCase);
    Trim(d)
  }

  /** Only `(` matches `(`, with or without the `i` flag. */
  lemma ParenMatch(c: char, ignoreCase: bool)
    ensures CharMatch(c, '(', ignoreCase) ==> c == '('
  {
  }

  /** Every pattern starts with a parenthesis, so there is no match at a
      position that holds none. */
  lemma NoParenNoMatch(p: Pattern, s: string, i: nat, ignoreCase: bool)
    requires p == Superset || p == New || p == Optional || p == MechanicalDropset
    requires i >= |s| || s[i] != '('
    ensures MatchLength(p, s, i, ignoreCase).None?
  {
    var lit := if p == Superset then SupersetOpen else p.text;
    if i < |s| {
      ParenMatch(s[i], ignoreCase);
      Mismatch(s, i, lit, ignoreCase, 0);
    }
  }

  lemma RemoveFirstNoParen(s: string, p: Pattern, ignoreCase: bool)
    requires p == Superset || p == New || p == Optional || p == MechanicalDropset
    requires '(' !in s
    ensures RemoveFirst(s, p, ignoreCase) == s
  {
    match FirstMatchFrom(p, s, 0, ignoreCase)
    case None =>
    case Some(i) =>
      if i < |s| {
        assert s[i] in s;
      }
      NoParenNoMatch(p, s, i, ignoreCase);
  }

  /** A name without annotations is only trimmed, and has no group. */
  lemma CleanPlainName(name: string, ignoreCase: bool)
    requires '(' !in name
    ensures CleanExerciseName(name, ignoreCase) == Trim(name)
    ensures ExtractExerciseGroup(name, ignoreCase) == None
  {
    RemoveFirstNoParen(name, Superset, ignoreCase);
    RemoveFirstNoParen(name, New, ignoreCase);
    RemoveFirstNoParen(name, Optional, ignoreCase);
    RemoveFirstNoParen(name, MechanicalDropset, ignoreCase);
    forall i: nat ensures MatchLength(Superset, name, i, ignoreCase).None? {
      if i < |name| {
        assert name[i] in name;
      }
      NoParenNoMatch(Superset, name, i, ignoreCase);
    }
  }

  lemma {:induction false} LeadingDigitsStop(a: string, rest: string)
    requires AllDigits(a)
    requires rest == [] || !IsDigit(rest[0])
    ensures LeadingDigits(a + rest) == a
  {
    if a != [] {
      assert (a + rest)[1..] == a[1..] + rest;
      LeadingDigitsStop(a[1..], rest);
    }
  }

  /** The superset tag written exactly: `(Superset ` then the letter, the
      digits and `)`. */
  function SupersetTag(letter: char, digits: string): string {
    SupersetOpen + [letter] + digits + ")"
  }

  lemma SupersetTagMatches(base: string, letter: char, digits: string, ignoreCase: bool)
    requires letter == 'A' || letter == 'B'
    requires digits != [] && AllDigits(digits)
    ensures MatchLength(Superset, base + SupersetTag(letter, digits), |base|, ignoreCase) == Some(12 + |digits|)
  {
    var s := base + SupersetTag(letter, digits);
    var i := |base|;
    assert s[i..i + 10] == SupersetOpen;
    assert s[i + 10] == letter;
    assert s[i + 11..] == digits + ")";
    LeadingDigitsStop(digits, ")");
    assert s[i + 11 + |digits|] == ')';
  }

  /** Before position `n` of `s` there is no parenthesis, so no match. */
  lemma NoMatchBefore(p: Pattern, s: string, n: nat, ignoreCase: bool)
    requires p == Superset || p == New || p == Optional || p == MechanicalDropset
    requires n <= |s| && '(' !in s[..n]
    ensures forall k: nat :: k < n ==> MatchLength(p, s, k, ignoreCase).None?
  {
    forall k: nat | k < n ensures MatchLength(p, s, k, ignoreCase).None? {
      assert s[..n][k] == s[k];
      NoParenNoMatch(p, s, k, ignoreCase);
    }
  }

  /** The leftmost match is at `n` when there is one there and none before. */
  lemma FirstMatchAt(p: Pattern, s: string, n: nat, ignoreCase: bool)
    requires MatchLength(p, s, n, ignoreCase).Some?
    requires forall k: nat :: k < n ==> MatchLength(p, s, k, ignoreCase).None?
    ensures FirstMatchFrom(p, s, 0, ignoreCase) == Some(n)
  {
    var j := FirstMatchFrom(p, s, 0, ignoreCase);
    if j.None? || j.value > n {
      assert false;
    }
  }

  /** A name ending in a superset tag, with no other parenthesis, yields the
      tag's letter as its group and the trimmed name before the tag as its
      clean name. */
  lemma SupersetTagged(base: string, letter: char, digits: string, ignoreCase: bool)
    requires '(' !in base
    requires letter == 'A' || letter == 'B'
    requires digits != [] && AllDigits(digits)
    ensures ExtractExerciseGroup(base + SupersetTag(letter, digits), ignoreCase) == Some(letter)
    ensures CleanExerciseName(base + SupersetTag(letter, digits), ignoreCase) == Trim(base)
  {
    var s := base + SupersetTag(letter, digits);
    assert FirstMatchFrom(Superset, s, 0, ignoreCase) == Some(|base|) by {
      SupersetTagMatches(base, letter, digits, ignoreCase);
      assert s[..|base|] == base;
      NoMatchBefore(Superset, s, |base|, ignoreCase);
      FirstMatchAt(Superset, s, |base|, ignoreCase);
    }
    assert ExtractExerciseGroup(s, ignoreCase) == Some(letter) by {
      assert s[|base| + 10] == letter;
    }
    assert RemoveFirst(s, Superset, ignoreCase) == base by {
      SupersetTagMatches(base, letter, digits, ignoreCase);
      assert s[..|base|] + s[|base| + 12 + |digits|..] == base;
    }
    RemoveFirstNoParen(base, New, ignoreCase);
    RemoveFirstNoParen(base, Optional, ignoreCase);
    RemoveFirstNoParen(base, MechanicalDropset, ignoreCase);
  }

  /** The literal a pattern starts with. */
  function PatternHead(p: Pattern): string {
    if p.Superset? then SupersetOpen else p.text
  }

  /** After the parenthesis, the annotations differ in their first letter,
      with or without case folding. */
  lemma SecondCharsDiffer(tag: Pattern, p: Pattern, ignoreCase: bool)
    requires tag == New || tag == Optional || tag == MechanicalDropset
    requires p == Superset || p == New || p == Optional || p == MechanicalDropset
    requires p != tag
    ensures |PatternHead(p)| > 1 && !CharMatch(tag.text[1], PatternHead(p)[1], ignoreCase)
  {
  }

  /** Another annotation matches nowhere in a parenthesis-free base followed
      by a literal annotation: before the annotation there is no
      parenthesis, at its start the second characters differ, and after it
      there is none. */
  lemma NoOtherInLiteralTagged(base: string, tag: Pattern, p: Pattern, ignoreCase: bool)
    requires '(' !in base
    requires tag == New || tag == Optional || tag == MechanicalDropset
    requires p == Superset || p == New || p == Optional || p == MechanicalDropset
    requires p != tag
    ensures RemoveFirst(base + tag.text, p, ignoreCase) == base + tag.text
  {
    var s := base + tag.text;
    var n := |base|;
    forall k: nat ensures MatchLength(p, s, k, ignoreCase).None? {
      if k < n {
        assert s[k] == base[k];
        NoParenNoMatch(p, s, k, ignoreCase);
      } else if k == n {
        assert s[n + 1] == tag.text[1];
        SecondCharsDiffer(tag, p, ignoreCase);
        Mismatch(s, k, PatternHead(p), ignoreCase, 1);
      } else if k < |s| {
        assert s[k] == tag.text[k - n];
        NoParenNoMatch(p, s, k, ignoreCase);
      } else {
        NoParenNoMatch(p, s, k, ignoreCase);
      }
    }
  }

  lemma LiteralTagRemoved(base: string, tag: Pattern, ignoreCase: bool)
    requires '(' !in base
    requires tag == New || tag == Optional || tag == MechanicalDropset
    ensures RemoveFirst(base + tag.text, tag, ignoreCase) == base
  {
    var s := base + tag.text;
    var n := |base|;
    assert s[..n] == base;
    assert s[n..n + |tag.text|] == tag.text;
    assert MatchLength(tag, s, n, ignoreCase).Some?;
    NoMatchBefore(tag, s, n, ignoreCase);
    FirstMatchAt(tag, s, n, ignoreCase);
    assert s[..n] + s[n + |tag.text|..] == base;
  }

  /** The literal annotations are matched the same way: a name made of a
      parenthesis-free base and one of them cleans to the trimmed base. */
  lemma LiteralTagged(base: string, tag: Pattern, ignoreCase: bool)
    requires '(' !in base
    requires tag == New || tag == Optional || tag == MechanicalDropset
    ensures ExtractExerciseGroup(base + tag.text, ignoreCase) == None
    ensures CleanExerciseName(base + tag.text, ignoreCase) == Trim(base)
  {
    var s := base + tag.text;
    NoOtherInLiteralTagged(base, tag, Superset, ignoreCase);
    LiteralTagRemoved(base, tag, ignoreCase);
    RemoveFirstNoParen(base, New, ignoreCase);
    RemoveFirstNoParen(base, Optional, ignoreCase);
    RemoveFirstNoParen(base, MechanicalDropset, ignoreCase);
    if tag == New {
      assert CleanExerciseName(s, ignoreCase) == Trim(base);
    } else if tag == Optional {
      NoOtherInLiteralTagged(base, tag, New, ignoreCase);
      assert CleanExerciseName(s, ignoreCase) == Trim(base);
    } else {
      NoOtherInLiteralTagged(base, tag, New, ignoreCase);
      NoOtherInLiteralTagged(base, tag, Optional, ignoreCase);
      assert CleanExerciseName(s, ignoreCase) == Trim(base);
    }
    if ExtractExerciseGroup(s, ignoreCase).Some? {
      assert FirstMatchFrom(Superset, s, 0, ignoreCase).Some?;
    }
  }

  // ------------------------------------------------------------------ RPE

  /** The first position at or after `i` holding a digit. */
  function FirstDigitFrom(s: string, i: nat): (r: Option<nat>)
    decreases |s| - i
    ensures r.Some? ==> i <= r.value < |s| && IsDigit(s[r.value])
    ensures r.Some? ==> forall k :: i <= k < r.value ==> !IsDigit(s[k])
    ensures r.None? ==> forall k :: i <= k < |s| ==> !IsDigit(s[k])
  {
    if i >= |s| then None
    else if IsDigit(s[i]) then Some(i)
    else FirstDigitFrom(s, i + 1)
  }

  /** `s.match(/(\d+)(?:-(\d+))?/)` read as parseRPE reads it: the second
      group's value when the first run of digits is followed by `-` and
      more digits, else the first run's value; `None` with no digit. */
  function RpeMatch(s: string): Option<int> {
    match FirstDigitFrom(s, 0)
    case None => None
    case Some(j) =>
      var a := LeadingDigits(s[j..]);
      var after := j + |a|;
      if after < |s| && s[after] == '-' && LeadingDigits(s[after + 1..]) != [] then
        Some(DigitsValue(LeadingDigits(s[after + 1..])) as int)
      else Some(DigitsValue(a) as int)
  }

  /** parseRPE (scripts/convert-program-csv.js and scripts/transform-week1.js
      define it identically). `None` as input is `undefined`; as output,
      `null`. */
  function ParseRpe(rpe: Option<string>): Option<int> {
    match rpe
    case None => None
    case Some(s) =>
      if s == "" || s == "N/A" then None
      else RpeMatch(Trim(ReplaceFirst(s, "~", "")))
  }

  lemma NoTilde(s: string)
    requires '~' !in s
    ensures ReplaceFirst(s, "~", "") == s
  {
    ContainsChar(s, '~');
  }

  /** Input already free of "~" and trimmed goes straight to the pattern. */
  lemma ParseRpePlain(s: string)
    requires s != "" && s != "N/A" && '~' !in s && IsTrimmed(s)
    ensures ParseRpe(Some(s)) == RpeMatch(s)
  {
    NoTilde(s);
  }

  lemma RpeMatchRange(a: string, b: string)
    requires a != [] && AllDigits(a) && b != [] && AllDigits(b)
    ensures RpeMatch(a + "-" + b) == Some(DigitsValue(b) as int)
  {
    var s := a + "-" + b;
    RangeParts(a, b);
    assert IsDigit(a[0]);
    LeadingDigitsStop(a, "-" + b);
    LeadingDigitsStop(b, "");
    assert b + "" == b;
    RpeMatchSecond(s, a, b);
  }

  /** Where the parts of `a-b` sit. */
  lemma RangeParts(a: string, b: string)
    requires a != []
    ensures var s := a + "-" + b;
      && s[0] == a[0] && s[0..] == a + ("-" + b)
      && |a| < |s| && s[|a|] == '-' && s[|a| + 1..] == b
  {
    var s := a + "-" + b;
    assert s == a + ("-" + b);
  }

  /** The pattern's second group is read when the first run of digits
      starts the text and is followed by `-` and more digits. */
  lemma RpeMatchSecond(s: string, a: string, b: string)
    requires FirstDigitFrom(s, 0) == Some(0) && LeadingDigits(s[0..]) == a
    requires |a| < |s| && s[|a|] == '-' && LeadingDigits(s[|a| + 1..]) == b && b != []
    ensures RpeMatch(s) == Some(DigitsValue(b) as int)
  {
  }

  /** A range "a-b" gives its upper bound b. */
  lemma ParseRpeRange(a: string, b: string)
    requires a != [] && AllDigits(a) && b != [] && AllDigits(b)
    ensures ParseRpe(Some(a + "-" + b)) == Some(DigitsValue(b) as int)
  {
    var s := a + "-" + b;
    DigitsLack(a, '~');
    DigitsLack(b, '~');
    assert '~' !in s;
    assert s[0] == a[0] && s[|s| - 1] == b[|b| - 1];
    ParseRpePlain(s);
    RpeMatchRange(a, b);
  }

  /** A single number gives itself. */
  lemma ParseRpeSingle(a: string)
    requires a != [] && AllDigits(a)
    ensures ParseRpe(Some(a)) == Some(DigitsValue(a) as int)
  {
    DigitsLack(a, '~');
    assert IsDigit(a[0]) && a[0] != 'N';
    ParseRpePlain(a);
    assert FirstDigitFrom(a, 0) == Some(0);
    assert a[0..] == a + "";
    LeadingDigitsStop(a, "");
  }

  /** Removing a leading "~" from a string that has no other. */
  lemma RemoveLeadingTilde(s: string)
    ensures ReplaceFirst("~" + s, "~", "") == s
  {
    var t := "~" + s;
    assert t[0..1] == "~";
    assert IndexOf(t, "~") == Some(0);
  }

  lemma NotApplicableHasNoRpe()
    ensures RpeMatch(Trim("N/A")) == None
  {
    var s := "N/A";
    assert IsTrimmed(s);
    assert !IsDigit(s[0]) && !IsDigit(s[1]) && !IsDigit(s[2]);
    assert FirstDigitFrom(s, 0) == None;
  }

  /** A leading "~" (approximately) is ignored. */
  lemma ParseRpeTilde(s: string)
    requires '~' !in s
    ensures ParseRpe(Some("~" + s)) == ParseRpe(Some(s))
  {
    var t := "~" + s;
    RemoveLeadingTilde(s);
    assert t[0] == '~';
    assert ParseRpe(Some(t)) == RpeMatch(Trim(s));
    NoTilde(s);
    if s == "N/A" {
      NotApplicableHasNoRpe();
    } else if s != "" {
      assert ParseRpe(Some(s)) == RpeMatch(Trim(s));
    }
  }

  /** Missing, empty and "N/A" give `null`. */
  lemma ParseRpeAbsent(s: Option<string>)
    requires s == None || s == Some("") || s == Some("N/A")
    ensures ParseRpe(s) == None
  {
  }
}
