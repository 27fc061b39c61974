/** The narrative redaction in plain characters: what each pattern denotes, that nothing of the kind is left, and what
    becomes of a text with a single number in it. */
module RedactionCharacters {
  import opened Redaction
  import opened Sequences
  import opened Text

  // ---- Character classes ----

  const DIGITS := "0123456789"
  const CAPITALS := "ABCDEFGHIJKLMNOPQRSTUVWXYZ"
  const SMALL_LETTERS := "abcdefghijklmnopqrstuvwxyz"

  predicate WordCharacter(c: char) {
    c in DIGITS || Capital(c) || SmallLetter(c) || c == '_'
  }

  predicate Gap(c: char) {
    c == '-' || c as int in WHITESPACE
  }

  predicate DigitRun(s: string) {
    forall k :: 0 <= k < |s| ==> s[k] in DIGITS
  }

  lemma DigitClass(c: char)
    ensures IsDigit(c) <==> c in DIGITS
  {
    if IsDigit(c) { assert DIGITS[(c - '0') as int] == c; }
  }

  predicate Capital(c: char) {
    c in CAPITALS
  }

  predicate SmallLetter(c: char) {
    c in SMALL_LETTERS
  }

  lemma CapitalClass(c: char)
    ensures 'A' <= c <= 'Z' <==> Capital(c)
  {
    if 'A' <= c <= 'Z' { assert CAPITALS[(c - 'A') as int] == c; }
  }

  lemma SmallLetterClass(c: char)
    ensures 'a' <= c <= 'z' <==> SmallLetter(c)
  {
    if 'a' <= c <= 'z' { assert SMALL_LETTERS[(c - 'a') as int] == c; }
  }

  lemma WordClass(c: char)
    ensures IsWord(c) <==> WordCharacter(c)
  {
    DigitClass(c);
    CapitalClass(c);
    SmallLetterClass(c);
  }

  lemma GapClass(c: char)
    ensures IsSeparator(c) <==> Gap(c)
  {
    WhitespaceByCodePoint(c);
  }

  lemma {:induction false} DigitRunMeans(s: string)
    ensures DigitRun(s) <==> AllDigits(s)
  {
    forall k | 0 <= k < |s|
      ensures IsDigit(s[k]) <==> s[k] in DIGITS
    {
      DigitClass(s[k]);
    }
  }

  lemma DigitsAtMeans(s: string, i: nat, n: nat)
    ensures DigitsAt(s, i, n) <==> i + n <= |s| && DigitRun(s[i..i + n])
  {
    if i + n <= |s| {
      var t := s[i..i + n];
      DigitRunMeans(t);
      assert forall k :: i <= k < i + n ==> s[k] == t[k - i];
    }
  }

  // ---- What the patterns denote ----

  /** Ten digits from 6 on, after an optional country code with an optional gap. */
  predicate PhoneNumber(s: string) {
    |s| >= 10 &&
    var code, subscriber := s[..|s| - 10], s[|s| - 10..];
    DigitRun(subscriber) && subscriber[0] in "6789" && CodeText(code)
  }

  predicate CodeText(code: string) {
    || code in {"", "91", "+91"}
    || (|code| == 3 && code[..2] == "91" && Gap(code[2]))
    || (|code| == 4 && code[..3] == "+91" && Gap(code[3]))
  }

  lemma CodeMeans(code: string)
    ensures CountryPrefix(code) <==> CodeText(code)
  {
    if |code| == 3 { GapClass(code[2]); }
    if |code| == 4 { GapClass(code[3]); }
  }

  predicate ThreeGroups(s: string, a: nat, b: nat) {
    && a <= 1 && b <= 1 && |s| == 12 + a + b
    && DigitRun(s[..4]) && DigitRun(s[4 + a..8 + a]) && DigitRun(s[8 + a + b..])
    && (a == 1 ==> Gap(s[4])) && (b == 1 ==> Gap(s[8 + a]))
  }

  /** The text is, as a whole, what the pattern describes. */
  predicate Describes(p: Pattern, s: string) {
    match p
    case Phone => PhoneNumber(s)
    case AadhaarShaped => ThreeGroups(s, 0, 0) || ThreeGroups(s, 0, 1) || ThreeGroups(s, 1, 0) || ThreeGroups(s, 1, 1)
    case AccountNumber => 9 <= |s| <= 18 && DigitRun(s)
  }

  /** A digit, or for account numbers any word character, beside it would make it part of something else. */
  predicate Adjoins(p: Pattern, c: Option<char>) {
    c.Some? && if p == AccountNumber then WordCharacter(c.value) else c.value in DIGITS
  }

  function First(s: string): Option<char> {
    if s == "" then None else Some(s[0])
  }

  function Last(s: string): Option<char> {
    if s == "" then None else Some(s[|s| - 1])
  }

  lemma BesideMeans(p: Pattern, prev: Option<char>, s: string, n: nat)
    requires n <= |s|
    ensures NoDigitBefore(prev) <==> !Adjoins(Phone, prev)
    ensures NoWordBefore(prev) <==> !Adjoins(AccountNumber, prev)
    ensures NoDigitAt(s, n) <==> !Adjoins(Phone, First(s[n..]))
    ensures NoWordAt(s, n) <==> !Adjoins(AccountNumber, First(s[n..]))
  {
    if prev.Some? {
      DigitClass(prev.value);
      WordClass(prev.value);
    }
    if n < |s| {
      DigitClass(s[n]);
      WordClass(s[n]);
    }
  }

  lemma SubscriberMeans(s: string, i: nat)
    requires i <= |s|
    ensures SubscriberAt(s, i) <==>
            && i + 10 <= |s| && DigitRun(s[i..i + 10]) && s[i] in "6789" && !Adjoins(Phone, First(s[i + 10..]))
  {
    DigitsAtMeans(s, i, 10);
    if i + 10 <= |s| {
      BesideMeans(Phone, None, s, i + 10);
      assert s[i..i + 10][0] == s[i];
      DigitClass(s[i]);
      if IsDigit(s[i]) && s[i] >= '6' { assert "6789"[(s[i] - '6') as int] == s[i]; }
    }
  }

  lemma CutTen(s: string, n: nat)
    requires 10 <= n <= |s|
    ensures var t, i := s[..n], n - 10; t[..i] == s[..i] && t[i..] == s[i..i + 10] && t[i..][0] == s[i]
  {
  }

  lemma PhoneParts(s: string, n: nat)
    requires 10 <= n <= |s|
    ensures PhoneNumber(s[..n]) <==>
            DigitRun(s[n - 10..n - 10 + 10]) && s[n - 10] in "6789" && CodeText(s[..n - 10])
  {
    CutTen(s, n);
  }

  lemma PhoneMeans(prev: Option<char>, s: string, n: nat)
    requires n <= |s|
    ensures Occurrence(Phone, prev, s, n) <==>
            PhoneNumber(s[..n]) && !Adjoins(Phone, prev) && !Adjoins(Phone, First(s[n..]))
  {
    BesideMeans(Phone, prev, s, n);
    if n >= 10 {
      SubscriberMeans(s, n - 10);
      CodeMeans(s[..n - 10]);
      PhoneParts(s, n);
    }
  }

  lemma CutGroups(s: string, a: nat, b: nat)
    requires a <= 1 && b <= 1 && 12 + a + b <= |s|
    ensures var t := s[..12 + a + b];
            && t[..4] == s[0..0 + 4] && t[4 + a..8 + a] == s[4 + a..4 + a + 4]
            && t[8 + a + b..] == s[8 + a + b..8 + a + b + 4] && t[4] == s[4] && t[8 + a] == s[8 + a]
  {
  }

  lemma GroupDigits(s: string, a: nat, b: nat)
    requires a <= 1 && b <= 1 && 12 + a + b <= |s|
    ensures var t := s[..12 + a + b];
            && DigitsAt(s, 0, 4) == DigitRun(t[..4])
            && DigitsAt(s, 4 + a, 4) == DigitRun(t[4 + a..8 + a])
            && DigitsAt(s, 8 + a + b, 4) == DigitRun(t[8 + a + b..])
  {
    CutGroups(s, a, b);
    DigitsAtMeans(s, 0, 4);
    DigitsAtMeans(s, 4 + a, 4);
    DigitsAtMeans(s, 8 + a + b, 4);
  }

  lemma GroupGaps(s: string, a: nat, b: nat)
    requires a <= 1 && b <= 1 && 12 + a + b <= |s|
    ensures var t := s[..12 + a + b];
            && IsSeparator(s[4]) == Gap(t[4]) && IsSeparator(s[8 + a]) == Gap(t[8 + a])
            && NoDigitAt(s, 12 + a + b) == !Adjoins(AadhaarShaped, First(s[12 + a + b..]))
  {
    GapClass(s[4]);
    GapClass(s[8 + a]);
    BesideMeans(Phone, None, s, 12 + a + b);
  }

  lemma GroupsMean(s: string, a: nat, b: nat)
    requires a <= 1 && b <= 1 && 12 + a + b <= |s|
    ensures Groups(s, a, b) <==> ThreeGroups(s[..12 + a + b], a, b) && !Adjoins(AadhaarShaped, First(s[12 + a + b..]))
  {
    GroupDigits(s, a, b);
    GroupGaps(s, a, b);
  }

  /** The gaps of three groups that make n characters. */
  predicate GroupsOf(s: string, n: nat) {
    || (n == 12 && Groups(s, 0, 0)) || (n == 13 && (Groups(s, 0, 1) || Groups(s, 1, 0)))
    || (n == 14 && Groups(s, 1, 1))
  }

  lemma OccurrenceIsGroups(prev: Option<char>, s: string, n: nat)
    ensures Occurrence(AadhaarShaped, prev, s, n) <==> NoDigitBefore(prev) && GroupsOf(s, n)
  {
  }

  lemma GroupsOfMeans(s: string, n: nat)
    requires n <= |s|
    ensures GroupsOf(s, n) <==> Describes(AadhaarShaped, s[..n]) && !Adjoins(AadhaarShaped, First(s[n..]))
  {
    if n == 12 {
      GroupsMean(s, 0, 0);
    } else if n == 13 {
      GroupsMean(s, 0, 1);
      GroupsMean(s, 1, 0);
    } else if n == 14 {
      GroupsMean(s, 1, 1);
    }
  }

  lemma AadhaarMeans(prev: Option<char>, s: string, n: nat)
    requires n <= |s|
    ensures Occurrence(AadhaarShaped, prev, s, n) <==>
            && Describes(AadhaarShaped, s[..n]) && !Adjoins(AadhaarShaped, prev)
            && !Adjoins(AadhaarShaped, First(s[n..]))
  {
    OccurrenceIsGroups(prev, s, n);
    GroupsOfMeans(s, n);
    BesideMeans(AadhaarShaped, prev, "", 0);
  }

  lemma AccountMeans(prev: Option<char>, s: string, n: nat)
    requires n <= |s|
    ensures Occurrence(AccountNumber, prev, s, n) <==>
            && Describes(AccountNumber, s[..n]) && !Adjoins(AccountNumber, prev)
            && !Adjoins(AccountNumber, First(s[n..]))
  {
    BesideMeans(AccountNumber, prev, s, n);
    DigitsAtMeans(s, 0, n);
    assert s[0..n] == s[..n];
  }

  /** An occurrence of a pattern is a text that it describes, with nothing beside it that would belong to it. */
  lemma OccurrenceInCharacters(p: Pattern, prev: Option<char>, s: string, n: nat)
    requires n <= |s|
    ensures Occurrence(p, prev, s, n) <==> Describes(p, s[..n]) && !Adjoins(p, prev) && !Adjoins(p, First(s[n..]))
  {
    match p
    case Phone => PhoneMeans(prev, s, n);
    case AadhaarShaped => AadhaarMeans(prev, s, n);
    case AccountNumber => AccountMeans(prev, s, n);
  }

  /** However the redacted text is cut in three, its middle is no phone number, no three groups of four digits and no
      account number on its own. */
  lemma NothingDescribedIsLeft(raw: string, before: string, middle: string, after: string, p: Pattern)
    requires Redacted(raw) == before + middle + after
    ensures !(Describes(p, middle) && !Adjoins(p, Last(before)) && !Adjoins(p, First(after)))
  {
    var r, i, n := Redacted(raw), |before|, |middle|;
    CutInThree(r, before, middle, after);
    if Describes(p, middle) {
      NonEmpty(p, middle);
      OccurrenceInCharacters(p, Last(before), r[i..], n);
      RedactionIsComplete(raw, p, i, n);
    }
  }

  lemma CutInThree(s: string, before: string, middle: string, after: string)
    requires s == before + middle + after
    ensures var i, n := |before|, |middle|;
            && i + n <= |s| && s[i..][..n] == middle && s[i..][n..] == after && Before(s, i) == Last(before)
  {
    assert s[|before|..] == middle + after;
  }

  lemma NonEmpty(p: Pattern, s: string)
    requires Describes(p, s)
    ensures |s| >= 9
  {
  }

  // ---- A text with one number in it ----

  predicate Quiet(s: string) {
    forall k :: 0 <= k < |s| ==> s[k] !in DIGITS
  }

  /** One number of kind p, no digits around it, and no earlier pass takes it for its own. */
  predicate Lone(p: Pattern, before: string, s: string, after: string) {
    && Describes(p, s) && Quiet(before) && Quiet(after) && Last(before) != Some('+')
    && !Adjoins(p, Last(before)) && !Adjoins(p, First(after))
    && (p != Phone ==> !Describes(Phone, s)) && (p == AccountNumber ==> !Describes(AadhaarShaped, s))
  }

  function Placeholder(p: Pattern): string {
    match p
    case Phone => "[REDACTED_PHONE]"
    case AadhaarShaped => "[REDACTED_ID_NUMBER]"
    case AccountNumber => "[REDACTED_ACCOUNT_NUMBER]"
  }

  lemma QuietHead(q: Pattern, prev: Option<char>, b: string, rest: string)
    requires b != "" && Quiet(b) && (|b| == 1 ==> b[0] != '+')
    ensures MatchLength(q, prev, b + rest) == 0
  {
    var t := b + rest;
    MatchShape(q, prev, t);
    assert t[0] == b[0] && (|b| > 1 ==> t[1] == b[1]);
    DigitClass(b[0]);
    if |b| > 1 { DigitClass(b[1]); }
  }

  lemma CopyHead(m: Matcher, token: string, prev: Option<char>, c: char, rest: string)
    requires m(prev, [c] + rest) == 0
    ensures ReplaceFrom(m, token, prev, [c] + rest) == [c] + ReplaceFrom(m, token, Some(c), rest)
    ensures CleanFrom(m, prev, [c] + rest) <==> CleanFrom(m, Some(c), rest)
  {
    assert ([c] + rest)[1..] == rest;
  }

  lemma {:induction false} ThroughQuiet(q: Pattern, prev: Option<char>, b: string, rest: string)
    requires Quiet(b) && Last(b) != Some('+')
    ensures var m, token, prev' := MatcherOf(q), Token(q), if b == "" then prev else Last(b);
            && ReplaceFrom(m, token, prev, b + rest) == b + ReplaceFrom(m, token, prev', rest)
            && (CleanFrom(m, prev, b + rest) <==> CleanFrom(m, prev', rest))
    decreases |b|
  {
    if b == "" {
      assert b + rest == rest;
      assert "" + ReplaceFrom(MatcherOf(q), Token(q), prev, rest) == ReplaceFrom(MatcherOf(q), Token(q), prev, rest);
    } else {
      QuietHead(q, prev, b, rest);
      var tail := b[1..];
      assert b + rest == [b[0]] + (tail + rest) && b == [b[0]] + tail;
      CopyHead(MatcherOf(q), Token(q), prev, b[0], tail + rest);
      assert Last(b) == if tail == "" then Some(b[0]) else Last(tail);
      ThroughQuiet(q, Some(b[0]), tail, rest);
      Regroup([b[0]], tail, ReplaceFrom(MatcherOf(q), Token(q), Last(b), rest));
    }
  }

  lemma Regroup(a: string, b: string, c: string)
    ensures a + (b + c) == (a + b) + c
  {
  }

  lemma {:induction false} QuietIsClean(q: Pattern, prev: Option<char>, s: string)
    requires Quiet(s)
    ensures CleanFrom(MatcherOf(q), prev, s)
    decreases |s|
  {
    if s != "" {
      MatchShape(q, prev, s);
      var n := MatchLength(q, prev, s);
      if n > 0 { DigitClass(s[n - 1]); }
      QuietIsClean(q, Some(s[0]), s[1..]);
    }
  }

  /** Where the non-digits of a described text can be. */
  lemma DigitsFromTen(p: Pattern, s: string, k: nat)
    requires Describes(p, s) && k < |s|
    ensures p == AccountNumber || k >= 10 || (p == Phone && k >= 4) ==> s[k] in DIGITS
  {
    match p
    case Phone =>
      if k >= 4 { assert s[k] == s[|s| - 10..][k - (|s| - 10)]; }
    case AadhaarShaped =>
      var third := |s| - 4;
      if k >= 10 { assert s[k] == s[third..][k - third]; }
    case AccountNumber =>
  }

  /** A match of any pattern that starts in s stays in s. */
  lemma MatchStaysInside(q: Pattern, prev: Option<char>, s: string, after: string)
    requires Quiet(after)
    ensures MatchLength(q, prev, s + after) <= |s|
  {
    var n := MatchLength(q, prev, s + after);
    MatchShape(q, prev, s + after);
    if n > |s| {
      assert (s + after)[n - 1] == after[n - 1 - |s|];
      DigitClass(after[n - 1 - |s|]);
    }
  }

  /** Where s starts, a match can only be s itself. */
  lemma MatchIsWhole(q: Pattern, p: Pattern, prev: Option<char>, s: string, after: string)
    requires Describes(p, s) && Quiet(after) && MatchLength(q, prev, s + after) > 0
    requires q == p || Rank(q) < Rank(p)
    ensures MatchLength(q, prev, s + after) == |s| && Describes(q, s)
  {
    var t, n := s + after, MatchLength(q, prev, s + after);
    MatchStaysInside(q, prev, s, after);
    MatchShape(q, prev, t);
    MatchIsOccurrence(q, prev, t);
    OccurrenceInCharacters(q, prev, t, n);
    if n < |s| {
      assert t[n] == s[n];
      DigitsFromTen(p, s, n);
      DigitClass(s[n]);
    }
    assert t[..|s|] == s;
  }

  lemma WholeIsMatched(p: Pattern, prev: Option<char>, s: string, after: string)
    requires Describes(p, s) && Quiet(after) && !Adjoins(p, prev) && !Adjoins(p, First(after))
    ensures MatchLength(p, prev, s + after) == |s| > 0
  {
    var t := s + after;
    assert t[..|s|] == s && t[|s|..] == after;
    NonEmpty(p, s);
    OccurrenceInCharacters(p, prev, t, |s|);
    OccurrenceIsMatched(p, prev, t, |s|);
    MatchIsWhole(p, p, prev, s, after);
  }

  /** Past its first character an earlier pattern has no room, or a digit before it. */
  lemma NoMatchWithin(q: Pattern, p: Pattern, s: string, after: string, i: nat)
    requires Describes(p, s) && Quiet(after) && Rank(q) < Rank(p) && 0 < i < |s|
    ensures MatchLength(q, Some(s[i - 1]), s[i..] + after) == 0
  {
    MatchStaysInside(q, Some(s[i - 1]), s[i..], after);
    MatchShape(q, Some(s[i - 1]), s[i..] + after);
    MatchIsNoShorter(q, Some(s[i - 1]), s[i..] + after);
    DigitClass(s[i - 1]);
    if p == AadhaarShaped && s[i - 1] !in DIGITS { GroupStarts(s, i); }
  }

  lemma MatchIsNoShorter(q: Pattern, prev: Option<char>, s: string)
    requires q != AccountNumber
    ensures MatchLength(q, prev, s) > 0 ==> MatchLength(q, prev, s) >= 10
  {
  }

  lemma GroupStarts(s: string, i: nat)
    requires Describes(AadhaarShaped, s) && 0 < i < |s| && s[i - 1] !in DIGITS
    ensures |s| - i < 10
  {
    FirstGroup(s);
  }

  lemma FirstGroup(s: string)
    requires Describes(AadhaarShaped, s)
    ensures forall k :: 0 <= k < 4 ==> s[k] in DIGITS
  {
    forall k | 0 <= k < 4
      ensures s[k] in DIGITS
    {
      assert s[k] == s[..4][k];
    }
  }

  lemma EarlierFindsNothing(q: Pattern, p: Pattern, prev: Option<char>, s: string, after: string)
    requires Describes(p, s) && !Describes(q, s) && Quiet(after) && Rank(q) < Rank(p)
    ensures CleanFrom(MatcherOf(q), prev, s + after)
  {
    var t, m := s + after, MatcherOf(q);
    forall i | 0 <= i < |t|
      ensures m(if i == 0 then prev else Some(t[i - 1]), t[i..]) == 0
    {
      if i == 0 {
        assert t[0..] == t;
        if MatchLength(q, prev, t) > 0 { MatchIsWhole(q, p, prev, s, after); }
      } else if i < |s| {
        assert t[i..] == s[i..] + after && t[i - 1] == s[i - 1];
        NoMatchWithin(q, p, s, after, i);
      } else {
        assert t[i..] == after[i - |s|..];
        QuietIsClean(q, Some(t[i - 1]), t[i..]);
      }
    }
    CleanMeans(m, prev, t);
  }

  lemma EarlierPass(q: Pattern, p: Pattern, before: string, s: string, after: string)
    requires Lone(p, before, s, after) && Rank(q) < Rank(p)
    ensures Clean(q, before + (s + after)) && ReplaceAll(q, before + (s + after)) == before + (s + after)
  {
    EarlierFindsNothing(q, p, if before == "" then None else Last(before), s, after);
    ThroughQuiet(q, None, before, s + after);
    CleanIsUntouched(MatcherOf(q), Token(q), None, before + (s + after));
  }

  lemma OwnPass(p: Pattern, before: string, s: string, after: string)
    requires Lone(p, before, s, after)
    ensures !Clean(p, before + (s + after))
    ensures ReplaceAll(p, before + (s + after)) == before + (Placeholder(p) + after)
  {
    var t := s + after;
    WholeIsMatched(p, Last(before), s, after);
    ThroughQuiet(p, None, before, t);
    assert t[|s|..] == after;
    QuietIsClean(p, Some(t[|s| - 1]), after);
    CleanIsUntouched(MatcherOf(p), Token(p), Some(t[|s| - 1]), after);
  }

  lemma LaterPass(q: Pattern, p: Pattern, before: string, after: string)
    requires Quiet(before) && Quiet(after)
    ensures var t := before + (Placeholder(p) + after); Clean(q, t) && ReplaceAll(q, t) == t
  {
    var t := before + (Placeholder(p) + after);
    PlaceholderIsQuiet(p);
    assert Quiet(t);
    QuietIsClean(q, None, t);
    CleanIsUntouched(MatcherOf(q), Token(q), None, t);
  }

  lemma PlaceholderIsQuiet(p: Pattern)
    ensures Quiet(Placeholder(p))
  {
  }

  /** A single number is replaced by the placeholder of its kind, that kind alone is reported, and the text around it
      is kept to the character. */
  lemma LoneNumberIsRedacted(p: Pattern, before: string, s: string, after: string)
    requires Lone(p, before, s, after)
    ensures Redacted(before + (s + after)) == before + (Placeholder(p) + after)
    ensures Reported(before + (s + after)) == [p]
  {
    OwnPass(p, before, s, after);
    LaterPass(AadhaarShaped, p, before, after);
    LaterPass(AccountNumber, p, before, after);
    match p
    case Phone =>
    case AadhaarShaped => EarlierPass(Phone, p, before, s, after);
    case AccountNumber =>
      EarlierPass(Phone, p, before, s, after);
      EarlierPass(AadhaarShaped, p, before, s, after);
  }
}
