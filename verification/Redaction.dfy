/** Narrative redaction: three passes of `String.prototype.replace` with global patterns. */
module Redaction {
  import opened Sequences
  import opened Text

  datatype Pattern = Phone | AadhaarShaped | AccountNumber

  predicate IsSeparator(c: char) {
    IsJsWhitespace(c) || c == '-'
  }

  predicate DigitsAt(s: string, i: nat, n: nat) {
    i + n <= |s| && forall k :: i <= k < i + n ==> IsDigit(s[k])
  }

  /** `(?!\d)` */
  predicate NoDigitAt(s: string, i: nat) {
    i < |s| ==> !IsDigit(s[i])
  }

  /** `(?<!\d)`: the character before the position, if any, is not a digit. */
  predicate NoDigitBefore(prev: Option<char>) {
    prev.None? || !IsDigit(prev.value)
  }

  /** `\b` next to a digit: the neighbour, if any, is not a word character. */
  predicate NoWordBefore(prev: Option<char>) {
    prev.None? || !IsWord(prev.value)
  }

  predicate NoWordAt(s: string, i: nat) {
    i < |s| ==> !IsWord(s[i])
  }

  /** `[6-9]\d{9}(?!\d)` at i. */
  predicate SubscriberAt(s: string, i: nat) {
    DigitsAt(s, i, 10) && s[i] >= '6' && NoDigitAt(s, i + 10)
  }

  function SeparatorLength(s: string, i: nat): nat {
    if i < |s| && IsSeparator(s[i]) then 1 else 0
  }

  /** The length of the optional `\+?91` at the start, 0 when it is absent. */
  function CountryCode(s: string): (n: nat)
    ensures n <= |s|
  {
    if |s| >= 3 && s[0] == '+' && s[1] == '9' && s[2] == '1' then 3
    else if |s| >= 2 && s[0] == '9' && s[1] == '1' then 2
    else 0
  }

  /** phonePattern at the start of s, trying the longer alternatives first; 0 for no match. */
  function PhoneLength(prev: Option<char>, s: string): nat {
    var code := CountryCode(s);
    if !NoDigitBefore(prev) then 0
    else if code > 0 && SeparatorLength(s, code) == 1 && SubscriberAt(s, code + 1) then code + 11
    else if code > 0 && SubscriberAt(s, code) then code + 10
    else if SubscriberAt(s, 0) then 10
    else 0
  }

  /** aadhaarShapedPattern: three groups of four digits, each gap at most one separator. */
  function AadhaarLength(prev: Option<char>, s: string): nat {
    var second := 4 + SeparatorLength(s, 4);
    var third := second + 4 + SeparatorLength(s, second + 4);
    if NoDigitBefore(prev) && DigitsAt(s, 0, 4) && DigitsAt(s, second, 4) && DigitsAt(s, third, 4) &&
       NoDigitAt(s, third + 4)
    then third + 4
    else 0
  }

  /** `\d{9,18}\b`, greedy: n digits if they end at a word boundary, else fewer, down to nine. */
  function AccountDigits(s: string, n: nat): nat {
    if n < 9 then 0
    else if DigitsAt(s, 0, n) && NoWordAt(s, n) then n
    else AccountDigits(s, n - 1)
  }

  function MatchLength(p: Pattern, prev: Option<char>, s: string): nat {
    match p
    case Phone => PhoneLength(prev, s)
    case AadhaarShaped => AadhaarLength(prev, s)
    case AccountNumber => if NoWordBefore(prev) then AccountDigits(s, 18) else 0
  }

  function Token(p: Pattern): string {
    match p
    case Phone => "[REDACTED_PHONE]"
    case AadhaarShaped => "[REDACTED_ID_NUMBER]"
    case AccountNumber => "[REDACTED_ACCOUNT_NUMBER]"
  }

  // ---- A match is bounded, ends in a digit, and never follows one ----

  predicate MatchChar(c: char) {
    IsDigit(c) || c == '+' || IsSeparator(c)
  }

  lemma {:induction false} AccountDigitsMeans(s: string, n: nat)
    ensures var k := AccountDigits(s, n);
            k > 0 ==> 9 <= k <= n && DigitsAt(s, 0, k) && NoWordAt(s, k)
    ensures (exists k: nat :: 9 <= k <= n && DigitsAt(s, 0, k) && NoWordAt(s, k)) ==> AccountDigits(s, n) > 0
  {
    if n >= 9 && !(DigitsAt(s, 0, n) && NoWordAt(s, n)) { AccountDigitsMeans(s, n - 1); }
  }

  /** Everything the passes need of a match of length n at the start of s. */
  lemma MatchShape(p: Pattern, prev: Option<char>, s: string)
    ensures var n := MatchLength(p, prev, s);
            n > 0 ==> 9 <= n <= |s| && (forall k :: 0 <= k < n ==> MatchChar(s[k])) && IsDigit(s[n - 1]) &&
                      NoDigitAt(s, n) && NoDigitBefore(prev) && (IsDigit(s[0]) || (p == Phone && s[0] == '+'))
  {
    if p == AccountNumber { AccountDigitsMeans(s, 18); }
  }

  /** A match depends only on the matched characters and the one after them. */
  lemma MatchIsLocal(p: Pattern, prev: Option<char>, s: string, t: string)
    requires var n := MatchLength(p, prev, s);
             n > 0 && n <= |s| && n <= |t| && s[..n] == t[..n] && (|t| > n ==> |s| > n && s[n] == t[n])
    ensures MatchLength(p, prev, t) > 0
  {
    var n := MatchLength(p, prev, s);
    assert forall k :: 0 <= k < n ==> s[k] == s[..n][k] == t[..n][k] == t[k];
    if p == AccountNumber {
      AccountDigitsMeans(s, 18);
      assert DigitsAt(t, 0, n) && NoWordAt(t, n);
      AccountDigitsMeans(t, 18);
    }
  }

  // ---- One pass, with any matcher ----

  /** The length of the match at the start of a text, given the character before it; 0 for no match. */
  type Matcher = (Option<char>, string) -> nat

  function MatcherOf(p: Pattern): Matcher {
    (prev, s) => MatchLength(p, prev, s)
  }

  /** The rest of a pass over `rest`, the character before it in the input being `prev`. */
  function ReplaceFrom(m: Matcher, token: string, prev: Option<char>, rest: string): string
    decreases |rest|
  {
    if rest == "" then ""
    else
      var n := m(prev, rest);
      if 0 < n <= |rest| then token + ReplaceFrom(m, token, Some(rest[n - 1]), rest[n..])
      else [rest[0]] + ReplaceFrom(m, token, Some(rest[0]), rest[1..])
  }

  /** No match starts anywhere in s. */
  predicate CleanFrom(m: Matcher, prev: Option<char>, s: string)
    decreases |s|
  {
    s == "" || (m(prev, s) == 0 && CleanFrom(m, Some(s[0]), s[1..]))
  }

  function Before(s: string, i: nat): Option<char>
    requires i <= |s|
  {
    if i == 0 then None else Some(s[i - 1])
  }

  lemma {:induction false} CleanMeans(m: Matcher, prev: Option<char>, s: string)
    ensures CleanFrom(m, prev, s) <==>
            forall i :: 0 <= i < |s| ==> m(if i == 0 then prev else Some(s[i - 1]), s[i..]) == 0
    decreases |s|
  {
    if s != "" {
      CleanMeans(m, Some(s[0]), s[1..]);
      assert s[0..] == s;
      forall i | 0 <= i < |s| - 1
        ensures s[1..][i..] == s[i + 1..] && (i > 0 ==> s[1..][i - 1] == s[i])
      {
      }
      if CleanFrom(m, prev, s) {
        forall i | 0 <= i < |s|
          ensures m(if i == 0 then prev else Some(s[i - 1]), s[i..]) == 0
        {
          if i > 0 { assert s[i..] == s[1..][i - 1..]; }
        }
      }
      if forall i :: 0 <= i < |s| ==> m(if i == 0 then prev else Some(s[i - 1]), s[i..]) == 0 {
        assert m(prev, s[0..]) == 0;
        forall i | 0 <= i < |s| - 1
          ensures m(if i == 0 then Some(s[0]) else Some(s[1..][i - 1]), s[1..][i..]) == 0
        {
          assert s[1..][i..] == s[i + 1..];
        }
      }
    }
  }

  /** A pass over a string without matches changes nothing. */
  lemma {:induction false} CleanIsUntouched(m: Matcher, token: string, prev: Option<char>, s: string)
    requires CleanFrom(m, prev, s)
    ensures ReplaceFrom(m, token, prev, s) == s
    decreases |s|
  {
    if s != "" {
      CleanIsUntouched(m, token, Some(s[0]), s[1..]);
      assert s == [s[0]] + s[1..];
    }
  }

  /** What is left of a pass at position `last` is one token or one character, and then the rest. */
  lemma PassStep(m: Matcher, token: string, text: string, last: nat)
    requires last < |text| && m(Before(text, last), text[last..]) <= |text| - last
    ensures var n := m(Before(text, last), text[last..]);
            ReplaceFrom(m, token, Before(text, last), text[last..]) ==
            if n > 0 then token + ReplaceFrom(m, token, Before(text, last + n), text[last + n..])
            else [text[last]] + ReplaceFrom(m, token, Before(text, last + 1), text[last + 1..])
    ensures CleanFrom(m, Before(text, last), text[last..]) <==>
            m(Before(text, last), text[last..]) == 0 && CleanFrom(m, Before(text, last + 1), text[last + 1..])
  {
    var rest := text[last..];
    var n := m(Before(text, last), rest);
    if n > 0 { assert rest[n..] == text[last + n..]; }
    assert rest[1..] == text[last + 1..];
  }

  lemma Reassociate(a: string, b: string, c: string)
    ensures (a + b) + c == a + (b + c)
  {
  }

  /** `out` is the finished part of the pass up to `last`, and `found` tells whether it replaced anything. */
  ghost predicate Progress(m: Matcher, token: string, text: string, last: nat, out: string, found: bool) {
    && last <= |text|
    && out + ReplaceFrom(m, token, Before(text, last), text[last..]) == ReplaceFrom(m, token, None, text)
    && CleanFrom(m, None, text) == (!found && CleanFrom(m, Before(text, last), text[last..]))
  }

  lemma Advance(m: Matcher, token: string, text: string, last: nat, out: string, found: bool)
    requires Progress(m, token, text, last, out, found) && last < |text|
    requires m(Before(text, last), text[last..]) <= |text| - last
    ensures var n := m(Before(text, last), text[last..]);
            if n > 0 then Progress(m, token, text, last + n, out + token, true)
            else Progress(m, token, text, last + 1, out + [text[last]], found)
  {
    var n := m(Before(text, last), text[last..]);
    PassStep(m, token, text, last);
    if n > 0 {
      Reassociate(out, token, ReplaceFrom(m, token, Before(text, last + n), text[last + n..]));
    } else {
      Reassociate(out, [text[last]], ReplaceFrom(m, token, Before(text, last + 1), text[last + 1..]));
    }
  }

  lemma PassStarts(m: Matcher, token: string, text: string)
    ensures Progress(m, token, text, 0, "", false)
  {
    assert text[0..] == text;
    var all := ReplaceFrom(m, token, None, text);
    assert "" + all == all;
  }

  lemma PassEnds(m: Matcher, token: string, text: string, out: string, found: bool)
    requires Progress(m, token, text, |text|, out, found)
    ensures out == ReplaceFrom(m, token, None, text) && (found <==> !CleanFrom(m, None, text))
  {
    assert text[|text|..] == "" && out + "" == out;
  }

  ghost predicate Bounded(m: Matcher) {
    forall prev, s {:trigger m(prev, s)} :: m(prev, s) <= |s|
  }

  /** One search from `last`: a match is replaced by the token, or one character is copied. */
  method ReplaceNext(m: Matcher, token: string, text: string, last: nat, out: string, found: bool)
      returns (last': nat, out': string, found': bool)
    requires Bounded(m) && Progress(m, token, text, last, out, found) && last < |text|
    ensures last < last' && Progress(m, token, text, last', out', found')
  {
    var n := m(Before(text, last), text[last..]);
    Advance(m, token, text, last, out, found);
    if n > 0 {
      out', found', last' := out + token, true, last + n;
    } else {
      out', found', last' := out + [text[last]], found, last + 1;
    }
  }

  /** `text.replace(pattern, callback)` with the g flag: `found` says whether the callback ran. */
  method ReplaceGlobally(m: Matcher, token: string, text: string) returns (out: string, found: bool)
    requires Bounded(m)
    ensures out == ReplaceFrom(m, token, None, text)
    ensures found <==> !CleanFrom(m, None, text)
  {
    out, found := "", false;
    var last := 0;
    PassStarts(m, token, text);
    while last < |text|
      invariant Progress(m, token, text, last, out, found)
    {
      last, out, found := ReplaceNext(m, token, text, last, out, found);
    }
    PassEnds(m, token, text, out, found);
  }

  // ---- A pass removes its own pattern and re-creates no earlier one ----

  function Rank(p: Pattern): nat {
    match p case Phone => 0 case AadhaarShaped => 1 case AccountNumber => 2
  }

  /** Output up to a bracket is copied input, and a copy cut short is cut by a match. */
  lemma {:induction false} CopiedPrefix(m: Matcher, token: string, prev: Option<char>, rest: string, n: nat)
    requires token != "" && token[0] == '['
    requires n <= |ReplaceFrom(m, token, prev, rest)|
    requires forall k :: 0 <= k < n ==> ReplaceFrom(m, token, prev, rest)[k] != '['
    ensures var o := ReplaceFrom(m, token, prev, rest);
            && n <= |rest| && o[..n] == rest[..n]
            && (|o| == n ==> |rest| == n)
            && (|o| > n ==> |rest| > n &&
                            (o[n] == rest[n] || m(if n == 0 then prev else Some(rest[n - 1]), rest[n..]) > 0))
    ensures n > 0 ==> !(0 < m(prev, rest) <= |rest|)
    decreases |rest|
  {
    var o := ReplaceFrom(m, token, prev, rest);
    if rest != "" {
      if 0 < m(prev, rest) <= |rest| {
        assert o[0] == token[0];
        assert rest[0..] == rest;
      } else if n > 0 {
        var o' := ReplaceFrom(m, token, Some(rest[0]), rest[1..]);
        assert o == [rest[0]] + o';
        assert forall k :: 0 <= k < n - 1 ==> o'[k] == o[k + 1];
        CopiedPrefix(m, token, Some(rest[0]), rest[1..], n - 1);
        assert rest[1..][n - 1..] == rest[n..];
        assert o[..n] == [rest[0]] + o'[..n - 1] && rest[..n] == [rest[0]] + rest[1..][..n - 1];
      }
    }
  }

  lemma {:induction false} CleanAcross(q: Pattern, prev: Option<char>, t: string, s: string)
    requires t != "" && forall k :: 0 <= k < |t| ==> !IsDigit(t[k]) && t[k] != '+'
    requires CleanFrom(MatcherOf(q), Some(t[|t| - 1]), s)
    ensures CleanFrom(MatcherOf(q), prev, t + s)
    decreases |t|
  {
    MatchShape(q, prev, t + s);
    assert (t + s)[0] == t[0];
    if |t| == 1 {
      assert (t + s)[1..] == s;
    } else {
      CleanAcross(q, Some(t[0]), t[1..], s);
      assert (t + s)[1..] == t[1..] + s;
    }
  }

  /** Where an output position stands against the input: the same character before it, or, right after a
      replaced match, a bracket instead of the digit the match ended with. */
  predicate Aligned(prev: Option<char>, prev': Option<char>, rest: string) {
    prev' == prev || (prev' == Some(']') && prev.Some? && IsDigit(prev.value) && NoDigitAt(rest, 0))
  }

  /** After a replaced match only `+91…` could match anew, and then the match without its plus was there before. */
  lemma PlusIsSuperfluous(q: Pattern, prev: Option<char>, rest: string)
    requires prev.Some? && IsDigit(prev.value) && NoDigitAt(rest, 0) && rest != ""
    requires MatchLength(q, Some(']'), rest) > 0
    ensures q == Phone && |rest| > 1 && rest[0] == '+' && MatchLength(Phone, Some('+'), rest[1..]) > 0
  {
    MatchShape(q, Some(']'), rest);
    var t := rest[1..];
    assert forall k :: 0 <= k < |t| ==> t[k] == rest[k + 1];
    if CountryCode(rest) == 3 {
      assert CountryCode(t) == 2;
      if SeparatorLength(rest, 3) == 1 && SubscriberAt(rest, 4) {
        assert SubscriberAt(t, 3);
      } else {
        assert SubscriberAt(t, 2);
      }
    }
  }

  /** At a copied position the output has no match that the input did not have. */
  lemma NoNewMatch(q: Pattern, p: Pattern, prev: Option<char>, prev': Option<char>, rest: string)
    requires Rank(q) <= Rank(p) && Aligned(prev, prev', rest) && rest != ""
    requires q != p ==> CleanFrom(MatcherOf(q), prev, rest)
    requires MatchLength(p, prev, rest) == 0
    ensures MatchLength(q, prev', ReplaceFrom(MatcherOf(p), Token(p), prev, rest)) == 0
  {
    var o := ReplaceFrom(MatcherOf(p), Token(p), prev, rest);
    var n := MatchLength(q, prev', o);
    if n > 0 {
      MatchShape(q, prev', o);
      assert forall k :: 0 <= k < n ==> o[k] != '[';
      CopiedPrefix(MatcherOf(p), Token(p), prev, rest, n);
      assert rest[n - 1] == rest[..n][n - 1] == o[..n][n - 1] == o[n - 1];
      if |rest| > n { MatchShape(p, Some(rest[n - 1]), rest[n..]); }
      MatchIsLocal(q, prev', o, rest);
      if prev' != prev { PlusIsSuperfluous(q, prev, rest); }
    }
  }

  lemma {:induction false} CleanSuffix(q: Pattern, prev: Option<char>, s: string, n: nat)
    requires CleanFrom(MatcherOf(q), prev, s) && 0 < n <= |s|
    ensures CleanFrom(MatcherOf(q), Some(s[n - 1]), s[n..])
    decreases n
  {
    if n > 1 {
      CleanSuffix(q, Some(s[0]), s[1..], n - 1);
      assert s[1..][n - 1..] == s[n..];
    }
  }

  lemma TokenIsClean(q: Pattern, p: Pattern, prev: Option<char>, o: string)
    requires CleanFrom(MatcherOf(q), Some(']'), o)
    ensures CleanFrom(MatcherOf(q), prev, Token(p) + o)
  {
    CleanAcross(q, prev, Token(p), o);
  }

  lemma CopyIsClean(q: Pattern, prev: Option<char>, c: char, o: string)
    requires MatchLength(q, prev, [c] + o) == 0 && CleanFrom(MatcherOf(q), Some(c), o)
    ensures CleanFrom(MatcherOf(q), prev, [c] + o)
  {
    assert ([c] + o)[1..] == o;
  }

  /** A pass leaves no match of its own pattern, and none of a pattern that an earlier pass removed. */
  lemma {:induction false} ReplaceStaysClean(q: Pattern, p: Pattern, prev: Option<char>, prev': Option<char>,
                                             rest: string)
    requires Rank(q) <= Rank(p) && Aligned(prev, prev', rest)
    requires q != p ==> CleanFrom(MatcherOf(q), prev, rest)
    ensures CleanFrom(MatcherOf(q), prev', ReplaceFrom(MatcherOf(p), Token(p), prev, rest))
    decreases |rest|
  {
    MatchShape(p, prev, rest);
    var n := MatchLength(p, prev, rest);
    if rest == "" {
    } else if n > 0 {
      var o := ReplaceFrom(MatcherOf(p), Token(p), Some(rest[n - 1]), rest[n..]);
      if q != p { CleanSuffix(q, prev, rest, n); }
      ReplaceStaysClean(q, p, Some(rest[n - 1]), Some(']'), rest[n..]);
      TokenIsClean(q, p, prev', o);
    } else {
      var o := ReplaceFrom(MatcherOf(p), Token(p), Some(rest[0]), rest[1..]);
      NoNewMatch(q, p, prev, prev', rest);
      ReplaceStaysClean(q, p, Some(rest[0]), Some(rest[0]), rest[1..]);
      CopyIsClean(q, prev', rest[0], o);
    }
  }

  // ---- What the patterns denote, whatever order a matcher tries the alternatives in ----

  predicate CountryPrefix(s: string) {
    || s == "" || s == "91" || s == "+91"
    || (|s| == 3 && s[..2] == "91" && IsSeparator(s[2]))
    || (|s| == 4 && s[..3] == "+91" && IsSeparator(s[3]))
  }

  /** Three groups of four digits, the first gap of length a and the second of length b. */
  predicate Groups(s: string, a: nat, b: nat) {
    && DigitsAt(s, 0, 4) && DigitsAt(s, 4 + a, 4) && DigitsAt(s, 8 + a + b, 4) && NoDigitAt(s, 12 + a + b)
    && a <= 1 && (a == 1 ==> IsSeparator(s[4])) && b <= 1 && (b == 1 ==> IsSeparator(s[8 + a]))
  }

  /** The first n characters of s, met after `prev`, are what p describes. */
  ghost predicate Occurrence(p: Pattern, prev: Option<char>, s: string, n: nat) {
    match p
    case Phone =>
      NoDigitBefore(prev) && 10 <= n <= |s| && CountryPrefix(s[..n - 10]) && SubscriberAt(s, n - 10)
    case AadhaarShaped =>
      NoDigitBefore(prev) && n >= 12 && exists a: nat, b: nat :: n == 12 + a + b && Groups(s, a, b)
    case AccountNumber =>
      NoWordBefore(prev) && 9 <= n <= 18 && DigitsAt(s, 0, n) && NoWordAt(s, n)
  }

  lemma MatchIsOccurrence(p: Pattern, prev: Option<char>, s: string)
    requires MatchLength(p, prev, s) > 0
    ensures Occurrence(p, prev, s, MatchLength(p, prev, s))
  {
    match p
    case Phone =>
    case AadhaarShaped =>
      assert Groups(s, SeparatorLength(s, 4), SeparatorLength(s, 8 + SeparatorLength(s, 4)));
    case AccountNumber => AccountDigitsMeans(s, 18);
  }

  lemma OccurrenceIsMatched(p: Pattern, prev: Option<char>, s: string, n: nat)
    requires Occurrence(p, prev, s, n)
    ensures MatchLength(p, prev, s) > 0
  {
    match p
    case Phone =>
      assert forall k :: 0 <= k < n - 10 ==> s[..n - 10][k] == s[k];
      var prefix := s[..n - 10];
      if |prefix| == 3 && IsSeparator(prefix[2]) { assert prefix[..2][0] == s[0] && prefix[..2][1] == s[1]; }
      if |prefix| == 4 { assert prefix[..3][0] == s[0] && prefix[..3][1] == s[1] && prefix[..3][2] == s[2]; }
    case AadhaarShaped =>
      var a: nat, b: nat :| n == 12 + a + b && Groups(s, a, b);
      assert IsDigit(s[4 + a]) && IsDigit(s[8 + a + b]);
      assert SeparatorLength(s, 4) == a && SeparatorLength(s, 8 + a) == b;
    case AccountNumber => AccountDigitsMeans(s, 18);
  }

  // ---- The three passes ----

  function ReplaceAll(p: Pattern, s: string): string {
    ReplaceFrom(MatcherOf(p), Token(p), None, s)
  }

  predicate Clean(p: Pattern, s: string) {
    CleanFrom(MatcherOf(p), None, s)
  }

  function Redacted(raw: string): string {
    ReplaceAll(AccountNumber, ReplaceAll(AadhaarShaped, ReplaceAll(Phone, raw)))
  }

  /** The categories, in the order in which the passes can add them. */
  function Reported(raw: string): seq<Pattern> {
    var afterPhone := ReplaceAll(Phone, raw);
    (if Clean(Phone, raw) then [] else [Phone]) +
    (if Clean(AadhaarShaped, afterPhone) then [] else [AadhaarShaped]) +
    (if Clean(AccountNumber, ReplaceAll(AadhaarShaped, afterPhone)) then [] else [AccountNumber])
  }

  lemma AllPassesClean(raw: string, q: Pattern)
    ensures Clean(q, Redacted(raw))
  {
    var one := ReplaceAll(Phone, raw);
    var two := ReplaceAll(AadhaarShaped, one);
    if q == Phone {
      ReplaceStaysClean(Phone, Phone, None, None, raw);
      ReplaceStaysClean(Phone, AadhaarShaped, None, None, one);
    }
    if q == AadhaarShaped { ReplaceStaysClean(AadhaarShaped, AadhaarShaped, None, None, one); }
    ReplaceStaysClean(q, AccountNumber, None, None, two);
  }

  /** Nowhere in the redacted text is anything left that any of the three patterns describes. */
  lemma RedactionIsComplete(raw: string, q: Pattern, i: nat, n: nat)
    requires i < |Redacted(raw)|
    ensures !Occurrence(q, Before(Redacted(raw), i), Redacted(raw)[i..], n)
  {
    var r := Redacted(raw);
    AllPassesClean(raw, q);
    CleanMeans(MatcherOf(q), None, r);
    if Occurrence(q, Before(r, i), r[i..], n) { OccurrenceIsMatched(q, Before(r, i), r[i..], n); }
  }

  /** A second run changes nothing and reports nothing. */
  lemma RedactionIsIdempotent(raw: string)
    ensures Redacted(Redacted(raw)) == Redacted(raw)
    ensures Reported(Redacted(raw)) == []
  {
    var r := Redacted(raw);
    AllPassesClean(raw, Phone);
    AllPassesClean(raw, AadhaarShaped);
    AllPassesClean(raw, AccountNumber);
    CleanIsUntouched(MatcherOf(Phone), Token(Phone), None, r);
    CleanIsUntouched(MatcherOf(AadhaarShaped), Token(AadhaarShaped), None, r);
    CleanIsUntouched(MatcherOf(AccountNumber), Token(AccountNumber), None, r);
  }

  /** Nothing is reported exactly when there was nothing to redact, and then the text is untouched. */
  lemma ReportedMeans(raw: string)
    ensures Reported(raw) == [] <==> Clean(Phone, raw) && Clean(AadhaarShaped, raw) && Clean(AccountNumber, raw)
    ensures Reported(raw) == [] ==> Redacted(raw) == raw
  {
    var one := ReplaceAll(Phone, raw);
    var two := ReplaceAll(AadhaarShaped, one);
    if Clean(Phone, raw) {
      CleanIsUntouched(MatcherOf(Phone), Token(Phone), None, raw);
      if Clean(AadhaarShaped, raw) {
        CleanIsUntouched(MatcherOf(AadhaarShaped), Token(AadhaarShaped), None, raw);
        if Clean(AccountNumber, raw) { CleanIsUntouched(MatcherOf(AccountNumber), Token(AccountNumber), None, raw); }
      }
    }
  }

  method Replace(p: Pattern, text: string) returns (out: string, found: bool)
    ensures out == ReplaceAll(p, text)
    ensures found <==> !Clean(p, text)
  {
    forall prev, s
      ensures MatcherOf(p)(prev, s) <= |s|
    {
      MatchShape(p, prev, s);
    }
    assert Bounded(MatcherOf(p));
    out, found := ReplaceGlobally(MatcherOf(p), Token(p), text);
  }

  method RedactIntakeNarrative(raw: string) returns (redacted: string, categories: seq<Pattern>)
    ensures redacted == Redacted(raw)
    ensures categories == Reported(raw)
  {
    categories := [];
    var found;
    redacted, found := Replace(Phone, raw);
    if found { categories := categories + [Phone]; }
    redacted, found := Replace(AadhaarShaped, redacted);
    if found { categories := categories + [AadhaarShaped]; }
    redacted, found := Replace(AccountNumber, redacted);
    if found { categories := categories + [AccountNumber]; }
  }
}
