/**
 * The reason scrubber: two leftmost, greedy, case-insensitive rewrites and a length
 * cap, on strings of Unicode characters.
 */
module Scrub {

  const MAX_LEN: nat := 300
  const ELLIPSIS: string := "\U{2026}"
  const REDACTED: string := "REDACTED"
  const KEY: string := "key="
  const HTTP: string := "http://"
  const HTTPS: string := "https://"

  /** Case folding as (?i) does it; the Kelvin sign folds to k and the long s to s. */
  function Lower(c: char): char {
    if 'A' <= c <= 'Z' then (c as int + 32) as char
    else if c == '\U{212A}' then 'k'
    else if c == '\U{017F}' then 's'
    else c
  }

  /** `word` (in lower case) matches at the start of `s`. */
  predicate Matches(s: string, word: string) {
    |word| <= |s| && forall i :: 0 <= i < |word| ==> Lower(s[i]) == word[i]
  }

  /** \s, a double or a single quote. */
  predicate IsStop(c: char) {
    c == '\t' || c == '\n' || c == '\U{000C}' || c == '\r' || c == ' ' || c == '"' || c == '\''
  }

  predicate IsQuery(c: char) {
    c == '?' || c == '#'
  }

  predicate IsKeyStop(c: char) {
    c == '&' || IsStop(c)
  }

  /** The length of the longest prefix in [^\s"'?#]*. */
  function UrlRun(s: string): (n: nat)
    ensures n <= |s|
    ensures forall i :: 0 <= i < n ==> !IsStop(s[i]) && !IsQuery(s[i])
    ensures n < |s| ==> IsStop(s[n]) || IsQuery(s[n])
  {
    if s == "" || IsStop(s[0]) || IsQuery(s[0]) then 0 else 1 + UrlRun(s[1..])
  }

  /** The length of the longest prefix in [^\s"']*. */
  function QueryRun(s: string): (n: nat)
    ensures n <= |s|
    ensures forall i :: 0 <= i < n ==> !IsStop(s[i])
    ensures n < |s| ==> IsStop(s[n])
  {
    if s == "" || IsStop(s[0]) then 0 else 1 + QueryRun(s[1..])
  }

  /** The length of the longest prefix in [^&\s"']*. */
  function ValueRun(s: string): (n: nat)
    ensures n <= |s|
    ensures forall i :: 0 <= i < n ==> !IsKeyStop(s[i])
    ensures n < |s| ==> IsKeyStop(s[n])
  {
    if s == "" || IsKeyStop(s[0]) then 0 else 1 + ValueRun(s[1..])
  }

  /** The length of https?:// at the start of `s`, or 0. */
  function SchemeLen(s: string): (n: nat)
    ensures n <= |s|
  {
    if Matches(s, HTTPS) then 8 else if Matches(s, HTTP) then 7 else 0
  }

  /** Where the part of the URL that is kept ends. */
  function UrlEnd(s: string): (n: nat)
    ensures n <= |s|
  {
    SchemeLen(s) + UrlRun(s[SchemeLen(s)..])
  }

  /** (https?://[^\s"'?#]*)[?#] matches at the start of `s`. */
  predicate UrlMatch(s: string) {
    SchemeLen(s) > 0 && UrlEnd(s) < |s| && IsQuery(s[UrlEnd(s)])
  }

  /** urlQuery.ReplaceAllString(s, "$1") */
  function StripQueries(s: string): string
    decreases |s|
  {
    if s == "" then ""
    else if UrlMatch(s) then s[..UrlEnd(s)] + StripQueries(s[UrlEnd(s) + QueryRun(s[UrlEnd(s)..])..])
    else [s[0]] + StripQueries(s[1..])
  }

  /** (key=)[^&\s"']+ matches at the start of `s`. */
  predicate KeyMatch(s: string) {
    Matches(s, KEY) && |s| > 4 && !IsKeyStop(s[4])
  }

  /** keyParam.ReplaceAllString(s, "${1}REDACTED") */
  function RedactKeys(s: string): string
    decreases |s|
  {
    if s == "" then ""
    else if KeyMatch(s) then s[..4] + REDACTED + RedactKeys(s[4 + ValueRun(s[4..])..])
    else [s[0]] + RedactKeys(s[1..])
  }

  function Rewrite(s: string): string {
    RedactKeys(StripQueries(s))
  }

  function Cap(s: string): string {
    if |s| > MAX_LEN then s[..MAX_LEN] + ELLIPSIS else s
  }

  function Scrub(s: string): string {
    Cap(Rewrite(s))
  }

  // -------------------------------------------------- no URL is followed by a query

  /** No http(s) URL anywhere in `t` is followed by `?` or `#`. */
  predicate Clean(t: string)
    decreases |t|
  {
    t == "" || (!UrlMatch(t) && Clean(t[1..]))
  }

  datatype Break = QueryChar | StopChar | End

  /** The first character that ends a URL. */
  function FirstBreak(s: string): Break
    decreases |s|
  {
    if s == "" then End
    else if IsQuery(s[0]) then QueryChar
    else if IsStop(s[0]) then StopChar
    else FirstBreak(s[1..])
  }

  predicate NoBreak(w: string) {
    forall i :: 0 <= i < |w| ==> !IsStop(w[i]) && !IsQuery(w[i])
  }

  predicate NoStop(w: string) {
    forall i :: 0 <= i < |w| ==> !IsStop(w[i])
  }

  predicate Avoids(w: string, c: char) {
    forall i :: 0 <= i < |w| ==> Lower(w[i]) != c
  }

  lemma {:induction false} BreakAfter(w: string, r: string)
    ensures NoBreak(w) ==> FirstBreak(w + r) == FirstBreak(r)
    ensures NoStop(w) && FirstBreak(r) == QueryChar ==> FirstBreak(w + r) == QueryChar
  {
    if w == "" {
      assert w + r == r;
    } else {
      assert (w + r)[1..] == w[1..] + r;
      BreakAfter(w[1..], r);
    }
  }

  lemma SchemeHasNoBreak(s: string)
    ensures NoBreak(s[..SchemeLen(s)])
  {
  }

  /** A URL match is a scheme with a query character before any other break. */
  lemma UrlMatchIs(s: string)
    ensures UrlMatch(s) <==> SchemeLen(s) > 0 && FirstBreak(s) == QueryChar
    ensures UrlMatch(s) ==> NoBreak(s[..UrlEnd(s)])
  {
    var n, m := SchemeLen(s), UrlEnd(s);
    SchemeHasNoBreak(s);
    assert s[..m] == s[..n] + s[n..][..m - n];
    assert NoBreak(s[..m]);
    assert s == s[..m] + s[m..];
    BreakAfter(s[..m], s[m..]);
  }

  lemma SchemeIs(s: string)
    ensures SchemeLen(s) > 0 <==> Matches(s, HTTP) || Matches(s, HTTPS)
  {
  }

  lemma MatchesTail(s: string, word: string)
    requires word != "" && Matches(s, word)
    ensures Matches(s[1..], word[1..]) && Lower(s[0]) == word[0]
  {
  }

  lemma MatchesHead(s: string, word: string)
    requires word != "" && s != "" && Lower(s[0]) == word[0] && Matches(s[1..], word[1..])
    ensures Matches(s, word)
  {
    forall i | 0 <= i < |word|
      ensures Lower(s[i]) == word[i]
    {
      if i > 0 {
        assert s[i] == s[1..][i - 1] && word[i] == word[1..][i - 1];
      }
    }
  }

  lemma UrlStartsWithH(s: string)
    ensures UrlMatch(s) ==> Lower(s[0]) == 'h' && StripQueries(s) != "" && StripQueries(s)[0] == s[0]
  {
  }

  /** A word without h is in the stripped text only where it was in the text. */
  lemma {:induction false} MatchesBeforeStrip(s: string, word: string)
    requires Avoids(word, 'h') && Matches(StripQueries(s), word)
    ensures Matches(s, word)
    decreases |word|
  {
    if word != "" {
      MatchesTail(StripQueries(s), word);
      UrlStartsWithH(s);
      assert StripQueries(s)[1..] == StripQueries(s[1..]);
      MatchesBeforeStrip(s[1..], word[1..]);
      MatchesHead(s, word);
    }
  }

  lemma {:induction false} BreakBeforeStrip(s: string)
    requires FirstBreak(StripQueries(s)) == QueryChar
    ensures FirstBreak(s) == QueryChar
    decreases |s|
  {
    UrlMatchIs(s);
    if s != "" && !UrlMatch(s) && !IsQuery(s[0]) {
      assert StripQueries(s)[1..] == StripQueries(s[1..]);
      BreakBeforeStrip(s[1..]);
    }
  }

  lemma Grouped(a: string, b: string, c: string)
    ensures a + b + c == a + (b + c)
  {
  }

  lemma HeadAndTail(s: string)
    requires s != ""
    ensures s == [s[0]] + s[1..]
  {
  }

  lemma CleanStep(c: char, t: string)
    requires Clean(t) && !UrlMatch([c] + t)
    ensures Clean([c] + t)
  {
    assert ([c] + t)[1..] == t;
  }

  /** Characters that cannot start a URL do not change whether the text is clean. */
  lemma {:induction false} CleanAfter(w: string, t: string)
    requires Avoids(w, 'h') && Clean(t)
    ensures Clean(w + t)
  {
    if w == "" {
      assert w + t == t;
    } else {
      assert Avoids(w[1..], 'h') && Lower(w[0]) != 'h';
      assert (w + t)[0] == w[0];
      hide *;
      HeadAndTail(w);
      Grouped([w[0]], w[1..], t);
      CleanAfter(w[1..], t);
      UrlStartsWithH(w + t);
      CleanStep(w[0], w[1..] + t);
    }
  }

  /** A URL cut off at a stop, or at the end, is clean. */
  lemma {:induction false} CleanAfterUrl(w: string, t: string)
    requires NoBreak(w) && Clean(t) && FirstBreak(t) != QueryChar
    ensures Clean(w + t)
  {
    if w == "" {
      assert w + t == t;
    } else {
      assert NoBreak(w[1..]);
      hide *;
      HeadAndTail(w);
      Grouped([w[0]], w[1..], t);
      CleanAfterUrl(w[1..], t);
      BreakAfter(w, t);
      UrlMatchIs(w + t);
      CleanStep(w[0], w[1..] + t);
    }
  }

  /** What the first rewrite goes on with after a match at the start: the rest from the end of its query. */
  function AfterQuery(s: string): (rest: string)
    requires UrlMatch(s)
    ensures |rest| < |s|
  {
    s[UrlEnd(s) + QueryRun(s[UrlEnd(s)..])..]
  }

  lemma StripMatch(s: string)
    requires UrlMatch(s)
    ensures StripQueries(s) == s[..UrlEnd(s)] + StripQueries(AfterQuery(s))
    ensures FirstBreak(AfterQuery(s)) != QueryChar
    ensures NoBreak(s[..UrlEnd(s)])
  {
    UrlMatchIs(s);
    var tail := s[UrlEnd(s)..];
    var n := QueryRun(tail);
    assert AfterQuery(s) == tail[n..];
    assert n < |tail| ==> tail[n..][0] == tail[n];
    hide UrlMatch, UrlEnd, SchemeLen;
  }

  lemma StripNoMatch(s: string)
    requires s != "" && !UrlMatch(s)
    ensures StripQueries(s) == [s[0]] + StripQueries(s[1..])
    ensures !UrlMatch([s[0]] + StripQueries(s[1..]))
  {
    NoMatchAfterStrip(s);
    hide UrlMatch;
  }

  lemma {:induction false} StrippedIsClean(s: string)
    ensures Clean(StripQueries(s))
    decreases |s|
  {
    if s == "" {
      assert Clean(StripQueries(s));
    } else if UrlMatch(s) {
      hide *;
      StripMatch(s);
      var rest := AfterQuery(s);
      StrippedIsClean(rest);
      if FirstBreak(StripQueries(rest)) == QueryChar {
        BreakBeforeStrip(rest);
      }
      CleanAfterUrl(s[..UrlEnd(s)], StripQueries(rest));
    } else {
      hide *;
      StripNoMatch(s);
      StrippedIsClean(s[1..]);
      CleanStep(s[0], StripQueries(s[1..]));
    }
  }

  lemma WordsAvoid()
    ensures Avoids(HTTP[1..], 'h') && Avoids(HTTPS[1..], 'h') && Avoids(HTTP, 'k') && Avoids(HTTPS, 'k') && Avoids(KEY[1..], 'k')
    ensures Avoids(REDACTED, 'k') && Avoids(REDACTED, 'h') && NoBreak(REDACTED)
  {
  }

  lemma WordBeforeStrip(s: string, word: string)
    requires s != "" && !UrlMatch(s) && word != "" && Avoids(word[1..], 'h')
    requires Matches(StripQueries(s), word)
    ensures Matches(s, word)
  {
    var t := StripQueries(s);
    assert t[1..] == StripQueries(s[1..]);
    MatchesTail(t, word);
    MatchesBeforeStrip(s[1..], word[1..]);
    MatchesHead(s, word);
  }

  lemma NoMatchAfterStrip(s: string)
    requires s != "" && !UrlMatch(s)
    ensures !UrlMatch(StripQueries(s))
  {
    var t := StripQueries(s);
    UrlMatchIs(t);
    UrlMatchIs(s);
    SchemeIs(t);
    SchemeIs(s);
    WordsAvoid();
    if UrlMatch(t) {
      BreakBeforeStrip(s);
      if Matches(t, HTTP) {
        WordBeforeStrip(s, HTTP);
      } else {
        WordBeforeStrip(s, HTTPS);
      }
    }
  }

  lemma {:induction false} StripKeepsClean(t: string)
    requires Clean(t)
    ensures StripQueries(t) == t
    decreases |t|
  {
    if t != "" {
      StripKeepsClean(t[1..]);
    }
  }

  // ----------------------------------------------------- every key is redacted

  /** What may follow `key=`: nothing, a delimiter, or REDACTED and then nothing or a delimiter. */
  predicate SafeValue(v: string) {
    v == "" || IsKeyStop(v[0])
    || (REDACTED <= v && (|v| == 8 || IsKeyStop(v[8])))
  }

  /** Every `key=` in `t` is followed by a safe value. */
  predicate KeysSafe(t: string)
    decreases |t|
  {
    t == "" || ((Matches(t, KEY) ==> SafeValue(t[4..])) && KeysSafe(t[1..]))
  }

  lemma {:induction false} KeysSafeAfter(w: string, t: string)
    requires Avoids(w, 'k') && KeysSafe(t)
    ensures KeysSafe(w + t)
  {
    if w == "" {
      assert w + t == t;
    } else {
      assert (w + t)[1..] == w[1..] + t;
      KeysSafeAfter(w[1..], t);
      if Matches(w + t, KEY) {
        MatchesTail(w + t, KEY);
      }
    }
  }

  lemma {:induction false} KeysSafeSuffix(t: string, n: nat)
    requires KeysSafe(t) && n <= |t|
    ensures KeysSafe(t[n..])
  {
    if n == 0 {
      assert t[0..] == t;
    } else {
      KeysSafeSuffix(t[1..], n - 1);
      assert t[1..][n - 1..] == t[n..];
    }
  }

  lemma {:induction false} CleanSuffix(t: string, n: nat)
    requires Clean(t) && n <= |t|
    ensures Clean(t[n..])
  {
    if n == 0 {
      assert t[0..] == t;
    } else {
      CleanSuffix(t[1..], n - 1);
      assert t[1..][n - 1..] == t[n..];
    }
  }

  lemma RedactHead(s: string)
    ensures (RedactKeys(s) == "") == (s == "")
    ensures s != "" ==> RedactKeys(s)[0] == s[0]
    ensures s != "" && Lower(s[0]) != 'k' ==> RedactKeys(s)[1..] == RedactKeys(s[1..])
  {
  }

  /** A word without k is in the redacted text only where it was in the text, and then what follows is redacted as before. */
  lemma {:induction false} MatchesBeforeRedact(s: string, word: string)
    requires Avoids(word, 'k') && Matches(RedactKeys(s), word)
    ensures Matches(s, word) && RedactKeys(s)[|word|..] == RedactKeys(s[|word|..])
    decreases |word|
  {
    RedactHead(s);
    if word == "" {
      assert s[0..] == s && RedactKeys(s)[0..] == RedactKeys(s);
    } else {
      MatchesTail(RedactKeys(s), word);
      assert Lower(s[0]) == word[0];
      MatchesBeforeRedact(s[1..], word[1..]);
      MatchesHead(s, word);
      assert s[1..][|word| - 1..] == s[|word|..];
      assert RedactKeys(s)[1..][|word| - 1..] == RedactKeys(s)[|word|..];
    }
  }

  /** A key whose value has just been replaced, before something that does not extend it. */
  lemma ReplacedIsSafe(key: string, r: string)
    requires |key| == 4 && Matches(key, KEY) && KeysSafe(r) && (r == "" || IsKeyStop(r[0]))
    ensures KeysSafe(key + REDACTED + r)
  {
    var t := key + REDACTED + r;
    KeySlices(key, r);
    AvoidsAfterKey(key);
    RedactedValue(r);
    hide *;
    KeysSafeAfter(key[1..] + REDACTED, r);
    KeysSafeStep(t);
  }

  lemma KeySlices(key: string, r: string)
    requires |key| == 4
    ensures key + REDACTED + r != ""
    ensures (key + REDACTED + r)[1..] == (key[1..] + REDACTED) + r
    ensures (key + REDACTED + r)[4..] == REDACTED + r
  {
  }

  lemma AvoidsAfterKey(key: string)
    requires |key| == 4 && Matches(key, KEY)
    ensures Avoids(key[1..] + REDACTED, 'k')
  {
    WordsAvoid();
  }

  lemma RedactedValue(r: string)
    requires r == "" || IsKeyStop(r[0])
    ensures SafeValue(REDACTED + r)
  {
  }

  lemma KeysSafeStep(t: string)
    requires t != "" && KeysSafe(t[1..]) && (|t| >= 4 ==> SafeValue(t[4..]))
    ensures KeysSafe(t)
  {
  }

  lemma KeyBeforeRedact(s: string)
    requires s != "" && !KeyMatch(s) && Matches(RedactKeys(s), KEY)
    ensures Matches(s, KEY) && RedactKeys(s)[4..] == RedactKeys(s[4..])
  {
    var t := RedactKeys(s);
    assert t[1..] == RedactKeys(s[1..]) && t[0] == s[0];
    WordsAvoid();
    MatchesTail(t, KEY);
    MatchesBeforeRedact(s[1..], KEY[1..]);
    MatchesHead(s, KEY);
    assert t[4..] == t[1..][3..] && s[4..] == s[1..][3..];
  }

  lemma {:induction false} RedactedIsSafe(s: string)
    ensures KeysSafe(RedactKeys(s))
    decreases |s|
  {
    if s == "" {
    } else if KeyMatch(s) {
      var rest := s[4 + ValueRun(s[4..])..];
      RedactedIsSafe(rest);
      RedactHead(rest);
      ReplacedIsSafe(s[..4], RedactKeys(rest));
    } else {
      RedactedIsSafe(s[1..]);
      assert RedactKeys(s)[1..] == RedactKeys(s[1..]);
      if Matches(RedactKeys(s), KEY) {
        KeyBeforeRedact(s);
        RedactHead(s[4..]);
      }
    }
  }

  lemma {:induction false} RedactKeepsSafe(t: string)
    requires KeysSafe(t)
    ensures RedactKeys(t) == t
    decreases |t|
  {
    if t == "" {
    } else if KeyMatch(t) {
      SafeRun(t[4..]);
      assert t[4..][..8] == REDACTED;
      KeysSafeSuffix(t, 12);
      RedactKeepsSafe(t[12..]);
      assert t[4 + ValueRun(t[4..])..] == t[12..];
      assert t == t[..4] + t[4..12] + t[12..];
    } else {
      RedactKeepsSafe(t[1..]);
    }
  }

  lemma SafeRun(v: string)
    requires SafeValue(v) && v != "" && !IsKeyStop(v[0])
    ensures ValueRun(v) == 8
  {
    assert forall i :: 0 <= i < 8 ==> v[i] == REDACTED[i] && !IsKeyStop(v[i]);
    hide ValueRun;
  }

  // ------------------------------------------------ redacting keeps URLs clean

  lemma BreakBeforeKey(s: string, r: string, n: nat)
    requires KeyMatch(s) && n == 4 + ValueRun(s[4..])
    ensures FirstBreak(s[..4] + REDACTED + r) == FirstBreak(r)
    ensures FirstBreak(s[n..]) == QueryChar ==> FirstBreak(s) == QueryChar
  {
    WordsAvoid();
    assert NoBreak(s[..4]);
    BreakAfter(s[..4] + REDACTED, r);
    assert forall i :: 4 <= i < n ==> s[i] == s[4..][i - 4];
    assert NoStop(s[..n]);
    assert s == s[..n] + s[n..];
    BreakAfter(s[..n], s[n..]);
  }

  lemma {:induction false} BreakBeforeRedact(s: string)
    requires FirstBreak(RedactKeys(s)) == QueryChar
    ensures FirstBreak(s) == QueryChar
    decreases |s|
  {
    if s == "" {
    } else if KeyMatch(s) {
      var n := 4 + ValueRun(s[4..]);
      BreakBeforeKey(s, RedactKeys(s[n..]), n);
      BreakBeforeRedact(s[n..]);
    } else if !IsQuery(s[0]) {
      assert RedactKeys(s)[1..] == RedactKeys(s[1..]);
      BreakBeforeRedact(s[1..]);
    }
  }

  lemma NoMatchAfterRedact(s: string)
    requires !UrlMatch(s)
    ensures !UrlMatch(RedactKeys(s))
  {
    var t := RedactKeys(s);
    UrlMatchIs(t);
    UrlMatchIs(s);
    SchemeIs(t);
    SchemeIs(s);
    WordsAvoid();
    if UrlMatch(t) {
      BreakBeforeRedact(s);
      if Matches(t, HTTP) {
        MatchesBeforeRedact(s, HTTP);
      } else {
        MatchesBeforeRedact(s, HTTPS);
      }
    }
  }

  lemma KeyAvoids(s: string)
    requires KeyMatch(s)
    ensures Avoids(s[..4] + REDACTED, 'h')
  {
    WordsAvoid();
    hide ValueRun;
  }

  lemma CleanKey(s: string, n: nat)
    requires Clean(s) && KeyMatch(s) && n == 4 + ValueRun(s[4..]) && Clean(RedactKeys(s[n..]))
    ensures Clean(RedactKeys(s))
  {
    KeyAvoids(s);
    hide Clean, KeyMatch, Avoids;
    CleanAfter(s[..4] + REDACTED, RedactKeys(s[n..]));
  }

  lemma CleanChar(s: string)
    requires Clean(s) && s != "" && !KeyMatch(s) && Clean(RedactKeys(s[1..]))
    ensures Clean(RedactKeys(s))
  {
    NoMatchAfterRedact(s);
    hide UrlMatch, KeyMatch;
    CleanStep(s[0], RedactKeys(s[1..]));
  }

  lemma {:induction false} RedactKeepsClean(s: string)
    requires Clean(s)
    ensures Clean(RedactKeys(s))
    decreases |s|
  {
    hide Clean, Matches, IsKeyStop;
    if s == "" {
    } else if KeyMatch(s) {
      var n := 4 + ValueRun(s[4..]);
      CleanSuffix(s, n);
      RedactKeepsClean(s[n..]);
      CleanKey(s, n);
    } else {
      CleanSuffix(s, 1);
      RedactKeepsClean(s[1..]);
      CleanChar(s);
    }
  }

  /** Before the cap: no URL has a query or fragment, every key is redacted, and rewriting again changes nothing. */
  lemma RewriteIsIdempotent(s: string)
    ensures Clean(Rewrite(s)) && KeysSafe(Rewrite(s))
    ensures Rewrite(Rewrite(s)) == Rewrite(s)
  {
    StrippedIsClean(s);
    RedactKeepsClean(StripQueries(s));
    RedactedIsSafe(StripQueries(s));
    StripKeepsClean(Rewrite(s));
    RedactKeepsSafe(Rewrite(s));
  }

  lemma {:induction false} CleanEverywhere(t: string, i: nat)
    requires Clean(t) && i <= |t|
    ensures !UrlMatch(t[i..])
  {
    CleanSuffix(t, i);
    if i < |t| {
      assert t[i..] != "";
    }
  }

  lemma SafeEverywhere(t: string, i: nat)
    requires KeysSafe(t) && i <= |t| && Matches(t[i..], KEY)
    ensures SafeValue(t[i + 4..])
  {
    KeysSafeSuffix(t, i);
    assert t[i..][4..] == t[i + 4..];
  }

  /** Wherever a URL ends in a rewritten text, no query or fragment follows. */
  lemma NoQueryFollows(s: string, a: string, u: string, c: char, r: string)
    requires Rewrite(s) == a + u + [c] + r && (Matches(u, HTTP) || Matches(u, HTTPS)) && NoBreak(u)
    ensures c != '?' && c != '#'
  {
    var t := u + ([c] + r);
    assert Rewrite(s)[|a|..] == t && t[|u|] == c;
    if IsQuery(c) {
      UrlEndIs(u, [c] + r);
      SchemeStays(u, [c] + r);
      RewrittenEverywhere(s, |a|);
    }
  }

  /** What no rewritten text contains, position by position. */
  lemma RewrittenEverywhere(s: string, i: nat)
    requires i <= |Rewrite(s)|
    ensures !UrlMatch(Rewrite(s)[i..])
    ensures Matches(Rewrite(s)[i..], KEY) ==> SafeValue(Rewrite(s)[i + 4..])
  {
    RewriteIsIdempotent(s);
    CleanEverywhere(Rewrite(s), i);
    if Matches(Rewrite(s)[i..], KEY) {
      SafeEverywhere(Rewrite(s), i);
    }
  }

  // -------------------------------------------------------------------- the cap

  lemma {:induction false} BreakBeforeCut(u: string, n: nat)
    requires n <= |u| && FirstBreak(u[..n] + ELLIPSIS) == QueryChar
    ensures FirstBreak(u) == QueryChar
  {
    if n > 0 && !IsQuery(u[0]) {
      assert (u[..n] + ELLIPSIS)[1..] == u[1..][..n - 1] + ELLIPSIS;
      BreakBeforeCut(u[1..], n - 1);
    }
  }

  lemma WordBeforeCut(u: string, n: nat, word: string)
    requires n <= |u| && Matches(u[..n] + ELLIPSIS, word) && '\U{2026}' !in word
    ensures |word| <= n && Matches(u, word)
  {
    if word != "" {
      var last := |word| - 1;
      assert word[last] in word && Lower((u[..n] + ELLIPSIS)[last]) == word[last];
    }
    forall i | 0 <= i < |word|
      ensures Lower(u[i]) == word[i]
    {
      assert Lower((u[..n] + ELLIPSIS)[i]) == word[i];
    }
  }

  lemma {:induction false} CutIsClean(u: string, n: nat)
    requires Clean(u) && n <= |u|
    ensures Clean(u[..n] + ELLIPSIS)
    decreases n
  {
    var x := u[..n] + ELLIPSIS;
    UrlMatchIs(x);
    SchemeIs(x);
    UrlMatchIs(u);
    SchemeIs(u);
    if UrlMatch(x) {
      BreakBeforeCut(u, n);
      WordBeforeCut(u, n, if Matches(x, HTTP) then HTTP else HTTPS);
    }
    if n == 0 {
      assert x[1..] == "";
    } else {
      CutIsClean(u[1..], n - 1);
      assert x[1..] == u[1..][..n - 1] + ELLIPSIS;
    }
  }

  /** `v` ends in `key=REDACTED`. */
  predicate EndsRedacted(v: string) {
    |v| >= 12 && Matches(v[|v| - 12..], KEY) && v[|v| - 8..] == REDACTED
  }

  lemma EndsRedactedStep(v: string)
    requires |v| > 12
    ensures EndsRedacted(v) <==> EndsRedacted(v[1..])
  {
    assert v[1..][|v| - 13..] == v[|v| - 12..];
    assert v[1..][|v| - 9..] == v[|v| - 8..];
  }

  lemma RedactedHasNoStop(v: string, i: nat)
    requires EndsRedacted(v) && |v| - 12 <= i < |v|
    ensures !IsKeyStop(v[i])
  {
    var a, b := v[|v| - 12..], v[|v| - 8..];
    if i < |v| - 8 {
      assert v[i] == a[i - (|v| - 12)];
    } else {
      assert v[i] == b[i - (|v| - 8)] && b[i - (|v| - 8)] in REDACTED;
    }
  }

  /** A redacted key does not overlap the delimiter after another one. */
  lemma EndsRedactedBeyond(v: string, n: nat)
    requires n < |v| && IsKeyStop(v[n])
    ensures EndsRedacted(v) <==> EndsRedacted(v[n..])
  {
    var w := v[n..];
    if |w| >= 12 {
      assert v[|v| - 12..] == w[|w| - 12..] && v[|v| - 8..] == w[|w| - 8..];
    } else if EndsRedacted(v) {
      RedactedHasNoStop(v, n);
    }
  }

  /**
   * Redacting a cut-off safe text with its ellipsis: when the cut text ends in a
   * redacted key the ellipsis goes; otherwise the text grows beyond the cut, which
   * it keeps.
   */
  lemma {:induction false} RedactCut(u: string, n: nat)
    requires KeysSafe(u) && n <= |u|
    ensures CutRedacts(u[..n])
    decreases n, 1
  {
    var v := u[..n];
    var x := v + ELLIPSIS;
    if n == 0 {
      assert x == ELLIPSIS && x[1..] == "";
    } else if KeyMatch(x) {
      WordBeforeCut(u, n, KEY);
      RedactCutKey(u, n);
    } else {
      RedactCut(u[1..], n - 1);
      assert v[1..] == u[1..][..n - 1];
      RedactCutStep(v);
    }
  }

  predicate CutRedacts(v: string) {
    var r := RedactKeys(v + ELLIPSIS);
    if EndsRedacted(v) then r == v else |r| > |v| && r[..|v|] == v
  }

  lemma RedactCutStep(v: string)
    requires v != "" && !KeyMatch(v + ELLIPSIS) && CutRedacts(v[1..])
    ensures CutRedacts(v)
  {
    var x := v + ELLIPSIS;
    assert x[1..] == v[1..] + ELLIPSIS;
    var r, r1 := RedactKeys(x), RedactKeys(x[1..]);
    assert r == [v[0]] + r1;
    if |v| == 12 {
      NotKeyNotEnd(v);
    } else if |v| > 12 {
      EndsRedactedStep(v);
    }
    hide RedactKeys, KeyMatch, EndsRedacted;
    assert v == [v[0]] + v[1..];
  }

  /** The cut falls in or right after the value of the key at the start. */
  lemma RedactCutInValue(u: string, n: nat)
    requires 4 <= n <= 12 && n <= |u| && Matches(u, KEY)
    requires n > 4 ==> REDACTED <= u[4..]
    ensures RedactKeys(u[..n] + ELLIPSIS) == u[..4] + REDACTED
    ensures u[..n] == (u[..4] + REDACTED)[..n]
    ensures EndsRedacted(u[..n]) <==> n == 12
  {
    var x := u[..n] + ELLIPSIS;
    forall i | 4 <= i < n
      ensures u[i] == REDACTED[i - 4]
    {
      assert u[4..][i - 4] == u[i];
    }
    assert forall i :: 4 <= i < n ==> x[i] == REDACTED[i - 4] && !IsKeyStop(x[i]);
    assert ValueRun(x[4..]) == n + 1 - 4;
    assert x[4 + ValueRun(x[4..])..] == "";
    assert x[..4] == u[..4];
  }

  lemma {:induction false} RedactCutKey(u: string, n: nat)
    requires KeysSafe(u) && n <= |u| && Matches(u, KEY) && KeyMatch(u[..n] + ELLIPSIS) && 4 <= n
    ensures CutRedacts(u[..n])
    decreases n, 0
  {
    if n <= 12 {
      assert n > 4 ==> SafeValue(u[4..]) && (u[..n] + ELLIPSIS)[4] == u[4..][0];
      RedactCutInValue(u, n);
    } else {
      assert (u[..n] + ELLIPSIS)[4] == u[4..][0];
      KeysSafeSuffix(u, 12);
      RedactCut(u[12..], n - 12);
      RedactCutBeyond(u, n);
    }
  }

  lemma CutSlices(u: string, n: nat)
    requires 12 < n <= |u|
    ensures var v := u[..n];
            var x := v + ELLIPSIS;
            && x[12..] == v[12..] + ELLIPSIS && x[..4] == u[..4]
            && v[12..] == u[12..][..n - 12] && v == v[..12] + v[12..]
            && x[4..][8..] == x[12..] && v[..12] == u[..12]
  {
  }

  lemma RedactedValueRun(u: string, n: nat)
    requires 12 < n <= |u| && SafeValue(u[4..]) && !IsKeyStop(u[4])
    ensures var x := u[..n] + ELLIPSIS; ValueRun(x[4..]) == 8 && u[..12] == u[..4] + REDACTED && IsKeyStop(u[12])
  {
    var x, w := u[..n] + ELLIPSIS, u[4..];
    assert w[0] == u[4] && w[..8] == REDACTED && IsKeyStop(w[8]) && w[8] == u[12];
    assert u[..12] == u[..4] + w[..8];
    var y := x[4..];
    forall i | 0 <= i < 8
      ensures !IsKeyStop(y[i])
    {
      assert y[i] == w[..8][i] && REDACTED[i] in REDACTED;
    }
    assert y[8] == u[12];
    hide SafeValue;
    RunToStop(y, 8);
  }

  lemma RedactCutBeyond(u: string, n: nat)
    requires 12 < n <= |u| && Matches(u, KEY) && SafeValue(u[4..]) && !IsKeyStop(u[4])
    requires CutRedacts(u[12..][..n - 12])
    ensures CutRedacts(u[..n])
  {
    var v := u[..n];
    var x := v + ELLIPSIS;
    CutSlices(u, n);
    RedactedValueRun(u, n);
    assert KeyMatch(x);
    assert RedactKeys(x) == x[..4] + REDACTED + RedactKeys(x[12..]);
    EndsRedactedBeyond(v, 12);
    hide RedactKeys, KeyMatch, EndsRedacted, SafeValue, ValueRun, Matches;
    JoinedCut(v[..12], v[12..], RedactKeys(x[12..]), EndsRedacted(v));
  }

  lemma JoinedCut(a: string, b: string, r: string, ends: bool)
    requires if ends then r == b else |r| > |b| && r[..|b|] == b
    ensures if ends then a + r == a + b else |a + r| > |a + b| && (a + r)[..|a + b|] == a + b
  {
    if !ends {
      assert (a + r)[..|a + b|] == a + r[..|b|];
    }
  }

  lemma RunToStop(v: string, n: nat)
    requires n < |v| && IsKeyStop(v[n]) && forall i :: 0 <= i < n ==> !IsKeyStop(v[i])
    ensures ValueRun(v) == n
  {
  }

  lemma NotKeyNotEnd(v: string)
    requires |v| == 12 && !KeyMatch(v + ELLIPSIS)
    ensures !EndsRedacted(v)
  {
  }

  // ------------------------------------------------- what the two patterns leave alone

  /** A run that ends where the first stop is. */
  lemma {:induction false} RunsEnd(w: string, r: string)
    ensures NoBreak(w) && (r == "" || IsStop(r[0]) || IsQuery(r[0])) ==> UrlRun(w + r) == |w|
    ensures NoStop(w) && (r == "" || IsStop(r[0])) ==> QueryRun(w + r) == |w|
    ensures (forall i :: 0 <= i < |w| ==> !IsKeyStop(w[i])) && (r == "" || IsKeyStop(r[0])) ==> ValueRun(w + r) == |w|
  {
    if w == "" {
      assert w + r == r;
    } else {
      assert (w + r)[1..] == w[1..] + r;
      RunsEnd(w[1..], r);
    }
  }

  /** The kept part of a match is the whole of a URL that runs up to the query. */
  lemma UrlEndIs(u: string, t: string)
    requires (Matches(u, HTTP) || Matches(u, HTTPS)) && NoBreak(u)
    requires t == "" || IsStop(t[0]) || IsQuery(t[0])
    ensures UrlEnd(u + t) == |u|
  {
    var n := SchemeLen(u + t);
    SchemeStays(u, t);
    assert (u + t)[n..] == u[n..] + t;
    assert NoBreak(u[n..]);
    hide SchemeLen, Matches;
    RunsEnd(u[n..], t);
  }

  lemma SchemeStays(u: string, t: string)
    requires (Matches(u, HTTP) || Matches(u, HTTPS)) && NoBreak(u)
    requires t == "" || IsStop(t[0]) || IsQuery(t[0])
    ensures 0 < SchemeLen(u + t) <= |u|
  {
    var s := u + t;
    assert forall i :: 0 <= i < |u| ==> s[i] == u[i];
    if Matches(s, HTTPS) && |u| < |HTTPS| {
      assert s[|u|] == t[0] && Lower(t[0]) == HTTPS[|u|];
      WordsHaveNoBreak(t[0], |u|);
    }
    assert Matches(u, HTTP) ==> Matches(s, HTTP);
    assert Matches(u, HTTPS) ==> Matches(s, HTTPS);
  }

  lemma WordsHaveNoBreak(c: char, i: nat)
    requires i < |HTTPS| && Lower(c) == HTTPS[i]
    ensures !IsStop(c) && !IsQuery(c)
  {
  }

  lemma CutsTheQuery(u: string, q: string, r: string)
    requires (Matches(u, HTTP) || Matches(u, HTTPS)) && NoBreak(u)
    requires q != "" && IsQuery(q[0]) && NoStop(q)
    requires r == "" || IsStop(r[0])
    ensures StripQueries(u + q + r) == u + StripQueries(r)
  {
    var s := u + q + r;
    assert s == u + (q + r) && (q + r)[0] == q[0];
    UrlEndIs(u, q + r);
    SchemeStays(u, q + r);
    assert s[|u|..] == q + r && s[|u|] == q[0] && s[..|u|] == u;
    RunsEnd(q, r);
    assert s[|u| + |q|..] == r;
    assert UrlMatch(s);
    hide UrlMatch, UrlEnd, QueryRun, Matches, NoBreak, NoStop;
    StripUnfolds(s, |u|, |q|);
  }

  lemma StripUnfolds(s: string, n: nat, k: nat)
    requires UrlMatch(s) && UrlEnd(s) == n && QueryRun(s[n..]) == k && s != "" && n + k <= |s|
    ensures StripQueries(s) == s[..n] + StripQueries(s[n + k..])
  {
    hide UrlMatch, UrlEnd, QueryRun;
  }

  /** Where no match starts, the text stays as it is. */
  lemma Shifted(w: string, r: string)
    requires w != ""
    ensures (w + r)[0..] == w + r && (w + r)[1..] == w[1..] + r && (w + r)[0] == w[0]
    ensures forall i :: 0 <= i < |w| - 1 ==> (w[1..] + r)[i..] == (w + r)[i + 1..]
  {
  }

  lemma {:induction false} StripKeepsTheRest(w: string, r: string)
    requires forall i :: 0 <= i < |w| ==> !UrlMatch((w + r)[i..])
    ensures StripQueries(w + r) == w + StripQueries(r)
  {
    hide UrlMatch, StripQueries;
    if w == "" {
      assert w + r == r && w + StripQueries(r) == StripQueries(r);
    } else {
      Shifted(w, r);
      StripKeepsTheRest(w[1..], r);
      assert !UrlMatch((w + r)[0..]);
      StripNoMatch(w + r);
      assert w == [w[0]] + w[1..];
      assert [w[0]] + (w[1..] + StripQueries(r)) == w + StripQueries(r);
    }
  }

  lemma ReplacesTheValue(k: string, v: string, r: string)
    requires |k| == 4 && Matches(k, KEY)
    requires v != "" && forall i :: 0 <= i < |v| ==> !IsKeyStop(v[i])
    requires r == "" || IsKeyStop(r[0])
    ensures RedactKeys(k + v + r) == k + REDACTED + RedactKeys(r)
  {
    hide RedactKeys, ValueRun;
    var s := k + v + r;
    ThreeParts(k, v, r);
    RunsEnd(v, r);
    KeyStays(k, v + r);
    assert s == k + (v + r) && KeyMatch(s);
    RedactUnfolds(s, |v|);
  }

  lemma ThreeParts(k: string, v: string, r: string)
    requires |k| == 4 && v != ""
    ensures var s := k + v + r; s[..4] == k && s[4..] == v + r && s[4 + |v|..] == r && s[4] == v[0]
  {
  }

  lemma KeyStays(k: string, t: string)
    requires |k| == 4 && Matches(k, KEY)
    ensures Matches(k + t, KEY)
  {
  }

  lemma RedactUnfolds(s: string, n: nat)
    requires KeyMatch(s) && ValueRun(s[4..]) == n && 4 + n <= |s|
    ensures RedactKeys(s) == s[..4] + REDACTED + RedactKeys(s[4 + n..])
  {
    assert s != "" && |s| > 4;
    hide KeyMatch, ValueRun;
  }

  lemma RedactNoMatch(s: string)
    requires s != "" && !KeyMatch(s)
    ensures RedactKeys(s) == [s[0]] + RedactKeys(s[1..])
  {
    hide KeyMatch;
  }

  lemma {:induction false} RedactKeepsTheRest(w: string, r: string)
    requires forall i :: 0 <= i < |w| ==> !KeyMatch((w + r)[i..])
    ensures RedactKeys(w + r) == w + RedactKeys(r)
  {
    hide KeyMatch, RedactKeys;
    if w == "" {
      assert w + r == r && w + RedactKeys(r) == RedactKeys(r);
    } else {
      Shifted(w, r);
      RedactKeepsTheRest(w[1..], r);
      assert !KeyMatch((w + r)[0..]);
      RedactNoMatch(w + r);
      assert w == [w[0]] + w[1..];
      assert [w[0]] + (w[1..] + RedactKeys(r)) == w + RedactKeys(r);
    }
  }

  /** The characters that end a query, in order. */
  function Stops(s: string): string {
    if s == "" then "" else (if IsStop(s[0]) then [s[0]] else "") + Stops(s[1..])
  }

  function KeyStops(s: string): string {
    if s == "" then "" else (if IsKeyStop(s[0]) then [s[0]] else "") + KeyStops(s[1..])
  }

  function Only(c: char, keep: bool): string {
    if keep then [c] else ""
  }

  lemma StopsUnfold(c: char, t: string)
    ensures Stops([c] + t) == Only(c, IsStop(c)) + Stops(t)
    ensures KeyStops([c] + t) == Only(c, IsKeyStop(c)) + KeyStops(t)
  {
    assert ([c] + t)[1..] == t;
    hide IsStop, IsKeyStop;
  }

  lemma {:induction false} StopsJoin(a: string, b: string)
    ensures Stops(a + b) == Stops(a) + Stops(b)
    ensures KeyStops(a + b) == KeyStops(a) + KeyStops(b)
  {
    if a == "" {
      assert a + b == b && Stops(a) == "" && KeyStops(a) == "";
      JoinEmpty(Stops(b));
      JoinEmpty(KeyStops(b));
    } else {
      hide *;
      var c, t := a[0], a[1..];
      HeadAndTail(a);
      Grouped([c], t, b);
      StopsJoin(t, b);
      StopsUnfold(c, t + b);
      StopsUnfold(c, t);
      Grouped(Only(c, IsStop(c)), Stops(t), Stops(b));
      Grouped(Only(c, IsKeyStop(c)), KeyStops(t), KeyStops(b));
    }
  }

  lemma {:induction false} NoStopsIn(a: string)
    ensures NoStop(a) ==> Stops(a) == ""
    ensures (forall i :: 0 <= i < |a| ==> !IsKeyStop(a[i])) ==> KeyStops(a) == ""
  {
    if a != "" {
      NoStopsIn(a[1..]);
    }
  }

  lemma Split(s: string, n: nat, k: nat)
    requires n + k <= |s|
    ensures s == s[..n] + (s[n..][..k] + s[n + k..])
  {
  }

  /** The first rewrite loses no white space and no quote, and keeps their order. */
  lemma {:induction false} StripKeepsStops(s: string)
    ensures Stops(StripQueries(s)) == Stops(s)
    decreases |s|
  {
    if s == "" {
      assert StripQueries(s) == "";
    } else if UrlMatch(s) {
      hide *;
      var n := UrlEnd(s);
      var k, rest := QueryRun(s[n..]), AfterQuery(s);
      StripMatch(s);
      MatchHasNoStops(s);
      StripKeepsStops(rest);
      Split(s, n, k);
      PartsBehind(s[..n], s[n..][..k], rest);
      StopsJoin(s[..n], StripQueries(rest));
      JoinEmpty(Stops(StripQueries(rest)));
    } else {
      hide *;
      StripNoMatch(s);
      StripKeepsStops(s[1..]);
      OneChar(s[0], StripQueries(s[1..]), s[1..]);
      HeadAndTail(s);
    }
  }

  lemma JoinEmpty(a: string)
    ensures "" + a == a
  {
  }

  lemma PartsBehind(a: string, b: string, c: string)
    ensures Stops(a) == "" && Stops(b) == "" ==> Stops(a + (b + c)) == Stops(c)
    ensures KeyStops(a) == "" && KeyStops(b) == "" ==> KeyStops(a + (b + c)) == KeyStops(c)
  {
    StopsJoin(a, b + c);
    StopsJoin(b, c);
  }

  lemma MatchHasNoStops(s: string)
    requires UrlMatch(s)
    ensures var n := UrlEnd(s);
            var k := QueryRun(s[n..]);
            n + k <= |s| && Stops(s[..n]) == "" && Stops(s[n..][..k]) == "" && AfterQuery(s) == s[n + k..]
  {
    hide Stops, UrlEnd, UrlMatch, SchemeLen;
    StripMatch(s);
    var n := UrlEnd(s);
    var tail := s[n..];
    assert NoStop(s[..n]) && NoStop(tail[..QueryRun(tail)]);
    NoStopsIn(s[..n]);
    NoStopsIn(tail[..QueryRun(tail)]);
  }

  lemma KeyMatchHasNoStops(s: string)
    requires KeyMatch(s)
    ensures KeyStops(s[..4]) == "" && KeyStops(s[4..][..ValueRun(s[4..])]) == "" && KeyStops(REDACTED) == ""
  {
    hide KeyStops;
    KeyHasNoStop(s);
    NoStopsIn(s[..4]);
    NoStopsIn(s[4..][..ValueRun(s[4..])]);
    assert forall i :: 0 <= i < |REDACTED| ==> !IsKeyStop(REDACTED[i]);
    NoStopsIn(REDACTED);
  }

  lemma OneChar(c: char, a: string, b: string)
    ensures Stops(a) == Stops(b) ==> Stops([c] + a) == Stops([c] + b)
    ensures KeyStops(a) == KeyStops(b) ==> KeyStops([c] + a) == KeyStops([c] + b)
  {
    StopsUnfold(c, a);
    StopsUnfold(c, b);
  }

  /** The second rewrite loses no delimiter either. */
  lemma {:induction false} RedactKeepsKeyStops(s: string)
    ensures KeyStops(RedactKeys(s)) == KeyStops(s)
    decreases |s|
  {
    if s == "" {
      assert RedactKeys(s) == "";
    } else if KeyMatch(s) {
      assert |s| > 4;
      hide *;
      var n := ValueRun(s[4..]);
      var rest := s[4 + n..];
      RedactUnfolds(s, n);
      KeyMatchHasNoStops(s);
      RedactKeepsKeyStops(rest);
      Split(s, 4, n);
      PartsBehind(s[..4], s[4..][..n], rest);
      Grouped(s[..4], REDACTED, RedactKeys(rest));
      PartsBehind(s[..4], REDACTED, RedactKeys(rest));
    } else {
      hide *;
      RedactNoMatch(s);
      RedactKeepsKeyStops(s[1..]);
      OneChar(s[0], RedactKeys(s[1..]), s[1..]);
      HeadAndTail(s);
    }
  }

  lemma KeyHasNoStop(s: string)
    requires Matches(s, KEY)
    ensures forall i :: 0 <= i < |s[..4]| ==> !IsKeyStop(s[..4][i])
  {
    forall i | 0 <= i < 4
      ensures !IsKeyStop(s[i])
    {
      assert Lower(s[i]) == KEY[i];
    }
  }

  /** The delimiters are those of the two expressions. */
  lemma Delimiters(c: char)
    ensures IsStop(c) <==> c in "\t\n\U{000C}\r \"'"
    ensures IsQuery(c) <==> c in "?#"
    ensures IsKeyStop(c) <==> c in "&\t\n\U{000C}\r \"'"
  {
    var keyStops := "&\t\n\U{000C}\r \"'";
    assert keyStops == "&" + "\t\n\U{000C}\r \"'";
  }

  lemma SchemeMatches(h: string, s: string, p: string)
    requires |h| == 4 && forall i :: 0 <= i < 4 ==> h[i] == "http"[i] || h[i] == "HTTP"[i]
    requires s in ["", "s", "S", "\U{017F}"]
    ensures Matches(h + s + "://" + p, HTTP) || Matches(h + s + "://" + p, HTTPS)
  {
    var u := h + s + "://" + p;
    assert forall i :: 0 <= i < 4 ==> u[i] == h[i] && Lower(h[i]) == "http"[i];
    if s == "" {
      assert Matches(u, HTTP);
    } else {
      assert u[4] == s[0] && u[5] == ':' && u[6] == '/' && u[7] == '/';
      assert Matches(u, HTTPS);
    }
  }

  /**
   * An http or https URL, in any letter case, with its query or fragment `q`: exactly `q` goes, and the
   * rewrite goes on behind it.
   */
  lemma StripCutsTheQuery(h: string, s: string, p: string, q: string, r: string)
    requires |h| == 4 && forall i :: 0 <= i < 4 ==> h[i] == "http"[i] || h[i] == "HTTP"[i]
    requires s in ["", "s", "S", "\U{017F}"]
    requires forall c :: c in p ==> c !in "\t\n\U{000C}\r \"'?#"
    requires q != "" && q[0] in "?#" && forall c :: c in q ==> c !in "\t\n\U{000C}\r \"'"
    requires r == "" || r[0] in "\t\n\U{000C}\r \"'"
    ensures StripQueries(h + s + "://" + p + q + r) == h + s + "://" + p + StripQueries(r)
  {
    var u := h + s + "://" + p;
    SchemeMatches(h, s, p);
    hide *;
    UrlHasNoBreak(h, s, p);
    QueryHasNoStop(q);
    if r != "" {
      Delimiters(r[0]);
    }
    CutsTheQuery(u, q, r);
  }

  lemma UrlHasNoBreak(h: string, s: string, p: string)
    requires |h| == 4 && forall i :: 0 <= i < 4 ==> h[i] == "http"[i] || h[i] == "HTTP"[i]
    requires s in ["", "s", "S", "\U{017F}"]
    requires forall c :: c in p ==> c !in "\t\n\U{000C}\r \"'?#"
    ensures NoBreak(h + s + "://" + p)
  {
    forall i | 0 <= i < |p|
      ensures !IsStop(p[i]) && !IsQuery(p[i])
    {
      assert p[i] in p;
      assert "\t\n\U{000C}\r \"'?#" == "\t\n\U{000C}\r \"'" + "?#";
      Delimiters(p[i]);
    }
    assert forall i :: 0 <= i < 4 ==> !IsStop(h[i]) && !IsQuery(h[i]);
    assert NoBreak(h) && NoBreak(s) && NoBreak("://") && NoBreak(p);
  }

  lemma QueryHasNoStop(q: string)
    requires q != "" && q[0] in "?#" && forall c :: c in q ==> c !in "\t\n\U{000C}\r \"'"
    ensures IsQuery(q[0]) && NoStop(q)
  {
    Delimiters(q[0]);
    forall i | 0 <= i < |q|
      ensures !IsStop(q[i])
    {
      assert q[i] in q;
      Delimiters(q[i]);
    }
  }

  /** Text in which no URL can start stays as it is. */
  lemma StripKeepsText(w: string, r: string)
    requires forall c :: c in w ==> c !in "hH"
    ensures StripQueries(w + r) == w + StripQueries(r)
  {
    forall i | 0 <= i < |w|
      ensures !UrlMatch((w + r)[i..])
    {
      assert (w + r)[i..][0] == w[i] && w[i] in w;
      UrlStartsWithH((w + r)[i..]);
    }
    hide UrlMatch;
    StripKeepsTheRest(w, r);
  }

  /** A URL without a query stays as it is. */
  lemma StripKeepsPlainUrl(h: string, s: string, p: string, r: string)
    requires |h| == 4 && forall i :: 0 <= i < 4 ==> h[i] == "http"[i] || h[i] == "HTTP"[i]
    requires s in ["", "s", "S", "\U{017F}"]
    requires forall c :: c in p ==> c !in "\t\n\U{000C}\r \"'?#"
    requires r == "" || r[0] in "\t\n\U{000C}\r \"'"
    ensures StripQueries(h + s + "://" + p + r) == h + s + "://" + p + StripQueries(r)
  {
    var u := h + s + "://" + p;
    UrlHasNoBreak(h, s, p);
    assert FirstBreak(r) != QueryChar by {
      if r != "" {
        Delimiters(r[0]);
      }
    }
    hide *;
    NoQueryBehind(u, r);
    StripKeepsTheRest(u, r);
  }

  lemma NoQueryBehind(u: string, r: string)
    requires NoBreak(u) && FirstBreak(r) != QueryChar
    ensures forall i :: 0 <= i < |u| ==> !UrlMatch((u + r)[i..])
  {
    forall i | 0 <= i < |u|
      ensures !UrlMatch((u + r)[i..])
    {
      assert NoBreak(u[i..]);
      assert (u + r)[i..] == u[i..] + r;
      BreakAfter(u[i..], r);
      UrlMatchIs(u[i..] + r);
    }
  }

  /** Text in which no `key=` can start stays as it is. */
  lemma RedactKeepsText(w: string, r: string)
    requires forall c :: c in w ==> c !in "kK\U{212A}"
    ensures RedactKeys(w + r) == w + RedactKeys(r)
  {
    forall i | 0 <= i < |w|
      ensures !KeyMatch((w + r)[i..])
    {
      assert (w + r)[i..][0] == w[i] && w[i] in w;
      assert Lower(w[i]) != 'k';
    }
    hide KeyMatch;
    RedactKeepsTheRest(w, r);
  }

  /** `key=` in any letter case with a value: exactly the value is replaced, and the rewrite goes on behind it. */
  lemma RedactReplacesTheValue(k: string, v: string, r: string)
    requires |k| == 3 && k[0] in "kK\U{212A}" && k[1] in "eE" && k[2] in "yY"
    requires v != "" && forall c :: c in v ==> c !in "&\t\n\U{000C}\r \"'"
    requires r == "" || r[0] in "&\t\n\U{000C}\r \"'"
    ensures RedactKeys(k + "=" + v + r) == k + "=" + "REDACTED" + RedactKeys(r)
  {
    assert Matches(k + "=", KEY);
    hide *;
    forall i | 0 <= i < |v|
      ensures !IsKeyStop(v[i])
    {
      assert v[i] in v;
      Delimiters(v[i]);
    }
    if r != "" {
      Delimiters(r[0]);
    }
    ReplacesTheValue(k + "=", v, r);
  }

  /** An instance: what follows the query stays. */
  lemma TextBehindStays()
    ensures StripQueries("http://h?a b") == "http://h b"
  {
    var u, q, r := "http://h", "?a", " b";
    CutsTheQuery(u, q, r);
    StripKeepsTheRest(r, "");
    assert r + "" == r && u + q + r == "http://h?a b" && u + r == "http://h b";
  }

  /** At most 300 characters of the rewritten text are kept, and an ellipsis says so; a shorter text is kept whole. */
  lemma ScrubIsShort(s: string)
    ensures |Rewrite(s)| <= 300 ==> Scrub(s) == Rewrite(s)
    ensures |Rewrite(s)| > 300 ==> |Scrub(s)| == 301 && Scrub(s)[..300] == Rewrite(s)[..300] && Scrub(s)[300] == '\U{2026}'
  {
  }

  /**
   * Scrubbing a stored reason again changes nothing, except that the ellipsis is
   * dropped exactly when the first 300 characters end in a redacted key.
   */
  lemma ScrubTwice(s: string)
    ensures var u := Rewrite(s);
            Scrub(Scrub(s))
            == if |u| > MAX_LEN && EndsRedacted(u[..MAX_LEN]) then u[..MAX_LEN] else Scrub(s)
  {
    var u := Rewrite(s);
    RewriteIsIdempotent(s);
    if |u| > MAX_LEN {
      CutIsClean(u, MAX_LEN);
      StripKeepsClean(u[..MAX_LEN] + ELLIPSIS);
      RedactCut(u, MAX_LEN);
    }
  }

  lemma TailIsClean()
    ensures Clean(KEY + REDACTED + " b")
  {
    var t := KEY + REDACTED + " b";
    WordsAvoid();
    assert Avoids(t, 'h');
    CleanAfter(t, "");
    assert t + "" == t;
  }

  lemma TailIsSafe()
    ensures KeysSafe(KEY + REDACTED + " b")
  {
    KeysSafeAfter(" b", "");
    assert " b" + "" == " b";
    ReplacedIsSafe(KEY, " b");
  }

  /** The first 300 characters of such a text end in a redacted key. */
  lemma CutEndsRedacted(w: string)
    requires |w| == 288
    ensures EndsRedacted((w + (KEY + REDACTED + " b"))[..300])
  {
    var t := KEY + REDACTED + " b";
    var v := (w + t)[..300];
    assert v[288..] == KEY + REDACTED && v[292..] == REDACTED;
    assert Matches(v[288..], KEY);
  }

  /** A text whose ellipsis a second Scrub drops: 288 letters, a redacted key, and two characters beyond the cap. */
  lemma EllipsisIsDropped()
    ensures var s := seq(288, _ => 'a') + (KEY + REDACTED + " b");
            Scrub(s) == s[..MAX_LEN] + ELLIPSIS && Scrub(Scrub(s)) == s[..MAX_LEN] && Scrub(Scrub(s)) != Scrub(s)
  {
    var w, t := seq(288, _ => 'a'), KEY + REDACTED + " b";
    var s := w + t;
    TailIsClean();
    TailIsSafe();
    AllLetters(w);
    CutEndsRedacted(w);
    assert |t| == 14;
    hide Clean, KeysSafe, Avoids, EndsRedacted, StripQueries, RedactKeys;
    CleanAfter(w, t);
    KeysSafeAfter(w, t);
    StripKeepsClean(s);
    RedactKeepsSafe(s);
    ScrubTwice(s);
  }

  lemma AllLetters(w: string)
    requires forall i :: 0 <= i < |w| ==> w[i] == 'a'
    ensures Avoids(w, 'h') && Avoids(w, 'k')
  {
  }

  /** From the second time on nothing changes. */
  lemma ScrubThrice(s: string)
    ensures Scrub(Scrub(Scrub(s))) == Scrub(Scrub(s))
  {
    ScrubTwice(s);
    var u := Rewrite(s);
    if |u| > MAX_LEN && EndsRedacted(u[..MAX_LEN]) {
      var v := Rewrite(Scrub(s));
      RewriteIsIdempotent(s);
      CutIsClean(u, MAX_LEN);
      StripKeepsClean(u[..MAX_LEN] + ELLIPSIS);
      RedactCut(u, MAX_LEN);
      assert v == u[..MAX_LEN];
      RewriteIsIdempotent(Scrub(s));
    }
  }
}
