/** Jira issue keys in free text. The GitHub client looks for
    `\b([A-Z]{2,10}-\d+)\b` (github_client.py); the webhook handler looks for
    `(?i)(?:fix|fixes|...)\s+([A-Z]+-\d+)` and `([A-Z]+-\d+)`
    (github_webhook_handler.py). Each pattern is modelled as the
    left-to-right scan `re.findall` performs: try a match at a position; on
    success record it and resume where it ended, otherwise move on by one
    character. Character classes are the ASCII ones. */
module JiraKeys {
  import opened Wrappers
  import opened Text
  import opened Seqs

  /** Length of the run of characters satisfying `p` that starts at `i`: the
      greedy `p+` or `p*` of a regular expression. */
  function Run(s: string, i: nat, p: char -> bool): (n: nat)
    requires i <= |s|
    ensures i + n <= |s|
    ensures forall j | i <= j < i + n :: p(s[j])
    ensures i + n == |s| || !p(s[i + n])
    decreases |s| - i
  {
    if i == |s| || !p(s[i]) then 0 else 1 + Run(s, i + 1, p)
  }

  /** A run is fixed by where it stops. */
  lemma RunUnique(s: string, i: nat, p: char -> bool, n: nat)
    requires i + n <= |s|
    requires forall j | i <= j < i + n :: p(s[j])
    requires i + n == |s| || !p(s[i + n])
    ensures Run(s, i, p) == n
    decreases n
  {
    if n > 0 {
      RunUnique(s, i + 1, p, n - 1);
    }
  }

  // ---------------------------------------------------------------------
  // The GitHub client's pattern `\b([A-Z]{2,10}-\d+)\b`

  /** `[A-Z]{2,10}-\d+` matches the whole of `k`. */
  predicate IsJiraKey(k: string) {
    var m := Run(k, 0, IsUpper);
    2 <= m <= 10 && m + 1 < |k| && k[m] == '-' && forall j | m < j < |k| :: IsDigit(k[j])
  }

  /** The reference definition: `k` has the key shape and stands at `i` in
      `s` as a whole word. */
  predicate BoundedKeyAt(s: string, i: int, k: string) {
    && 0 <= i && i + |k| <= |s| && s[i..i + |k|] == k && IsJiraKey(k)
    && (i == 0 || !IsWordChar(s[i - 1]))
    && (i + |k| == |s| || !IsWordChar(s[i + |k|]))
  }

  /** Where the pattern matches at `i`, the end of the match. The letter run
      is taken whole, because a shorter prefix of it is followed by a letter
      rather than '-'; the digit run too, because `\b` cannot hold between
      two digits. */
  function BoundedKeyEnd(s: string, i: nat): (r: Option<nat>)
    requires i <= |s|
    ensures r.Some? ==> i < r.value <= |s|
  {
    var m := Run(s, i, IsUpper);
    if (i > 0 && IsWordChar(s[i - 1])) || m < 2 || m > 10 || i + m == |s| || s[i + m] != '-' then None
    else
      var d := Run(s, i + m + 1, IsDigit);
      var e := i + m + 1 + d;
      if d == 0 || (e < |s| && IsWordChar(s[e])) then None else Some(e)
  }

  /** A run inside a copy of `k` placed at `i` in `s` is the run in `k`,
      when it stops inside the copy. */
  lemma RunInCopy(s: string, i: nat, k: string, start: nat, n: nat, p: char -> bool)
    requires i + |k| <= |s| && s[i..i + |k|] == k && i <= start
    requires start - i + n < |k| && Run(k, start - i, p) == n
    ensures Run(s, start, p) == n
  {
    forall j | start <= j < start + n ensures p(s[j]) {
      assert s[j] == k[j - i];
    }
    assert s[start + n] == k[start - i + n];
    RunUnique(s, start, p, n);
  }

  /** A run inside a copy of `k` that reaches the end of the copy, when `s`
      does not continue it. */
  lemma RunToCopyEnd(s: string, i: nat, k: string, start: nat, p: char -> bool)
    requires i + |k| <= |s| && s[i..i + |k|] == k && i <= start <= i + |k|
    requires forall j | start - i <= j < |k| :: p(k[j])
    requires i + |k| == |s| || !p(s[i + |k|])
    ensures Run(s, start, p) == i + |k| - start
  {
    forall j | start <= j < i + |k| ensures p(s[j]) {
      assert s[j] == k[j - i];
    }
    RunUnique(s, start, p, i + |k| - start);
  }

  /** The runs of a key shape inside `s` are the shape's own runs: a run of
      `first` of length `m`, one separator, then `rest` to the end. */
  lemma KeyRunsInText(s: string, i: nat, k: string, m: nat, first: char -> bool, rest: char -> bool)
    requires i + |k| <= |s| && s[i..i + |k|] == k
    requires m + 1 < |k| && Run(k, 0, first) == m
    requires forall j | m + 1 <= j < |k| :: rest(k[j])
    requires i + |k| == |s| || !rest(s[i + |k|])
    ensures Run(s, i, first) == m
    ensures Run(s, i + m + 1, rest) == |k| - m - 1
  {
    RunInCopy(s, i, k, i, m, first);
    RunToCopyEnd(s, i, k, i + m + 1, rest);
  }

  lemma BoundedKeyEndSound(s: string, i: nat)
    requires i <= |s| && BoundedKeyEnd(s, i).Some?
    ensures BoundedKeyAt(s, i, s[i..BoundedKeyEnd(s, i).value])
  {
    var e := BoundedKeyEnd(s, i).value;
    var k := s[i..e];
    var m := Run(s, i, IsUpper);
    assert forall j | 0 <= j < |k| :: k[j] == s[i + j];
    RunUnique(k, 0, IsUpper, m);
  }

  lemma BoundedKeyEndComplete(s: string, i: nat, k: string)
    requires BoundedKeyAt(s, i, k)
    ensures BoundedKeyEnd(s, i) == Some(i + |k|)
  {
    KeyRunsInText(s, i, k, Run(k, 0, IsUpper), IsUpper, IsDigit);
  }

  /** `re.findall` from position `i` on. */
  function ScanBounded(s: string, i: nat): seq<string>
    requires i <= |s|
    decreases |s| - i
  {
    if i == |s| then []
    else match BoundedKeyEnd(s, i)
      case Some(e) => [s[i..e]] + ScanBounded(s, e)
      case None => ScanBounded(s, i + 1)
  }

  lemma {:induction false} ScanBoundedSound(s: string, i: nat, k: string)
    requires i <= |s| && k in ScanBounded(s, i)
    ensures exists j | i <= j :: BoundedKeyAt(s, j, k)
    decreases |s| - i
  {
    match BoundedKeyEnd(s, i)
    case Some(e) =>
      if k == s[i..e] {
        BoundedKeyEndSound(s, i);
      } else {
        ScanBoundedSound(s, e, k);
      }
    case None =>
      ScanBoundedSound(s, i + 1, k);
  }

  /** A match that starts before a whole-word key ends before it too. */
  lemma BoundedMatchesDoNotOverlap(s: string, i: nat, j: nat, k: string)
    requires i < j && BoundedKeyAt(s, j, k)
    requires i <= |s| && BoundedKeyEnd(s, i).Some?
    ensures BoundedKeyEnd(s, i).value <= j
  {
    var m := Run(s, i, IsUpper);
    var e := BoundedKeyEnd(s, i).value;
    assert IsUpper(k[0]) && s[j] == k[0];
  }

  /** A key at `j` is the first thing the scan from `j` finds. */
  lemma ScanBoundedHere(s: string, j: nat, k: string)
    requires BoundedKeyAt(s, j, k)
    ensures k in ScanBounded(s, j)
  {
    BoundedKeyEndComplete(s, j, k);
    assert ScanBounded(s, j)[0] == k;
  }

  lemma {:induction false} ScanBoundedComplete(s: string, i: nat, j: nat, k: string)
    requires i <= j && BoundedKeyAt(s, j, k)
    ensures k in ScanBounded(s, i)
    decreases |s| - i
  {
    if i == j {
      ScanBoundedHere(s, j, k);
    } else {
      match BoundedKeyEnd(s, i)
      case Some(e) =>
        BoundedMatchesDoNotOverlap(s, i, j, k);
        ScanBoundedComplete(s, e, j, k);
        assert ScanBounded(s, i) == [s[i..e]] + ScanBounded(s, e);
      case None =>
        ScanBoundedComplete(s, i + 1, j, k);
        assert ScanBounded(s, i) == ScanBounded(s, i + 1);
    }
  }

  /** `extract_jira_keys_from_text`: the whole-word keys of `text`, each once
      (Python returns `list(set(matches))`, whose order is unspecified). */
  function ExtractJiraKeys(text: string): (r: seq<string>)
    ensures NoDuplicates(r)
    ensures forall k :: k in r <==> exists i :: BoundedKeyAt(text, i, k)
  {
    var r := if text == "" then [] else Dedup(ScanBounded(text, 0));
    forall k ensures k in r <==> exists i :: BoundedKeyAt(text, i, k) {
      if k in r {
        ScanBoundedSound(text, 0, k);
      }
      if i :| BoundedKeyAt(text, i, k) {
        ScanBoundedComplete(text, 0, i, k);
      }
    }
    r
  }

  /** Every extracted key has the key shape and occurs in the text. */
  lemma ExtractedKeysAreKeys(text: string, k: string)
    requires k in ExtractJiraKeys(text)
    ensures IsJiraKey(k) && Contains(text, k)
  {
    var i :| BoundedKeyAt(text, i, k);
    assert OccursAt(text, k, i);
  }

  /** The edges of a whole-word key: it starts with a capital after a
      non-word character and ends with a digit before one. */
  lemma KeyEdges(s: string, i: int, k: string)
    requires BoundedKeyAt(s, i, k)
    ensures IsUpper(s[i]) && IsDigit(s[i + |k| - 1])
  {
    assert s[i] == k[0] && s[i + |k| - 1] == k[|k| - 1];
  }

  /** No key is extracted from "xOCM-1": glued to a letter on the left. */
  lemma GluedLeftExample()
    ensures ExtractJiraKeys("xOCM-1") == []
  {
    forall i, k | BoundedKeyAt("xOCM-1", i, k) ensures false {
      KeyEdges("xOCM-1", i, k);
    }
    NothingExtracted("xOCM-1");
  }

  /** No key is extracted from "OCM-12a": glued to a letter on the right. */
  lemma GluedRightExample()
    ensures ExtractJiraKeys("OCM-12a") == []
  {
    forall i, k | BoundedKeyAt("OCM-12a", i, k) ensures false {
      KeyEdges("OCM-12a", i, k);
    }
    NothingExtracted("OCM-12a");
  }

  /** No key is extracted from "ocm-1": keys are upper case. */
  lemma LowerCaseExample()
    ensures ExtractJiraKeys("ocm-1") == []
  {
    forall i, k | BoundedKeyAt("ocm-1", i, k) ensures false {
      KeyEdges("ocm-1", i, k);
    }
    NothingExtracted("ocm-1");
  }

  /** No key is extracted from "ABCDEFGHIJK-1": eleven capitals. */
  lemma LongPrefixExample()
    ensures ExtractJiraKeys("ABCDEFGHIJK-1") == []
  {
    var s := "ABCDEFGHIJK-1";
    forall i, k | BoundedKeyAt(s, i, k) ensures false {
      KeyEdges(s, i, k);
    }
    NothingExtracted(s);
  }

  lemma NothingExtracted(s: string)
    requires forall i, k :: !BoundedKeyAt(s, i, k)
    ensures ExtractJiraKeys(s) == []
  {
  }

  /** Lower-case letters never start a key. */
  lemma LowerCaseNotKey(k: string)
    requires |k| > 0 && IsLowerLetter(k[0])
    ensures !IsJiraKey(k)
  {
  }

  /** More than ten capitals before the '-' is not a key. */
  lemma LongPrefixNotKey(k: string)
    requires |k| > 11 && forall j | 0 <= j < 11 :: IsUpper(k[j])
    ensures !IsJiraKey(k)
  {
  }

  // ---------------------------------------------------------------------
  // The webhook handler's patterns

  /** `[A-Z]+-\d+` matches the whole of `k`. */
  predicate IsLooseKey(k: string) {
    var m := Run(k, 0, IsUpper);
    1 <= m && m + 1 < |k| && k[m] == '-' && forall j | m < j < |k| :: IsDigit(k[j])
  }

  /** The reference definition of a match of `([A-Z]+-\d+)`: the key starts
      where a run of capitals starts and ends where a run of digits ends;
      nothing is said about word boundaries. */
  predicate LooseKeyAt(s: string, i: int, k: string) {
    && 0 <= i && i + |k| <= |s| && s[i..i + |k|] == k && IsLooseKey(k)
    && (i == 0 || !IsUpper(s[i - 1]))
    && (i + |k| == |s| || !IsDigit(s[i + |k|]))
  }

  /** Where `[A-Z]+-\d+` matches at `i`, the end of the match. */
  function LooseKeyEnd(s: string, i: nat): (r: Option<nat>)
    requires i <= |s|
    ensures r.Some? ==> i < r.value <= |s| && IsDigit(s[r.value - 1])
  {
    var m := Run(s, i, IsUpper);
    if m == 0 || i + m == |s| || s[i + m] != '-' then None
    else
      var d := Run(s, i + m + 1, IsDigit);
      if d == 0 then None else Some(i + m + 1 + d)
  }

  /** The scan never starts a match just after a capital: the position
      before was either the end of a match (a digit) or a failed attempt
      whose letter run, '-' and digit run are the same ones. */
  function ScanLoose(s: string, i: nat): seq<string>
    requires i <= |s|
    decreases |s| - i
  {
    if i == |s| then []
    else match LooseKeyEnd(s, i)
      case Some(e) => [s[i..e]] + ScanLoose(s, e)
      case None => ScanLoose(s, i + 1)
  }

  lemma LooseKeyEndSound(s: string, i: nat)
    requires i <= |s| && LooseKeyEnd(s, i).Some?
    ensures IsLooseKey(s[i..LooseKeyEnd(s, i).value])
    ensures var e := LooseKeyEnd(s, i).value; e == |s| || !IsDigit(s[e])
  {
    var e := LooseKeyEnd(s, i).value;
    var k := s[i..e];
    var m := Run(s, i, IsUpper);
    assert forall j | 0 <= j < |k| :: k[j] == s[i + j];
    RunUnique(k, 0, IsUpper, m);
  }

  lemma LooseRunsInText(s: string, i: nat, k: string)
    requires LooseKeyAt(s, i, k)
    ensures LooseKeyEnd(s, i) == Some(i + |k|)
  {
    KeyRunsInText(s, i, k, Run(k, 0, IsUpper), IsUpper, IsDigit);
  }

  /** A failed attempt just before a capital fails at that capital too. */
  lemma LooseFailureCarries(s: string, i: nat)
    requires i + 1 <= |s| && IsUpper(s[i]) && LooseKeyEnd(s, i).None?
    ensures LooseKeyEnd(s, i + 1).None?
  {
    var m := Run(s, i, IsUpper);
    if m >= 2 {
      RunUnique(s, i + 1, IsUpper, m - 1);
    }
  }

  /** A match at a position the scan reaches is a key by the reference
      definition. */
  lemma LooseMatchIsKeyAt(s: string, i: nat)
    requires i < |s| && LooseKeyEnd(s, i).Some?
    requires i == 0 || !IsUpper(s[i - 1]) || LooseKeyEnd(s, i - 1).None?
    ensures LooseKeyAt(s, i, s[i..LooseKeyEnd(s, i).value])
  {
    if i > 0 && IsUpper(s[i - 1]) && LooseKeyEnd(s, i - 1).None? {
      LooseFailureCarries(s, i - 1);
    }
    LooseKeyEndSound(s, i);
  }

  /** What the loose scan finds from `i` on, when `i` does not follow a
      failed attempt at a capital. */
  lemma {:induction false} ScanLooseSound(s: string, i: nat, k: string)
    requires i <= |s| && k in ScanLoose(s, i)
    requires i == 0 || !IsUpper(s[i - 1]) || LooseKeyEnd(s, i - 1).None?
    ensures exists j | i <= j :: LooseKeyAt(s, j, k)
    decreases |s| - i
  {
    match LooseKeyEnd(s, i)
    case Some(e) =>
      if k == s[i..e] {
        LooseMatchIsKeyAt(s, i);
      } else {
        assert k in ScanLoose(s, e);
        ScanLooseSound(s, e, k);
      }
    case None =>
      ScanLooseSound(s, i + 1, k);
  }

  lemma LooseMatchesDoNotOverlap(s: string, i: nat, j: nat, k: string)
    requires i < j && LooseKeyAt(s, j, k)
    requires i <= |s| && LooseKeyEnd(s, i).Some?
    ensures LooseKeyEnd(s, i).value <= j
  {
    var m := Run(s, i, IsUpper);
    var e := LooseKeyEnd(s, i).value;
    assert IsUpper(k[0]) && s[j] == k[0];
  }

  /** A key at `j` is the first thing the scan from `j` finds. */
  lemma ScanLooseHere(s: string, j: nat, k: string)
    requires LooseKeyAt(s, j, k)
    ensures k in ScanLoose(s, j)
  {
    LooseRunsInText(s, j, k);
    assert ScanLoose(s, j)[0] == k;
  }

  lemma {:induction false} ScanLooseComplete(s: string, i: nat, j: nat, k: string)
    requires i <= j && LooseKeyAt(s, j, k)
    ensures k in ScanLoose(s, i)
    decreases |s| - i
  {
    if i == j {
      ScanLooseHere(s, j, k);
    } else {
      match LooseKeyEnd(s, i)
      case Some(e) =>
        LooseMatchesDoNotOverlap(s, i, j, k);
        ScanLooseComplete(s, e, j, k);
        assert ScanLoose(s, i) == [s[i..e]] + ScanLoose(s, e);
      case None =>
        ScanLooseComplete(s, i + 1, j, k);
        assert ScanLoose(s, i) == ScanLoose(s, i + 1);
    }
  }

  /** The closing words of the first webhook pattern, in alternation order. */
  const ClosingWords: seq<string> := ["fix", "fixes", "fixed", "close", "closes", "closed", "resolve", "resolves", "resolved"]

  /** `[A-Z]+-\d+` under `(?i)`: letters of either case, '-', digits. */
  predicate IsKeyIgnoringCase(k: string) {
    var m := Run(k, 0, IsLetter);
    1 <= m && m + 1 < |k| && k[m] == '-' && forall j | m < j < |k| :: IsDigit(k[j])
  }

  /** `s[start..end]` is letters, '-', digits, its letter run taken whole. */
  predicate Captured(s: string, start: nat, end: nat) {
    start < end <= |s|
    && var m := Run(s, start, IsLetter);
       1 <= m && start + m + 1 < end && s[start + m] == '-'
       && forall j | start + m < j < end :: IsDigit(s[j])
  }

  /** After a closing word ending at `i`: `\s+([A-Z]+-\d+)` under `(?i)`,
      giving the bounds of the captured key. */
  function KeyAfterWord(s: string, i: nat): (r: Option<(nat, nat)>)
    requires i <= |s|
    ensures r.Some? ==> i < r.value.0 && Captured(s, r.value.0, r.value.1)
  {
    var w := Run(s, i, IsSpace);
    var start := i + w;
    var m := Run(s, start, IsLetter);
    if w == 0 || m == 0 || start + m == |s| || s[start + m] != '-' then None
    else
      var d := Run(s, start + m + 1, IsDigit);
      if d == 0 then None else Some((start, start + m + 1 + d))
  }

  /** The alternation: the first closing word (ignoring case) at `i` after
      which the rest of the pattern matches. */
  function ClosingMatch(s: string, i: nat, words: seq<string>): (r: Option<(nat, nat)>)
    requires i <= |s|
    ensures r.Some? ==> i < r.value.0 && Captured(s, r.value.0, r.value.1)
  {
    if |words| == 0 then None
    else
      var w := words[0];
      if i + |w| <= |s| && Lower(s[i..i + |w|]) == w && KeyAfterWord(s, i + |w|).Some? then
        KeyAfterWord(s, i + |w|)
      else ClosingMatch(s, i, words[1..])
  }

  /** `re.findall` of the first pattern from `i` on: the captured keys. */
  function ScanClosing(s: string, i: nat): (r: seq<string>)
    requires i <= |s|
    ensures forall k | k in r :: IsKeyIgnoringCase(k)
    decreases |s| - i
  {
    if i == |s| then []
    else match ClosingMatch(s, i, ClosingWords)
      case Some(bounds) =>
        KeyAfterWordShape(s, bounds.0, bounds.1);
        [s[bounds.0..bounds.1]] + ScanClosing(s, bounds.1)
      case None => ScanClosing(s, i + 1)
  }

  /** A key captured after a closing word has the key shape. */
  lemma KeyAfterWordShape(s: string, start: nat, end: nat)
    requires Captured(s, start, end)
    ensures IsKeyIgnoringCase(s[start..end])
  {
    var k := s[start..end];
    var m := Run(s, start, IsLetter);
    assert forall j | 0 <= j < |k| :: k[j] == s[start + j];
    RunUnique(k, 0, IsLetter, m);
  }

  /** `_extract_jira_keys_from_text`: the union of both patterns' matches,
      each key once. */
  function WebhookKeys(text: string): (r: seq<string>)
    ensures NoDuplicates(r)
    ensures text == "" ==> r == []
    ensures forall k :: k in r <==> k in ScanClosing(text, 0) || k in ScanLoose(text, 0)
  {
    if text == "" then [] else Dedup(ScanClosing(text, 0) + ScanLoose(text, 0))
  }

  /** The case-sensitive half of the webhook extraction, against its
      reference definition. */
  lemma WebhookLooseKeys(text: string, k: string)
    ensures (exists i :: LooseKeyAt(text, i, k)) ==> k in WebhookKeys(text)
    ensures k in ScanLoose(text, 0) ==> exists i :: LooseKeyAt(text, i, k)
  {
    if i :| LooseKeyAt(text, i, k) {
      ScanLooseComplete(text, 0, i, k);
    }
    if k in ScanLoose(text, 0) {
      ScanLooseSound(text, 0, k);
    }
  }

  /** Every key the webhook finds has the key shape, letters of either case. */
  lemma WebhookKeysShape(text: string, k: string)
    requires k in WebhookKeys(text)
    ensures IsKeyIgnoringCase(k)
  {
    if k in ScanLoose(text, 0) {
      ScanLooseSound(text, 0, k);
      var i :| LooseKeyAt(text, i, k);
      LooseKeyIgnoringCase(k);
    }
  }

  /** A case-sensitive key is also a key ignoring case. */
  lemma LooseKeyIgnoringCase(k: string)
    requires IsLooseKey(k)
    ensures IsKeyIgnoringCase(k)
  {
    var m := Run(k, 0, IsUpper);
    RunUnique(k, 0, IsLetter, m);
  }

  /** Neither webhook pattern asks for word boundaries: "xOCM-1" gives
      "OCM-1", where the GitHub client finds nothing. */
  lemma WebhookIgnoresBoundaries()
    ensures "OCM-1" in WebhookKeys("xOCM-1")
    ensures ExtractJiraKeys("xOCM-1") == []
  {
    var k := "OCM-1";
    RunUnique(k, 0, IsUpper, 3);
    assert LooseKeyAt("xOCM-1", 1, k);
    WebhookLooseKeys("xOCM-1", k);
    GluedLeftExample();
  }

  /** The closing-word pattern ignores case: "fixes abc-12" gives "abc-12". */
  lemma ClosingWordIgnoresCase()
    ensures "abc-12" in WebhookKeys("fixes abc-12")
  {
    FixesExampleMatch();
    FirstClosingMatchFound("fixes abc-12");
    FixesExampleKey();
  }

  lemma FixesExampleKey()
    ensures "fixes abc-12"[6..12] == "abc-12"
  {
  }

  /** A closing-word match at the start of the text is reported. */
  lemma FirstClosingMatchFound(s: string)
    requires s != "" && ClosingMatch(s, 0, ClosingWords).Some?
    ensures var b := ClosingMatch(s, 0, ClosingWords).value;
      b.0 <= b.1 <= |s| && s[b.0..b.1] in WebhookKeys(s)
  {
    var b := ClosingMatch(s, 0, ClosingWords).value;
    assert ScanClosing(s, 0)[0] == s[b.0..b.1];
  }

  lemma FixesExampleMatch()
    ensures ClosingMatch("fixes abc-12", 0, ClosingWords) == Some((6, 12))
  {
    var s := "fixes abc-12";
    FixesExampleAfterWord();
    FixesExampleWords();
    var rest := ClosingWords[1..];
    assert rest[0] == "fixes";
    assert ClosingMatch(s, 0, rest) == Some((6, 12));
  }

  lemma FixesExampleWords()
    ensures Lower("fixes abc-12"[0..3]) == "fix"
    ensures Lower("fixes abc-12"[0..5]) == "fixes"
  {
    assert "fixes abc-12"[0..3] == "fix";
    assert "fixes abc-12"[0..5] == "fixes";
    assert Lower("fix") == "fix";
    assert Lower("fixes") == "fixes";
  }

  lemma FixesExampleAfterWord()
    ensures KeyAfterWord("fixes abc-12", 3).None?
    ensures KeyAfterWord("fixes abc-12", 5) == Some((6, 12))
  {
    FixesExampleNoSpace();
    FixesExampleRuns();
  }

  lemma FixesExampleNoSpace()
    ensures Run("fixes abc-12", 3, IsSpace) == 0
  {
    RunUnique("fixes abc-12", 3, IsSpace, 0);
  }

  lemma FixesExampleRuns()
    ensures Run("fixes abc-12", 5, IsSpace) == 1
    ensures Run("fixes abc-12", 6, IsLetter) == 3
    ensures Run("fixes abc-12", 10, IsDigit) == 2
  {
    var s := "fixes abc-12";
    RunUnique(s, 5, IsSpace, 1);
    RunUnique(s, 6, IsLetter, 3);
    RunUnique(s, 10, IsDigit, 2);
  }
}
