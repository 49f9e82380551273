/** The pure pieces of the enhanced report generator
    (enhanced_report_generator.py): the template filters `progress_bar`,
    `truncate_summary`, `jira_link` and `default_if_empty`, the
    `multi_board` flag, and the choice of template, directory and file name
    for an output format. Template rendering itself is not modelled. */
module EnhancedReport {
  import opened Wrappers
  import opened Text
  import opened Calendar
  import opened EnhancedConfig

  // ---------------------------------------------------------------------
  // progress_bar

  const FullBlock: char := '\U{2588}'
  const LightShade: char := '\U{2591}'

  /** A hundredth of `x`, truncated towards zero as a float division followed
      by an integer conversion does. */
  function TruncDiv100(x: int): (r: int)
    ensures x >= 0 ==> r == x / 100
    ensures x < 0 ==> r == -((-x) / 100)
  {
    if x >= 0 then x / 100 else -((-x) / 100)
  }

  /** `c * n`: the empty string for a negative count. */
  function Times(c: char, n: int): (r: string)
    ensures |r| == if n < 0 then 0 else n
    ensures forall i | 0 <= i < |r| :: r[i] == c
  {
    Repeat(c, if n < 0 then 0 else n)
  }

  /** The number of filled cells of a bar `width` cells wide. */
  function FilledCells(percentage: int, width: int): int {
    TruncDiv100(percentage * width)
  }

  /** `progress_bar(percentage, width)`. */
  function ProgressBar(percentage: int, width: int): (r: string)
    ensures var f := FilledCells(percentage, width);
      0 <= percentage <= 100 && width >= 0 ==>
        0 <= f <= width && |r| > width
        && (forall i | 0 <= i < f :: r[i] == FullBlock)
        && (forall i | f <= i < width :: r[i] == LightShade)
        && r[width..] == " " + IntToString(percentage) + "%"
  {
    var f := FilledCells(percentage, width);
    CellsInRange(percentage, width);
    var bar := Bar(f, width);
    var r := bar + (" " + IntToString(percentage) + "%");
    assert r[..|bar|] == bar && r[|bar|..] == " " + IntToString(percentage) + "%";
    r
  }

  /** `filled` full cells followed by empty cells up to `width`. */
  function Bar(filled: int, width: int): (r: string)
    ensures 0 <= filled <= width ==>
      |r| == width
      && (forall i | 0 <= i < filled :: r[i] == FullBlock)
      && (forall i | filled <= i < width :: r[i] == LightShade)
  {
    Times(FullBlock, filled) + Times(LightShade, width - filled)
  }

  lemma CellsInRange(percentage: int, width: int)
    ensures 0 <= percentage <= 100 && width >= 0 ==> 0 <= FilledCells(percentage, width) <= width
  {
    if 0 <= percentage <= 100 && width >= 0 {
      assert 0 <= percentage * width <= 100 * width;
    }
  }

  /** A larger percentage never fills fewer cells. */
  lemma FilledCellsMonotone(p: int, q: int, width: int)
    requires 0 <= p <= q && width >= 0
    ensures FilledCells(p, width) <= FilledCells(q, width)
  {
    assert p * width <= q * width;
  }

  /** 0% is an empty bar and 100% a full one. */
  lemma ProgressBarEnds(width: int)
    requires width >= 0
    ensures FilledCells(0, width) == 0
    ensures FilledCells(100, width) == width
  {}

  // ---------------------------------------------------------------------
  // truncate_summary

  /** `s[:k]`, where a negative `k` counts from the end. */
  function SliceTo(s: string, k: int): (r: string)
    ensures k >= 0 ==> r == s[..if k < |s| then k else |s|]
    ensures k < 0 ==> r == s[..if |s| + k < 0 then 0 else |s| + k]
  {
    if k >= 0 then s[..if k < |s| then k else |s|]
    else s[..if |s| + k < 0 then 0 else |s| + k]
  }

  /** `truncate_summary(text, max_length)`. */
  function TruncateSummary(text: string, maxLength: int): (r: string)
    ensures |text| <= maxLength ==> r == text
    ensures |text| > maxLength ==> |r| >= 3 && r[|r| - 3..] == "..." && r[..|r| - 3] <= text
    ensures |text| > maxLength && maxLength >= 3 ==> |r| == maxLength
  {
    if |text| <= maxLength then text else SliceTo(text, maxLength - 3) + "..."
  }

  /** With a limit of at least 3 the result fits, so truncating twice is
      truncating once. */
  lemma TruncateIdempotent(text: string, maxLength: int)
    requires maxLength >= 3
    ensures |TruncateSummary(text, maxLength)| <= maxLength
    ensures TruncateSummary(TruncateSummary(text, maxLength), maxLength) == TruncateSummary(text, maxLength)
  {}

  /** Below a limit of 3 an over-long text comes back longer than the
      limit, since the ellipsis alone has three characters. */
  lemma ShortLimitOverflows(text: string, maxLength: int)
    requires maxLength < 3 && |text| > maxLength
    ensures |TruncateSummary(text, maxLength)| > maxLength
  {}

  // ---------------------------------------------------------------------
  // jira_link

  const BrowsePath: string := "/browse/"

  /** `jira_link(issue_key, base_url)`. */
  function JiraLink(key: string, baseUrl: string): (r: string)
    ensures |r| == |baseUrl| + |BrowsePath| + |key|
    ensures r[..|baseUrl|] == baseUrl && r[|baseUrl|..|baseUrl| + |BrowsePath|] == BrowsePath
    ensures r[|baseUrl| + |BrowsePath|..] == key
  {
    baseUrl + BrowsePath + key
  }

  /** Under one base URL distinct keys have distinct links. */
  lemma JiraLinkInjective(k1: string, k2: string, baseUrl: string)
    requires JiraLink(k1, baseUrl) == JiraLink(k2, baseUrl)
    ensures k1 == k2
  {
    var n := |baseUrl| + |BrowsePath|;
    assert k1 == JiraLink(k1, baseUrl)[n..];
  }

  // ---------------------------------------------------------------------
  // default_if_empty

  /** The template values `default_if_empty` is applied to. */
  datatype Value = NoneValue | BoolValue(b: bool) | IntValue(n: int) | StrValue(s: string)

  /** Python truthiness of a value. */
  predicate Falsy(v: Value) {
    match v
    case NoneValue => true
    case BoolValue(b) => !b
    case IntValue(n) => n == 0
    case StrValue(s) => s == ""
  }

  /** `str(value)`. */
  function Str(v: Value): string {
    match v
    case NoneValue => "None"
    case BoolValue(b) => if b then "True" else "False"
    case IntValue(n) => IntToString(n)
    case StrValue(s) => s
  }

  /** `default_if_empty(value, default)`. */
  function DefaultIfEmpty(v: Value, default: string): (r: string)
    ensures Falsy(v) || (v.StrValue? && AllSpace(v.s)) ==> r == default
    ensures !Falsy(v) && !(v.StrValue? && AllSpace(v.s)) ==> r == Str(v)
  {
    if Falsy(v) || (v.StrValue? && AllSpace(v.s)) then default else Str(v)
  }

  /** `str(n)` is never blank. */
  lemma IntTextNotBlank(n: int)
    ensures !AllSpace(IntToString(n))
  {
    var t := IntToString(n);
    if n < 0 {
      assert t[0] == '-';
    } else {
      assert IsDigit(t[0]);
    }
  }

  /** With a non-blank default the result is never blank, and feeding it
      back in changes nothing. */
  lemma DefaultIfEmptyIdempotent(v: Value, default: string)
    requires !AllSpace(default)
    ensures !AllSpace(DefaultIfEmpty(v, default))
    ensures DefaultIfEmpty(StrValue(DefaultIfEmpty(v, default)), default) == DefaultIfEmpty(v, default)
  {
    if v.IntValue? {
      IntTextNotBlank(v.n);
    }
    if v.BoolValue? {
      assert Str(v)[0] in "TF";
    }
  }

  // ---------------------------------------------------------------------
  // multi_board

  /** More than one board is configured; no list counts as none. */
  function MultiBoard(boardIds: Option<seq<int>>): (r: bool)
    ensures r <==> boardIds.Some? && |boardIds.value| >= 2
  {
    match boardIds
    case None => false
    case Some(ids) => if |ids| == 0 then false else |ids| > 1
  }

  /** Board IDs written to the configuration as a comma-separated list are
      read back as several boards exactly when more than one was written. */
  lemma {:induction false} MultiBoardOfConfiguredIds(ids: seq<int>)
    ensures BoardIds(Join(IdTexts(ids), [','])).Ok?
    ensures MultiBoard(Some(BoardIds(Join(IdTexts(ids), [','])).value)) <==> |ids| > 1
  {
    BoardIdsRoundTrip(ids);
  }

  // ---------------------------------------------------------------------
  // Template and file name for an output format

  datatype OutputDir = MarkdownDir | HtmlDir | TextDir

  /** Where and how a report in one format is written. */
  datatype ReportTarget = ReportTarget(template: string, extension: string, dir: OutputDir, fileName: string)

  /** The team name with spaces turned into hyphens, then lower-cased. */
  function SafeTeamName(team: string): (r: string)
    ensures ' ' !in r
  {
    var dashed := ReplaceChar(team, ' ', "-");
    var r := Lower(dashed);
    assert forall i | 0 <= i < |r| :: r[i] != ' ' by {
      forall i | 0 <= i < |r| ensures r[i] != ' ' {
        assert r[i] == LowerChar(dashed[i]) && dashed[i] != ' ';
      }
    }
    r
  }

  /** `_generate_format_specific_report`: MARKDOWN, HTML and PLAIN_TEXT
      each have a template, an extension and a directory; JSON and ALL are
      rejected. The file is named after the team and the day of writing. */
  function ReportTargetFor(teamName: string, today: int, format: OutputFormat): (r: Result<ReportTarget>)
    ensures r.Err? <==> format == Json || format == All
    ensures r.Ok? ==> r.value.fileName == "weekly-report-" + SafeTeamName(teamName) + "-" + IsoDateText(today) + "." + r.value.extension
    ensures r.Ok? ==> FormatOfExtension(r.value.extension) == Some(format)
  {
    var (template, ext, dir) :- match format
      case Markdown => Ok(("weekly_markdown.j2", "md", MarkdownDir))
      case Html => Ok(("weekly_html.j2", "html", HtmlDir))
      case PlainText => Ok(("weekly_text.j2", "txt", TextDir))
      case _ => Err("Unsupported output format");
    Ok(ReportTarget(template, ext, dir,
      "weekly-report-" + SafeTeamName(teamName) + "-" + IsoDateText(today) + "." + ext))
  }

  /** The format a file extension belongs to: the inverse of the choice
      above. */
  function FormatOfExtension(ext: string): Option<OutputFormat> {
    if ext == "md" then Some(Markdown)
    else if ext == "html" then Some(Html)
    else if ext == "txt" then Some(PlainText)
    else None
  }

  /** Every accepted format writes to a directory of its own. */
  lemma DistinctDirectories(team: string, today: int, f: OutputFormat, g: OutputFormat)
    requires ReportTargetFor(team, today, f).Ok? && ReportTargetFor(team, today, g).Ok?
    requires ReportTargetFor(team, today, f).value.dir == ReportTargetFor(team, today, g).value.dir
    ensures f == g
  {}
}
