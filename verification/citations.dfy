/**
 * The source attributor (`_get_source_info`): the nodes a retriever returns for the
 * question become a header line and one numbered line per node, in retrieval order.
 * The retriever is outside the model; its answer (the nodes, or the exception it
 * raised) is an input.
 */
module Citations {
  import opened Wrappers

  /**
   * The `score` attribute of a retrieved node: absent, present but `None` (formatting it
   * with `:.3f` raises), or a number, kept as the text `:.3f` renders it to.
   */
  datatype Score = NoScore | NullScore | Scored(rendered: string)

  /** A retrieved node: its `file_name` and `page_label` metadata and its score. */
  datatype Node = Node(fileName: Option<string>, pageLabel: Option<string>, score: Score)

  /** `as_retriever(similarity_top_k=3)`. */
  const SOURCES_TOP_K: nat := 3

  const NOT_FOUND := "📚 【出典情報】参考文書が見つかりませんでした。"
  const HEADER := "📚 【参考文書・出典情報】"
  const ERROR_PREFIX := "📚 【出典情報取得エラー】"
  const UNKNOWN_DOCUMENT := "不明な文書"
  const PAGE_OPEN := " (ページ: "
  const SCORE_OPEN := " - 関連度: "
  /** The message of the TypeError raised by formatting `None` with `:.3f`. */
  const NONE_FORMAT_ERROR := "unsupported format string passed to NoneType.__format__"

  // Decimal numerals, as `f"{i}"` writes a positive rank.

  predicate IsDigit(c: char) {
    '0' <= c <= '9'
  }

  predicate AllDigits(s: string) {
    forall k :: 0 <= k < |s| ==> IsDigit(s[k])
  }

  function DigitChar(d: nat): (c: char)
    requires d < 10
    ensures IsDigit(c)
  {
    (48 + d) as char
  }

  function DigitValue(c: char): nat
    requires IsDigit(c)
  {
    c as int - 48
  }

  /** The decimal numeral of n, most significant digit first. */
  function Decimal(n: nat): (s: string)
    ensures |s| > 0 && AllDigits(s)
    ensures s[0] != '0' || n == 0
  {
    if n < 10 then [DigitChar(n)] else Decimal(n / 10) + [DigitChar(n % 10)]
  }

  /** The value of a decimal numeral. */
  function ParseDecimal(s: string): nat
    requires AllDigits(s)
  {
    if s == [] then 0 else 10 * ParseDecimal(s[..|s| - 1]) + DigitValue(s[|s| - 1])
  }

  /** The longest prefix of s made of digits. */
  function LeadingDigits(s: string): (d: string)
    ensures AllDigits(d) && d <= s
    ensures |d| == |s| || !IsDigit(s[|d|])
  {
    if s == [] || !IsDigit(s[0]) then [] else [s[0]] + LeadingDigits(s[1..])
  }

  /** The rank a citation line starts with. */
  function RankOf(line: string): nat {
    ParseDecimal(LeadingDigits(line))
  }

  lemma {:induction false} DecimalRoundTrip(n: nat)
    ensures ParseDecimal(Decimal(n)) == n
  {
    if n >= 10 {
      var s := Decimal(n);
      assert s[..|s| - 1] == Decimal(n / 10);
      DecimalRoundTrip(n / 10);
    }
  }

  lemma {:induction false} LeadingDigitsOfNumeral(d: string, rest: string)
    requires AllDigits(d)
    requires rest == [] || !IsDigit(rest[0])
    ensures LeadingDigits(d + rest) == d
  {
    if d != [] {
      assert (d + rest)[1..] == d[1..] + rest;
      LeadingDigitsOfNumeral(d[1..], rest);
    } else {
      assert d + rest == rest;
    }
  }

  // One line per node.

  function FileName(n: Node): string {
    n.fileName.GetOr(UNKNOWN_DOCUMENT)
  }

  /** `if page_info:`: a page label counts only when present and non-empty. */
  predicate HasPage(n: Node) {
    n.pageLabel.Some? && n.pageLabel.value != ""
  }

  function PageSuffix(n: Node): string {
    if HasPage(n) then PAGE_OPEN + n.pageLabel.value + ")" else ""
  }

  function ScoreSuffix(n: Node): string {
    if n.score.Scored? then SCORE_OPEN + n.score.rendered else ""
  }

  /** The line for the node of the given rank (ranks start at 1). */
  function Line(rank: nat, n: Node): string {
    Decimal(rank) + ". " + FileName(n) + PageSuffix(n) + ScoreSuffix(n)
  }

  function Lines(nodes: seq<Node>): (lines: seq<string>) {
    seq(|nodes|, k requires 0 <= k < |nodes| => Line(k + 1, nodes[k]))
  }

  predicate HasNullScore(nodes: seq<Node>) {
    exists k :: 0 <= k < |nodes| && nodes[k].score.NullScore?
  }

  /** `"\n".join(lines)`. */
  function Join(lines: seq<string>): string {
    if lines == [] then ""
    else if |lines| == 1 then lines[0]
    else lines[0] + "\n" + Join(lines[1..])
  }

  /** The inverse of `Join` (splitting at every newline), used only to state the block's layout. */
  function Split(s: string): (parts: seq<string>)
    ensures |parts| > 0
  {
    if s == [] then [""]
    else
      var rest := Split(s[1..]);
      if s[0] == '\n' then [""] + rest else [[s[0]] + rest[0]] + rest[1..]
  }

  /** What `_get_source_info` returns, given what the retriever returned or raised. */
  function SourceInfo(retrieved: Result<seq<Node>>): (info: string)
    ensures retrieved.Err? ==> ERROR_PREFIX <= info
    ensures retrieved.Ok? && HasNullScore(retrieved.value) ==> ERROR_PREFIX <= info
    ensures retrieved.Ok? && retrieved.value != [] && !HasNullScore(retrieved.value) ==> HEADER + "\n" <= info
  {
    match retrieved
    case Err(e) => ERROR_PREFIX + e
    case Ok(nodes) =>
      if nodes == [] then NOT_FOUND
      else if HasNullScore(nodes) then ERROR_PREFIX + NONE_FORMAT_ERROR
      else HEADER + "\n" + Join(Lines(nodes))
  }

  /** The not-found message is given exactly when the retriever returned no nodes. */
  lemma NotFoundIffNoNodes(retrieved: Result<seq<Node>>)
    ensures SourceInfo(retrieved) == NOT_FOUND <==> retrieved == Ok([])
  {
    var info := SourceInfo(retrieved);
    if retrieved.Err? || HasNullScore(retrieved.value) {
      assert info[7] == ERROR_PREFIX[7] != NOT_FOUND[7];
    } else if retrieved.value != [] {
      assert info[3] == HEADER[3] != NOT_FOUND[3];
    }
  }

  /** `_get_source_info`: the loop that builds one line per node, then the join. */
  method GetSourceInfo(retrieved: Result<seq<Node>>) returns (info: string)
    ensures info == SourceInfo(retrieved)
  {
    if retrieved.Err? {
      return ERROR_PREFIX + retrieved.error;
    }
    var nodes := retrieved.value;
    if |nodes| == 0 {
      return NOT_FOUND;
    }
    var sources: seq<string> := [];
    for i := 0 to |nodes|
      invariant sources == Lines(nodes)[..i]
      invariant forall k :: 0 <= k < i ==> !nodes[k].score.NullScore?
    {
      var node := nodes[i];
      var fileName := node.fileName.GetOr(UNKNOWN_DOCUMENT);
      var pageInfo := node.pageLabel.GetOr("");
      var head := Decimal(i + 1) + ". " + fileName;
      var sourceInfo := head;
      if pageInfo != "" {
        sourceInfo := head + (PAGE_OPEN + pageInfo + ")");
      }
      assert sourceInfo == head + PageSuffix(node);
      match node.score {
        case NullScore =>
          return ERROR_PREFIX + NONE_FORMAT_ERROR;
        case Scored(rendered) =>
          sourceInfo := sourceInfo + (SCORE_OPEN + rendered);
        case NoScore =>
      }
      assert sourceInfo == Line(i + 1, node) == Lines(nodes)[i];
      assert Lines(nodes)[..i + 1] == sources + [sourceInfo];
      sources := sources + [sourceInfo];
    }
    assert sources == Lines(nodes);
    assert !HasNullScore(nodes);
    info := HEADER + "\n" + Join(sources);
  }

  /** Each line starts with "{rank}. {file name}", and the rank can be read back from it. */
  lemma LineStartsWithRank(rank: nat, n: Node)
    ensures Decimal(rank) + ". " + FileName(n) <= Line(rank, n)
    ensures RankOf(Line(rank, n)) == rank
  {
    var d := Decimal(rank);
    var line := Line(rank, n);
    var head := d + ". " + FileName(n);
    assert line == head + PageSuffix(n) + ScoreSuffix(n);
    assert line[..|d|] == d;
    var rest := line[|d|..];
    assert line == d + rest;
    assert rest[0] == '.';
    LeadingDigitsOfNumeral(d, rest);
    DecimalRoundTrip(rank);
  }

  /** The "(ページ: …)" part follows the file name exactly when the page label is non-empty. */
  lemma PageSuffixIffPage(rank: nat, n: Node)
    ensures var head := Decimal(rank) + ". " + FileName(n);
      PAGE_OPEN <= Line(rank, n)[|head|..] <==> HasPage(n)
  {
    LineAfterHead(rank, n);
    if !HasPage(n) && n.score.Scored? {
      var tail := ScoreSuffix(n);
      assert tail[1] == SCORE_OPEN[1] != PAGE_OPEN[1];
    }
  }

  /** What follows "{rank}. {file name}" in a line is the page suffix, then the score suffix. */
  lemma LineAfterHead(rank: nat, n: Node)
    ensures var head := Decimal(rank) + ". " + FileName(n);
      |head| <= |Line(rank, n)| && Line(rank, n)[|head|..] == PageSuffix(n) + ScoreSuffix(n)
  {
    var head := Decimal(rank) + ". " + FileName(n);
    var tail := PageSuffix(n) + ScoreSuffix(n);
    assert Line(rank, n) == head + tail;
  }

  // Splitting the joined lines back.

  lemma {:induction false} SplitWithoutNewline(s: string)
    requires '\n' !in s
    ensures Split(s) == [s]
  {
    if s != [] {
      SplitWithoutNewline(s[1..]);
      assert [s[0]] + s[1..] == s;
    }
  }

  lemma {:induction false} SplitAtNewline(a: string, b: string)
    requires '\n' !in a
    ensures Split(a + "\n" + b) == [a] + Split(b)
  {
    if a == [] {
      assert a + "\n" + b == "\n" + b;
      assert ("\n" + b)[1..] == b;
    } else {
      assert (a + "\n" + b)[1..] == a[1..] + "\n" + b;
      SplitAtNewline(a[1..], b);
      assert [a[0]] + a[1..] == a;
    }
  }

  /** Splitting the joined lines at newlines gives the lines back when none of them holds a newline. */
  lemma {:induction false} SplitJoin(lines: seq<string>)
    requires |lines| > 0
    requires forall k :: 0 <= k < |lines| ==> '\n' !in lines[k]
    ensures Split(Join(lines)) == lines
  {
    if |lines| == 1 {
      SplitWithoutNewline(lines[0]);
    } else {
      SplitAtNewline(lines[0], Join(lines[1..]));
      SplitJoin(lines[1..]);
    }
  }

  /** No field that goes into a line holds a newline. */
  predicate SingleLineFields(n: Node) {
    '\n' !in FileName(n)
    && (n.pageLabel.Some? ==> '\n' !in n.pageLabel.value)
    && (n.score.Scored? ==> '\n' !in n.score.rendered)
  }

  lemma LineHasNoNewline(rank: nat, n: Node)
    requires SingleLineFields(n)
    ensures '\n' !in Line(rank, n)
  {
    assert forall k :: 0 <= k < |Decimal(rank)| ==> Decimal(rank)[k] != '\n';
  }

  /**
   * With nodes found and every score set, the block is the header line followed by
   * exactly one line per node, numbered 1..n in retrieval order.
   */
  lemma SourceBlockLayout(nodes: seq<Node>)
    requires nodes != [] && !HasNullScore(nodes)
    requires forall k :: 0 <= k < |nodes| ==> SingleLineFields(nodes[k])
    ensures var parts := Split(SourceInfo(Ok(nodes)));
      |parts| == |nodes| + 1 && parts[0] == HEADER
      && forall k :: 1 <= k <= |nodes| ==> parts[k] == Line(k, nodes[k - 1]) && RankOf(parts[k]) == k
  {
    assert SourceInfo(Ok(nodes)) == HEADER + "\n" + Join(Lines(nodes));
    BlockSplitsIntoLines(nodes);
    var parts := Split(SourceInfo(Ok(nodes)));
    forall k | 1 <= k <= |nodes|
      ensures parts[k] == Line(k, nodes[k - 1]) && RankOf(parts[k]) == k
    {
      assert parts[k] == Lines(nodes)[k - 1];
      LineStartsWithRank(k, nodes[k - 1]);
    }
  }

  /** Splitting the header and the joined lines at newlines gives the header and the lines. */
  lemma BlockSplitsIntoLines(nodes: seq<Node>)
    requires nodes != []
    requires forall k :: 0 <= k < |nodes| ==> SingleLineFields(nodes[k])
    ensures Split(HEADER + "\n" + Join(Lines(nodes))) == [HEADER] + Lines(nodes)
  {
    var lines := [HEADER] + Lines(nodes);
    forall k | 0 <= k < |lines|
      ensures '\n' !in lines[k]
    {
      if k > 0 {
        LineHasNoNewline(k, nodes[k - 1]);
      }
    }
    assert lines[1..] == Lines(nodes);
    assert Join(lines) == HEADER + "\n" + Join(Lines(nodes));
    SplitJoin(lines);
  }
}
