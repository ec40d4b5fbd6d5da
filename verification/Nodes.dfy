/** Retrieved nodes, their identity across backends and the text of their scores. */
module Nodes {
  import opened Wrappers
  import opened Text
  import opened Decimal

  datatype Node = Node(
    nodeId: string,
    tenantId: Option<string>,
    documentId: Option<string>,
    version: Option<int>,
    chunkIndex: Option<int>,
    fileName: Option<string>,
    content: string)

  /** A node with its retrieval score; a missing score ranks below every number. */
  datatype Hit = Hit(node: Node, score: Option<real>)

  /** A hit after fusion: the backends that found it and its fusion score. */
  datatype Fused = Fused(hit: Hit, backends: seq<string>, fusionScore: real)

  /** `retrieval_identity`; the content digest is represented by the content itself. */
  function Identity(node: Node): string {
    if node.tenantId.Some? && node.documentId.Some? && node.version.Some? && node.chunkIndex.Some? then
      "chunk:" + Join([node.tenantId.value, node.documentId.value,
                       IntText(node.version.value), IntText(node.chunkIndex.value)], ":")
    else if node.nodeId != "" then "node:" + node.nodeId
    else "content:" + node.content
  }

  function FileName(node: Node): string {
    if node.fileName.Some? then node.fileName.value else "未知文件"
  }

  /** `document_id or file_name or fallback`: empty texts count as missing. */
  function DocumentKey(node: Node, fallback: string): string {
    if node.documentId.Some? && node.documentId.value != "" then node.documentId.value
    else if node.fileName.Some? && node.fileName.value != "" then node.fileName.value
    else fallback
  }

  // ---------- score text ----------

  /** Nearest integer, ties to even. */
  function Round(x: real): (n: int)
    ensures -0.5 <= n as real - x <= 0.5
    ensures x >= 0.0 ==> n >= 0
  {
    var f := x.Floor;
    var d := x - f as real;
    if d < 0.5 || (d == 0.5 && f % 2 == 0) then f else f + 1
  }

  function Pad(s: string, width: nat): string
    decreases width - |s|
  {
    if |s| < width then Pad("0" + s, width) else s
  }

  /** `f"{x:.4f}"` for an exact real. */
  function Fixed4(x: real): string {
    var m := if x < 0.0 then -x else x;
    var scaled: nat := Round(m * 10000.0);
    (if x < 0.0 then "-" else "") + Digits(scaled / 10000) + "." + Pad(Digits(scaled % 10000), 4)
  }

  function ScoreText(score: Option<real>): string {
    match score
    case Some(x) => Fixed4(x)
    case None => "N/A"
  }

  predicate ScoreChar(c: char) {
    IsDigit(c) || c == '-' || c == '.' || c == 'N' || c == '/' || c == 'A'
  }

  lemma {:induction false} PadChars(s: string, width: nat)
    requires forall c | c in s :: IsDigit(c)
    ensures forall c | c in Pad(s, width) :: IsDigit(c)
    decreases width - |s|
  {
    if |s| < width { PadChars("0" + s, width); }
  }

  lemma ScoreTextChars(score: Option<real>)
    ensures ScoreText(score) != ""
    ensures forall c | c in ScoreText(score) :: ScoreChar(c)
  {
    match score
    case None =>
    case Some(x) =>
      var m := if x < 0.0 then -x else x;
      var scaled: nat := Round(m * 10000.0);
      PadChars(Digits(scaled % 10000), 4);
  }

  lemma {:induction false} PadMeans(s: string, width: nat)
    requires s != "" && DigitsValue(s).Some? && forall c | c in s :: IsDigit(c)
    ensures DigitsValue(Pad(s, width)) == DigitsValue(s)
    ensures |Pad(s, width)| == if |s| < width then width else |s|
    decreases width - |s|
  {
    if |s| < width {
      ZeroFront(s);
      PadMeans("0" + s, width);
    }
  }

  lemma {:induction false} ZeroFront(s: string)
    requires s != "" && forall c | c in s :: IsDigit(c)
    ensures DigitsValue("0" + s) == DigitsValue(s)
    decreases |s|
  {
    var t := "0" + s;
    assert Init(t) == "0" + Init(s) && Last(t) == Last(s);
    if |s| == 1 {
      assert Init(t) == "0" && DigitsValue("0") == Some(0);
    } else {
      ZeroFront(Init(s));
      assert Last(Init(t)) == Last(Init(s)) && Last(Init(s)) in s && Last(Init(t)) != '_';
    }
  }

  lemma {:induction false} DigitsShort(n: nat)
    requires n < 10000
    ensures |Digits(n)| <= 4
  {
    if n >= 10 {
      assert |Digits(n)| == |Digits(n / 10)| + 1;
      if n / 10 >= 10 {
        assert |Digits(n / 10)| == |Digits(n / 100)| + 1;
        if n / 100 >= 10 { assert |Digits(n / 100)| == |Digits(n / 1000)| + 1; }
      }
    }
  }

  /** The score text is a sign, the whole part, a point and four digits, and what it says is within half a digit of the
      score. */
  lemma Fixed4Means(x: real) returns (whole: nat, fraction: nat, text: string)
    ensures Fixed4(x) == (if x < 0.0 then "-" else "") + Digits(whole) + "." + text
    ensures |text| == 4 && DigitsValue(text) == Some(fraction) && DigitsValue(Digits(whole)) == Some(whole)
    ensures var said := whole as real + fraction as real / 10000.0;
      -0.00005 <= said - (if x < 0.0 then -x else x) <= 0.00005
  {
    var m := if x < 0.0 then -x else x;
    var scaled: nat := Round(m * 10000.0);
    whole, fraction := scaled / 10000, scaled % 10000;
    text := Pad(Digits(fraction), 4);
    DigitsValueInverts(fraction);
    DigitsValueInverts(whole);
    DigitsShort(fraction);
    PadMeans(Digits(fraction), 4);
    assert scaled as real == whole as real * 10000.0 + fraction as real;
  }
}
