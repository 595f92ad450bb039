/**
 * The text the quote panel derives for the PDF export: the project name
 * shown in the document, the download file name, and the proposal
 * paragraph. Whitespace follows ECMAScript, where `String.prototype.trim`
 * and the regular-expression class `\s` both mean the WhiteSpace and
 * LineTerminator characters.
 */
module QuoteText {
  import opened Wrappers

  /** Code points of the ECMAScript whitespace characters up to U+0020:
      tab, line feed, vertical tab, form feed, carriage return and space. */
  const AsciiWhitespaceCodes: seq<int> := [0x09, 0x0A, 0x0B, 0x0C, 0x0D, 0x20]

  /** Code points of the remaining ECMAScript WhiteSpace and LineTerminator
      characters, all from U+00A0 on: no-break space, the other Unicode
      space separators, the line and paragraph separators and the
      byte-order mark. */
  const OtherWhitespaceCodes: seq<int> := [
      0x00A0, 0x1680, 0x2000, 0x2001, 0x2002, 0x2003, 0x2004, 0x2005, 0x2006,
      0x2007, 0x2008, 0x2009, 0x200A, 0x2028, 0x2029, 0x202F, 0x205F, 0x3000,
      0xFEFF
    ]

  /** Membership in a code table, written as a recursion so that the
      verifier unrolls a table only as far as a proof asks it to. */
  predicate Contains(codes: seq<int>, n: int)
  {
    |codes| > 0 && (codes[0] == n || Contains(codes[1..], n))
  }

  /** A number below every code of a table is not in it. */
  lemma {:induction false} BelowEveryCode(codes: seq<int>, n: int)
    requires forall i :: 0 <= i < |codes| ==> n < codes[i]
    ensures !Contains(codes, n)
  {
    if |codes| > 0 {
      BelowEveryCode(codes[1..], n);
    }
  }

  /** `Contains` is sequence membership. */
  lemma {:induction false} ContainsIsMembership(codes: seq<int>, n: int)
    ensures Contains(codes, n) <==> n in codes
  {
    if |codes| > 0 {
      ContainsIsMembership(codes[1..], n);
      assert codes == [codes[0]] + codes[1..];
    }
  }

  /** What both `String.prototype.trim` and the regular-expression class
      `\s` treat as whitespace. */
  predicate IsWhitespace(c: char)
  {
    var n := c as int;
    if n <= 0x20 then Contains(AsciiWhitespaceCodes, n)
    else Contains(OtherWhitespaceCodes, n)
  }

  predicate AllWhitespace(s: string)
  {
    forall i :: 0 <= i < |s| ==> IsWhitespace(s[i])
  }

  predicate NoWhitespace(s: string)
  {
    forall i :: 0 <= i < |s| ==> !IsWhitespace(s[i])
  }

  // ---------------------------------------------------------------------
  // Trimming

  /** Length of the whitespace run that opens `s`. */
  function LeadingWhitespace(s: string): (n: nat)
    ensures n <= |s| && AllWhitespace(s[..n])
    ensures n < |s| ==> !IsWhitespace(s[n])
  {
    if |s| > 0 && IsWhitespace(s[0]) then
      var k := LeadingWhitespace(s[1..]);
      WhitespaceRunGrows(s, k + 1);
      assert k + 1 < |s| ==> s[k + 1] == s[1..][k];
      k + 1
    else 0
  }

  /** A whitespace character followed by a whitespace run is a longer run. */
  lemma WhitespaceRunGrows(s: string, n: nat)
    requires 0 < n <= |s| && IsWhitespace(s[0]) && AllWhitespace(s[1..][..n - 1])
    ensures AllWhitespace(s[..n])
  {
    forall i | 0 <= i < n ensures IsWhitespace(s[..n][i]) {
      if i > 0 { assert s[..n][i] == s[1..][..n - 1][i - 1]; }
    }
  }

  /** Length of the whitespace run that closes `s`. */
  function TrailingWhitespace(s: string): (n: nat)
    ensures n <= |s| && AllWhitespace(s[|s| - n..])
    ensures n < |s| ==> !IsWhitespace(s[|s| - n - 1])
  {
    if |s| > 0 && IsWhitespace(s[|s| - 1]) then
      var t := s[..|s| - 1];
      var k := TrailingWhitespace(t);
      WhitespaceTailGrows(s, |t| - k);
      assert k < |t| ==> s[|s| - (k + 1) - 1] == t[|t| - k - 1];
      k + 1
    else 0
  }

  /** A whitespace run followed by a whitespace character is a longer run. */
  lemma WhitespaceTailGrows(s: string, n: nat)
    requires n < |s| && IsWhitespace(s[|s| - 1]) && AllWhitespace(s[..|s| - 1][n..])
    ensures AllWhitespace(s[n..])
  {
    forall j | 0 <= j < |s| - n ensures IsWhitespace(s[n..][j]) {
      if j < |s| - 1 - n { assert s[n..][j] == s[..|s| - 1][n..][j]; }
    }
  }

  /** The string without its leading whitespace: a suffix of `s` that
      starts with a non-whitespace character, preceded only by whitespace. */
  function TrimStart(s: string): (r: string)
    ensures |r| <= |s| && r == s[|s| - |r|..]
    ensures AllWhitespace(s[..|s| - |r|])
    ensures |r| > 0 ==> !IsWhitespace(r[0])
  {
    s[LeadingWhitespace(s)..]
  }

  /** The string without its trailing whitespace: a prefix of `s` that
      ends with a non-whitespace character, followed only by whitespace. */
  function TrimEnd(s: string): (r: string)
    ensures |r| <= |s| && r == s[..|r|]
    ensures AllWhitespace(s[|r|..])
    ensures |r| > 0 ==> !IsWhitespace(r[|r| - 1])
  {
    s[..|s| - TrailingWhitespace(s)]
  }

  /** `String.prototype.trim`: both ends of the result are non-whitespace. */
  function Trim(s: string): (r: string)
    ensures |r| <= |s|
    ensures |r| > 0 ==> !IsWhitespace(r[0]) && !IsWhitespace(r[|r| - 1])
  {
    var t := TrimStart(s);
    var r := TrimEnd(t);
    assert |r| > 0 ==> r[0] == t[0];
    r
  }

  /** The trimmed string is the slice `s[i..i + |Trim(s)|]`, where `i` is
      the length of the leading whitespace run. */
  lemma TrimIsSlice(s: string)
    ensures var i, r := |s| - |TrimStart(s)|, Trim(s);
      i + |r| <= |s| && r == s[i..i + |r|]
  {
    var t := TrimStart(s);
    SlicesOfSuffix(s, |s| - |t|, |TrimEnd(t)|);
  }

  /** What trimming cuts off on either side is whitespace only. */
  lemma TrimCutsWhitespace(s: string)
    ensures var i, r := |s| - |TrimStart(s)|, Trim(s);
      i + |r| <= |s| && AllWhitespace(s[..i]) && AllWhitespace(s[i + |r|..])
  {
    var t := TrimStart(s);
    SlicesOfSuffix(s, |s| - |t|, |TrimEnd(t)|);
  }

  lemma SlicesOfSuffix(s: string, i: nat, k: nat)
    requires i + k <= |s|
    ensures s[i..][..k] == s[i..i + k] && s[i..][k..] == s[i + k..]
  {
  }

  /** Trimming yields the empty string exactly when the input is all whitespace. */
  lemma TrimEmptyIffBlank(s: string)
    ensures Trim(s) == "" <==> AllWhitespace(s)
  {
    TrimIsSlice(s);
    TrimCutsWhitespace(s);
    var i := |s| - |TrimStart(s)|;
    if Trim(s) == "" {
      assert s == s[..i] + s[i..];
      forall k | 0 <= k < |s| ensures IsWhitespace(s[k]) {
        assert s[k] == s[..i][k];
      }
    } else {
      assert Trim(s)[0] == s[i];
    }
  }

  // ---------------------------------------------------------------------
  // Project name

  const DefaultProjectName: string := "Projeto Sem Nome"

  /** `projectName.trim() || "Projeto Sem Nome"`: the trimmed name, or the
      default when nothing but whitespace was typed. Never empty. */
  function ProjectName(input: string): (r: string)
    ensures |r| > 0
    ensures AllWhitespace(input) ==> r == DefaultProjectName
    ensures !AllWhitespace(input) ==> r == Trim(input)
    ensures !AllWhitespace(input) ==> !IsWhitespace(r[0]) && !IsWhitespace(r[|r| - 1])
  {
    TrimEmptyIffBlank(input);
    var t := Trim(input);
    if t != "" then t else DefaultProjectName
  }

  // ---------------------------------------------------------------------
  // File name

  /** `replace(/\s+/g, '_')`: every maximal run of whitespace becomes one underscore. */
  function ReplaceWhitespaceRuns(s: string): (r: string)
    ensures NoWhitespace(r)
    ensures |s| > 0 ==> |r| > 0
    decreases |s|
  {
    if |s| == 0 then ""
    else if IsWhitespace(s[0]) then
      var rest := TrimStart(s);
      assert |rest| < |s|;
      PrintableAsciiIsNotWhitespace('_');
      "_" + ReplaceWhitespaceRuns(rest)
    else [s[0]] + ReplaceWhitespaceRuns(s[1..])
  }

  /** A character-by-character reference for the replacement: a
      non-whitespace character is kept, a whitespace character that opens a
      run (`afterWhitespace` false) becomes `_`, and one that continues a
      run disappears. */
  function RunStarts(s: string, afterWhitespace: bool): string
  {
    if |s| == 0 then ""
    else if !IsWhitespace(s[0]) then [s[0]] + RunStarts(s[1..], false)
    else if afterWhitespace then RunStarts(s[1..], true)
    else "_" + RunStarts(s[1..], true)
  }

  lemma {:induction false} RunStartsAfterWhitespace(t: string)
    ensures RunStarts(t, true) == ReplaceWhitespaceRuns(TrimStart(t))
    ensures RunStarts(t, false) == ReplaceWhitespaceRuns(t)
    decreases |t|
  {
    if |t| > 0 {
      RunStartsAfterWhitespace(t[1..]);
      if IsWhitespace(t[0]) {
        assert TrimStart(t) == TrimStart(t[1..]);
      }
    }
  }

  /** The replacement agrees with the character-by-character reference. */
  lemma ReplaceMatchesRunStarts(s: string)
    ensures ReplaceWhitespaceRuns(s) == RunStarts(s, false)
  {
    RunStartsAfterWhitespace(s);
  }

  /** The replacement leaves no whitespace behind, so replacing twice is replacing once. */
  lemma ReplaceIdempotent(s: string)
    ensures ReplaceWhitespaceRuns(ReplaceWhitespaceRuns(s)) == ReplaceWhitespaceRuns(s)
  {
    NoWhitespaceUnchanged(ReplaceWhitespaceRuns(s));
  }

  /** A string without whitespace is left as it is. */
  lemma {:induction false} NoWhitespaceUnchanged(s: string)
    ensures NoWhitespace(s) ==> ReplaceWhitespaceRuns(s) == s
    decreases |s|
  {
    if |s| > 0 && NoWhitespace(s) {
      NoWhitespaceUnchanged(s[1..]);
      assert s == [s[0]] + s[1..];
    }
  }

  /** The characters that are neither whitespace nor `_`, in order. */
  function Visible(s: string): string
  {
    if |s| == 0 then ""
    else if IsWhitespace(s[0]) || s[0] == '_' then Visible(s[1..])
    else [s[0]] + Visible(s[1..])
  }

  lemma {:induction false} VisibleOfWhitespace(s: string)
    requires AllWhitespace(s)
    ensures Visible(s) == ""
  {
    if |s| > 0 {
      VisibleOfWhitespace(s[1..]);
    }
  }

  lemma {:induction false} VisibleAppend(a: string, b: string)
    ensures Visible(a + b) == Visible(a) + Visible(b)
  {
    if |a| == 0 {
      assert a + b == b;
    } else {
      assert (a + b)[1..] == a[1..] + b;
      VisibleAppend(a[1..], b);
    }
  }

  /** The replacement only touches whitespace: every other character
      survives, in order, and none is added apart from underscores. */
  lemma {:induction false} ReplaceKeepsVisible(s: string)
    ensures Visible(ReplaceWhitespaceRuns(s)) == Visible(s)
    decreases |s|
  {
    if |s| > 0 {
      if IsWhitespace(s[0]) {
        var rest := TrimStart(s);
        var k := |s| - |rest|;
        assert s == s[..k] + rest;
        VisibleAppend(s[..k], rest);
        VisibleOfWhitespace(s[..k]);
        ReplaceKeepsVisible(rest);
        VisibleAppend("_", ReplaceWhitespaceRuns(rest));
      } else {
        ReplaceKeepsVisible(s[1..]);
        VisibleAppend([s[0]], ReplaceWhitespaceRuns(s[1..]));
      }
    }
  }

  const FilePrefix: string := "Orcamento_"
  const FileSuffix: string := ".pdf"

  /** Printable ASCII other than the space is never whitespace. */
  lemma PrintableAsciiIsNotWhitespace(c: char)
    requires 0x21 <= c as int <= 0x7E
    ensures !IsWhitespace(c)
  {
    BelowEveryCode(OtherWhitespaceCodes, c as int);
  }

  lemma AffixesHaveNoWhitespace()
    ensures NoWhitespace(FilePrefix) && NoWhitespace(FileSuffix)
  {
    forall i | 0 <= i < |FilePrefix| ensures !IsWhitespace(FilePrefix[i]) {
      PrintableAsciiIsNotWhitespace(FilePrefix[i]);
    }
    forall i | 0 <= i < |FileSuffix| ensures !IsWhitespace(FileSuffix[i]) {
      PrintableAsciiIsNotWhitespace(FileSuffix[i]);
    }
  }

  lemma NoWhitespaceAppend(a: string, b: string)
    requires NoWhitespace(a) && NoWhitespace(b)
    ensures NoWhitespace(a + b)
  {
    forall i | 0 <= i < |a + b| ensures !IsWhitespace((a + b)[i]) {
      if i < |a| { assert (a + b)[i] == a[i]; } else { assert (a + b)[i] == b[i - |a|]; }
    }
  }

  /** Slicing a three-part concatenation gives back its parts. */
  lemma PartsOfConcat(p: string, m: string, q: string)
    ensures var r := p + m + q;
      r[..|p|] == p && r[|r| - |q|..] == q && r[|p|..|r| - |q|] == m
  {
    var r := p + m + q;
    assert r[..|p|] == p;
    assert r[|r| - |q|..] == q;
    assert r[|p|..|r| - |q|] == m;
  }

  /** The download name `Orcamento_<name>.pdf`, where `<name>` is the
      project name with each whitespace run turned into one underscore:
      never empty, and free of whitespace. */
  function PdfFileName(projectNameInput: string): (r: string)
    ensures |r| > |FilePrefix| + |FileSuffix|
    ensures r[..|FilePrefix|] == FilePrefix && r[|r| - |FileSuffix|..] == FileSuffix
    ensures r[|FilePrefix|..|r| - |FileSuffix|] == ReplaceWhitespaceRuns(ProjectName(projectNameInput))
    ensures NoWhitespace(r)
  {
    var middle := ReplaceWhitespaceRuns(ProjectName(projectNameInput));
    AffixesHaveNoWhitespace();
    NoWhitespaceAppend(FilePrefix, middle);
    NoWhitespaceAppend(FilePrefix + middle, FileSuffix);
    PartsOfConcat(FilePrefix, middle, FileSuffix);
    FilePrefix + middle + FileSuffix
  }

  /** The file name keeps the project name's visible characters in order. */
  lemma FileNameKeepsName(projectNameInput: string)
    ensures var r := PdfFileName(projectNameInput);
      Visible(r[|FilePrefix|..|r| - |FileSuffix|]) == Visible(ProjectName(projectNameInput))
  {
    ReplaceKeepsVisible(ProjectName(projectNameInput));
  }

  // ---------------------------------------------------------------------
  // Proposal text

  const DefaultProposal: string :=
    "Or\U{00E7}amento gerado automaticamente pelo sistema Coffee and Tea Studio. Agradecemos a prefer\U{00EA}ncia."

  /** `aiText || default`: the generated text verbatim, or the fixed
      sentence when there is none or it is empty. Never empty. */
  function ProposalText(aiText: Option<string>): (r: string)
    ensures |r| > 0
    ensures aiText.Some? && aiText.value != "" ==> r == aiText.value
    ensures aiText.None? || aiText.value == "" ==> r == DefaultProposal
  {
    if aiText.Some? && aiText.value != "" then aiText.value else DefaultProposal
  }
}
