/**
 Turning an uploaded file into text: the extension decides which reader runs,
 and the PDF and DOCX readers assemble text from what their parsing libraries
 return (pages of words, an optional document body).
 */
module Extraction {
  import opened Wrappers
  import opened Text
  import opened Words

  /** The reader an extension selects; `Unsupported` is the controller's `_ => null` arm. */
  datatype Format = Pdf | Docx | Txt | Unsupported

  /** What the parsing libraries produce for the uploaded bytes: the words of
      each PDF page in extraction order, the inner text of the DOCX body if the
      package has one, and the UTF-8 decoding of the bytes. */
  datatype Parsed = Parsed(pdfPages: seq<seq<string>>, docxBody: Option<string>, txtText: string)

  /** The directory separator of a Unix host. */
  predicate IsDirectorySeparator(c: char)
  {
    c == '/'
  }

  /** The scan of `Path.GetExtension` over positions below `i`. */
  function ScanExtension(path: string, i: nat): string
    requires i <= |path|
  {
    if i == 0 then ""
    else if path[i - 1] == '.' then (if i == |path| then "" else path[i - 1..])
    else if IsDirectorySeparator(path[i - 1]) then ""
    else ScanExtension(path, i - 1)
  }

  /** `Path.GetExtension`: the suffix from the last `.` of the file name part,
      or `""` when there is none or the name ends in `.`. */
  function GetExtension(path: string): (ext: string)
    ensures ext == "" || (2 <= |ext| <= |path| && ext[0] == '.' && ext == path[|path| - |ext|..])
    ensures forall k :: 1 <= k < |ext| ==> ext[k] != '.' && !IsDirectorySeparator(ext[k])
  {
    ScanExtensionShape(path, |path|);
    ScanExtension(path, |path|)
  }

  lemma {:induction false} ScanExtensionShape(path: string, i: nat)
    requires i <= |path|
    requires forall k :: i <= k < |path| ==> path[k] != '.' && !IsDirectorySeparator(path[k])
    ensures var ext := ScanExtension(path, i);
      && (ext == "" || (2 <= |ext| <= |path| && ext[0] == '.' && ext == path[|path| - |ext|..]))
      && (forall k :: 1 <= k < |ext| ==> ext[k] != '.' && !IsDirectorySeparator(ext[k]))
    decreases i
  {
    if i > 0 && path[i - 1] != '.' && !IsDirectorySeparator(path[i - 1]) {
      ScanExtensionShape(path, i - 1);
    }
  }

  /** A name that ends in `.` followed by a non-empty extension without dots
      or separators has exactly that extension. */
  lemma {:induction false} ExtensionOfStemDotExt(stem: string, e: string)
    requires |e| > 0
    requires forall k :: 0 <= k < |e| ==> e[k] != '.' && !IsDirectorySeparator(e[k])
    ensures GetExtension(stem + "." + e) == "." + e
  {
    var path := stem + "." + e;
    ScanSkipsExtension(path, |stem| + 1, |path|);
    assert path[|stem|] == '.';
    assert path[|stem|..] == "." + e;
  }

  lemma {:induction false} ScanSkipsExtension(path: string, lo: nat, i: nat)
    requires lo <= i <= |path|
    requires forall k :: lo <= k < |path| ==> path[k] != '.' && !IsDirectorySeparator(path[k])
    ensures ScanExtension(path, i) == ScanExtension(path, lo)
    decreases i
  {
    if i > lo {
      ScanSkipsExtension(path, lo, i - 1);
    }
  }

  /** Lower-casing a path lower-cases its extension and nothing else about it. */
  lemma {:induction false} ExtensionCommutesWithLower(path: string, i: nat)
    requires i <= |path|
    ensures ScanExtension(ToLower(path), i) == ToLower(ScanExtension(path, i))
    decreases i
  {
    var lp := ToLower(path);
    if i > 0 {
      assert lp[i - 1] == LowerChar(path[i - 1]);
      if path[i - 1] == '.' {
        if i < |path| {
          assert lp[i - 1..] == ToLower(path[i - 1..]);
        }
      } else if !IsDirectorySeparator(path[i - 1]) {
        ExtensionCommutesWithLower(path, i - 1);
      }
    }
  }

  /** `name` ends in `suffix` once ASCII letters are lower-cased. */
  predicate EndsWithIgnoringCase(name: string, suffix: string)
  {
    |suffix| <= |name| && ToLower(name[|name| - |suffix|..]) == suffix
  }

  /** The reader chosen by the lower-cased extension of the uploaded file's name. */
  function FormatOf(fileName: string): (f: Format)
    ensures f == Pdf ==> EndsWithIgnoringCase(fileName, ".pdf")
    ensures f == Docx ==> EndsWithIgnoringCase(fileName, ".docx")
    ensures f == Txt ==> EndsWithIgnoringCase(fileName, ".txt")
  {
    var ext := ToLower(GetExtension(fileName));
    LowerExtensionIsSuffix(fileName);
    if ext == ".pdf" then Pdf
    else if ext == ".docx" then Docx
    else if ext == ".txt" then Txt
    else Unsupported
  }

  /** The lower-cased extension is the lower-cased tail of the name. */
  lemma LowerExtensionIsSuffix(fileName: string)
    ensures var l := ToLower(GetExtension(fileName));
      |l| <= |fileName| && ToLower(fileName[|fileName| - |l|..]) == l
  {
  }

  /** The dispatch ignores the case of ASCII letters in the file name:
      `report.PDF` and `report.pdf` select the same reader. */
  lemma FormatIgnoresCase(name1: string, name2: string)
    requires ToLower(name1) == ToLower(name2)
    ensures FormatOf(name1) == FormatOf(name2)
  {
    ExtensionCommutesWithLower(name1, |name1|);
    ExtensionCommutesWithLower(name2, |name2|);
    ToLowerIdempotent(GetExtension(name1));
    ToLowerIdempotent(GetExtension(name2));
  }

  /** Which reader a name selects, for the three accepted extensions in any
      letter case and for an extension outside them. */
  lemma FormatOfExtension(stem: string, e: string)
    requires |e| > 0
    requires forall k :: 0 <= k < |e| ==> e[k] != '.' && !IsDirectorySeparator(e[k])
    ensures ToLower(e) == "pdf" ==> FormatOf(stem + "." + e) == Pdf
    ensures ToLower(e) == "docx" ==> FormatOf(stem + "." + e) == Docx
    ensures ToLower(e) == "txt" ==> FormatOf(stem + "." + e) == Txt
    ensures ToLower(e) !in {"pdf", "docx", "txt"} ==> FormatOf(stem + "." + e) == Unsupported
  {
    ExtensionOfStemDotExt(stem, e);
    assert ToLower("." + e) == "." + ToLower(e);
    var l := ToLower(e);
    assert ("." + l)[1..] == l;
    assert ".pdf"[1..] == "pdf" && ".docx"[1..] == "docx" && ".txt"[1..] == "txt";
    if l == "txt" {
      assert ToLower("." + e) == ".txt";
    }
  }

  /** Names without a dot have no extension and are refused. */
  lemma NoDotIsUnsupported(name: string)
    requires forall k :: 0 <= k < |name| ==> name[k] != '.'
    ensures FormatOf(name) == Unsupported
  {
    ScanWithoutDot(name, |name|);
  }

  lemma {:induction false} ScanWithoutDot(path: string, i: nat)
    requires i <= |path|
    requires forall k :: 0 <= k < |path| ==> path[k] != '.'
    ensures ScanExtension(path, i) == ""
    decreases i
  {
    if i > 0 && !IsDirectorySeparator(path[i - 1]) {
      ScanWithoutDot(path, i - 1);
    }
  }

  // ----- PDF: words in page order, each followed by one space, then trimmed -----

  /** The words of all pages, pages in order and words in order within a page. */
  function Flatten(pages: seq<seq<string>>): (ws: seq<string>)
  {
    if |pages| == 0 then [] else Flatten(pages[..|pages| - 1]) + pages[|pages| - 1]
  }

  /** The builder's contents: every word followed by a single space. */
  function Spaced(words: seq<string>): string
  {
    if |words| == 0 then "" else Spaced(words[..|words| - 1]) + words[|words| - 1] + " "
  }

  /** The text `ReadPdfFile` returns: it never begins or ends with
      whitespace, and it is empty when the pages hold no words. */
  function PdfText(pages: seq<seq<string>>): (t: string)
    ensures |t| == 0 || (!IsWhiteSpace(t[0]) && !IsWhiteSpace(t[|t| - 1]))
    ensures |Flatten(pages)| == 0 ==> t == ""
  {
    Trim(Spaced(Flatten(pages)))
  }

  /** `ReadPdfFile`'s nested loops over pages and their words. */
  method ReadPdf(pages: seq<seq<string>>) returns (text: string)
    ensures text == PdfText(pages)
  {
    var sb := "";
    var p := 0;
    while p < |pages|
      invariant p <= |pages|
      invariant sb == Spaced(Flatten(pages[..p]))
    {
      var words := pages[p];
      var w := 0;
      assert Flatten(pages[..p]) + words[..0] == Flatten(pages[..p]);
      while w < |words|
        invariant w <= |words|
        invariant sb == Spaced(Flatten(pages[..p]) + words[..w])
      {
        assert Flatten(pages[..p]) + words[..w + 1] == (Flatten(pages[..p]) + words[..w]) + [words[w]];
        sb := sb + words[w] + " ";
        w := w + 1;
      }
      assert pages[..p + 1][..p] == pages[..p];
      assert words[..w] == words;
      p := p + 1;
    }
    assert pages[..p] == pages;
    text := Trim(sb);
  }

  /** A word as PdfPig emits it: non-empty and free of whitespace. */
  predicate IsPdfWord(w: string)
  {
    |w| > 0 && forall i :: 0 <= i < |w| ==> !IsWhiteSpace(w[i])
  }

  /** The spaced words are the words joined by single spaces plus one final space. */
  lemma {:induction false} SpacedIsJoinPlusSpace(words: seq<string>)
    requires |words| > 0
    ensures Spaced(words) == JoinWords(words) + " "
  {
    if |words| > 1 {
      var init := words[..|words| - 1];
      SpacedIsJoinPlusSpace(init);
      JoinWordsSnoc(init, words[|words| - 1]);
      assert words == init + [words[|words| - 1]];
    } else {
      assert words[..0] == [];
    }
  }

  /** Joining with one more word at the end. */
  lemma {:induction false} JoinWordsSnoc(ws: seq<string>, w: string)
    requires |ws| > 0
    ensures JoinWords(ws + [w]) == JoinWords(ws) + " " + w
  {
    if |ws| > 1 {
      JoinWordsSnoc(ws[1..], w);
      assert (ws + [w])[1..] == ws[1..] + [w];
    }
  }

  /** Every joined word starts and ends with a non-whitespace character. */
  lemma {:induction false} JoinWordsEnds(ws: seq<string>)
    requires |ws| > 0 && forall k :: 0 <= k < |ws| ==> IsPdfWord(ws[k])
    ensures var j := JoinWords(ws);
      |j| > 0 && !IsWhiteSpace(j[0]) && !IsWhiteSpace(j[|j| - 1])
  {
    if |ws| > 1 {
      JoinWordsEnds(ws[1..]);
    }
  }

  /** For whitespace-free words the PDF text is exactly the words of all pages
      joined by single spaces: no word is lost and no two words run together. */
  lemma PdfTextJoinsWords(pages: seq<seq<string>>)
    requires forall k :: 0 <= k < |Flatten(pages)| ==> IsPdfWord(Flatten(pages)[k])
    ensures PdfText(pages) == JoinWords(Flatten(pages))
  {
    var ws := Flatten(pages);
    if |ws| > 0 {
      SpacedIsJoinPlusSpace(ws);
      JoinWordsEnds(ws);
      var j := JoinWords(ws);
      assert TrimEnd(j + " ") == j by {
        assert (j + " ")[..|j + " "| - 1] == j;
      }
    }
  }

  /** ... so splitting the PDF text for the word count recovers exactly the
      page words, and the count is their number. */
  lemma PdfWordCount(pages: seq<seq<string>>)
    requires forall k :: 0 <= k < |Flatten(pages)| ==> IsPdfWord(Flatten(pages)[k])
    ensures Split(PdfText(pages)) == Flatten(pages)
    ensures WordCount(PdfText(pages)) == |Flatten(pages)|
  {
    PdfTextJoinsWords(pages);
    var ws := Flatten(pages);
    PdfWordsAreWords(ws);
    SplitJoinWords(ws);
    assert Split(PdfText(pages)) == ws;
    assert WordCount(PdfText(pages)) == |Split(PdfText(pages))|;
  }

  /** A PDF word is a word of the count: it holds none of the four separators. */
  lemma PdfWordsAreWords(ws: seq<string>)
    requires forall k :: 0 <= k < |ws| ==> IsPdfWord(ws[k])
    ensures forall k :: 0 <= k < |ws| ==> IsWord(ws[k])
  {
    forall k | 0 <= k < |ws| ensures IsWord(ws[k]) {
      assert IsPdfWord(ws[k]);
    }
  }

  // ----- DOCX and plain text -----

  /** The result of the `switch`: the chosen reader's text, or `None` for an
      unsupported extension. */
  function Extract(format: Format, parsed: Parsed): (text: Option<string>)
    ensures text.None? <==> format == Unsupported
  {
    match format
    case Pdf => Some(PdfText(parsed.pdfPages))
    case Docx => Some(OrEmpty(parsed.docxBody))
    case Txt => Some(parsed.txtText)
    case Unsupported => None
  }

  /** A `.txt` upload is passed through as decoded; a DOCX without a body
      gives the empty text, not an error. */
  lemma TxtAndDocxTexts(parsed: Parsed)
    ensures Extract(Txt, parsed) == Some(parsed.txtText)
    ensures parsed.docxBody.None? ==> Extract(Docx, parsed) == Some("")
    ensures parsed.docxBody.Some? ==> Extract(Docx, parsed) == Some(parsed.docxBody.value)
  {
  }
}
