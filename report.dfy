/** What `main` does with the frame once the loop is over: the console table's description cell, the
    save prompt, and the plain-text export written by `save_to_txt`. */
module Report {
  import opened Options
  import opened Listings
  import opened Scraper
  import opened Seqs

  function Min(a: int, b: int): int
  {
    if a <= b then a else b
  }

  /** The table's Description cell: `(d[:20] + "...") if d else "N/A"`. */
  function DescriptionCell(d: string): (cell: string)
    ensures |cell| <= 23
    ensures cell == "N/A" <==> d == ""
    ensures d != "" ==> (|cell| == Min(20, |d|) + 3 && cell[|cell| - 3..] == "..."
                         && cell[..|cell| - 3] == d[..|cell| - 3])
  {
    if d != "" then d[..Min(20, |d|)] + "..." else "N/A"
  }

  /** A description of at most 20 characters is shown whole, followed by the ellipsis. */
  lemma ShortDescriptionShownWhole(d: string)
    requires 0 < |d| <= 20
    ensures DescriptionCell(d) == d + "..."
  {
    assert d[..|d|] == d;
  }

  /** Two non-empty descriptions get the same cell exactly when their first 20 characters agree: the
      cell loses everything after the 20th character and nothing before it. */
  lemma CellDeterminesPrefix(d1: string, d2: string)
    requires d1 != "" && d2 != ""
    ensures DescriptionCell(d1) == DescriptionCell(d2) <==> d1[..Min(20, |d1|)] == d2[..Min(20, |d2|)]
  {
    var c1, c2 := DescriptionCell(d1), DescriptionCell(d2);
    if c1 == c2 {
      assert c1[..|c1| - 3] == d1[..Min(20, |d1|)];
      assert c2[..|c2| - 3] == d2[..Min(20, |d2|)];
    }
  }

  /** The save prompt: only the exact answer "y" saves. */
  predicate SaveRequested(answer: string): (b: bool)
    ensures b ==> !Declines(answer)
  {
    answer == "y"
  }

  /** The two prompts read answers differently: the continue check lower-cases, the save check does not.
      "Y" goes on to the next page yet does not save; "N" stops paging just as "n" does. */
  lemma PromptsDisagreeOnCase()
    ensures !Declines("Y") && !SaveRequested("Y")
    ensures Declines("N") && Declines("n")
  {
  }

  /** The name both exports are written under, in the working directory: `<title>_<location>_jobs.<ext>`. */
  function ExportFileName(jobTitle: string, jobLocation: string, ext: string): (name: string)
    ensures |name| == |jobTitle| + |jobLocation| + |ext| + 7
    ensures name[..|jobTitle| + 1] == jobTitle + "_"
    ensures name[|jobTitle| + 1..|jobTitle| + 1 + |jobLocation|] == jobLocation
    ensures name[|name| - |ext| - 6..] == "_jobs." + ext
  {
    jobTitle + "_" + jobLocation + "_jobs." + ext
  }

  /** The file names the two exports are written under differ only in their extension. */
  lemma ExportNamesShareStem(jobTitle: string, jobLocation: string)
    ensures ExportFileName(jobTitle, jobLocation, "csv")[..|jobTitle| + |jobLocation| + 7]
         == ExportFileName(jobTitle, jobLocation, "txt")[..|jobTitle| + |jobLocation| + 7]
    ensures ExportFileName(jobTitle, jobLocation, "csv") != ExportFileName(jobTitle, jobLocation, "txt")
  {
    var c, t := ExportFileName(jobTitle, jobLocation, "csv"), ExportFileName(jobTitle, jobLocation, "txt");
    assert c[|c| - 1] == 'v' && t[|t| - 1] == 't';
  }

  /** One labelled line of a text-export block. */
  function Line(tag: string, value: string): string
  {
    tag + value + "\n"
  }

  /** The fixed rule that closes every block: a blank line, 50 dashes, and two newlines. */
  const Dashes: string := "--------------------------------------------------"

  const Rule: string := "\n" + Dashes + "\n\n"


  /** The labels of the five lines, in the order `save_to_txt` writes them. */
  const TitleTag: string := "Title: "
  const CompanyTag: string := "Company: "
  const LocationTag: string := "Location: "
  const LinkTag: string := "Link: "
  const DescriptionTag: string := "Description: "

  /** The characters of a block that are not field values: the five labels, five newlines and the rule. */
  const BlockOverhead: nat := |TitleTag| + |CompanyTag| + |LocationTag| + |LinkTag| + |DescriptionTag| + 5 + |Rule|

  /** What `save_to_txt` writes for one row: five labelled lines, then the rule. */
  function Block(r: Record): (b: string)
    ensures |b| == |r.title| + |r.company| + |r.location| + |r.link| + |r.description| + BlockOverhead
    ensures b[..|TitleTag|] == TitleTag && b[|b| - |Rule|..] == Rule
  {
    Line(TitleTag, r.title) + (Line(CompanyTag, r.company) + (Line(LocationTag, r.location)
      + (Line(LinkTag, r.link) + (Line(DescriptionTag, r.description) + Rule))))
  }

  /** The whole text export: one block per row, in frame order. */
  function TxtContents(rs: seq<Record>): (t: string)
    ensures |t| >= |rs| * BlockOverhead
    ensures t == "" <==> rs == []
  {
    if rs == [] then "" else Block(rs[0]) + TxtContents(rs[1..])
  }

  /** Exporting two frames one after the other writes the same text as exporting them concatenated:
      the export is the blocks of the rows, in order, and nothing else. */
  lemma {:induction false} TxtContentsAppend(a: seq<Record>, b: seq<Record>)
    ensures TxtContents(a + b) == TxtContents(a) + TxtContents(b)
  {
    if a == [] {
      assert a + b == b;
    } else {
      assert (a + b)[0] == a[0] && (a + b)[1..] == a[1..] + b;
      TxtContentsAppend(a[1..], b);
      AppendAssoc(Block(a[0]), TxtContents(a[1..]), TxtContents(b));
    }
  }

  lemma TxtContentsCons(r: Record, rs: seq<Record>)
    ensures TxtContents([r] + rs) == Block(r) + TxtContents(rs)
  {
    assert ([r] + rs)[0] == r && ([r] + rs)[1..] == rs;
  }

  /** The block of row `i` appears in the export right after the blocks of the rows before it. */
  lemma TxtContentsAt(rs: seq<Record>, i: nat)
    requires i < |rs|
    ensures TxtContents(rs) == TxtContents(rs[..i]) + (Block(rs[i]) + TxtContents(rs[i + 1..]))
  {
    var rest := [rs[i]] + rs[i + 1..];
    SplitAt(rs, i);
    TxtContentsAppend(rs[..i], rest);
    TxtContentsCons(rs[i], rs[i + 1..]);
  }

  /** Every row's block sits in the export after the blocks of the rows before it. */
  lemma TxtContentsBlocks(rs: seq<Record>)
    ensures forall i :: 0 <= i < |rs| ==> TxtContents(rs) == TxtContents(rs[..i]) + (Block(rs[i]) + TxtContents(rs[i + 1..]))
  {
    forall i | 0 <= i < |rs|
      ensures TxtContents(rs) == TxtContents(rs[..i]) + (Block(rs[i]) + TxtContents(rs[i + 1..]))
    {
      TxtContentsAt(rs, i);
    }
  }

  /** The position of the first newline in `s`, or `|s|` when there is none. */
  function FirstNewline(s: string): (i: nat)
    ensures i <= |s| && (i < |s| ==> s[i] == '\n')
    ensures forall j :: 0 <= j < i ==> s[j] != '\n'
  {
    if s == [] || s[0] == '\n' then 0 else 1 + FirstNewline(s[1..])
  }

  /** Reads a line that starts with `tag`: the text after the tag, and what follows its newline. */
  function ReadLine(s: string, tag: string): Option<(string, string)>
  {
    if |tag| <= |s| && s[..|tag|] == tag then
      var body := s[|tag|..];
      var i := FirstNewline(body);
      if i < |body| then Some((body[..i], body[i + 1..])) else None
    else None
  }

  predicate SingleLine(s: string) {
    forall j :: 0 <= j < |s| ==> s[j] != '\n'
  }

  lemma ReadLineOf(tag: string, value: string, rest: string)
    requires SingleLine(value)
    ensures ReadLine(Line(tag, value) + rest, tag) == Some((value, rest))
  {
    var s := Line(tag, value) + rest;
    assert s[..|tag|] == tag;
    var body := s[|tag|..];
    assert body == value + "\n" + rest;
    assert body[|value|] == '\n';
    assert body[..|value|] == value && body[|value| + 1..] == rest;
  }

  lemma ReadLineSome(s: string, tag: string)
    requires ReadLine(s, tag).Some?
    ensures SingleLine(ReadLine(s, tag).value.0)
    ensures s == Line(tag, ReadLine(s, tag).value.0) + ReadLine(s, tag).value.1
  {
    var body := s[|tag|..];
    var i := FirstNewline(body);
    assert body == body[..i] + "\n" + body[i + 1..];
    assert s == s[..|tag|] + body;
  }

  /** The middle of `head + middle + tail` is recovered by cutting off the two known ends. */
  lemma CutEnds(head: string, middle: string, tail: string)
    ensures var s := head + middle + tail;
      |head| + |tail| <= |s| && s[..|head|] == head && s[|s| - |tail|..] == tail
      && s[|head|..|s| - |tail|] == middle
  {
  }

  /** A string is its first `h` characters, its middle, and its last `t` characters. */
  lemma SplitEnds(s: string, h: nat, t: nat)
    requires h + t <= |s|
    ensures s == s[..h] + s[h..|s| - t] + s[|s| - t..]
  {
  }

  lemma LineThenRule(tag: string, value: string, rule: string)
    ensures tag + value + ("\n" + rule) == Line(tag, value) + rule
  {
  }

  /** Reads back one block of the text export. */
  function ParseBlock(s: string): Option<Record>
  {
    var line1 :- ReadLine(s, TitleTag);
    var line2 :- ReadLine(line1.1, CompanyTag);
    var line3 :- ReadLine(line2.1, LocationTag);
    var line4 :- ReadLine(line3.1, LinkTag);
    var s4 := line4.1;
    var tag, tail := DescriptionTag, "\n" + Rule;
    if |tag| + |tail| <= |s4| && s4[..|tag|] == tag && s4[|s4| - |tail|..] == tail then
      Some(Record(line1.0, line3.0, line2.0, line4.0, s4[|tag|..|s4| - |tail|]))
    else None
  }

  /** A block reads back as the row it was written from, whenever the title, company, location and
      link are single lines (the description may span several). */
  lemma BlockRoundTrip(r: Record)
    requires SingleLine(r.title) && SingleLine(r.company) && SingleLine(r.location) && SingleLine(r.link)
    ensures ParseBlock(Block(r)) == Some(r)
  {
    var s4 := Line(DescriptionTag, r.description) + Rule;
    var s3 := Line(LinkTag, r.link) + s4;
    var s2 := Line(LocationTag, r.location) + s3;
    var s1 := Line(CompanyTag, r.company) + s2;
    ReadLineOf(TitleTag, r.title, s1);
    ReadLineOf(CompanyTag, r.company, s2);
    ReadLineOf(LocationTag, r.location, s3);
    ReadLineOf(LinkTag, r.link, s4);
    var tail := "\n" + Rule;
    LineThenRule(DescriptionTag, r.description, Rule);
    CutEnds(DescriptionTag, r.description, tail);
  }

  /** Conversely, whatever reads back as a row is exactly that row's block: the reading is never
      fooled by text that was not written as a block. */
  lemma ParseBlockExact(s: string)
    requires ParseBlock(s).Some?
    ensures Block(ParseBlock(s).value) == s
  {
    ReadLineSome(s, TitleTag);
    var s1 := ReadLine(s, TitleTag).value.1;
    ReadLineSome(s1, CompanyTag);
    var s2 := ReadLine(s1, CompanyTag).value.1;
    ReadLineSome(s2, LocationTag);
    var s3 := ReadLine(s2, LocationTag).value.1;
    ReadLineSome(s3, LinkTag);
    var s4 := ReadLine(s3, LinkTag).value.1;
    var tail := "\n" + Rule;
    var d := s4[|DescriptionTag|..|s4| - |tail|];
    SplitEnds(s4, |DescriptionTag|, |tail|);
    LineThenRule(DescriptionTag, d, Rule);
  }

  /** The files the save step writes: the CSV under `csvName` (its content belongs to pandas) and the
      text export under `txtName`. */
  datatype Export = Export(csvName: string, txtName: string, txt: string)

  /** The end of `main`: on the answer "y" both files are written, named after the operator's own
      search terms, the text file holding every row's block in frame order; on any other answer
      nothing is written. */
  function SaveResults(answer: string, jobTitle: string, jobLocation: string, rs: seq<Record>): (e: Option<Export>)
    ensures e.Some? <==> SaveRequested(answer)
    ensures e.Some? ==> (e.value.txtName == ExportFileName(jobTitle, jobLocation, "txt")
                         && e.value.csvName == ExportFileName(jobTitle, jobLocation, "csv"))
    ensures e.Some? ==> e.value.txt == TxtContents(rs)
    ensures e.Some? ==> forall i :: 0 <= i < |rs| ==>
      e.value.txt == TxtContents(rs[..i]) + (Block(rs[i]) + TxtContents(rs[i + 1..]))
  {
    if SaveRequested(answer) then
      TxtContentsBlocks(rs);
      Some(Export(ExportFileName(jobTitle, jobLocation, "csv"), ExportFileName(jobTitle, jobLocation, "txt"),
                  TxtContents(rs)))
    else None
  }
}
