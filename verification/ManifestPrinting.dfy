/** Printing parsed manifests, and exactly when parsing the print gives the blocks again. */
module ManifestPrinting {
  import opened Wrappers
  import opened Roles
  import opened Sequences
  import opened Manifest

  function PrintBlock(b: TaggedBlock): string {
    Display(b.role) + "\n" + b.content + "\n"
  }

  function Print(blocks: seq<TaggedBlock>): string {
    if blocks == [] then [] else PrintBlock(blocks[0]) + Print(blocks[1..])
  }

  /** The lines of a printed block. */
  function PrintedLines(b: TaggedBlock): seq<string> {
    [Display(b.role)] + StripAll(Split(b.content))
  }

  function AllPrintedLines(blocks: seq<TaggedBlock>): seq<string> {
    if blocks == [] then [] else PrintedLines(blocks[0]) + AllPrintedLines(blocks[1..])
  }

  /** A block as parsing gives it: some tag names its role, and its content is body that begins with text. */
  ghost predicate Printable(b: TaggedBlock) {
    && WellFormed(b.role)
    && (b.content != [] ==> b.content[0] != '\n')
    && NoTags(Split(b.content))
  }

  ghost predicate NoTags(lines: seq<string>) {
    forall i :: 0 <= i < |lines| ==> !IsTag(lines[i])
  }

  ghost predicate AllPrintable(blocks: seq<TaggedBlock>) {
    forall i :: 0 <= i < |blocks| ==> Printable(blocks[i])
  }

  /** The content as it is read back from a print. */
  function Reread(content: string): string {
    Content(StripAll(Split(content)))
  }

  /** The same roles and contents; line numbers may differ. */
  ghost predicate SameBlocks(a: seq<TaggedBlock>, b: seq<TaggedBlock>) {
    |a| == |b| && forall i :: 0 <= i < |a| ==> a[i].role == b[i].role && a[i].content == b[i].content
  }

  /** The same roles, and the contents as they are read back. */
  ghost predicate RereadBlocks(a: seq<TaggedBlock>, b: seq<TaggedBlock>) {
    |a| == |b| && forall i :: 0 <= i < |a| ==> a[i].role == b[i].role && a[i].content == Reread(b[i].content)
  }

  // ---- Tags ----

  /** A tag is trimmed, and its name is between the brackets. */
  lemma TagShape(t: string)
    ensures var s := "<@" + t + ">";
      Trim(s) == s && |s| >= 3 && s[..2] == "<@" && s[|s| - 1] == '>' && s[2..|s| - 1] == t
  {
    TrimEnds("<@" + t + ">");
  }

  lemma TagTextClean(t: string)
    requires TagText(t)
    ensures '\n' !in t && CrFree(t)
  {
    assert forall i :: 0 <= i < |t| ==> TagChar(t[i]);
  }

  lemma ParseTag(t: string)
    ensures ParseTagLine("<@" + t + ">") == match FromInner(t) case Ok(r) => Some(r) case Err(_) => None
  {
    TagShape(t);
  }

  lemma TagOfRole(r: AgentRole)
    requires WellFormed(r)
    ensures ParseTagLine(Display(r)) == Some(r) && StripCr(Display(r)) == Display(r) && '\n' !in Display(r)
  {
    TagOfWellFormed(r);
    RoleRoundTripIff(r);
    ParseTag(AsTag(r));
    TagTextClean(AsTag(r));
  }

  lemma {:induction false} TrimEndCr(s: string)
    ensures TrimEnd(s + "\r") == TrimEnd(s)
  {
    assert (s + "\r")[..|s|] == s;
  }

  lemma {:induction false} TrimStartCr(s: string)
    ensures TrimStart(s + "\r") == if TrimStart(s) == [] then [] else TrimStart(s) + "\r"
  {
    if s == [] {
      assert (s + "\r")[1..] == [];
    } else {
      assert (s + "\r")[1..] == s[1..] + "\r";
      TrimStartCr(s[1..]);
    }
  }

  /** A carriage return at the end does not decide whether a line is a tag. */
  lemma StripKeepsTag(line: string)
    ensures Trim(StripCr(line)) == Trim(line) && (IsTag(StripCr(line)) <==> IsTag(line))
  {
    var s := StripCr(line);
    if s != line {
      assert line == s + "\r";
      TrimStartCr(s);
      TrimEndCr(TrimStart(s));
    }
  }

  lemma {:induction false} StripKeepsBody(pieces: seq<string>)
    requires NoTags(pieces)
    ensures NoTags(StripAll(pieces))
  {
    if pieces != [] {
      StripKeepsTag(pieces[0]);
      StripKeepsBody(pieces[1..]);
    }
  }

  // ---- The lines of a print ----

  lemma LinesOfBlock(b: TaggedBlock, u: string)
    requires WellFormed(b.role)
    ensures Lines(PrintBlock(b) + u) == PrintedLines(b) + Lines(u)
  {
    var tag := Display(b.role);
    TagOfRole(b.role);
    SplitAfter(tag, b.content);
    StripCons(tag, Split(b.content));
    LinesOfText(tag + "\n" + b.content, u);
  }

  lemma {:induction false} LinesOfPrint(blocks: seq<TaggedBlock>)
    requires AllPrintable(blocks)
    ensures Lines(Print(blocks)) == AllPrintedLines(blocks)
  {
    if blocks != [] {
      assert Printable(blocks[0]);
      LinesOfBlock(blocks[0], Print(blocks[1..]));
      LinesOfPrint(blocks[1..]);
    }
  }

  /** A tag line and body lines at the end of a manifest make one more block. */
  lemma {:induction false} BlocksWithBody(lines: seq<string>, tag: string, role: AgentRole, body: seq<string>)
    requires ParseTagLine(tag) == Some(role) && NoTags(body)
    ensures BlocksOf(lines + [tag] + body) == BlocksOf(lines) + [TaggedBlock(role, |lines| + 1, Content(body))]
    decreases |body|
  {
    if body == [] {
      BlocksSnoc(lines, tag);
      assert lines + [tag] + body == lines + [tag];
    } else {
      var n := |body| - 1;
      assert !IsTag(body[n]);
      BlocksWithBody(lines, tag, role, body[..n]);
      BlocksSnoc(lines + [tag] + body[..n], body[n]);
      LastApart(lines + [tag], body);
    }
  }

  lemma {:induction false} AllPrintedSnoc(blocks: seq<TaggedBlock>, b: TaggedBlock)
    ensures AllPrintedLines(blocks + [b]) == AllPrintedLines(blocks) + PrintedLines(b)
  {
    if blocks == [] {
      assert AllPrintedLines([b]) == PrintedLines(b) + AllPrintedLines([b][1..]);
    } else {
      assert (blocks + [b])[1..] == blocks[1..] + [b];
      AllPrintedSnoc(blocks[1..], b);
    }
  }

  lemma PrintedOneMore(lines: seq<string>, b: TaggedBlock)
    requires Printable(b)
    ensures BlocksOf(lines + PrintedLines(b)) == BlocksOf(lines) + [TaggedBlock(b.role, |lines| + 1, Reread(b.content))]
  {
    var body := StripAll(Split(b.content));
    TagOfRole(b.role);
    StripKeepsBody(Split(b.content));
    BlocksWithBody(lines, Display(b.role), b.role, body);
    Associate(lines, [Display(b.role)], body);
  }

  lemma RereadSnoc(a: seq<TaggedBlock>, b: seq<TaggedBlock>, x: TaggedBlock, y: TaggedBlock)
    requires RereadBlocks(a, b) && x.role == y.role && x.content == Reread(y.content)
    ensures RereadBlocks(a + [x], b + [y])
  {
  }

  lemma {:induction false} PrintedBlocks(blocks: seq<TaggedBlock>)
    requires AllPrintable(blocks)
    ensures RereadBlocks(BlocksOf(AllPrintedLines(blocks)), blocks)
    decreases |blocks|
  {
    if blocks != [] {
      var n := |blocks| - 1;
      var b, before := blocks[n], AllPrintedLines(blocks[..n]);
      PrintedBlocks(blocks[..n]);
      AllPrintedSnoc(blocks[..n], b);
      PrintedOneMore(before, b);
      RereadSnoc(BlocksOf(before), blocks[..n], TaggedBlock(b.role, |before| + 1, Reread(b.content)), b);
      LastApart([], blocks);
    }
  }

  // ---- What is read back ----

  predicate EndsInCr(line: string) {
    line != [] && line[|line| - 1] == '\r'
  }

  /** No line of the content ends in a carriage return. */
  predicate NoCrEnds(pieces: seq<string>) {
    forall i :: 0 <= i < |pieces| ==> !EndsInCr(pieces[i])
  }

  /** Pieces of a content that begins with text are its body. */
  lemma ContentOfSplit(c: string)
    requires c != [] ==> c[0] != '\n'
    ensures Content(Split(c)) == c
  {
    ContentIs(Split(c));
    JoinSplit(c);
    if c == [] {
      assert Split(c)[1..] == [];
    }
  }

  lemma {:induction false} StripNothing(pieces: seq<string>)
    requires NoCrEnds(pieces)
    ensures StripAll(pieces) == pieces
  {
    if pieces != [] {
      StripNothing(pieces[1..]);
    }
  }

  /** Stripping shortens the text as soon as one line ends in a carriage return. */
  lemma {:induction false} StripShortens(pieces: seq<string>)
    ensures |StripAll(pieces)| == |pieces| && TextLength(StripAll(pieces)) <= TextLength(pieces)
    ensures TextLength(StripAll(pieces)) == TextLength(pieces) ==> NoCrEnds(pieces)
  {
    if pieces != [] {
      StripShortens(pieces[1..]);
    }
  }

  lemma ContentLength(body: seq<string>)
    ensures |Content(body)| <= TextLength(body) + if body == [] then 0 else |body| - 1
  {
    ContentIs(body);
    JoinLength(DropLeadingEmpty(body));
    Shorter(body);
  }

  /** A content is read back exactly when none of its lines ends in a carriage return. */
  lemma RereadIff(c: string)
    requires c != [] ==> c[0] != '\n'
    ensures Reread(c) == c <==> NoCrEnds(Split(c))
  {
    var pieces := Split(c);
    if NoCrEnds(pieces) {
      StripNothing(pieces);
      ContentOfSplit(c);
    }
    JoinSplit(c);
    JoinLength(pieces);
    StripShortens(pieces);
    ContentLength(StripAll(pieces));
  }

  ghost predicate NoCrLines(blocks: seq<TaggedBlock>) {
    forall i :: 0 <= i < |blocks| ==> NoCrEnds(Split(blocks[i].content))
  }

  /** Printing printable blocks and parsing gives them again, exactly when no content line ends in a carriage return. */
  lemma PrintParsesIff(blocks: seq<TaggedBlock>)
    requires AllPrintable(blocks)
    ensures SameBlocks(BlocksOf(Lines(Print(blocks))), blocks) <==> NoCrLines(blocks)
  {
    var again := BlocksOf(Lines(Print(blocks)));
    LinesOfPrint(blocks);
    PrintedBlocks(blocks);
    forall i | 0 <= i < |blocks| ensures again[i].content == blocks[i].content <==> NoCrEnds(Split(blocks[i].content)) {
      assert Printable(blocks[i]);
      RereadIff(blocks[i].content);
    }
  }

  // ---- Parsed blocks are printable ----

  ghost predicate NewlineFree(lines: seq<string>) {
    forall i :: 0 <= i < |lines| ==> '\n' !in lines[i]
  }

  lemma {:induction false} LinesNewlineFree(s: string)
    ensures NewlineFree(Lines(s))
    decreases |s|
  {
    if s != [] {
      var n := NewlineAt(s);
      if n < |s| {
        CutAtNewline(s);
        LinesNewlineFree(s[n + 1..]);
      } else {
        NoNewline(s);
      }
    }
  }

  lemma {:induction false} SplitSnoc(c: string, line: string)
    requires '\n' !in line
    ensures Split(c + "\n" + line) == Split(c) + [line]
    decreases |c|
  {
    var n := NewlineAt(c);
    SplitPlain(line);
    if n == |c| {
      NoNewline(c);
      SplitPlain(c);
      SplitAfter(c, line);
    } else {
      var a, b := c[..n], c[n + 1..];
      CutAtNewline(c);
      Regroup(a, "\n", b, line);
      SplitAfter(a, b + "\n" + line);
      SplitAfter(a, b);
      SplitSnoc(b, line);
      Associate([a], Split(b), [line]);
    }
  }

  lemma SplitAppended(content: string, line: string)
    requires '\n' !in line
    ensures Split(AppendLine(content, line)) == if content == [] then [line] else Split(content) + [line]
  {
    SplitPlain(line);
    SplitSnoc(content, line);
  }

  lemma AppendPrintable(b: TaggedBlock, line: string)
    requires Printable(b) && '\n' !in line && !IsTag(line)
    ensures Printable(b.(content := AppendLine(b.content, line)))
  {
    SplitAppended(b.content, line);
  }

  lemma TagWellFormed(line: string)
    requires IsTag(line)
    ensures WellFormed(ParseTagLine(line).value)
  {
    var trimmed := Trim(line);
    ParsedIsWellFormed(trimmed[2..|trimmed| - 1]);
  }

  lemma {:induction false} BlocksPrintable(lines: seq<string>)
    requires NewlineFree(lines)
    ensures AllPrintable(BlocksOf(lines))
  {
    if lines != [] {
      var n := |lines| - 1;
      var before := BlocksOf(lines[..n]);
      BlocksPrintable(lines[..n]);
      assert '\n' !in lines[n];
      if IsTag(lines[n]) {
        TagWellFormed(lines[n]);
        assert !IsTag([]);
      } else if before != [] {
        AppendPrintable(before[|before| - 1], lines[n]);
      }
    }
  }

  // ---- The round trip ----

  function Parsed(input: string): seq<TaggedBlock> {
    BlocksOf(Lines(input))
  }

  /** Parse, print, parse gives the same roles and contents exactly if no parsed content line ends in a CR. */
  lemma RoundTripIff(input: string)
    ensures SameBlocks(Parsed(Print(Parsed(input))), Parsed(input)) <==> NoCrLines(Parsed(input))
  {
    LinesNewlineFree(input);
    BlocksPrintable(Lines(input));
    PrintParsesIff(Parsed(input));
  }

  ghost predicate AllCrFree(lines: seq<string>) {
    forall i :: 0 <= i < |lines| ==> CrFree(lines[i])
  }

  lemma {:induction false} LinesCrFree(s: string)
    requires CrFree(s)
    ensures AllCrFree(Lines(s)) && AllCrFree(Split(s))
    decreases |s|
  {
    var n := NewlineAt(s);
    if n < |s| {
      CutAtNewline(s);
      LinesCrFree(s[n + 1..]);
    } else {
      assert s[..n] == s;
    }
  }

  lemma {:induction false} BlocksCrFree(lines: seq<string>)
    requires AllCrFree(lines)
    ensures forall i :: 0 <= i < |BlocksOf(lines)| ==> CrFree(BlocksOf(lines)[i].content)
  {
    if lines != [] {
      BlocksCrFree(lines[..|lines| - 1]);
      assert CrFree(lines[|lines| - 1]);
    }
  }

  /** In particular the round trip holds for every input without carriage returns. */
  lemma ParsePrintParse(input: string)
    requires CrFree(input)
    ensures SameBlocks(Parsed(Print(Parsed(input))), Parsed(input))
  {
    LinesCrFree(input);
    BlocksCrFree(Lines(input));
    forall i | 0 <= i < |Parsed(input)| ensures NoCrEnds(Split(Parsed(input)[i].content)) {
      LinesCrFree(Parsed(input)[i].content);
    }
    RoundTripIff(input);
  }

  /** A print holds each block's bracketed tag and content, each ended by a newline. */
  lemma PrintIs(b: TaggedBlock, rest: seq<TaggedBlock>)
    ensures Print([]) == ""
    ensures Print([b] + rest) == "<@" + AsTag(b.role) + ">\n" + b.content + "\n" + Print(rest)
  {
    assert ([b] + rest)[1..] == rest;
  }
}
