/** Role-tagged manifests: parsing into blocks, printing, and validating. */
module Manifest {
  import opened Wrappers
  import opened Roles
  import opened Sequences

  // ---- Lines ----

  /** The position of the first newline, or the length. */
  function NewlineAt(s: string): (n: nat)
    ensures n <= |s|
  {
    if s == [] || s[0] == '\n' then 0 else NewlineAt(s[1..]) + 1
  }

  lemma {:induction false} NewlineIsFirst(s: string)
    ensures '\n' !in s[..NewlineAt(s)] && (NewlineAt(s) < |s| ==> s[NewlineAt(s)] == '\n')
  {
    if s != [] && s[0] != '\n' {
      NewlineIsFirst(s[1..]);
      assert s[..NewlineAt(s)] == [s[0]] + s[1..][..NewlineAt(s[1..])];
    }
  }

  function StripCr(s: string): string {
    if s != [] && s[|s| - 1] == '\r' then s[..|s| - 1] else s
  }

  /** The lines of a text; the last one may lack its newline, and keeps a carriage return then. */
  function Lines(s: string): seq<string> {
    if s == [] then []
    else
      var n := NewlineAt(s);
      if n == |s| then [s] else [StripCr(s[..n])] + Lines(s[n + 1..])
  }

  /** The pieces between newlines. */
  function Split(s: string): seq<string> {
    var n := NewlineAt(s);
    if n == |s| then [s] else [s[..n]] + Split(s[n + 1..])
  }

  function JoinLines(lines: seq<string>): string {
    if lines == [] then [] else if |lines| == 1 then lines[0] else lines[0] + "\n" + JoinLines(lines[1..])
  }

  predicate CrFree(s: string) {
    '\r' !in s
  }

  lemma {:induction false} NewlineFound(a: string, b: string)
    requires '\n' !in a
    ensures NewlineAt(a + "\n" + b) == |a| && NewlineAt(a) == |a|
  {
    if a != [] {
      assert (a + "\n" + b)[1..] == a[1..] + "\n" + b;
      NewlineFound(a[1..], b);
    }
  }

  lemma CutAtNewline(s: string)
    requires NewlineAt(s) < |s|
    ensures var n := NewlineAt(s); s == s[..n] + "\n" + s[n + 1..] && '\n' !in s[..n]
  {
    NewlineIsFirst(s);
    Apart(s, NewlineAt(s));
  }

  lemma NoNewline(s: string)
    requires NewlineAt(s) == |s|
    ensures '\n' !in s
  {
    NewlineIsFirst(s);
    assert s[..|s|] == s;
  }

  lemma LinesAfter(a: string, b: string)
    requires '\n' !in a
    ensures Lines(a + "\n" + b) == [StripCr(a)] + Lines(b)
  {
    NewlineFound(a, b);
    Cut(a, "\n", b);
  }

  lemma SplitAfter(a: string, b: string)
    requires '\n' !in a
    ensures Split(a + "\n" + b) == [a] + Split(b)
  {
    NewlineFound(a, b);
    Cut(a, "\n", b);
  }

  lemma SplitPlain(a: string)
    requires '\n' !in a
    ensures Split(a) == [a]
  {
    NewlineFound(a, []);
  }

  /** The pieces as lines: each loses a carriage return at its end. */
  function StripAll(pieces: seq<string>): seq<string> {
    if pieces == [] then [] else [StripCr(pieces[0])] + StripAll(pieces[1..])
  }

  lemma StripCons(x: string, pieces: seq<string>)
    ensures StripAll([x] + pieces) == [StripCr(x)] + StripAll(pieces)
  {
    assert ([x] + pieces)[1..] == pieces;
  }

  /** Text followed by a newline contributes its pieces as lines. */
  lemma {:induction false} LinesOfText(t: string, u: string)
    ensures Lines(t + "\n" + u) == StripAll(Split(t)) + Lines(u)
    decreases |t|
  {
    var n := NewlineAt(t);
    if n == |t| {
      NoNewline(t);
      SplitPlain(t);
      StripCons(t, []);
      LinesAfter(t, u);
    } else {
      var a, b := t[..n], t[n + 1..];
      CutAtNewline(t);
      Regroup(a, "\n", b, u);
      LinesAfter(a, b + "\n" + u);
      SplitAfter(a, b);
      StripCons(a, Split(b));
      LinesOfText(b, u);
      Associate([StripCr(a)], StripAll(Split(b)), Lines(u));
    }
  }

  lemma {:induction false} JoinSplit(s: string)
    ensures JoinLines(Split(s)) == s && Split(s) != []
    decreases |s|
  {
    var n := NewlineAt(s);
    if n < |s| {
      JoinSplit(s[n + 1..]);
      CutAtNewline(s);
      assert Split(s)[1..] == Split(s[n + 1..]);
    }
  }

  lemma {:induction false} SplitNewlineFree(s: string)
    ensures forall k :: 0 <= k < |Split(s)| ==> '\n' !in Split(s)[k]
    decreases |s|
  {
    var n := NewlineAt(s);
    if n == |s| {
      NoNewline(s);
    } else {
      SplitNewlineFree(s[n + 1..]);
      CutAtNewline(s);
    }
  }

  /** The last piece, if it is not empty, is a line that keeps its carriage return. */
  function LastLine(pieces: seq<string>): seq<string> {
    if pieces == [] || pieces[|pieces| - 1] == [] then [] else [pieces[|pieces| - 1]]
  }

  lemma {:induction false} LinesOfPieces(s: string)
    ensures Split(s) != [] && Lines(s) == StripAll(Split(s)[..|Split(s)| - 1]) + LastLine(Split(s))
    decreases |s|
  {
    var n := NewlineAt(s);
    if n < |s| {
      var a, rest := s[..n], Split(s[n + 1..]);
      LinesOfPieces(s[n + 1..]);
      FrontCons(a, rest);
      StripCons(a, rest[..|rest| - 1]);
      Associate([StripCr(a)], StripAll(rest[..|rest| - 1]), LastLine(rest));
    } else {
      assert Split(s) == [s] && Split(s)[..0] == [];
    }
  }

  lemma {:induction false} StripAllIs(pieces: seq<string>)
    ensures |StripAll(pieces)| == |pieces|
    ensures forall k :: 0 <= k < |pieces| ==> WithoutCr(pieces[k], StripAll(pieces)[k])
  {
    if pieces != [] {
      StripAllIs(pieces[1..]);
      var p := pieces[0];
      assert p != [] ==> p == p[..|p| - 1] + [p[|p| - 1]];
    }
  }

  /** The lines of a text are the pieces between its newlines, which joined give it back. */
  lemma LinesExact(s: string) returns (pieces: seq<string>)
    ensures JoinLines(pieces) == s && pieces != [] && forall k :: 0 <= k < |pieces| ==> '\n' !in pieces[k]
    ensures var n := |pieces| - 1;
      && |Lines(s)| == (if pieces[n] == [] then n else n + 1)
      && (pieces[n] != [] ==> Lines(s)[n] == pieces[n])
      && forall k :: 0 <= k < n ==> WithoutCr(pieces[k], Lines(s)[k])
  {
    pieces := Split(s);
    JoinSplit(s);
    SplitNewlineFree(s);
    LinesOfPieces(s);
    StripAllIs(pieces[..|pieces| - 1]);
  }

  /** The line is the piece, but for one carriage return at its end. */
  ghost predicate WithoutCr(piece: string, line: string) {
    if piece != [] && piece[|piece| - 1] == '\r' then piece == line + "\r" else piece == line
  }

  // ---- Blocks ----

  datatype TaggedBlock = TaggedBlock(role: AgentRole, tagLine: int, content: string)

  function ParseTagLine(line: string): Option<AgentRole> {
    var trimmed := Trim(line);
    if |trimmed| < 3 || trimmed[..2] != "<@" || trimmed[|trimmed| - 1] != '>' then None
    else match FromInner(trimmed[2..|trimmed| - 1])
      case Ok(r) => Some(r)
      case Err(_) => None
  }

  predicate IsTag(line: string) {
    ParseTagLine(line).Some?
  }

  /** A tag line holds, but for white space around it, exactly a readable name between `<@` and `>`. */
  lemma TagLineIff(line: string, role: AgentRole)
    ensures ParseTagLine(line) == Some(role) <==>
      exists name :: Trim(line) == "<@" + name + ">" && FromInner(name) == Ok(role)
  {
    var trimmed := Trim(line);
    if ParseTagLine(line) == Some(role) {
      var name := trimmed[2..|trimmed| - 1];
      assert trimmed == trimmed[..2] + name + [trimmed[|trimmed| - 1]];
      assert trimmed == "<@" + name + ">" && FromInner(name) == Ok(role);
    }
    if name :| trimmed == "<@" + name + ">" && FromInner(name) == Ok(role) {
      assert trimmed[..2] == "<@" && trimmed[2..|trimmed| - 1] == name;
    }
  }

  /** A body line joins the content; the newline is only put after text. */
  function AppendLine(content: string, line: string): string {
    if content == [] then line else content + "\n" + line
  }

  function Content(body: seq<string>): string {
    if body == [] then [] else AppendLine(Content(body[..|body| - 1]), body[|body| - 1])
  }

  function DropLeadingEmpty(body: seq<string>): seq<string> {
    if body != [] && body[0] == [] then DropLeadingEmpty(body[1..]) else body
  }

  lemma {:induction false} JoinSnoc(lines: seq<string>, line: string)
    requires lines != []
    ensures JoinLines(lines + [line]) == JoinLines(lines) + "\n" + line
  {
    assert (lines + [line])[1..] == lines[1..] + [line];
    if |lines| > 1 {
      JoinSnoc(lines[1..], line);
    } else {
      assert lines[1..] + [line] == [line];
    }
  }

  lemma {:induction false} DropSnoc(body: seq<string>, line: string)
    ensures DropLeadingEmpty(body + [line]) ==
      if DropLeadingEmpty(body) == [] && line == [] then [] else DropLeadingEmpty(body) + [line]
  {
    if body == [] {
      assert [line][1..] == [];
    } else {
      assert (body + [line])[1..] == body[1..] + [line];
      DropSnoc(body[1..], line);
    }
  }

  /** The content is the body without its leading empty lines, joined. */
  lemma {:induction false} ContentIs(body: seq<string>)
    ensures Content(body) == JoinLines(DropLeadingEmpty(body))
    ensures Content(body) == [] <==> DropLeadingEmpty(body) == []
  {
    if body != [] {
      var n := |body| - 1;
      var before, line := body[..n], body[n];
      ContentIs(before);
      assert body == before + [line];
      DropSnoc(before, line);
      if DropLeadingEmpty(before) != [] {
        JoinSnoc(DropLeadingEmpty(before), line);
      }
    }
  }

  /** Nothing but leading empty lines is lost, and those only when a line follows. */
  lemma ContentLosslessIff(body: seq<string>)
    ensures Content(body) == JoinLines(body) <==> |body| <= 1 || body[0] != []
  {
    ContentIs(body);
    if body != [] && body[0] == [] {
      JoinLength(body);
      JoinLength(DropLeadingEmpty(body));
      Shorter(body[1..]);
    }
  }

  function TextLength(lines: seq<string>): nat {
    if lines == [] then 0 else |lines[0]| + TextLength(lines[1..])
  }

  lemma {:induction false} JoinLength(lines: seq<string>)
    ensures |JoinLines(lines)| == TextLength(lines) + if lines == [] then 0 else |lines| - 1
  {
    if |lines| > 1 {
      JoinLength(lines[1..]);
    }
  }

  lemma {:induction false} Shorter(body: seq<string>)
    ensures |DropLeadingEmpty(body)| <= |body| && TextLength(DropLeadingEmpty(body)) == TextLength(body)
  {
    if body != [] && body[0] == [] {
      Shorter(body[1..]);
    }
  }

  // ---- The parse ----

  /** Adding one more line at the end of a manifest. */
  function Extended(blocks: seq<TaggedBlock>, lineNo: int, line: string): seq<TaggedBlock> {
    match ParseTagLine(line)
    case Some(role) => blocks + [TaggedBlock(role, lineNo, [])]
    case None =>
      if blocks == [] then []
      else
        var n := |blocks| - 1;
        blocks[..n] + [blocks[n].(content := AppendLine(blocks[n].content, line))]
  }

  function BlocksOf(lines: seq<string>): seq<TaggedBlock> {
    if lines == [] then [] else Extended(BlocksOf(lines[..|lines| - 1]), |lines|, lines[|lines| - 1])
  }

  /** The positions of the tag lines, in order. */
  function Tags(lines: seq<string>): seq<int> {
    if lines == [] then []
    else if IsTag(lines[|lines| - 1]) then Tags(lines[..|lines| - 1]) + [|lines| - 1]
    else Tags(lines[..|lines| - 1])
  }

  lemma {:induction false} TagsExact(lines: seq<string>)
    ensures forall k :: 0 <= k < |Tags(lines)| ==> 0 <= Tags(lines)[k] < |lines| && IsTag(lines[Tags(lines)[k]])
    ensures forall j, k :: 0 <= j < k < |Tags(lines)| ==> Tags(lines)[j] < Tags(lines)[k]
  {
    if lines != [] {
      TagsExact(lines[..|lines| - 1]);
    }
  }

  /** No tag line is missed. */
  lemma {:induction false} TagsComplete(lines: seq<string>, i: nat) returns (k: nat)
    requires i < |lines| && IsTag(lines[i])
    ensures k < |Tags(lines)| && Tags(lines)[k] == i
  {
    var n := |lines| - 1;
    if i < n {
      k := TagsComplete(lines[..n], i);
    } else {
      k := |Tags(lines)| - 1;
    }
  }

  /** Where the k-th block ends: at the next tag line, or at the end. */
  function EndOf(lines: seq<string>, k: nat): int {
    if k + 1 < |Tags(lines)| then Tags(lines)[k + 1] else |lines|
  }

  function Slice(lines: seq<string>, from: int, to: int): seq<string> {
    if 0 <= from <= to <= |lines| then lines[from..to] else []
  }

  /** The block opened by the tag on line `i` and ending before line `end`. */
  ghost predicate OpenedAt(lines: seq<string>, i: int, end: int, b: TaggedBlock) {
    && 0 <= i < |lines|
    && ParseTagLine(lines[i]) == Some(b.role) && b.tagLine == i + 1
    && b.content == Content(Slice(lines, i + 1, end))
  }

  /** The block is that of the k-th tag line: its role, its line number, the lines up to the next tag. */
  ghost predicate IsBlock(lines: seq<string>, k: nat, b: TaggedBlock) {
    k < |Tags(lines)| && OpenedAt(lines, Tags(lines)[k], EndOf(lines, k), b)
  }

  /** Blocks correspond one to one with tag lines; every line after the first tag is in its block. */
  lemma {:induction false} BlocksExact(lines: seq<string>)
    ensures |BlocksOf(lines)| == |Tags(lines)|
    ensures forall k :: 0 <= k < |Tags(lines)| ==> IsBlock(lines, k, BlocksOf(lines)[k])
  {
    if lines != [] {
      var n := |lines| - 1;
      BlocksExact(lines[..n]);
      TagsExact(lines[..n]);
      forall k | 0 <= k < |Tags(lines)| ensures IsBlock(lines, k, BlocksOf(lines)[k]) {
        if k < |Tags(lines[..n])| {
          assert IsBlock(lines[..n], k, BlocksOf(lines[..n])[k]);
          BlockExtends(lines, n, k, BlocksOf(lines[..n])[k]);
        } else {
          assert Slice(lines, n + 1, n + 1) == [];
        }
      }
    }
  }

  /** An earlier block after one more line: only the last one takes it, if it is not a tag. */
  lemma BlockExtends(lines: seq<string>, n: nat, k: nat, b: TaggedBlock)
    requires |lines| == n + 1 && |BlocksOf(lines[..n])| == |Tags(lines[..n])|
    requires IsBlock(lines[..n], k, b) && BlocksOf(lines[..n])[k] == b
    requires 0 <= Tags(lines[..n])[k] < EndOf(lines[..n], k) <= n
    ensures IsBlock(lines, k, BlocksOf(lines)[k])
  {
    var i, end := Tags(lines[..n])[k], EndOf(lines[..n], k);
    if k + 1 == |Tags(lines[..n])| && !IsTag(lines[n]) {
      Longer(lines, n, i, b);
    } else {
      Unchanged(lines, n, i, end, b);
    }
  }

  lemma Unchanged(lines: seq<string>, n: nat, i: int, end: int, b: TaggedBlock)
    requires |lines| == n + 1 && OpenedAt(lines[..n], i, end, b) && end <= n
    ensures OpenedAt(lines, i, end, b)
  {
    assert i + 1 <= end ==> lines[..n][i + 1..end] == lines[i + 1..end];
  }

  lemma Longer(lines: seq<string>, n: nat, i: int, b: TaggedBlock)
    requires |lines| == n + 1 && OpenedAt(lines[..n], i, n, b)
    ensures OpenedAt(lines, i, n + 1, b.(content := AppendLine(b.content, lines[n])))
  {
    assert lines[..n][i + 1..n] == lines[i + 1..n];
    assert lines[i + 1..n + 1] == lines[i + 1..n] + [lines[n]];
  }

  function WithCurrent(blocks: seq<TaggedBlock>, current: Option<TaggedBlock>): seq<TaggedBlock> {
    if current.Some? then blocks + [current.value] else blocks
  }

  lemma BlocksSnoc(lines: seq<string>, line: string)
    ensures BlocksOf(lines + [line]) == Extended(BlocksOf(lines), |lines| + 1, line)
  {
    SnocParts(lines, line);
  }

  method ParseBlocks(input: string) returns (blocks: seq<TaggedBlock>)
    ensures blocks == BlocksOf(Lines(input))
  {
    var lines := Lines(input);
    blocks := [];
    var current: Option<TaggedBlock> := None;
    for i := 0 to |lines|
      invariant BlocksOf(lines[..i]) == WithCurrent(blocks, current)
      invariant current.None? ==> blocks == []
    {
      TakeSnoc(lines, i);
      BlocksSnoc(lines[..i], lines[i]);
      match ParseTagLine(lines[i]) {
        case Some(role) =>
          blocks := WithCurrent(blocks, current);
          current := Some(TaggedBlock(role, i + 1, []));
        case None =>
          if current.Some? {
            current := Some(current.value.(content := AppendLine(current.value.content, lines[i])));
          }
      }
    }
    assert lines[..|lines|] == lines;
    blocks := WithCurrent(blocks, current);
  }

  // ---- Validation ----

  datatype ManifestError =
    | InvalidTag(line: int, tag: string, error: RoleParseError)
    | MalformedTagBoundary(line: int, text: string)

  /** The line means to be a tag. */
  predicate LooksLikeTag(line: string) {
    "<@" <= Trim(line)
  }

  function LineError(line: string, lineNo: int): Option<ManifestError> {
    var trimmed := Trim(line);
    if !LooksLikeTag(line) then None
    else if trimmed[|trimmed| - 1] != '>' then Some(MalformedTagBoundary(lineNo, trimmed))
    else match FromInner(trimmed[2..|trimmed| - 1])
      case Ok(_) => None
      case Err(e) => Some(InvalidTag(lineNo, trimmed, e))
  }

  /** A line that looks like a tag is in error exactly when it is no boundary. */
  lemma ErrorIff(line: string, lineNo: int)
    ensures LineError(line, lineNo).Some? <==> LooksLikeTag(line) && !IsTag(line)
    ensures IsTag(line) ==> LooksLikeTag(line)
  {
    var trimmed := Trim(line);
    if |trimmed| >= 2 {
      assert "<@" <= trimmed <==> trimmed[..2] == "<@";
    }
  }

  /** The errors of a line: it lacks the closing bracket, or what is between the brackets is no role. */
  lemma ErrorTells(line: string, lineNo: int, e: ManifestError)
    ensures LineError(line, lineNo) == Some(e) <==>
      && "<@" <= Trim(line)
      && match e
         case MalformedTagBoundary(n, text) =>
           n == lineNo && text == Trim(line) && text[|text| - 1] != '>'
         case InvalidTag(n, text, reason) =>
           n == lineNo && text == Trim(line) &&
           exists name :: text == "<@" + name + ">" && FromInner(name) == Err(reason)
  {
    var trimmed := Trim(line);
    if "<@" <= trimmed && trimmed[|trimmed| - 1] == '>' {
      var name := trimmed[2..|trimmed| - 1];
      assert trimmed == trimmed[..2] + name + [trimmed[|trimmed| - 1]];
      assert trimmed == "<@" + name + ">";
      assert forall other: string :: trimmed == "<@" + other + ">" ==> other == name by {
        forall other: string | trimmed == "<@" + other + ">" ensures other == name {
          assert ("<@" + other + ">")[2..|other| + 2] == other;
        }
      }
    }
  }

  /** The error is that of one of the first `n` lines. */
  ghost predicate ErrorAmong(lines: seq<string>, n: nat, e: ManifestError)
    requires n <= |lines|
  {
    exists i :: 0 <= i < n && LineError(lines[i], i + 1) == Some(e)
  }

  ghost predicate InOrder(errors: seq<ManifestError>, n: nat) {
    && (forall j, k :: 0 <= j < k < |errors| ==> errors[j].line < errors[k].line)
    && (forall j :: 0 <= j < |errors| ==> errors[j].line <= n)
  }

  /** The errors of a manifest are those of its lines, numbered from one, in order. */
  method ValidateManifest(manifest: string) returns (errors: seq<ManifestError>)
    ensures forall e :: e in errors <==> ErrorAmong(Lines(manifest), |Lines(manifest)|, e)
    ensures InOrder(errors, |Lines(manifest)|)
    ensures errors == [] <==> Accepted(Lines(manifest))
  {
    var lines := Lines(manifest);
    errors := [];
    for i := 0 to |lines|
      invariant forall e :: e in errors <==> ErrorAmong(lines, i, e)
      invariant InOrder(errors, i)
    {
      ErrorOneMore(lines, i);
      var e := LineError(lines[i], i + 1);
      if e.Some? {
        errors := errors + [e.value];
      }
    }
    NoErrorsIff(lines, errors);
  }

  lemma ErrorOneMore(lines: seq<string>, i: nat)
    requires i < |lines|
    ensures forall e ::
      ErrorAmong(lines, i + 1, e) <==> ErrorAmong(lines, i, e) || LineError(lines[i], i + 1) == Some(e)
    ensures LineError(lines[i], i + 1).Some? ==> LineError(lines[i], i + 1).value.line == i + 1
  {
  }

  lemma NoErrorsIff(lines: seq<string>, errors: seq<ManifestError>)
    requires forall e :: e in errors <==> ErrorAmong(lines, |lines|, e)
    ensures errors == [] <==> Accepted(lines)
  {
    if errors == [] {
      forall i | 0 <= i < |lines| && LooksLikeTag(lines[i]) ensures IsTag(lines[i]) {
        ErrorIff(lines[i], i + 1);
        var e := LineError(lines[i], i + 1);
        assert e.Some? ==> ErrorAmong(lines, |lines|, e.value);
      }
    } else {
      assert errors[0] in errors;
      var i :| 0 <= i < |lines| && LineError(lines[i], i + 1) == Some(errors[0]);
      ErrorIff(lines[i], i + 1);
    }
  }

  /** Every line that looks like a tag is a block boundary. */
  predicate Accepted(lines: seq<string>) {
    forall i :: 0 <= i < |lines| && LooksLikeTag(lines[i]) ==> IsTag(lines[i])
  }

  /** In an accepted manifest the blocks begin exactly at the lines that look like tags. */
  lemma AcceptedBoundaries(lines: seq<string>)
    requires Accepted(lines)
    ensures forall i :: 0 <= i < |lines| ==> (LooksLikeTag(lines[i]) <==> BeginsBlock(lines, i))
  {
    TagsExact(lines);
    BlocksExact(lines);
    forall i | 0 <= i < |lines| ensures LooksLikeTag(lines[i]) <==> BeginsBlock(lines, i) {
      ErrorIff(lines[i], i + 1);
      if IsTag(lines[i]) {
        var k := TagsComplete(lines, i);
        assert IsBlock(lines, k, BlocksOf(lines)[k]);
      }
      if BeginsBlock(lines, i) {
        var k :| 0 <= k < |BlocksOf(lines)| && BlocksOf(lines)[k].tagLine == i + 1;
        assert IsBlock(lines, k, BlocksOf(lines)[k]);
      }
    }
  }

  ghost predicate BeginsBlock(lines: seq<string>, i: int) {
    exists k :: 0 <= k < |BlocksOf(lines)| && BlocksOf(lines)[k].tagLine == i + 1
  }
}
