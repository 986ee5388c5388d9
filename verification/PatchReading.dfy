/** What any text means to the patch reader: the patterns exactly, when it raises, and where the lines go. */
module PatchReading {
  import opened Collections
  import opened PatchText

  // ----- the patterns

  /** The line is the prefix and the text, with or without a line break at the end. */
  predicate IsLine(prefix: string, line: string, text: string) {
    OneLine(text) && (line == prefix + text || line == prefix + text + "\n")
  }

  /** The group of ^prefix(.*)$ : the rest of the line, without a line break at its end and with none inside. */
  lemma AfterExact(prefix: string, line: string, text: string)
    ensures After(prefix, line) == Some(text) <==> IsLine(prefix, line, text)
  {
    if After(prefix, line) == Some(text) {
      var rest := line[|prefix|..];
      assert line == prefix + rest;
      if rest != "" && rest[|rest| - 1] == '\n' {
        assert rest == rest[..|rest| - 1] + "\n";
        assert prefix + rest == prefix + text + "\n";
      }
    }
    if OneLine(text) && line == prefix + text {
      assert line[|prefix|..] == text;
      assert text != "" ==> text[|text| - 1] in text;
    }
    if OneLine(text) && line == prefix + text + "\n" {
      AfterWritten(prefix, text);
    }
  }

  predicate Digits(s: string) {
    s != "" && forall i :: 0 <= i < |s| ==> IsDigit(s[i])
  }

  /** A field read from its own digits, which end where the rest begins. */
  lemma FieldOf(before: string, digits: string, rest: string)
    requires Digits(digits) && rest != "" && !IsDigit(rest[0])
    ensures Field(before, before + digits + rest) == Some((Number(digits), rest))
  {
    var s := before + digits + rest;
    assert s[|before|..] == digits + rest;
    DigitCountOf(digits, rest);
    assert (digits + rest)[..|digits|] == digits && (digits + rest)[|digits|..] == rest;
  }

  lemma FieldParts(before: string, s: string) returns (digits: string)
    requires Field(before, s).Some?
    ensures Digits(digits) && s == before + digits + Field(before, s).value.1
    ensures Field(before, s).value.0 == Number(digits)
  {
    var t := s[|before|..];
    digits := t[..DigitCount(t)];
    assert s == before + t && t == digits + t[DigitCount(t)..];
  }

  /** A header with its four numbers, and any text after the closing mark. */
  predicate IsHeader(line: string, a: string, b: string, c: string, d: string, rest: string) {
    && Digits(a) && Digits(b) && Digits(c) && Digits(d)
    && line == "@@ -" + a + ("," + b + (" +" + c + ("," + d + (" @@" + rest))))
  }

  lemma HeaderRead(line: string, a: string, b: string, c: string, d: string, rest: string)
    requires IsHeader(line, a, b, c, d, rest)
    ensures Header(line) == Some((Number(a), Number(c)))
  {
    var s4 := " @@" + rest;
    var s3 := "," + d + s4;
    var s2 := " +" + c + s3;
    var s1 := "," + b + s2;
    FieldOf(",", d, s4);
    FieldOf(" +", c, s3);
    FieldOf(",", b, s2);
    FieldOf("@@ -", a, s1);
    assert line == "@@ -" + a + s1;
  }

  lemma HeaderFields(line: string) returns (s1: string, s2: string, s3: string, s4: string)
    requires Header(line).Some?
    ensures Field("@@ -", line).Some? && Field("@@ -", line).value == (Header(line).value.0, s1)
    ensures Field(",", s1).Some? && Field(",", s1).value.1 == s2
    ensures Field(" +", s2).Some? && Field(" +", s2).value == (Header(line).value.1, s3)
    ensures Field(",", s3).Some? && Field(",", s3).value.1 == s4 && " @@" <= s4
  {
    s1 := Field("@@ -", line).value.1;
    s2 := Field(",", s1).value.1;
    s3 := Field(" +", s2).value.1;
    s4 := Field(",", s3).value.1;
  }

  lemma HeaderJoined(line: string, a: string, s1: string, b: string, s2: string, c: string, s3: string, d: string,
                     s4: string)
    requires Digits(a) && Digits(b) && Digits(c) && Digits(d) && " @@" <= s4
    requires line == "@@ -" + a + s1 && s1 == "," + b + s2 && s2 == " +" + c + s3 && s3 == "," + d + s4
    ensures IsHeader(line, a, b, c, d, s4[3..])
  {
    assert s4 == " @@" + s4[3..];
  }

  lemma HeaderParts(line: string) returns (a: string, b: string, c: string, d: string, rest: string)
    requires Header(line).Some?
    ensures IsHeader(line, a, b, c, d, rest) && Header(line) == Some((Number(a), Number(c)))
  {
    var s1, s2, s3, s4 := HeaderFields(line);
    a := FieldParts("@@ -", line);
    b := FieldParts(",", s1);
    c := FieldParts(" +", s2);
    d := FieldParts(",", s3);
    HeaderJoined(line, a, s1, b, s2, c, s3, d, s4);
    rest := s4[3..];
  }

  /** A line is a header exactly if it has this form, whatever follows the closing mark; the counts do not matter. */
  lemma HeaderExact(line: string, srcPos: nat, dstPos: nat)
    ensures Header(line) == Some((srcPos, dstPos)) <==>
              exists a, b, c, d, rest :: IsHeader(line, a, b, c, d, rest) && Number(a) == srcPos && Number(c) == dstPos
  {
    if Header(line) == Some((srcPos, dstPos)) {
      var a, b, c, d, rest := HeaderParts(line);
    }
    if a, b, c, d, rest :| IsHeader(line, a, b, c, d, rest) && Number(a) == srcPos && Number(c) == dstPos {
      HeaderRead(line, a, b, c, d, rest);
    }
  }

  lemma HeaderStarts(line: string)
    ensures Header(line).Some? ==> line != "" && line[0] == '@'
  {
    if Header(line).Some? {
      var a, b, c, d, rest := HeaderParts(line);
    }
  }

  lemma LineStarts(prefix: string, first: char, line: string)
    requires prefix != "" && prefix[0] == first
    ensures After(prefix, line).Some? ==> line != "" && line[0] == first
  {
  }

  /** A removed line is one that starts with a minus sign and is no source name; the other kinds likewise. */
  lemma ReadExactly(line: string, text: string)
    ensures Read(line) == SrcFile(text) <==> IsLine("--- ", line, text)
    ensures Read(line) == DstFile(text) <==> IsLine("+++ ", line, text)
    ensures Read(line) == Body(Src(text)) <==> IsLine("-", line, text) && !Read(line).SrcFile?
    ensures Read(line) == Body(Dst(text)) <==> IsLine("+", line, text) && !Read(line).DstFile?
    ensures Read(line) == Body(Both(text)) <==> IsLine(" ", line, text)
    ensures Read(line).ChunkStart? <==> Header(line).Some?
  {
    ReadFirst(line, text);
    ReadBody(line, text);
  }

  /** The first characters tell the patterns apart, but for "--- " and "-", and "+++ " and "+". */
  lemma FirstCharacters(line: string)
    ensures Header(line).Some? ==> line != "" && line[0] == '@'
    ensures After("--- ", line).Some? || After("-", line).Some? ==> line != "" && line[0] == '-'
    ensures After("+++ ", line).Some? || After("+", line).Some? ==> line != "" && line[0] == '+'
    ensures After(" ", line).Some? ==> line != "" && line[0] == ' '
  {
    HeaderStarts(line);
    LineStarts("--- ", '-', line);
    LineStarts("-", '-', line);
    LineStarts("+++ ", '+', line);
    LineStarts("+", '+', line);
    LineStarts(" ", ' ', line);
  }

  lemma ReadFirst(line: string, text: string)
    ensures Read(line) == SrcFile(text) <==> IsLine("--- ", line, text)
    ensures Read(line) == DstFile(text) <==> IsLine("+++ ", line, text)
    ensures Read(line).ChunkStart? <==> Header(line).Some?
    ensures Read(line).SrcFile? <==> After("--- ", line).Some?
    ensures Read(line).DstFile? <==> After("+++ ", line).Some?
  {
    FirstCharacters(line);
    AfterExact("--- ", line, text);
    AfterExact("+++ ", line, text);
  }

  lemma ReadBody(line: string, text: string)
    ensures Read(line) == Body(Src(text)) <==> IsLine("-", line, text) && After("--- ", line) == None
    ensures Read(line) == Body(Dst(text)) <==> IsLine("+", line, text) && After("+++ ", line) == None
    ensures Read(line) == Body(Both(text)) <==> IsLine(" ", line, text)
  {
    FirstCharacters(line);
    AfterExact("-", line, text);
    AfterExact("+", line, text);
    AfterExact(" ", line, text);
  }

  // ----- the loop, on any lines

  const START: Progress := Progress([], None)

  predicate HasFile(rs: seq<Reading>) {
    exists i :: 0 <= i < |rs| && rs[i].SrcFile?
  }

  predicate HasChunk(rs: seq<Reading>) {
    exists i :: 0 <= i < |rs| && rs[i].ChunkStart?
  }

  /** A reading that the loop can take after these. */
  predicate Acceptable(before: seq<Reading>, r: Reading) {
    match r
    case SrcFile(_) => true
    case DstFile(_) => HasFile(before)
    case ChunkStart(_, _) => HasFile(before)
    case Body(_) => HasChunk(before)
    case Unknown => false
  }

  predicate AllAcceptable(rs: seq<Reading>) {
    forall i: nat {:trigger rs[i]} :: i < |rs| ==> Acceptable(rs[..i], rs[i])
  }

  lemma AcceptableSnoc(rs: seq<Reading>, r: Reading)
    ensures AllAcceptable(rs + [r]) <==> AllAcceptable(rs) && Acceptable(rs, r)
  {
    var all := rs + [r];
    assert all[..|rs|] == rs && all[|rs|] == r;
    assert forall i: nat {:trigger rs[i]} :: i < |rs| ==> all[..i] == rs[..i] && all[i] == rs[i];
  }

  lemma HasSnoc(rs: seq<Reading>, r: Reading)
    ensures HasFile(rs + [r]) <==> HasFile(rs) || r.SrcFile?
    ensures HasChunk(rs + [r]) <==> HasChunk(rs) || r.ChunkStart?
  {
    var all := rs + [r];
    assert all[|rs|] == r && forall i :: 0 <= i < |rs| ==> all[i] == rs[i];
  }

  /** The names of the source files, in order. */
  function FilesIn(rs: seq<Reading>): seq<string> {
    if rs == [] then []
    else
      var r := rs[|rs| - 1];
      FilesIn(rs[..|rs| - 1]) + if r.SrcFile? then [r.name] else []
  }

  /** The chunks, in order: each has the lines up to the next one, across the borders of patches. */
  function ChunksIn(rs: seq<Reading>): seq<Chunk> {
    if rs == [] then []
    else
      var before := ChunksIn(rs[..|rs| - 1]);
      match rs[|rs| - 1]
      case ChunkStart(srcPos, dstPos) => before + [Chunk(srcPos, dstPos, [])]
      case Body(l) =>
        if before == [] then []
        else
          var last := before[|before| - 1];
          before[..|before| - 1] + [last.(lines := last.lines + [l])]
      case _ => before
  }

  function FileNames(ps: seq<Patch>): seq<string> {
    seq(|ps|, i requires 0 <= i < |ps| => ps[i].src)
  }

  function AllChunks(ps: seq<Patch>): seq<Chunk> {
    if ps == [] then [] else AllChunks(ps[..|ps| - 1]) + ps[|ps| - 1].chunks
  }

  /** The current chunk is the last chunk of all. */
  predicate AtLast(p: Progress) {
    && InPlace(p) && (p.current == None <==> AllChunks(p.patches) == [])
    && (p.current.Some? ==>
          && p.current.value.1 == |p.patches[p.current.value.0].chunks| - 1
          && forall i :: p.current.value.0 < i < |p.patches| ==> p.patches[i].chunks == [])
  }

  ghost predicate Agrees(p: Progress, rs: seq<Reading>) {
    && AtLast(p) && (p.patches != [] <==> HasFile(rs)) && (p.current.Some? <==> HasChunk(rs))
    && FileNames(p.patches) == FilesIn(rs) && AllChunks(p.patches) == ChunksIn(rs)
  }

  lemma AllChunksSnoc(ps: seq<Patch>, p: Patch)
    ensures AllChunks(ps + [p]) == AllChunks(ps) + p.chunks
  {
    assert (ps + [p])[..|ps|] == ps;
  }

  lemma LastChanged(ps: seq<Patch>, p: Patch)
    requires ps != []
    ensures ps[|ps| - 1 := p] == ps[..|ps| - 1] + [p]
    ensures AllChunks(ps[|ps| - 1 := p]) == AllChunks(ps[..|ps| - 1]) + p.chunks
  {
    AllChunksSnoc(ps[..|ps| - 1], p);
  }

  /** Changing the last chunk of all changes the end of the list. */
  lemma {:induction false} LastChunkChanged(ps: seq<Patch>, i: nat, c: Chunk)
    requires i < |ps| && ps[i].chunks != [] && forall k :: i < k < |ps| ==> ps[k].chunks == []
    ensures var cs := ps[i].chunks;
            var now := ps[i := ps[i].(chunks := cs[|cs| - 1 := c])];
            var all := AllChunks(ps);
            all != [] && all[|all| - 1] == cs[|cs| - 1] && AllChunks(now) == all[..|all| - 1] + [c]
    decreases |ps|
  {
    var n := |ps| - 1;
    var cs := ps[i].chunks;
    var front := ps[..n];
    var now := ps[i := ps[i].(chunks := cs[|cs| - 1 := c])];
    if i == n {
      LastChanged(ps, ps[i].(chunks := cs[|cs| - 1 := c]));
      assert cs[|cs| - 1 := c] == cs[..|cs| - 1] + [c];
    } else {
      LastChunkChanged(front, i, c);
      assert now[..n] == front[i := ps[i].(chunks := cs[|cs| - 1 := c])] && now[n].chunks == [];
    }
  }

  lemma FileAgrees(p: Progress, rs: seq<Reading>, name: string)
    requires Agrees(p, rs)
    ensures Turn(p, SrcFile(name)).Some? && Agrees(Turn(p, SrcFile(name)).value, rs + [SrcFile(name)])
  {
    var q := Turn(p, SrcFile(name)).value;
    Snoc(rs, SrcFile(name));
    AllChunksSnoc(p.patches, Patch(name, "", []));
    assert FileNames(q.patches) == FileNames(p.patches) + [name];
  }

  lemma Snoc(rs: seq<Reading>, r: Reading)
    ensures (rs + [r])[..|rs + [r]| - 1] == rs && (rs + [r])[|rs|] == r
    ensures HasFile(rs + [r]) <==> HasFile(rs) || r.SrcFile?
    ensures HasChunk(rs + [r]) <==> HasChunk(rs) || r.ChunkStart?
  {
    HasSnoc(rs, r);
  }

  lemma DstAgrees(p: Progress, rs: seq<Reading>, name: string)
    requires Agrees(p, rs)
    ensures Turn(p, DstFile(name)).Some? <==> HasFile(rs)
    ensures HasFile(rs) ==> Agrees(Turn(p, DstFile(name)).value, rs + [DstFile(name)])
  {
    Snoc(rs, DstFile(name));
    if p.patches != [] {
      var q := Turn(p, DstFile(name)).value;
      var last := p.patches[|p.patches| - 1];
      LastChanged(p.patches, last.(dst := name));
      assert AllChunks(p.patches) == AllChunks(p.patches[..|p.patches| - 1]) + last.chunks;
      assert FileNames(q.patches) == FileNames(p.patches);
    }
  }

  lemma GrownLast(ps: seq<Patch>, c: Chunk)
    requires ps != []
    ensures var last := ps[|ps| - 1];
            var now := ps[|ps| - 1 := last.(chunks := last.chunks + [c])];
            AllChunks(now) == AllChunks(ps) + [c] && FileNames(now) == FileNames(ps)
  {
    var last := ps[|ps| - 1];
    LastChanged(ps, last.(chunks := last.chunks + [c]));
    assert AllChunks(ps[..|ps| - 1]) + (last.chunks + [c]) == AllChunks(ps[..|ps| - 1]) + last.chunks + [c];
  }

  lemma StartAgrees(p: Progress, rs: seq<Reading>, srcPos: nat, dstPos: nat)
    requires Agrees(p, rs)
    ensures Turn(p, ChunkStart(srcPos, dstPos)).Some? <==> HasFile(rs)
    ensures HasFile(rs) ==> Agrees(Turn(p, ChunkStart(srcPos, dstPos)).value, rs + [ChunkStart(srcPos, dstPos)])
  {
    Snoc(rs, ChunkStart(srcPos, dstPos));
    if p.patches != [] {
      GrownLast(p.patches, Chunk(srcPos, dstPos, []));
    }
  }

  lemma BodyAgrees(p: Progress, rs: seq<Reading>, l: Line)
    requires Agrees(p, rs)
    ensures Turn(p, Body(l)).Some? <==> HasChunk(rs)
    ensures HasChunk(rs) ==> Agrees(Turn(p, Body(l)).value, rs + [Body(l)])
  {
    Snoc(rs, Body(l));
    if p.current.Some? {
      var q := Turn(p, Body(l)).value;
      var (i, j) := p.current.value;
      var c := p.patches[i].chunks[j];
      LastChunkChanged(p.patches, i, c.(lines := c.lines + [l]));
      assert FileNames(q.patches) == FileNames(p.patches);
    }
  }

  lemma TurnAgrees(p: Progress, rs: seq<Reading>, r: Reading)
    requires Agrees(p, rs)
    ensures Turn(p, r).Some? <==> Acceptable(rs, r)
    ensures Turn(p, r).Some? ==> Agrees(Turn(p, r).value, rs + [r])
  {
    match r
    case SrcFile(name) => FileAgrees(p, rs, name);
    case DstFile(name) => DstAgrees(p, rs, name);
    case ChunkStart(srcPos, dstPos) => StartAgrees(p, rs, srcPos, dstPos);
    case Body(l) => BodyAgrees(p, rs, l);
    case Unknown =>
  }

  lemma {:induction false} TurnsAgree(rs: seq<Reading>)
    ensures Turns(START, rs).Some? <==> AllAcceptable(rs)
    ensures Turns(START, rs).Some? ==> Agrees(Turns(START, rs).value, rs)
  {
    if rs != [] {
      var n := |rs| - 1;
      TurnsAgree(rs[..n]);
      assert rs == rs[..n] + [rs[n]];
      TurnsAppend(START, rs[..n], [rs[n]]);
      AcceptableSnoc(rs[..n], rs[n]);
      if Turns(START, rs[..n]).Some? {
        TurnsOne(Turns(START, rs[..n]).value, rs[n]);
        TurnAgrees(Turns(START, rs[..n]).value, rs[..n], rs[n]);
      }
    }
  }

  /**
   * Reading raises exactly when a line matches no pattern, a destination name or a header comes
   * before any source name, or a body line before any header.
   */
  lemma RaisesExactly(lines: seq<string>)
    ensures Parse(lines).Some? <==> AllAcceptable(Readings(lines))
  {
    TurnsAgree(Readings(lines));
  }

  /**
   * For any lines that can be read: there is one patch for each source name, and the chunks of
   * all patches, in order, are those that the headers start, each with the body lines up to the
   * next header.
   */
  lemma LinesGoToTheLastChunk(lines: seq<string>)
    requires Parse(lines).Some?
    ensures FileNames(Parse(lines).value) == FilesIn(Readings(lines))
    ensures AllChunks(Parse(lines).value) == ChunksIn(Readings(lines))
  {
    TurnsAgree(Readings(lines));
  }
}
