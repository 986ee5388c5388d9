/** Unified diffs: the text of a patch list and its meaning when it is read back. */
module PatchText {
  import opened Collections
  import opened Sums

  datatype Line = Src(text: string) | Dst(text: string) | Both(text: string)
  datatype Chunk = Chunk(srcPos: nat, dstPos: nat, lines: seq<Line>)
  datatype Patch = Patch(src: string, dst: string, chunks: seq<Chunk>)

  // ----- decimal numbers

  function Decimal(n: nat): (s: string)
    ensures s != "" && forall i :: 0 <= i < |s| ==> IsDigit(s[i])
  {
    (if n < 10 then "" else Decimal(n / 10)) + [Digit(n % 10)]
  }

  lemma {:induction false} NumberOfDecimal(n: nat)
    ensures Number(Decimal(n)) == n
  {
    var s := Decimal(n);
    if n >= 10 {
      NumberOfDecimal(n / 10);
      assert s[..|s| - 1] == Decimal(n / 10);
    } else {
      assert s == [Digit(n)] && s[..0] == "";
      assert Number("") == 0;
    }
  }

  /** How many digits the string starts with. */
  function DigitCount(s: string): (n: nat)
    ensures n <= |s| && forall i :: 0 <= i < n ==> IsDigit(s[i])
    ensures n < |s| ==> !IsDigit(s[n])
  {
    if s == "" || !IsDigit(s[0]) then 0 else DigitCount(s[1..]) + 1
  }

  lemma {:induction false} DigitCountOf(digits: string, rest: string)
    requires (forall i :: 0 <= i < |digits| ==> IsDigit(digits[i])) && (rest == "" || !IsDigit(rest[0]))
    ensures DigitCount(digits + rest) == |digits|
  {
    if digits == "" {
      assert digits + rest == rest;
    } else {
      assert (digits + rest)[1..] == digits[1..] + rest;
      DigitCountOf(digits[1..], rest);
    }
  }

  // ----- reading one line: the patterns are tried in the order of the program

  datatype Reading =
    | SrcFile(name: string) | DstFile(name: string) | ChunkStart(srcPos: nat, dstPos: nat)
    | Body(line: Line) | Unknown

  function Chomp(line: string): string {
    if line != "" && line[|line| - 1] == '\n' then line[..|line| - 1] else line
  }

  /** What the group in the pattern ^prefix(.*)$ captures. */
  function After(prefix: string, line: string): Option<string> {
    if prefix <= line && '\n' !in Chomp(line[|prefix|..]) then Some(Chomp(line[|prefix|..])) else None
  }

  /** A number that the literal text `before` precedes, and what follows it. */
  function Field(before: string, s: string): Option<(nat, string)> {
    if !(before <= s) then None
    else
      var t := s[|before|..];
      var n := DigitCount(t);
      if n == 0 then None else Some((Number(t[..n]), t[n..]))
  }

  /** The pattern of a chunk header; the two counts are not used. */
  function Header(line: string): Option<(nat, nat)> {
    match Field("@@ -", line)
    case None => None
    case Some((srcPos, s1)) =>
      match Field(",", s1)
      case None => None
      case Some((_, s2)) =>
        match Field(" +", s2)
        case None => None
        case Some((dstPos, s3)) =>
          match Field(",", s3)
          case None => None
          case Some((_, s4)) => if " @@" <= s4 then Some((srcPos, dstPos)) else None
  }

  function Read(line: string): Reading {
    if After("--- ", line).Some? then SrcFile(After("--- ", line).value)
    else if After("+++ ", line).Some? then DstFile(After("+++ ", line).value)
    else if Header(line).Some? then ChunkStart(Header(line).value.0, Header(line).value.1)
    else if After("-", line).Some? then Body(Src(After("-", line).value))
    else if After("+", line).Some? then Body(Dst(After("+", line).value))
    else if After(" ", line).Some? then Body(Both(After(" ", line).value))
    else Unknown
  }

  // ----- reading a patch list

  /** The patches so far, and the place of the current chunk, which may be in an earlier patch. */
  datatype Progress = Progress(patches: seq<Patch>, current: Option<(nat, nat)>)

  predicate InPlace(p: Progress) {
    p.current.Some? ==> p.current.value.0 < |p.patches| && p.current.value.1 < |p.patches[p.current.value.0].chunks|
  }

  function AddLine(p: Progress, line: Line): Progress
    requires InPlace(p) && p.current.Some?
  {
    var (i, j) := p.current.value;
    var chunk := p.patches[i].chunks[j];
    var grown := chunk.(lines := chunk.lines + [line]);
    p.(patches := p.patches[i := p.patches[i].(chunks := p.patches[i].chunks[j := grown])])
  }

  function OnLast(p: Progress, patch: Patch): seq<Patch>
    requires p.patches != []
  {
    p.patches[|p.patches| - 1 := patch]
  }

  /** One turn of the reading loop; None when it raises. */
  function Turn(p: Progress, reading: Reading): (q: Option<Progress>)
    requires InPlace(p)
    ensures q.Some? ==> InPlace(q.value)
  {
    match reading
    case SrcFile(name) => Some(p.(patches := p.patches + [Patch(name, "", [])]))
    case DstFile(name) =>
      if p.patches == [] then None
      else Some(p.(patches := OnLast(p, p.patches[|p.patches| - 1].(dst := name))))
    case ChunkStart(srcPos, dstPos) =>
      if p.patches == [] then None
      else
        var last := p.patches[|p.patches| - 1];
        Some(Progress(OnLast(p, last.(chunks := last.chunks + [Chunk(srcPos, dstPos, [])])),
                      Some((|p.patches| - 1, |last.chunks|))))
    case Body(l) => if p.current == None then None else Some(AddLine(p, l))
    case Unknown => None
  }

  function Turns(p: Progress, readings: seq<Reading>): (q: Option<Progress>)
    requires InPlace(p)
    ensures q.Some? ==> InPlace(q.value)
    decreases |readings|
  {
    if readings == [] then Some(p)
    else
      var q := Turn(p, readings[0]);
      if q == None then None else Turns(q.value, readings[1..])
  }

  function Readings(lines: seq<string>): seq<Reading> {
    seq(|lines|, i requires 0 <= i < |lines| => Read(lines[i]))
  }

  /** What parse_patchset returns; None when it raises. */
  function Parse(lines: seq<string>): Option<seq<Patch>> {
    var q := Turns(Progress([], None), Readings(lines));
    if q == None then None else Some(q.value.patches)
  }

  // ----- writing

  function Mark(l: Line): string {
    match l case Src(_) => "-" case Dst(_) => "+" case Both(_) => " "
  }

  function WriteLine(l: Line): string {
    Mark(l) + l.text + "\n"
  }

  function SrcLen(lines: seq<Line>): nat {
    if lines == [] then 0 else SrcLen(lines[..|lines| - 1]) + if lines[|lines| - 1].Dst? then 0 else 1
  }

  function DstLen(lines: seq<Line>): nat {
    if lines == [] then 0 else DstLen(lines[..|lines| - 1]) + if lines[|lines| - 1].Src? then 0 else 1
  }

  function WriteHeader(c: Chunk): string {
    "@@ -" + Decimal(c.srcPos) + "," + Decimal(SrcLen(c.lines)) + " +"
    + Decimal(c.dstPos) + "," + Decimal(DstLen(c.lines)) + " @@\n"
  }

  function WriteLines(lines: seq<Line>): seq<string> {
    seq(|lines|, i requires 0 <= i < |lines| => WriteLine(lines[i]))
  }

  function WriteChunk(c: Chunk): seq<string> {
    [WriteHeader(c)] + WriteLines(c.lines)
  }

  function WriteChunks(cs: seq<Chunk>): seq<string> {
    if cs == [] then [] else WriteChunks(cs[..|cs| - 1]) + WriteChunk(cs[|cs| - 1])
  }

  function WritePatch(p: Patch): seq<string> {
    ["--- " + p.src + "\n", "+++ " + p.dst + "\n"] + WriteChunks(p.chunks)
  }

  lemma OneMoreChunk(cs: seq<Chunk>, n: nat)
    requires 0 < n <= |cs|
    ensures WriteChunks(cs[..n]) == WriteChunks(cs[..n - 1]) + WriteChunk(cs[n - 1])
  {
    assert cs[..n][..n - 1] == cs[..n - 1];
  }

  function WriteAll(ps: seq<Patch>): seq<string> {
    if ps == [] then [] else WriteAll(ps[..|ps| - 1]) + WritePatch(ps[|ps| - 1])
  }

  // ----- what reading makes of each written line

  predicate OneLine(s: string) {
    '\n' !in s
  }

  lemma AfterWritten(prefix: string, text: string)
    requires OneLine(text)
    ensures After(prefix, prefix + text + "\n") == Some(text)
  {
    var line := prefix + text + "\n";
    assert line[|prefix|..] == text + "\n";
    assert Chomp(text + "\n") == text;
  }

  lemma NotAfter(prefix: string, line: string)
    requires !(prefix <= line)
    ensures After(prefix, line) == None
  {
  }

  lemma FieldWritten(before: string, n: nat, rest: string)
    requires rest != "" && !IsDigit(rest[0])
    ensures Field(before, before + Decimal(n) + rest) == Some((n, rest))
  {
    var s := before + Decimal(n) + rest;
    assert s[|before|..] == Decimal(n) + rest;
    DigitCountOf(Decimal(n), rest);
    assert (Decimal(n) + rest)[..|Decimal(n)|] == Decimal(n);
    assert (Decimal(n) + rest)[|Decimal(n)|..] == rest;
    NumberOfDecimal(n);
  }

  /** The second half of a header: what follows the first position. */
  lemma ReadHeaderEnd(srcLen: nat, dstPos: nat, dstLen: nat) returns (s1: string, s2: string, s3: string)
    ensures s3 == "," + Decimal(dstLen) + " @@\n" && s2 == " +" + Decimal(dstPos) + s3
           && s1 == "," + Decimal(srcLen) + s2
    ensures Field(",", s1) == Some((srcLen, s2)) && Field(" +", s2) == Some((dstPos, s3))
    ensures Field(",", s3) == Some((dstLen, " @@\n"))
  {
    s3 := "," + Decimal(dstLen) + " @@\n";
    s2 := " +" + Decimal(dstPos) + s3;
    s1 := "," + Decimal(srcLen) + s2;
    FieldWritten(",", srcLen, s2);
    FieldWritten(" +", dstPos, s3);
    FieldWritten(",", dstLen, " @@\n");
  }

  lemma HeaderWritten(c: Chunk)
    ensures Header(WriteHeader(c)) == Some((c.srcPos, c.dstPos))
  {
    var s1, s2, s3 := ReadHeaderEnd(SrcLen(c.lines), c.dstPos, DstLen(c.lines));
    HeaderTail(c, s1);
    FieldWritten("@@ -", c.srcPos, s1);
  }

  lemma HeaderTail(c: Chunk, s1: string)
    requires s1 == "," + Decimal(SrcLen(c.lines))
            + (" +" + Decimal(c.dstPos) + ("," + Decimal(DstLen(c.lines)) + " @@\n"))
    ensures WriteHeader(c) == "@@ -" + Decimal(c.srcPos) + s1
  {
    FiveParts("@@ -" + Decimal(c.srcPos), "," + Decimal(SrcLen(c.lines)),
              " +" + Decimal(c.dstPos), "," + Decimal(DstLen(c.lines)));
  }

  lemma FiveParts(a: string, b: string, c: string, d: string)
    ensures a + (b + (c + (d + " @@\n"))) == a + b + c + d + " @@\n"
  {
  }

  lemma ReadHeader(c: Chunk)
    ensures Read(WriteHeader(c)) == ChunkStart(c.srcPos, c.dstPos)
  {
    HeaderWritten(c);
    var line := WriteHeader(c);
    assert line[0] == '@';
    NotAfter("--- ", line);
    NotAfter("+++ ", line);
  }

  /** A line that would be taken for a file name. */
  predicate Ambiguous(l: Line) {
    (l.Src? && "-- " <= l.text) || (l.Dst? && "++ " <= l.text)
  }

  lemma ReadWritten(l: Line)
    requires OneLine(l.text)
    ensures !Ambiguous(l) ==> Read(WriteLine(l)) == Body(l)
    ensures Ambiguous(l) && l.Src? ==> Read(WriteLine(l)).SrcFile?
    ensures Ambiguous(l) && l.Dst? ==> Read(WriteLine(l)).DstFile?
  {
    if Ambiguous(l) {
      ReadAmbiguous(l);
    } else {
      ReadUnambiguous(l);
    }
  }

  lemma ReadAmbiguous(l: Line)
    requires OneLine(l.text) && Ambiguous(l)
    ensures if l.Src? then Read(WriteLine(l)).SrcFile? else Read(WriteLine(l)).DstFile?
  {
    var sign := if l.Src? then "--- " else "+++ ";
    var line := sign + l.text[3..] + "\n";
    assert WriteLine(l) == line;
    AfterWritten(sign, l.text[3..]);
    if l.Dst? {
      assert line[0] == '+' && "--- "[0] == '-';
      NotAfter("--- ", line);
    }
  }

  lemma ReadUnambiguous(l: Line)
    requires OneLine(l.text) && !Ambiguous(l)
    ensures Read(WriteLine(l)) == Body(l)
  {
    var line := Mark(l) + l.text + "\n";
    assert line[0] == Mark(l)[0];
    AfterWritten(Mark(l), l.text);
    NoHeader(line);
    NotFileName(Mark(l), l.text, line);
  }

  lemma NoHeader(line: string)
    requires line != "" && line[0] != '@'
    ensures Header(line) == None
  {
    assert "@@ -"[0] == '@';
  }

  lemma NotFileName(mark: string, text: string, line: string)
    requires |mark| == 1 && line == mark + text + "\n"
    ensures "--- " <= line ==> mark == "-" && "-- " <= text
    ensures "+++ " <= line ==> mark == "+" && "++ " <= text
  {
    if "--- " <= line || "+++ " <= line {
      assert line[..4][0] == line[0] == mark[0];
      assert line[1..4] == (text + "\n")[..3];
      assert (text + "\n")[2] == ' ';
      assert text[..3] == (text + "\n")[..3];
      assert line[..4] == [line[0]] + line[1..4];
      assert "--- "[1..] == "-- " && "+++ "[1..] == "++ ";
      assert line[..4][1..] == text[..3];
    }
  }

  // ----- reading back what was written

  ghost predicate LinesOk(c: Chunk) {
    forall i :: 0 <= i < |c.lines| ==> OneLine(c.lines[i].text)
  }

  ghost predicate PatchOk(p: Patch) {
    OneLine(p.src) && OneLine(p.dst) && forall j :: 0 <= j < |p.chunks| ==> LinesOk(p.chunks[j])
  }

  /** No name and no line contains a line break. */
  ghost predicate AllOk(ps: seq<Patch>) {
    forall i :: 0 <= i < |ps| ==> PatchOk(ps[i])
  }

  const AMBIGUOUS: Line -> nat := (l: Line) => if Ambiguous(l) then 1 else 0
  const AMBIGUOUS_IN: Chunk -> nat := (c: Chunk) => Total(c.lines, AMBIGUOUS)
  const AMBIGUOUS_LINES: Patch -> nat := (p: Patch) => Total(p.chunks, AMBIGUOUS_IN)

  /** How many removed lines start with "-- " or added lines with "++ ". */
  function AmbiguousLines(ps: seq<Patch>): nat {
    Total(ps, AMBIGUOUS_LINES)
  }

  // ----- the readings of an unambiguous patch list

  function LineReadings(lines: seq<Line>): seq<Reading> {
    seq(|lines|, i requires 0 <= i < |lines| => Body(lines[i]))
  }

  function ChunkReadings(c: Chunk): seq<Reading> {
    [ChunkStart(c.srcPos, c.dstPos)] + LineReadings(c.lines)
  }

  function ChunksReadings(cs: seq<Chunk>): seq<Reading> {
    if cs == [] then [] else ChunksReadings(cs[..|cs| - 1]) + ChunkReadings(cs[|cs| - 1])
  }

  function PatchReadings(p: Patch): seq<Reading> {
    [SrcFile(p.src), DstFile(p.dst)] + ChunksReadings(p.chunks)
  }

  function AllReadings(ps: seq<Patch>): seq<Reading> {
    if ps == [] then [] else AllReadings(ps[..|ps| - 1]) + PatchReadings(ps[|ps| - 1])
  }

  lemma ReadingsAppend(a: seq<string>, b: seq<string>)
    ensures Readings(a + b) == Readings(a) + Readings(b)
  {
  }

  lemma ReadingOfOne(line: string)
    ensures Readings([line]) == [Read(line)]
  {
  }

  lemma ChunkWritten(c: Chunk)
    requires LinesOk(c) && Total(c.lines, AMBIGUOUS) == 0
    ensures Readings(WriteChunk(c)) == ChunkReadings(c)
  {
    TotalZero(c.lines, AMBIGUOUS);
    forall i | 0 <= i < |c.lines| ensures Read(WriteLine(c.lines[i])) == Body(c.lines[i]) {
      assert AMBIGUOUS(c.lines[i]) == 0;
      ReadWritten(c.lines[i]);
    }
    assert Readings(WriteLines(c.lines)) == LineReadings(c.lines);
    ReadHeader(c);
    ReadingOfOne(WriteHeader(c));
    ReadingsAppend([WriteHeader(c)], WriteLines(c.lines));
  }

  lemma {:induction false} ChunksWritten(cs: seq<Chunk>)
    requires (forall j :: 0 <= j < |cs| ==> LinesOk(cs[j])) && Total(cs, AMBIGUOUS_IN) == 0
    ensures Readings(WriteChunks(cs)) == ChunksReadings(cs)
  {
    if cs != [] {
      var n := |cs| - 1;
      ChunksWritten(cs[..n]);
      ChunkWritten(cs[n]);
      ReadingsAppend(WriteChunks(cs[..n]), WriteChunk(cs[n]));
    }
  }

  lemma NamesWritten(src: string, dst: string)
    requires OneLine(src) && OneLine(dst)
    ensures Readings(["--- " + src + "\n", "+++ " + dst + "\n"]) == [SrcFile(src), DstFile(dst)]
  {
    var second := "+++ " + dst + "\n";
    AfterWritten("--- ", src);
    AfterWritten("+++ ", dst);
    assert second[0] == '+';
    NotAfter("--- ", second);
  }

  lemma {:induction false} AllWritten(ps: seq<Patch>)
    requires AllOk(ps) && AmbiguousLines(ps) == 0
    ensures Readings(WriteAll(ps)) == AllReadings(ps)
  {
    if ps != [] {
      var n := |ps| - 1;
      var p := ps[n];
      AllWritten(ps[..n]);
      NamesWritten(p.src, p.dst);
      assert AMBIGUOUS_LINES(p) == 0;
      ChunksWritten(p.chunks);
      ReadingsAppend(["--- " + p.src + "\n", "+++ " + p.dst + "\n"], WriteChunks(p.chunks));
      ReadingsAppend(WriteAll(ps[..n]), WritePatch(p));
    }
  }

  // ----- what the loop makes of them

  lemma {:induction false} TurnsAppend(p: Progress, a: seq<Reading>, b: seq<Reading>)
    requires InPlace(p)
    ensures Turns(p, a + b) == if Turns(p, a).Some? then Turns(Turns(p, a).value, b) else None
    decreases |a|
  {
    if a == [] {
      assert a + b == b;
    } else {
      assert (a + b)[1..] == a[1..] + b;
      var q := Turn(p, a[0]);
      if q.Some? {
        TurnsAppend(q.value, a[1..], b);
      }
    }
  }

  lemma TurnsOne(p: Progress, r: Reading)
    requires InPlace(p)
    ensures Turns(p, [r]) == Turn(p, r)
  {
    assert [r][1..] == [];
  }

  /** The progress after some patches and, in a last one, some chunks. */
  function At(before: seq<Patch>, src: string, dst: string, chunks: seq<Chunk>, current: Option<(nat, nat)>): Progress {
    Progress(before + [Patch(src, dst, chunks)],
             if chunks == [] then current else Some((|before|, |chunks| - 1)))
  }

  lemma ReadLine(before: seq<Patch>, src: string, dst: string, chunks: seq<Chunk>, c: Chunk, l: Line)
    ensures var p := At(before, src, dst, chunks + [c], None);
            InPlace(p) && Turn(p, Body(l)) == Some(At(before, src, dst, chunks + [c.(lines := c.lines + [l])], None))
  {
    var grown := c.(lines := c.lines + [l]);
    var p, q := At(before, src, dst, chunks + [c], None), At(before, src, dst, chunks + [grown], None);
    assert p.patches[|before|].chunks[|chunks|] == c;
    assert (chunks + [c])[|chunks| := grown] == chunks + [grown];
    assert AddLine(p, l).patches == q.patches;
  }

  lemma {:induction false} ReadLines(before: seq<Patch>, src: string, dst: string, chunks: seq<Chunk>, c: Chunk, n: nat)
    requires n <= |c.lines|
    ensures InPlace(At(before, src, dst, chunks + [c.(lines := [])], None))
    ensures Turns(At(before, src, dst, chunks + [c.(lines := [])], None), LineReadings(c.lines[..n]))
            == Some(At(before, src, dst, chunks + [c.(lines := c.lines[..n])], None))
  {
    var p := At(before, src, dst, chunks + [c.(lines := [])], None);
    SameAt(before, src, dst, chunks + [c.(lines := [])], None, None);
    if n == 0 {
      assert LineReadings(c.lines[..0]) == [] && c.lines[..0] == [];
    } else {
      var l := c.lines[n - 1];
      ReadLines(before, src, dst, chunks, c, n - 1);
      assert c.lines[..n - 1] + [l] == c.lines[..n];
      assert LineReadings(c.lines[..n]) == LineReadings(c.lines[..n - 1]) + [Body(l)];
      TurnsAppend(p, LineReadings(c.lines[..n - 1]), [Body(l)]);
      ReadLine(before, src, dst, chunks, c.(lines := c.lines[..n - 1]), l);
      TurnsOne(At(before, src, dst, chunks + [c.(lines := c.lines[..n - 1])], None), Body(l));
    }
  }

  lemma ReadHeaderTurn(before: seq<Patch>, src: string, dst: string, chunks: seq<Chunk>, c: Chunk,
                       current: Option<(nat, nat)>)
    requires InPlace(At(before, src, dst, chunks, current))
    ensures Turns(At(before, src, dst, chunks, current), [ChunkStart(c.srcPos, c.dstPos)])
            == Some(At(before, src, dst, chunks + [c.(lines := [])], None))
  {
    var p := At(before, src, dst, chunks, current);
    var q := At(before, src, dst, chunks + [c.(lines := [])], None);
    TurnsOne(p, ChunkStart(c.srcPos, c.dstPos));
    assert p.patches[|before|] == Patch(src, dst, chunks);
    assert OnLast(p, Patch(src, dst, chunks + [c.(lines := [])])) == q.patches;
  }

  lemma ReadChunk(before: seq<Patch>, src: string, dst: string, chunks: seq<Chunk>, c: Chunk,
                  current: Option<(nat, nat)>)
    requires InPlace(At(before, src, dst, chunks, current))
    ensures InPlace(At(before, src, dst, chunks + [c], current))
    ensures Turns(At(before, src, dst, chunks, current), ChunkReadings(c))
            == Some(At(before, src, dst, chunks + [c], current))
  {
    var p := At(before, src, dst, chunks, current);
    ReadHeaderTurn(before, src, dst, chunks, c, current);
    TurnsAppend(p, [ChunkStart(c.srcPos, c.dstPos)], LineReadings(c.lines));
    assert c.lines[..|c.lines|] == c.lines;
    ReadLines(before, src, dst, chunks, c, |c.lines|);
    SameAt(before, src, dst, chunks + [c], None, current);
  }

  /** Once there is a chunk the earlier current chunk does not matter. */
  lemma SameAt(before: seq<Patch>, src: string, dst: string, chunks: seq<Chunk>, a: Option<(nat, nat)>,
               b: Option<(nat, nat)>)
    requires chunks != []
    ensures At(before, src, dst, chunks, a) == At(before, src, dst, chunks, b)
    ensures InPlace(At(before, src, dst, chunks, a))
  {
    assert At(before, src, dst, chunks, a).patches[|before|].chunks == chunks;
  }

  lemma {:induction false} ReadChunks(before: seq<Patch>, src: string, dst: string, chunks: seq<Chunk>,
                                      current: Option<(nat, nat)>)
    requires InPlace(At(before, src, dst, [], current))
    ensures InPlace(At(before, src, dst, chunks, current))
    ensures Turns(At(before, src, dst, [], current), ChunksReadings(chunks))
            == Some(At(before, src, dst, chunks, current))
    decreases |chunks|
  {
    if chunks != [] {
      var n := |chunks| - 1;
      ReadChunks(before, src, dst, chunks[..n], current);
      TurnsAppend(At(before, src, dst, [], current), ChunksReadings(chunks[..n]), ChunkReadings(chunks[n]));
      ReadChunk(before, src, dst, chunks[..n], chunks[n], current);
      assert chunks[..n] + [chunks[n]] == chunks;
    }
  }

  lemma ReadNames(before: seq<Patch>, src: string, dst: string, current: Option<(nat, nat)>)
    requires InPlace(Progress(before, current))
    ensures InPlace(At(before, src, dst, [], current))
    ensures Turns(Progress(before, current), [SrcFile(src), DstFile(dst)]) == Some(At(before, src, dst, [], current))
  {
    var p, q := Progress(before, current), Progress(before + [Patch(src, "", [])], current);
    assert OnLast(q, Patch(src, dst, [])) == before + [Patch(src, dst, [])];
    TurnsOne(p, SrcFile(src));
    TurnsOne(q, DstFile(dst));
    TurnsAppend(p, [SrcFile(src)], [DstFile(dst)]);
    assert [SrcFile(src)] + [DstFile(dst)] == [SrcFile(src), DstFile(dst)];
  }

  lemma ReadPatch(before: seq<Patch>, p: Patch, current: Option<(nat, nat)>)
    requires InPlace(Progress(before, current))
    ensures InPlace(At(before, p.src, p.dst, p.chunks, current))
    ensures Turns(Progress(before, current), PatchReadings(p)) == Some(At(before, p.src, p.dst, p.chunks, current))
  {
    ReadNames(before, p.src, p.dst, current);
    ReadChunks(before, p.src, p.dst, p.chunks, current);
    TurnsAppend(Progress(before, current), [SrcFile(p.src), DstFile(p.dst)], ChunksReadings(p.chunks));
  }

  lemma {:induction false} ReadAll(ps: seq<Patch>) returns (current: Option<(nat, nat)>)
    ensures InPlace(Progress(ps, current)) && Turns(Progress([], None), AllReadings(ps)) == Some(Progress(ps, current))
  {
    if ps == [] {
      current := None;
    } else {
      var n := |ps| - 1;
      var earlier := ReadAll(ps[..n]);
      TurnsAppend(Progress([], None), AllReadings(ps[..n]), PatchReadings(ps[n]));
      ReadPatch(ps[..n], ps[n], earlier);
      assert ps == ps[..n] + [Patch(ps[n].src, ps[n].dst, ps[n].chunks)];
      current := At(ps[..n], ps[n].src, ps[n].dst, ps[n].chunks, earlier).current;
    }
  }

  // ----- what the loop preserves, whatever the text: each body line becomes a line of some chunk

  const LINES: Chunk -> nat := (c: Chunk) => |c.lines|
  const PATCH_LINES: Patch -> nat := (p: Patch) => Total(p.chunks, LINES)
  const BODY: Reading -> nat := (r: Reading) => if r.Body? then 1 else 0

  lemma RenamedCounts(patches: seq<Patch>, name: string)
    requires patches != []
    ensures var last := patches[|patches| - 1].(dst := name);
            Total(patches[|patches| - 1 := last], PATCH_LINES) == Total(patches, PATCH_LINES)
  {
    TotalUpdate(patches, |patches| - 1, patches[|patches| - 1].(dst := name), PATCH_LINES);
  }

  lemma NewChunkCounts(patches: seq<Patch>, c: Chunk)
    requires patches != [] && c.lines == []
    ensures var last := patches[|patches| - 1];
            Total(patches[|patches| - 1 := last.(chunks := last.chunks + [c])], PATCH_LINES)
            == Total(patches, PATCH_LINES)
  {
    var last := patches[|patches| - 1];
    TotalSnoc(last.chunks, c, LINES);
    TotalUpdate(patches, |patches| - 1, last.(chunks := last.chunks + [c]), PATCH_LINES);
  }

  lemma TurnCounts(p: Progress, r: Reading)
    requires InPlace(p) && Turn(p, r).Some?
    ensures Total(Turn(p, r).value.patches, PATCH_LINES) == Total(p.patches, PATCH_LINES) + BODY(r)
  {
    match r
    case SrcFile(name) => TotalSnoc(p.patches, Patch(name, "", []), PATCH_LINES);
    case DstFile(name) => RenamedCounts(p.patches, name);
    case ChunkStart(srcPos, dstPos) => NewChunkCounts(p.patches, Chunk(srcPos, dstPos, []));
    case Body(l) => AddLineCounts(p, l);
    case Unknown =>
  }

  lemma AddLineCounts(p: Progress, l: Line)
    requires InPlace(p) && p.current.Some?
    ensures Total(AddLine(p, l).patches, PATCH_LINES) == Total(p.patches, PATCH_LINES) + 1
  {
    var (i, j) := p.current.value;
    var chunks := p.patches[i].chunks;
    var grown := chunks[j].(lines := chunks[j].lines + [l]);
    TotalUpdate(chunks, j, grown, LINES);
    TotalUpdate(p.patches, i, p.patches[i].(chunks := chunks[j := grown]), PATCH_LINES);
  }

  lemma {:induction false} TurnsCount(p: Progress, rs: seq<Reading>)
    requires InPlace(p) && Turns(p, rs).Some?
    ensures Total(Turns(p, rs).value.patches, PATCH_LINES) == Total(p.patches, PATCH_LINES) + Total(rs, BODY)
    decreases |rs|
  {
    if rs != [] {
      TurnCounts(p, rs[0]);
      TurnsCount(Turn(p, rs[0]).value, rs[1..]);
      TotalHead(rs, BODY);
    }
  }

  lemma LineWritten(l: Line)
    requires OneLine(l.text)
    ensures BODY(Read(WriteLine(l))) + AMBIGUOUS(l) == 1
  {
    ReadWritten(l);
  }

  lemma ReadingsOfLines(lines: seq<Line>)
    requires lines != []
    ensures var n := |lines| - 1;
            Readings(WriteLines(lines)) == Readings(WriteLines(lines[..n])) + [Read(WriteLine(lines[n]))]
  {
  }

  lemma {:induction false} LinesWritten(lines: seq<Line>)
    requires forall i :: 0 <= i < |lines| ==> OneLine(lines[i].text)
    ensures Total(Readings(WriteLines(lines)), BODY) + Total(lines, AMBIGUOUS) == |lines|
  {
    if lines != [] {
      var n := |lines| - 1;
      LinesWritten(lines[..n]);
      LineWritten(lines[n]);
      ReadingsOfLines(lines);
      TotalSnoc(Readings(WriteLines(lines[..n])), Read(WriteLine(lines[n])), BODY);
    }
  }

  lemma BodiesOfChunk(c: Chunk)
    requires LinesOk(c)
    ensures Total(Readings(WriteChunk(c)), BODY) + AMBIGUOUS_IN(c) == LINES(c)
  {
    ReadHeader(c);
    ReadingOfOne(WriteHeader(c));
    ReadingsAppend([WriteHeader(c)], WriteLines(c.lines));
    TotalConcat([Read(WriteHeader(c))], Readings(WriteLines(c.lines)), BODY);
    BodyOfOne(Read(WriteHeader(c)));
    LinesWritten(c.lines);
  }

  lemma BodyOfOne(r: Reading)
    ensures Total([r], BODY) == BODY(r)
  {
    TotalSnoc([], r, BODY);
    assert [] + [r] == [r];
  }

  lemma {:induction false} BodiesOfChunks(cs: seq<Chunk>)
    requires forall j :: 0 <= j < |cs| ==> LinesOk(cs[j])
    ensures Total(Readings(WriteChunks(cs)), BODY) + Total(cs, AMBIGUOUS_IN) == Total(cs, LINES)
  {
    if cs != [] {
      var n := |cs| - 1;
      BodiesOfChunks(cs[..n]);
      BodiesOfChunk(cs[n]);
      ReadingsAppend(WriteChunks(cs[..n]), WriteChunk(cs[n]));
      TotalConcat(Readings(WriteChunks(cs[..n])), Readings(WriteChunk(cs[n])), BODY);
    }
  }

  lemma BodiesOfPatch(p: Patch)
    requires PatchOk(p)
    ensures Total(Readings(WritePatch(p)), BODY) + AMBIGUOUS_LINES(p) == PATCH_LINES(p)
  {
    var names := ["--- " + p.src + "\n", "+++ " + p.dst + "\n"];
    NamesWritten(p.src, p.dst);
    BodiesOfChunks(p.chunks);
    ReadingsAppend(names, WriteChunks(p.chunks));
    TotalConcat(Readings(names), Readings(WriteChunks(p.chunks)), BODY);
    TotalZero(Readings(names), BODY);
  }

  lemma {:induction false} BodiesOfAll(ps: seq<Patch>)
    requires AllOk(ps)
    ensures Total(Readings(WriteAll(ps)), BODY) + AmbiguousLines(ps) == Total(ps, PATCH_LINES)
  {
    if ps != [] {
      var n := |ps| - 1;
      BodiesOfAll(ps[..n]);
      BodiesOfPatch(ps[n]);
      ReadingsAppend(WriteAll(ps[..n]), WritePatch(ps[n]));
      TotalConcat(Readings(WriteAll(ps[..n])), Readings(WritePatch(ps[n])), BODY);
    }
  }

  /**
   * Reading back what was written gives the same patch list if and only if no removed line
   * starts with "-- " and no added line starts with "++ ".
   */
  lemma ParseUndoesWrite(ps: seq<Patch>)
    requires AllOk(ps)
    ensures Parse(WriteAll(ps)) == Some(ps) <==> AmbiguousLines(ps) == 0
  {
    if AmbiguousLines(ps) == 0 {
      AllWritten(ps);
      var current := ReadAll(ps);
    } else {
      BodiesOfAll(ps);
      var start := Progress([], None);
      if Turns(start, Readings(WriteAll(ps))).Some? {
        TurnsCount(start, Readings(WriteAll(ps)));
      }
    }
  }

  /** A count of ambiguous lines of 0 means that there is none anywhere. */
  lemma NoAmbiguousLine(ps: seq<Patch>)
    ensures AmbiguousLines(ps) == 0 <==>
              forall i, j, k :: 0 <= i < |ps| && 0 <= j < |ps[i].chunks| && 0 <= k < |ps[i].chunks[j].lines| ==>
                !Ambiguous(ps[i].chunks[j].lines[k])
  {
    TotalZero(ps, AMBIGUOUS_LINES);
    forall i | 0 <= i < |ps|
      ensures AMBIGUOUS_LINES(ps[i]) == 0 <==>
                forall j, k :: 0 <= j < |ps[i].chunks| && 0 <= k < |ps[i].chunks[j].lines| ==>
                  !Ambiguous(ps[i].chunks[j].lines[k])
    {
      var cs := ps[i].chunks;
      TotalZero(cs, AMBIGUOUS_IN);
      forall j | 0 <= j < |cs| ensures AMBIGUOUS_IN(cs[j]) == 0 <==>
                 forall k :: 0 <= k < |cs[j].lines| ==> !Ambiguous(cs[j].lines[k]) {
        TotalZero(cs[j].lines, AMBIGUOUS);
      }
    }
  }

  // ----- the counts in a header

  function StartsWith(a: char, b: char): string -> nat {
    (line: string) => if line != "" && (line[0] == a || line[0] == b) then 1 else 0
  }

  /** The counts in a written header are those of the written lines that follow it. */
  lemma {:induction false} HeaderCounts(lines: seq<Line>)
    ensures SrcLen(lines) == Total(WriteLines(lines), StartsWith('-', ' '))
    ensures DstLen(lines) == Total(WriteLines(lines), StartsWith('+', ' '))
  {
    if lines != [] {
      var n := |lines| - 1;
      HeaderCounts(lines[..n]);
      assert WriteLines(lines)[..n] == WriteLines(lines[..n]);
    }
  }
}
