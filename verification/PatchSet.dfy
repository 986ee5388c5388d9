/** The patch objects of the style checker, and the loop that fills them. */
module PatchSet {
  import opened Collections
  import T = PatchText

  datatype LineType = Unset | Src | Dst | Both

  class PatchChunkLine {
    var kind: LineType
    var text: string

    constructor ()
      ensures kind == Unset && text == ""
    {
      kind, text := Unset, "";
    }

    method SetSrc(line: string)
      modifies this
      ensures IsLine(this, T.Src(line))
    {
      kind, text := Src, line;
    }

    method SetDst(line: string)
      modifies this
      ensures IsLine(this, T.Dst(line))
    {
      kind, text := Dst, line;
    }

    method SetBoth(line: string)
      modifies this
      ensures IsLine(this, T.Both(line))
    {
      kind, text := Both, line;
    }

    /** None stands for the exception about a line whose type was never set. */
    method Write(ghost l: T.Line) returns (out: Option<string>)
      requires kind == Unset || IsLine(this, l)
      ensures out == if kind == Unset then None else Some(T.WriteLine(l))
    {
      if kind == Src {
        return Some("-" + text + "\n");
      } else if kind == Dst {
        return Some("+" + text + "\n");
      } else if kind == Both {
        return Some(" " + text + "\n");
      } else {
        return None;
      }
    }
  }

  /** The object has the given value. */
  ghost predicate IsLine(o: PatchChunkLine, l: T.Line)
    reads o
  {
    o.text == l.text && o.kind == match l case Src(_) => Src case Dst(_) => Dst case Both(_) => Both
  }

  class PatchChunk {
    var lines: seq<PatchChunkLine>
    const srcPos: nat
    const dstPos: nat

    constructor (srcPos: nat, dstPos: nat)
      ensures IsChunk(this, T.Chunk(srcPos, dstPos, []))
    {
      this.srcPos, this.dstPos := srcPos, dstPos;
      lines := [];
    }

    method AddLine(line: PatchChunkLine, ghost c: T.Chunk, ghost l: T.Line)
      requires IsChunk(this, c) && IsLine(line, l)
      modifies this
      ensures IsChunk(this, c.(lines := c.lines + [l]))
    {
      lines := lines + [line];
    }

    /** The lengths of the two sides. */
    method Lengths(ghost c: T.Chunk) returns (srcLen: nat, dstLen: nat)
      requires IsChunk(this, c)
      ensures srcLen == T.SrcLen(c.lines) && dstLen == T.DstLen(c.lines)
    {
      srcLen, dstLen := 0, 0;
      for i := 0 to |lines|
        invariant srcLen == T.SrcLen(c.lines[..i]) && dstLen == T.DstLen(c.lines[..i])
      {
        assert IsLine(lines[i], c.lines[i]);
        assert c.lines[..i + 1][..i] == c.lines[..i];
        if lines[i].kind == Src || lines[i].kind == Both {
          srcLen := srcLen + 1;
        }
        if lines[i].kind == Dst || lines[i].kind == Both {
          dstLen := dstLen + 1;
        }
      }
      assert c.lines[..|c.lines|] == c.lines;
    }

    method Write(ghost c: T.Chunk) returns (out: seq<string>)
      requires IsChunk(this, c)
      ensures out == T.WriteChunk(c)
    {
      var srcLen, dstLen := Lengths(c);
      out := ["@@ -" + T.Decimal(srcPos) + "," + T.Decimal(srcLen) + " +"
              + T.Decimal(dstPos) + "," + T.Decimal(dstLen) + " @@\n"];
      for i := 0 to |lines|
        invariant out == [T.WriteHeader(c)] + T.WriteLines(c.lines[..i])
      {
        assert IsLine(lines[i], c.lines[i]);
        var line := lines[i].Write(c.lines[i]);
        assert T.WriteLines(c.lines[..i + 1]) == T.WriteLines(c.lines[..i]) + [T.WriteLine(c.lines[i])];
        out := out + [line.value];
      }
      assert c.lines[..|c.lines|] == c.lines;
    }
  }

  ghost predicate IsChunk(o: PatchChunk, c: T.Chunk)
    reads o, o.lines
  {
    && o.srcPos == c.srcPos && o.dstPos == c.dstPos && |o.lines| == |c.lines|
    && forall k :: 0 <= k < |o.lines| ==> IsLine(o.lines[k], c.lines[k])
  }

  class Patch {
    var src: string
    var dst: string
    var chunks: seq<PatchChunk>

    constructor ()
      ensures IsPatch(this, T.Patch("", "", [])) && chunks == []
    {
      src, dst, chunks := "", "", [];
    }

    method Write(ghost p: T.Patch) returns (out: seq<string>)
      requires IsPatch(this, p)
      ensures out == T.WritePatch(p)
    {
      var body := WriteChunks(p);
      out := ["--- " + src + "\n", "+++ " + dst + "\n"] + body;
    }

    method SetDst(name: string, ghost p: T.Patch)
      requires IsPatch(this, p)
      modifies this
      ensures IsPatch(this, p.(dst := name)) && chunks == old(chunks)
    {
      dst := name;
      assert forall j :: 0 <= j < |chunks| ==> IsChunk(chunks[j], p.chunks[j]);
    }

    method AddChunk(chunk: PatchChunk, ghost p: T.Patch, ghost c: T.Chunk)
      requires IsPatch(this, p) && IsChunk(chunk, c)
      modifies this
      ensures IsPatch(this, p.(chunks := p.chunks + [c])) && chunks == old(chunks) + [chunk]
    {
      chunks := chunks + [chunk];
      assert forall j :: 0 <= j < |p.chunks| ==> IsChunk(chunks[j], p.chunks[j]);
    }

    method WriteChunks(ghost p: T.Patch) returns (out: seq<string>)
      requires IsPatch(this, p)
      ensures out == T.WriteChunks(p.chunks)
    {
      out := [];
      for j := 0 to |chunks|
        invariant out == T.WriteChunks(p.chunks[..j])
      {
        var lines := chunks[j].Write(p.chunks[j]);
        T.OneMoreChunk(p.chunks, j + 1);
        out := out + lines;
      }
      assert p.chunks[..|p.chunks|] == p.chunks;
    }
  }

  ghost predicate IsPatch(o: Patch, p: T.Patch)
    reads *
  {
    && o.src == p.src && o.dst == p.dst && |o.chunks| == |p.chunks|
    && forall j :: 0 <= j < |o.chunks| ==> IsChunk(o.chunks[j], p.chunks[j])
  }

  // ----- reading

  /** The objects have the given values. */
  ghost predicate ArePatches(os: seq<Patch>, ps: seq<T.Patch>)
    reads *
  {
    |os| == |ps| && forall i :: 0 <= i < |os| ==> IsPatch(os[i], ps[i])
  }

  ghost function ChunksOf(os: seq<Patch>): seq<seq<PatchChunk>>
    reads os
  {
    seq(|os|, i requires 0 <= i < |os| reads os => os[i].chunks)
  }

  /** No chunk occurs at two places. */
  ghost predicate Distinct(cs: seq<seq<PatchChunk>>) {
    forall i, j, i', j' ::
      0 <= i < |cs| && 0 <= j < |cs[i]| && 0 <= i' < |cs| && 0 <= j' < |cs[i']| && (i, j) != (i', j') ==>
        cs[i][j] != cs[i'][j']
  }

  lemma DistinctGrows(cs: seq<seq<PatchChunk>>, n: nat, chunk: PatchChunk)
    requires Distinct(cs) && n < |cs| && forall i :: 0 <= i < |cs| ==> chunk !in cs[i]
    ensures Distinct(cs[n := cs[n] + [chunk]])
  {
    assert forall i, j :: 0 <= i < |cs| && 0 <= j < |cs[i]| ==> cs[i][j] in cs[i];
  }

  /** The loop's variables agree with the progress made. */
  ghost predicate Follows(os: seq<Patch>, chunk: PatchChunk?, q: T.Progress)
    reads *
  {
    && T.InPlace(q) && ArePatches(os, q.patches) && NoDup(os) && Distinct(ChunksOf(os))
    && (chunk == null <==> q.current == None)
    && (chunk != null ==> os[q.current.value.0].chunks[q.current.value.1] == chunk)
  }

  /** A body line goes to the current chunk, wherever that is. */
  method AddToChunk(os: seq<Patch>, chunk: PatchChunk, line: PatchChunkLine, ghost q: T.Progress, ghost l: T.Line)
    requires Follows(os, chunk, q) && IsLine(line, l)
    modifies chunk
    ensures Follows(os, chunk, T.AddLine(q, l))
  {
    ghost var (i, j) := q.current.value;
    chunk.AddLine(line, q.patches[i].chunks[j], l);
    ghost var ps := T.AddLine(q, l).patches;
    forall a | 0 <= a < |os| ensures IsPatch(os[a], ps[a]) {
      forall b | 0 <= b < |os[a].chunks| ensures IsChunk(os[a].chunks[b], ps[a].chunks[b]) {
        assert ChunksOf(os)[a][b] == os[a].chunks[b] && ChunksOf(os)[i][j] == chunk;
      }
    }
  }

  /** A source file line starts a new patch; the current chunk stays. */
  method StartPatch(os: seq<Patch>, chunk: PatchChunk?, name: string, ghost q: T.Progress) returns (now: seq<Patch>)
    requires Follows(os, chunk, q)
    ensures T.Turn(q, T.SrcFile(name)).Some? && Follows(now, chunk, T.Turn(q, T.SrcFile(name)).value)
    ensures now == os + [now[|os|]] && fresh(now[|os|])
  {
    var patch := new Patch();
    patch.src := name;
    now := os + [patch];
    NoDupConcat(os, [patch]);
    assert ChunksOf(now) == ChunksOf(os) + [[]];
  }

  /** A destination file line names the last patch. */
  method SetDst(os: seq<Patch>, chunk: PatchChunk?, name: string, ghost q: T.Progress)
    requires Follows(os, chunk, q) && os != []
    modifies os[|os| - 1]
    ensures T.Turn(q, T.DstFile(name)).Some? && Follows(os, chunk, T.Turn(q, T.DstFile(name)).value)
  {
    ghost var n, before := |os| - 1, ChunksOf(os);
    assert IsPatch(os[n], q.patches[n]);
    os[|os| - 1].SetDst(name, q.patches[n]);
    assert ChunksOf(os) == before;
    ghost var ps := T.OnLast(q, q.patches[n].(dst := name));
    forall a | 0 <= a < |os| ensures IsPatch(os[a], ps[a]) {
      assert a < n ==> os[a] != os[n];
    }
  }

  /** A header starts a new chunk of the last patch. */
  method StartChunk(os: seq<Patch>, chunk: PatchChunk?, srcPos: nat, dstPos: nat,
                    ghost q: T.Progress) returns (now: PatchChunk)
    requires Follows(os, chunk, q) && os != []
    modifies os[|os| - 1]
    ensures fresh(now)
    ensures T.Turn(q, T.ChunkStart(srcPos, dstPos)).Some?
           && Follows(os, now, T.Turn(q, T.ChunkStart(srcPos, dstPos)).value)
  {
    ghost var n, before := |os| - 1, ChunksOf(os);
    assert IsPatch(os[n], q.patches[n]);
    now := new PatchChunk(srcPos, dstPos);
    os[|os| - 1].AddChunk(now, q.patches[n], T.Chunk(srcPos, dstPos, []));
    DistinctGrows(before, n, now);
    assert ChunksOf(os) == before[n := before[n] + [now]];
    ghost var ps := T.Turn(q, T.ChunkStart(srcPos, dstPos)).value.patches;
    forall a | 0 <= a < |os| ensures IsPatch(os[a], ps[a]) {
      assert a < n ==> os[a] != os[n];
    }
  }

  method NewLine(l: T.Line) returns (line: PatchChunkLine)
    ensures fresh(line) && IsLine(line, l)
  {
    line := new PatchChunkLine();
    match l
    case Src(text) => line.SetSrc(text);
    case Dst(text) => line.SetDst(text);
    case Both(text) => line.SetBoth(text);
  }

  lemma {:induction false} NextTurn(rs: seq<T.Reading>, n: nat, start: T.Progress, q: T.Progress)
    requires n < |rs| && T.InPlace(start) && T.Turns(start, rs[..n]) == Some(q)
    ensures T.InPlace(q) && T.Turns(start, rs[..n + 1]) == T.Turn(q, rs[n])
  {
    assert rs[..n + 1] == rs[..n] + [rs[n]];
    T.TurnsAppend(start, rs[..n], [rs[n]]);
    T.TurnsOne(q, rs[n]);
  }

  lemma {:induction false} StopsHere(rs: seq<T.Reading>, n: nat, start: T.Progress)
    requires n <= |rs| && T.InPlace(start) && T.Turns(start, rs[..n]) == None
    ensures T.Turns(start, rs) == None
  {
    assert rs == rs[..n] + rs[n..];
    T.TurnsAppend(start, rs[..n], rs[n..]);
  }

  method ReadLine(lines: seq<string>, n: nat, ghost rs: seq<T.Reading>) returns (reading: T.Reading)
    requires n < |lines| && rs == T.Readings(lines)
    ensures reading == rs[n]
  {
    reading := T.Read(lines[n]);
  }

  predicate Raises(reading: T.Reading, noPatch: bool, noChunk: bool) {
    match reading
    case SrcFile(_) => false
    case DstFile(_) => noPatch
    case ChunkStart(_, _) => noPatch
    case Body(_) => noChunk
    case Unknown => true
  }

  /** parse_patchset; ok is false when it raises. The patches have the values that the text means. */
  method ParsePatchset(lines: seq<string>) returns (ok: bool, patchset: seq<Patch>)
    ensures ok <==> T.Parse(lines).Some?
    ensures ok ==> ArePatches(patchset, T.Parse(lines).value) && NoDup(patchset) && Distinct(ChunksOf(patchset))
  {
    patchset := [];
    var currentChunk: PatchChunk? := null;
    ghost var start, rs := T.Progress([], None), T.Readings(lines);
    ghost var q := start;
    assert ChunksOf([]) == [];
    for n := 0 to |lines|
      invariant T.Turns(start, rs[..n]) == Some(q)
      invariant Follows(patchset, currentChunk, q)
      invariant (forall o :: o in patchset ==> fresh(o)) && (currentChunk != null ==> fresh(currentChunk))
    {
      NextTurn(rs, n, start, q);
      var reading := ReadLine(lines, n, rs);
      ghost var next := T.Turn(q, reading);
      if Raises(reading, patchset == [], currentChunk == null) {
        StopsHere(rs, n + 1, start);
        return false, [];
      }
      assert patchset != [] ==> patchset[|patchset| - 1] in patchset;
      patchset, currentChunk := TakeReading(patchset, currentChunk, reading, q);
      q := next.value;
    }
    assert rs[..|lines|] == rs;
    ok := true;
  }

  /** One turn of the loop, for a reading that does not raise. */
  method TakeReading(os: seq<Patch>, chunk: PatchChunk?, reading: T.Reading, ghost q: T.Progress)
    returns (now: seq<Patch>, current: PatchChunk?)
    requires Follows(os, chunk, q) && !Raises(reading, os == [], chunk == null)
    modifies if os == [] then {} else {os[|os| - 1]}, chunk
    ensures T.Turn(q, reading).Some? && Follows(now, current, T.Turn(q, reading).value)
    ensures forall o :: o in now ==> o in os || fresh(o)
    ensures current != chunk ==> current != null && fresh(current)
  {
    now, current := os, chunk;
    match reading
    case SrcFile(name) => now := StartPatch(os, chunk, name, q);
    case DstFile(name) => SetDst(os, chunk, name, q);
    case ChunkStart(srcPos, dstPos) => current := StartChunk(os, chunk, srcPos, dstPos, q);
    case Body(l) =>
      var line := NewLine(l);
      AddToChunk(os, chunk, line, q, l);
  }
}
