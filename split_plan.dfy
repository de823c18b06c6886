/** The arithmetic of `splitFile` and `getJoinInstructions` in
    src/utils/file-splitter.js: how many parts a file of a given size is cut
    into, which byte range each part covers, and how each part file is named. */
module SplitPlan {
  import opened Text

  newtype byte = b: int | 0 <= b < 256

  /** MAX_WHATSAPP_SIZE, 1.9 GiB: not a whole number of bytes. */
  const MaxWhatsAppSize: real := 1.9 * 1073741824.0
  /** SPLIT_CHUNK_SIZE, 1 GiB. */
  const SplitChunkSize: nat := 1073741824
  const TempDir: string := "/tmp/file_splits"

  /** `needsSplitting`: a size is split when it is non-zero and above the
      delivery ceiling; for whole byte counts that is 2040109466 bytes or more. */
  function NeedsSplitting(fileSize: nat): (r: bool)
    ensures r <==> fileSize >= 2040109466
  {
    fileSize != 0 && fileSize as real > MaxWhatsAppSize
  }

  /** The last size delivered whole and the first size that is split. */
  lemma ThresholdBoundary()
    ensures !NeedsSplitting(2040109465) && NeedsSplitting(2040109466)
  {
  }

  function Min(a: int, b: int): int
  {
    if a <= b then a else b
  }

  /** `i * chunkSize`, the offset at which part `i` (0-based) starts. It is
      built up one chunk at a time so that the proofs about ranges stay
      linear; `OffsetIsProduct` ties it to the product. */
  function Offset(i: nat, chunkSize: nat): nat
  {
    if i == 0 then 0 else Offset(i - 1, chunkSize) + chunkSize
  }

  lemma {:induction false} OffsetIsProduct(i: nat, chunkSize: nat)
    ensures Offset(i, chunkSize) == i * chunkSize
  {
    if i > 0 {
      OffsetIsProduct(i - 1, chunkSize);
      assert i * chunkSize == (i - 1) * chunkSize + chunkSize;
    }
  }

  lemma {:induction false} OffsetMonotone(i: nat, j: nat, chunkSize: nat)
    requires i <= j
    ensures Offset(i, chunkSize) <= Offset(j, chunkSize)
    decreases j
  {
    if i < j {
      OffsetMonotone(i, j - 1, chunkSize);
    }
  }

  /** `Math.ceil(fileSize / chunkSize)`: the fewest chunks that cover the file. */
  function NumParts(fileSize: nat, chunkSize: nat): (n: nat)
    requires chunkSize > 0
    ensures fileSize <= Offset(n, chunkSize)
    ensures n > 0 ==> Offset(n - 1, chunkSize) < fileSize
    ensures n == 0 <==> fileSize == 0
  {
    var n := (fileSize + chunkSize - 1) / chunkSize;
    assert n * chunkSize + (fileSize + chunkSize - 1) % chunkSize == fileSize + chunkSize - 1;
    assert n > 0 ==> (n - 1) * chunkSize == n * chunkSize - chunkSize;
    OffsetIsProduct(n, chunkSize);
    OffsetIsProduct(if n > 0 then n - 1 else 0, chunkSize);
    n
  }

  /** Every part index starts strictly inside the file. */
  lemma StartInsideFile(fileSize: nat, chunkSize: nat, i: nat)
    requires chunkSize > 0 && i < NumParts(fileSize, chunkSize)
    ensures Offset(i, chunkSize) < fileSize
  {
    OffsetMonotone(i, NumParts(fileSize, chunkSize) - 1, chunkSize);
  }

  /** `String(n).padStart(3, '0')`: at least three digits, and it reads back as `n`. */
  function Pad3(n: nat): (r: string)
    ensures 3 <= |r| && AllDigits(r)
    ensures ParseDecimal(r) == n
  {
    var d := Decimal(n);
    ParseDecimalOfDecimal(n);
    if |d| >= 3 then d
    else
      ParseDecimalIgnoresLeadingZeros(3 - |d|, d);
      PadStart(d, 3, '0')
  }

  /** The padded number is exactly three characters wide below 1000 and the
      plain decimal above; its last characters are the decimal and the rest
      are zeros. */
  lemma Pad3Width(n: nat)
    ensures |Pad3(n)| == if |Decimal(n)| < 3 then 3 else |Decimal(n)|
    ensures n < 1000 ==> |Pad3(n)| == 3
    ensures EndsWith(Pad3(n), Decimal(n))
    ensures forall i :: 0 <= i < |Pad3(n)| - |Decimal(n)| ==> Pad3(n)[i] == '0'
  {
    DecimalWidth(n);
  }

  /** `${baseName}.part${String(n).padStart(3, '0')}` */
  function PartFileName(baseName: string, n: nat): (r: string)
  {
    baseName + ".part" + Pad3(n)
  }

  /** `path.join(TEMP_DIR, PartFileName(baseName, n))` */
  function PartPath(baseName: string, n: nat): (r: string)
  {
    TempDir + "/" + PartFileName(baseName, n)
  }

  /** A part path lies in the staging directory, and for a slash-free base
      name its own file name is the part's file name. */
  lemma PartPathBasename(baseName: string, n: nat)
    ensures |TempDir| < |PartPath(baseName, n)|
    ensures PartPath(baseName, n)[..|TempDir| + 1] == TempDir + "/"
    ensures '/' !in baseName ==> Basename(PartPath(baseName, n)) == PartFileName(baseName, n)
  {
    if '/' !in baseName {
      assert forall i :: 0 <= i < |Pad3(n)| ==> Pad3(n)[i] != '/';
      assert PartFileName(baseName, n) == baseName + ".part" + Pad3(n);
      BasenameOfJoin(TempDir, PartFileName(baseName, n));
    }
  }

  lemma ConcatCancel(pre: string, x: string, y: string)
    requires pre + x == pre + y
    ensures x == y
  {
    assert x == (pre + x)[|pre|..];
    assert y == (pre + y)[|pre|..];
  }

  /** `path.basename(p)`: the suffix of `p` after its last '/', or all of `p`
      when it has none. */
  function Basename(p: string): (r: string)
    ensures '/' !in r
    ensures |r| <= |p| && r == p[|p| - |r|..]
    ensures |r| < |p| ==> p[|p| - |r| - 1] == '/'
  {
    if p == [] then []
    else if p[|p| - 1] == '/' then []
    else
      var init := p[..|p| - 1];
      assert p == init + [p[|p| - 1]];
      Basename(init) + [p[|p| - 1]]
  }

  lemma {:induction false} BasenameOfJoin(dir: string, name: string)
    requires '/' !in name
    ensures Basename(dir + "/" + name) == name
  {
    if name != [] {
      var init := name[..|name| - 1];
      assert (dir + "/" + name)[..|dir + "/" + name| - 1] == dir + "/" + init;
      BasenameOfJoin(dir, init);
    } else {
      assert dir + "/" + name == dir + "/";
    }
  }

  /** What follows the base name in a part file name is `.partNNN`. */
  lemma PartFileNameSuffix(baseName: string, n: nat)
    ensures |baseName| <= |PartFileName(baseName, n)|
    ensures PartFileName(baseName, n)[|baseName|..] == ".part" + Pad3(n)
  {
    assert PartFileName(baseName, n) == baseName + (".part" + Pad3(n));
  }

  /** Part paths with different part numbers differ. */
  lemma PartPathInjective(baseName: string, m: nat, n: nat)
    requires PartPath(baseName, m) == PartPath(baseName, n)
    ensures m == n
  {
    ConcatCancel(TempDir + "/", PartFileName(baseName, m), PartFileName(baseName, n));
    PartFileNameSuffix(baseName, m);
    PartFileNameSuffix(baseName, n);
    ConcatCancel(".part", Pad3(m), Pad3(n));
  }

  lemma PartPathsDiffer(baseName: string, m: nat, n: nat)
    requires m != n
    ensures PartPath(baseName, m) != PartPath(baseName, n)
  {
    if PartPath(baseName, m) == PartPath(baseName, n) {
      PartPathInjective(baseName, m, n);
    }
  }

  /** No part file of a staged file is the staged file itself. */
  lemma PartPathIsNotSource(source: string, n: nat)
    ensures PartPath(Basename(source), n) != source
  {
    var b := Basename(source);
    var name := PartFileName(b, n);
    assert forall i :: 0 <= i < |Pad3(n)| ==> Pad3(n)[i] != '/';
    assert '/' !in name by {
      assert name == b + ".part" + Pad3(n);
    }
    BasenameOfJoin(TempDir, name);
  }

  /** One element of the `parts` array that `splitFile` returns. */
  datatype Part = Part(path: string, partNumber: nat, totalParts: nat, size: nat, originalName: string)

  /** Part `i` (0-based) of a file of `fileSize` bytes. */
  function PartAt(baseName: string, fileSize: nat, chunkSize: nat, i: nat): Part
    requires chunkSize > 0 && i < NumParts(fileSize, chunkSize)
  {
    var start := Offset(i, chunkSize);
    var end := Min(start + chunkSize, fileSize);
    StartInsideFile(fileSize, chunkSize, i);
    Part(PartPath(baseName, i + 1), i + 1, NumParts(fileSize, chunkSize), end - start, baseName)
  }

  /** The `parts` array `splitFile` builds for a file named `baseName`. */
  function Plan(baseName: string, fileSize: nat, chunkSize: nat): (parts: seq<Part>)
    requires chunkSize > 0
    ensures |parts| == NumParts(fileSize, chunkSize)
  {
    seq(NumParts(fileSize, chunkSize),
        i requires 0 <= i < NumParts(fileSize, chunkSize) => PartAt(baseName, fileSize, chunkSize, i))
  }

  /** Numbering and sizes: part `i` is number `i + 1` of `ceil(size / chunk)`,
      every part but the last holds exactly `chunkSize` bytes and the last
      holds what remains. */
  lemma PlanShape(baseName: string, fileSize: nat, chunkSize: nat, i: nat)
    requires chunkSize > 0 && i < NumParts(fileSize, chunkSize)
    ensures var n := NumParts(fileSize, chunkSize);
            var p := Plan(baseName, fileSize, chunkSize)[i];
            && p.partNumber == i + 1 && p.totalParts == n && p.originalName == baseName
            && p.path == PartPath(baseName, i + 1)
            && p.size == (if i < n - 1 then chunkSize else fileSize - Offset(n - 1, chunkSize))
  {
    var n := NumParts(fileSize, chunkSize);
    if i < n - 1 {
      OffsetMonotone(i + 1, n - 1, chunkSize);
    }
  }

  /** A zero-byte file yields no parts at all (not an error). */
  lemma EmptyFileHasNoParts(baseName: string, chunkSize: nat)
    requires chunkSize > 0
    ensures Plan(baseName, 0, chunkSize) == []
  {
  }

  /** A file no larger than one chunk yields exactly one part, the whole file. */
  lemma SmallFileIsOnePart(baseName: string, fileSize: nat, chunkSize: nat)
    requires 0 < fileSize <= chunkSize
    ensures Plan(baseName, fileSize, chunkSize) == [Part(PartPath(baseName, 1), 1, 1, fileSize, baseName)]
  {
    assert NumParts(fileSize, chunkSize) == 1;
  }

  /** Distinct parts are written to distinct files. */
  lemma PlanPathsDistinct(baseName: string, fileSize: nat, chunkSize: nat, i: nat, j: nat)
    requires chunkSize > 0 && i < j < NumParts(fileSize, chunkSize)
    ensures Plan(baseName, fileSize, chunkSize)[i].path != Plan(baseName, fileSize, chunkSize)[j].path
  {
    var parts := Plan(baseName, fileSize, chunkSize);
    assert parts[i].path == PartPath(baseName, i + 1);
    assert parts[j].path == PartPath(baseName, j + 1);
    PartPathsDiffer(baseName, i + 1, j + 1);
  }

  function SumSizes(parts: seq<Part>): nat
  {
    if parts == [] then 0 else SumSizes(parts[..|parts| - 1]) + parts[|parts| - 1].size
  }

  lemma {:induction false} PlanPrefixSum(baseName: string, fileSize: nat, chunkSize: nat, k: nat)
    requires chunkSize > 0 && k <= NumParts(fileSize, chunkSize)
    ensures SumSizes(Plan(baseName, fileSize, chunkSize)[..k]) == Min(Offset(k, chunkSize), fileSize)
  {
    if k > 0 {
      var parts := Plan(baseName, fileSize, chunkSize);
      assert parts[..k][..k - 1] == parts[..k - 1];
      PlanPrefixSum(baseName, fileSize, chunkSize, k - 1);
      StartInsideFile(fileSize, chunkSize, k - 1);
    }
  }

  /** The part sizes add up to the file size. */
  lemma PlanSizesSum(baseName: string, fileSize: nat, chunkSize: nat)
    requires chunkSize > 0
    ensures SumSizes(Plan(baseName, fileSize, chunkSize)) == fileSize
  {
    var parts := Plan(baseName, fileSize, chunkSize);
    PlanPrefixSum(baseName, fileSize, chunkSize, |parts|);
    assert parts[..|parts|] == parts;
  }

  /** A 2.5 GiB file is split, into two full 1 GiB parts and a 512 MiB last part. */
  lemma TwoAndAHalfGiB(baseName: string)
    ensures NeedsSplitting(2684354560)
    ensures var parts := Plan(baseName, 2684354560, SplitChunkSize);
            && |parts| == 3
            && parts[0].size == 1073741824 && parts[1].size == 1073741824 && parts[2].size == 536870912
  {
    var n := NumParts(2684354560, SplitChunkSize);
    assert n == 3;
    OffsetIsProduct(2, SplitChunkSize);
    PlanShape(baseName, 2684354560, SplitChunkSize, 0);
    PlanShape(baseName, 2684354560, SplitChunkSize, 1);
    PlanShape(baseName, 2684354560, SplitChunkSize, 2);
  }

  /** The bytes `[i*C, min(i*C + C, size))` that the read stream of part `i` copies. */
  function Chunk(file: seq<byte>, chunkSize: nat, i: nat): seq<byte>
    requires chunkSize > 0 && i < NumParts(|file|, chunkSize)
  {
    StartInsideFile(|file|, chunkSize, i);
    file[Offset(i, chunkSize)..Min(Offset(i, chunkSize) + chunkSize, |file|)]
  }

  function Concat(chunks: seq<seq<byte>>): seq<byte>
  {
    if chunks == [] then [] else Concat(chunks[..|chunks| - 1]) + chunks[|chunks| - 1]
  }

  function Chunks(file: seq<byte>, chunkSize: nat): (cs: seq<seq<byte>>)
    requires chunkSize > 0
    ensures |cs| == NumParts(|file|, chunkSize)
  {
    seq(NumParts(|file|, chunkSize),
        i requires 0 <= i < NumParts(|file|, chunkSize) => Chunk(file, chunkSize, i))
  }

  lemma {:induction false} ChunksPrefix(file: seq<byte>, chunkSize: nat, k: nat)
    requires chunkSize > 0 && k <= NumParts(|file|, chunkSize)
    ensures Concat(Chunks(file, chunkSize)[..k]) == file[..Min(Offset(k, chunkSize), |file|)]
  {
    if k > 0 {
      var cs := Chunks(file, chunkSize);
      assert cs[..k][..k - 1] == cs[..k - 1];
      ChunksPrefix(file, chunkSize, k - 1);
      StartInsideFile(|file|, chunkSize, k - 1);
      var start := Offset(k - 1, chunkSize);
      var end := Min(start + chunkSize, |file|);
      assert cs[k - 1] == file[start..end];
      assert file[..start] + file[start..end] == file[..end];
    }
  }

  /** Each chunk is as long as the part it is written to. */
  lemma ChunkSizeIsPartSize(baseName: string, file: seq<byte>, chunkSize: nat, i: nat)
    requires chunkSize > 0 && i < NumParts(|file|, chunkSize)
    ensures |Chunk(file, chunkSize, i)| == Plan(baseName, |file|, chunkSize)[i].size
  {
  }

  /** Round trip: the chunks, concatenated in part order, are the file again. */
  lemma ChunksReassemble(file: seq<byte>, chunkSize: nat)
    requires chunkSize > 0
    ensures Concat(Chunks(file, chunkSize)) == file
  {
    var cs := Chunks(file, chunkSize);
    ChunksPrefix(file, chunkSize, |cs|);
    assert cs[..|cs|] == cs;
  }

  /** The ranges tile `[0, size)`: the first starts at 0, each ends where the
      next starts and the last ends at the file size. */
  lemma RangesTile(fileSize: nat, chunkSize: nat, i: nat)
    requires chunkSize > 0 && i < NumParts(fileSize, chunkSize)
    ensures i + 1 < NumParts(fileSize, chunkSize) ==>
              Min(Offset(i, chunkSize) + chunkSize, fileSize) == Offset(i + 1, chunkSize)
    ensures i + 1 == NumParts(fileSize, chunkSize) ==>
              Min(Offset(i, chunkSize) + chunkSize, fileSize) == fileSize
  {
    if i + 1 < NumParts(fileSize, chunkSize) {
      StartInsideFile(fileSize, chunkSize, i + 1);
    }
  }

  /** The part-name list of `getJoinInstructions`: `name.part001` up to
      `name.partNNN`, accumulated in a loop. */
  method JoinPartNames(originalName: string, numParts: int) returns (names: seq<string>)
    ensures |names| == (if numParts > 0 then numParts else 0)
    ensures forall k :: 0 <= k < |names| ==> names[k] == PartFileName(originalName, k + 1)
  {
    names := [];
    var i := 1;
    while i <= numParts
      invariant 1 <= i <= (if numParts > 0 then numParts + 1 else 1)
      invariant |names| == i - 1
      invariant forall k :: 0 <= k < |names| ==> names[k] == PartFileName(originalName, k + 1)
    {
      names := names + [PartFileName(originalName, i)];
      i := i + 1;
    }
  }

  /** The number after `.part` in the k-th listed name reads back as
      `k + 1`, so names at different positions differ. */
  lemma JoinNamesNumbered(originalName: string, k: nat)
    ensures ParseDecimal(PartFileName(originalName, k + 1)[|originalName| + 5..]) == k + 1
  {
    var pre := originalName + ".part";
    assert PartFileName(originalName, k + 1) == pre + Pad3(k + 1);
    assert (pre + Pad3(k + 1))[|pre|..] == Pad3(k + 1);
  }

  /** The names `getJoinInstructions` lists for the `parts` of a split: the
      k-th name carries the k-th part's number, and it differs from that
      part's file name only in the base name before `.partNNN`. */
  lemma JoinNamesMatchParts(names: seq<string>, name: string, baseName: string, fileSize: nat, chunkSize: nat, k: nat)
    requires chunkSize > 0 && '/' !in baseName
    requires |names| == NumParts(fileSize, chunkSize)
    requires forall j :: 0 <= j < |names| ==> names[j] == PartFileName(name, j + 1)
    requires k < |names|
    ensures names[k] == PartFileName(name, Plan(baseName, fileSize, chunkSize)[k].partNumber)
    ensures |name| <= |names[k]| && |baseName| <= |Basename(Plan(baseName, fileSize, chunkSize)[k].path)|
    ensures names[k][|name|..] == Basename(Plan(baseName, fileSize, chunkSize)[k].path)[|baseName|..]
  {
    PlanShape(baseName, fileSize, chunkSize, k);
    PartPathBasename(baseName, k + 1);
    PartFileNameSuffix(name, k + 1);
    PartFileNameSuffix(baseName, k + 1);
  }
}
