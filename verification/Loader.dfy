/**
  The application loader of bootloader/kernel/src/app.rs: `App::new` zeroes an
  image, then for each Load segment copies its bytes and at once applies the
  relocations that fall inside it. Headers and relocations are given parsed.
 */
module Loader {
  import opened Arithmetic

  const WORD: nat := 8
  const U64_RANGE: nat := 0x1_0000_0000_0000_0000

  datatype Header = Header(load: bool, vaddr: nat, offset: nat, filesz: nat, memsz: nat)
  datatype Rela = Rela(offset: nat, addend: nat)

  /** The loop over program headers that finds the end of the highest one in memory. */
  function ImageSize(hs: seq<Header>): nat {
    if hs == [] then 0
    else
      var n, h := ImageSize(hs[..|hs| - 1]), hs[|hs| - 1];
      if h.memsz > 0 && h.vaddr + h.memsz > n then h.vaddr + h.memsz else n
  }

  function End(h: Header): nat {
    h.vaddr + h.memsz
  }

  /** The image ends with the highest header that occupies memory; without one it is empty. */
  ghost predicate HighestEnd(hs: seq<Header>, n: nat) {
    && (forall h :: h in hs && h.memsz > 0 ==> End(h) <= n)
    && (n == 0 || exists h :: h in hs && h.memsz > 0 && End(h) == n)
  }

  lemma {:induction false} ImageSizeIsHighest(hs: seq<Header>)
    ensures HighestEnd(hs, ImageSize(hs))
  {
    if hs != [] {
      var before, h := hs[..|hs| - 1], hs[|hs| - 1];
      ImageSizeIsHighest(before);
      assert hs == before + [h];
      if ImageSize(hs) != ImageSize(before) {
        assert h in hs && h.memsz > 0 && End(h) == ImageSize(hs);
      } else if ImageSize(before) != 0 {
        var g :| g in before && g.memsz > 0 && End(g) == ImageSize(before);
        assert g in hs;
      }
    }
  }

  // ---- Little-endian words ----

  function Encode(v: nat, n: nat): (bytes: seq<nat>)
    ensures |bytes| == n
  {
    if n == 0 then [] else [v % 256] + Encode(v / 256, n - 1)
  }

  function Decode(bytes: seq<nat>): nat {
    if bytes == [] then 0 else bytes[0] + 256 * Decode(bytes[1..])
  }

  function Pow256(n: nat): nat {
    if n == 0 then 1 else 256 * Pow256(n - 1)
  }

  lemma {:induction false} DecodeEncode(v: nat, n: nat)
    requires v < Pow256(n)
    ensures Decode(Encode(v, n)) == v
  {
    if n > 0 {
      DecodeEncode(v / 256, n - 1);
      assert Encode(v, n)[1..] == Encode(v / 256, n - 1);
    }
  }

  /** The eight bytes of `v`, lowest first. */
  ghost predicate LittleEndian(bytes: seq<nat>, v: nat) {
    && |bytes| == 8
    && bytes[0] == v % 0x100
    && bytes[1] == v / 0x100 % 0x100
    && bytes[2] == v / 0x1_0000 % 0x100
    && bytes[3] == v / 0x100_0000 % 0x100
    && bytes[4] == v / 0x1_0000_0000 % 0x100
    && bytes[5] == v / 0x100_0000_0000 % 0x100
    && bytes[6] == v / 0x1_0000_0000_0000 % 0x100
    && bytes[7] == v / 0x100_0000_0000_0000 % 0x100
  }

  lemma {:induction false} EncodeByte(v: nat, n: nat, i: nat)
    requires i < n
    ensures Pow256(i) > 0 && Encode(v, n)[i] == v / Pow256(i) % 256
  {
    if i > 0 {
      EncodeByte(v / 256, n - 1, i - 1);
      DivideTwice(v, Pow256(i - 1));
    }
  }

  lemma {:induction false} DivideTwice(v: nat, m: nat)
    requires m > 0
    ensures v / 256 / m == v / (256 * m)
  {
    var q := v / 256;
    var k, r := q / m, q % m;
    assert q == k * m + r && v == 256 * q + v % 256;
    assert v == k * (256 * m) + (256 * r + v % 256);
    DivisionUnique(v, 256 * m, k, 256 * r + v % 256);
  }

  lemma {:induction false} EncodesLittleEndian(v: nat)
    ensures LittleEndian(Encode(v, WORD), v)
  {
    EncodeByte(v, WORD, 0);
    EncodeByte(v, WORD, 1);
    EncodeByte(v, WORD, 2);
    EncodeByte(v, WORD, 3);
    EncodeByte(v, WORD, 4);
    EncodeByte(v, WORD, 5);
    EncodeByte(v, WORD, 6);
    EncodeByte(v, WORD, 7);
    LowPowers();
  }

  lemma LowPowers()
    ensures Pow256(0) == 1 && Pow256(1) == 0x100 && Pow256(2) == 0x1_0000 && Pow256(3) == 0x100_0000
    ensures Pow256(4) == 0x1_0000_0000 && Pow256(5) == 0x100_0000_0000 && Pow256(6) == 0x1_0000_0000_0000
    ensures Pow256(7) == 0x100_0000_0000_0000
  {
    assert Pow256(4) == 0x1_0000_0000;
  }

  function Relocated(r: Rela, base: nat): nat {
    (r.addend + base) % U64_RANGE
  }

  // ---- The image, step by step ----

  /** No index of the copy loop of `h` is out of range; with no bytes to copy, none is used. */
  predicate InFile(h: Header, len: nat, size: nat) {
    h.filesz == 0 || (h.offset + h.filesz <= len && h.vaddr + h.filesz <= size)
  }

  function Copy(img: seq<nat>, code: seq<nat>, h: Header): (out: seq<nat>)
    requires InFile(h, |code|, |img|)
    ensures |out| == |img|
  {
    if h.filesz == 0 then img
    else img[..h.vaddr] + code[h.offset..h.offset + h.filesz] + img[h.vaddr + h.filesz..]
  }

  function Patch(img: seq<nat>, r: Rela, base: nat): (out: seq<nat>)
    requires r.offset + WORD <= |img|
    ensures |out| == |img|
  {
    img[..r.offset] + Encode(Relocated(r, base), WORD) + img[r.offset + WORD..]
  }

  predicate Touches(h: Header, r: Rela) {
    h.vaddr <= r.offset < h.vaddr + h.memsz
  }

  predicate Contains(h: Header, i: nat) {
    h.load && h.vaddr <= i < h.vaddr + h.memsz
  }

  predicate Covers(r: Rela, i: nat) {
    r.offset <= i < r.offset + WORD
  }

  /** Every copy and every patch stays inside the file and the image. */
  ghost predicate Fits(size: nat, hs: seq<Header>, len: nat, rs: seq<Rela>) {
    && (forall h :: h in hs && h.load ==> InFile(h, len, size))
    && (forall h, r :: h in hs && h.load && r in rs && Touches(h, r) ==> r.offset + WORD <= size)
  }

  /** Apply the selected relocations in file order. */
  function Relocate(img: seq<nat>, rs: seq<Rela>, pick: Rela -> bool, base: nat): (out: seq<nat>)
    requires forall r :: r in rs && pick(r) ==> r.offset + WORD <= |img|
    ensures |out| == |img|
  {
    if rs == [] then img
    else
      var n := |rs| - 1;
      var out := Relocate(img, rs[..n], pick, base);
      if pick(rs[n]) then Patch(out, rs[n], base) else out
  }

  /** The loop of `App::new`: copy a segment, relocate inside it, go on. */
  function Interleaved(img: seq<nat>, hs: seq<Header>, code: seq<nat>, rs: seq<Rela>, base: nat): (out: seq<nat>)
    requires Fits(|img|, hs, |code|, rs)
    ensures |out| == |img|
  {
    if hs == [] then img
    else
      var n := |hs| - 1;
      var out := Interleaved(img, hs[..n], code, rs, base);
      if hs[n].load then Relocate(Copy(out, code, hs[n]), rs, r => Touches(hs[n], r), base) else out
  }

  function CopyAll(img: seq<nat>, hs: seq<Header>, code: seq<nat>): (out: seq<nat>)
    requires forall h :: h in hs && h.load ==> InFile(h, |code|, |img|)
    ensures |out| == |img|
  {
    if hs == [] then img
    else
      var n := |hs| - 1;
      var out := CopyAll(img, hs[..n], code);
      if hs[n].load then Copy(out, code, hs[n]) else out
  }

  function InLoad(hs: seq<Header>, r: Rela): bool {
    exists h :: h in hs && h.load && Touches(h, r)
  }

  /** The textbook order: copy every segment, then relocate once. */
  function Textbook(img: seq<nat>, hs: seq<Header>, code: seq<nat>, rs: seq<Rela>, base: nat): (out: seq<nat>)
    requires Fits(|img|, hs, |code|, rs)
    ensures |out| == |img|
  {
    Relocate(CopyAll(img, hs, code), rs, r => InLoad(hs, r), base)
  }

  // ---- One byte at a time ----

  /** The byte at `i` after relocation: from the last selected word over it, else `b`. */
  function LastByte(rs: seq<Rela>, pick: Rela -> bool, i: nat, b: nat, base: nat): nat {
    if rs == [] then b
    else
      var n := |rs| - 1;
      if pick(rs[n]) && Covers(rs[n], i) then Encode(Relocated(rs[n], base), WORD)[i - rs[n].offset]
      else LastByte(rs[..n], pick, i, b, base)
  }

  lemma {:induction false} RelocateByte(img: seq<nat>, rs: seq<Rela>, pick: Rela -> bool, base: nat, i: nat)
    requires i < |img| && forall r :: r in rs && pick(r) ==> r.offset + WORD <= |img|
    ensures Relocate(img, rs, pick, base)[i] == LastByte(rs, pick, i, img[i], base)
  {
    if rs != [] { RelocateByte(img, rs[..|rs| - 1], pick, base, i); }
  }

  lemma {:induction false} SamePicks(rs: seq<Rela>, pick: Rela -> bool, pick': Rela -> bool, i: nat, b: nat, base: nat)
    requires forall r :: r in rs && Covers(r, i) ==> pick(r) == pick'(r)
    ensures LastByte(rs, pick, i, b, base) == LastByte(rs, pick', i, b, base)
  {
    if rs != [] {
      assert rs[|rs| - 1] in rs;
      SamePicks(rs[..|rs| - 1], pick, pick', i, b, base);
    }
  }

  lemma {:induction false} NoPicks(rs: seq<Rela>, pick: Rela -> bool, i: nat, b: nat, base: nat)
    requires forall r :: r in rs && Covers(r, i) ==> !pick(r)
    ensures LastByte(rs, pick, i, b, base) == b
  {
    if rs != [] {
      assert rs[|rs| - 1] in rs;
      NoPicks(rs[..|rs| - 1], pick, i, b, base);
    }
  }

  /** Load segments with disjoint memory, files no longer than memory, and each relocated word inside its segment. */
  ghost predicate Proper(hs: seq<Header>, rs: seq<Rela>) {
    && (forall h :: h in hs && h.load ==> h.filesz <= h.memsz)
    && (forall j, k, i :: 0 <= j < k < |hs| && Contains(hs[j], i) ==> !Contains(hs[k], i))
    && (forall h, r :: h in hs && h.load && r in rs && Touches(h, r) ==> r.offset + WORD <= h.vaddr + h.memsz)
  }

  /** What byte `i` starts from: the file's byte, or the image's old one past the end of the file part. */
  function FileByte(img: seq<nat>, code: seq<nat>, h: Header, i: nat): nat
    requires i < |img| && Contains(h, i) && InFile(h, |code|, |img|)
  {
    if i - h.vaddr < h.filesz then code[h.offset + (i - h.vaddr)] else img[i]
  }

  lemma {:induction false} OutsideByte(img: seq<nat>, hs: seq<Header>, code: seq<nat>, rs: seq<Rela>, base: nat, i: nat)
    requires Fits(|img|, hs, |code|, rs) && Proper(hs, rs) && i < |img| && forall h :: h in hs ==> !Contains(h, i)
    ensures Interleaved(img, hs, code, rs, base)[i] == img[i] && CopyAll(img, hs, code)[i] == img[i]
  {
    hide Copy, Relocate, Proper, Fits, InFile, Touches;
    if hs != [] {
      var n := |hs| - 1;
      PrefixFits(|img|, hs, |code|, rs, n);
      OneFits(|img|, hs, |code|, rs, n);
      OutsideByte(img, hs[..n], code, rs, base, i);
      if hs[n].load {
        UntouchedByte(Interleaved(img, hs[..n], code, rs, base), code, hs[n], rs, base, i);
        UntouchedByte(CopyAll(img, hs[..n], code), code, hs[n], rs, base, i);
      }
    }
  }

  lemma PrefixFits(size: nat, hs: seq<Header>, len: nat, rs: seq<Rela>, n: nat)
    requires Fits(size, hs, len, rs) && Proper(hs, rs) && n <= |hs|
    ensures Fits(size, hs[..n], len, rs) && Proper(hs[..n], rs)
  {
  }

  lemma OneFits(size: nat, hs: seq<Header>, len: nat, rs: seq<Rela>, k: nat)
    requires Fits(size, hs, len, rs) && Proper(hs, rs) && k < |hs|
    ensures hs[k] in hs
    ensures hs[k].load ==> InFile(hs[k], len, size) && hs[k].filesz <= hs[k].memsz
    ensures hs[k].load ==> forall r :: r in rs && Touches(hs[k], r) ==>
                             r.offset + WORD <= size && r.offset + WORD <= hs[k].vaddr + hs[k].memsz
  {
  }

  lemma OthersApart(hs: seq<Header>, rs: seq<Rela>, k: nat, i: nat)
    requires Proper(hs, rs) && k < |hs| && Contains(hs[k], i)
    ensures forall j :: 0 <= j < |hs| && j != k ==> !Contains(hs[j], i)
    ensures k == |hs| - 1 ==> forall g :: g in hs[..k] ==> !Contains(g, i)
  {
  }

  lemma {:induction false} InsideByte(img: seq<nat>, hs: seq<Header>, code: seq<nat>, rs: seq<Rela>, base: nat, k: nat, i: nat)
    requires Fits(|img|, hs, |code|, rs) && Proper(hs, rs) && i < |img| && k < |hs| && Contains(hs[k], i)
    ensures hs[k] in hs
    ensures Interleaved(img, hs, code, rs, base)[i]
            == LastByte(rs, r => Touches(hs[k], r), i, FileByte(img, code, hs[k], i), base)
    ensures CopyAll(img, hs, code)[i] == FileByte(img, code, hs[k], i)
  {
    hide Copy, Relocate, LastByte, FileByte, Proper, Fits, InFile, Touches;
    var n := |hs| - 1;
    PrefixFits(|img|, hs, |code|, rs, n);
    OneFits(|img|, hs, |code|, rs, n);
    OneFits(|img|, hs, |code|, rs, k);
    if k == n {
      OthersApart(hs, rs, n, i);
      OutsideByte(img, hs[..n], code, rs, base, i);
      CopiedByte(Interleaved(img, hs[..n], code, rs, base), img, code, hs[n], rs, base, i);
      CopiedByte(CopyAll(img, hs[..n], code), img, code, hs[n], rs, base, i);
    } else {
      InsideByte(img, hs[..n], code, rs, base, k, i);
      OthersApart(hs, rs, k, i);
      if hs[n].load {
        UntouchedByte(Interleaved(img, hs[..n], code, rs, base), code, hs[n], rs, base, i);
        UntouchedByte(CopyAll(img, hs[..n], code), code, hs[n], rs, base, i);
      }
    }
  }

  /** One turn of the loop, at a byte of its segment. */
  lemma {:induction false} CopiedByte(out: seq<nat>, img: seq<nat>, code: seq<nat>, h: Header, rs: seq<Rela>, base: nat, i: nat)
    requires i < |out| == |img| && out[i] == img[i] && InFile(h, |code|, |img|) && Contains(h, i)
    requires forall r :: r in rs && Touches(h, r) ==> r.offset + WORD <= |img|
    ensures Copy(out, code, h)[i] == FileByte(img, code, h, i)
    ensures Relocate(Copy(out, code, h), rs, r => Touches(h, r), base)[i]
            == LastByte(rs, r => Touches(h, r), i, FileByte(img, code, h, i), base)
  {
    RelocateByte(Copy(out, code, h), rs, r => Touches(h, r), base, i);
  }

  /** One turn of the loop, at a byte of another segment. */
  lemma {:induction false} UntouchedByte(out: seq<nat>, code: seq<nat>, h: Header, rs: seq<Rela>, base: nat, i: nat)
    requires i < |out| && h.load && InFile(h, |code|, |out|) && h.filesz <= h.memsz && !Contains(h, i)
    requires forall r :: r in rs && Touches(h, r) ==> r.offset + WORD <= |out| && r.offset + WORD <= h.vaddr + h.memsz
    ensures Copy(out, code, h)[i] == out[i]
    ensures Relocate(Copy(out, code, h), rs, r => Touches(h, r), base)[i] == out[i]
  {
    RelocateByte(Copy(out, code, h), rs, r => Touches(h, r), base, i);
    NoPicks(rs, r => Touches(h, r), i, out[i], base);
  }

  lemma {:induction false} TextbookByte(img: seq<nat>, hs: seq<Header>, code: seq<nat>, rs: seq<Rela>, base: nat, i: nat)
    requires Fits(|img|, hs, |code|, rs) && Proper(hs, rs) && i < |img|
    ensures Textbook(img, hs, code, rs, base)[i] == Interleaved(img, hs, code, rs, base)[i]
  {
    var copied := CopyAll(img, hs, code);
    RelocateByte(copied, rs, r => InLoad(hs, r), base, i);
    if k :| 0 <= k < |hs| && Contains(hs[k], i) {
      InsideByte(img, hs, code, rs, base, k, i);
      forall r | r in rs && Covers(r, i) ensures InLoad(hs, r) == Touches(hs[k], r) {
        if h :| h in hs && h.load && Touches(h, r) {
          var j :| 0 <= j < |hs| && hs[j] == h;
          assert Contains(hs[j], i);
        }
      }
      SamePicks(rs, r => InLoad(hs, r), r => Touches(hs[k], r), i, copied[i], base);
    } else {
      OutsideByte(img, hs, code, rs, base, i);
      forall r, h | r in rs && Covers(r, i) && h in hs && h.load ensures !Touches(h, r) {
        var j :| 0 <= j < |hs| && hs[j] == h;
        assert !Contains(hs[j], i);
      }
      NoPicks(rs, r => InLoad(hs, r), i, copied[i], base);
    }
  }

  /** Relocating segment by segment gives the image of copying everything first. */
  lemma {:induction false} LoadsLikeTextbook(img: seq<nat>, hs: seq<Header>, code: seq<nat>, rs: seq<Rela>, base: nat)
    requires Fits(|img|, hs, |code|, rs) && Proper(hs, rs)
    ensures Interleaved(img, hs, code, rs, base) == Textbook(img, hs, code, rs, base)
  {
    forall i | 0 <= i < |img|
      ensures Textbook(img, hs, code, rs, base)[i] == Interleaved(img, hs, code, rs, base)[i]
    { TextbookByte(img, hs, code, rs, base, i); }
  }

  function Zeros(n: nat): seq<nat> {
    seq(n, _ => 0)
  }

  /** The file holds every Load segment's bytes. */
  ghost predicate FileHolds(hs: seq<Header>, len: nat) {
    forall h :: h in hs && h.load ==> h.offset + h.filesz <= len
  }

  /** Loading a well-formed file makes every access in bounds. */
  lemma {:induction false} ProperFits(hs: seq<Header>, len: nat, rs: seq<Rela>)
    requires Proper(hs, rs) && FileHolds(hs, len)
    ensures Fits(ImageSize(hs), hs, len, rs)
  {
    ImageSizeIsHighest(hs);
    assert forall h :: h in hs && h.memsz > 0 ==> h.vaddr + h.memsz == End(h) <= ImageSize(hs);
  }

  /** In a segment, a byte that no relocation covers is the file's byte, and 0 past the end of the file part. */
  lemma {:induction false} UnrelocatedByte(hs: seq<Header>, code: seq<nat>, rs: seq<Rela>, base: nat, k: nat, i: nat)
    requires Proper(hs, rs) && FileHolds(hs, |code|) && k < |hs| && Contains(hs[k], i)
    requires forall r :: r in rs && Covers(r, i) ==> !Touches(hs[k], r)
    ensures hs[k] in hs && Fits(ImageSize(hs), hs, |code|, rs) && i < ImageSize(hs)
    ensures Interleaved(Zeros(ImageSize(hs)), hs, code, rs, base)[i]
            == if i - hs[k].vaddr < hs[k].filesz then code[hs[k].offset + (i - hs[k].vaddr)] else 0
  {
    hide Interleaved, CopyAll, Proper, Fits;
    ProperFits(hs, |code|, rs);
    ImageSizeIsHighest(hs);
    assert hs[k] in hs && i < End(hs[k]);
    var img := Zeros(ImageSize(hs));
    InsideByte(img, hs, code, rs, base, k, i);
    NoPicks(rs, r => Touches(hs[k], r), i, FileByte(img, code, hs[k], i), base);
  }

  // ---- Words apart ----

  ghost predicate WordsApart(rs: seq<Rela>) {
    forall j, k :: 0 <= j < k < |rs| ==> rs[j].offset + WORD <= rs[k].offset || rs[k].offset + WORD <= rs[j].offset
  }

  lemma {:induction false} WordByte(rs: seq<Rela>, pick: Rela -> bool, j: nat, i: nat, b: nat, base: nat)
    requires WordsApart(rs) && j < |rs| && pick(rs[j]) && Covers(rs[j], i)
    ensures LastByte(rs, pick, i, b, base) == Encode(Relocated(rs[j], base), WORD)[i - rs[j].offset]
  {
    var n := |rs| - 1;
    if j < n {
      assert !Covers(rs[n], i);
      WordByte(rs[..n], pick, j, i, b, base);
    }
  }

  // ---- When the two orders agree ----

  predicate InFilePart(h: Header, i: nat) {
    h.load && h.vaddr <= i < h.vaddr + h.filesz
  }

  /** Some Load segment from the `from`-th on contains the start of the word. */
  ghost predicate TouchedFrom(hs: seq<Header>, from: nat, r: Rela) {
    exists j :: from <= j < |hs| && hs[j].load && Touches(hs[j], r)
  }

  /** A word that is relocated at all is relocated again, or for the first time, after every copy over one of its bytes. */
  ghost predicate RelocatedLast(hs: seq<Header>, rs: seq<Rela>) {
    forall w, k, i ::
      (0 <= w < |rs| && 0 <= k < |hs| && Covers(rs[w], i) && InFilePart(hs[k], i) && TouchedFrom(hs, 0, rs[w]))
      ==> TouchedFrom(hs, k, rs[w])
  }

  lemma {:induction false} TouchedIsInLoad(hs: seq<Header>, r: Rela)
    ensures TouchedFrom(hs, 0, r) <==> InLoad(hs, r)
  {
    if InLoad(hs, r) {
      var h :| h in hs && h.load && Touches(h, r);
      var j :| 0 <= j < |hs| && hs[j] == h;
      assert TouchedFrom(hs, 0, r);
    }
  }

  lemma CopyByte(out: seq<nat>, code: seq<nat>, h: Header, i: nat)
    requires i < |out| && h.load && InFile(h, |code|, |out|)
    ensures InFilePart(h, i) ==> Copy(out, code, h)[i] == code[h.offset + (i - h.vaddr)]
    ensures !InFilePart(h, i) ==> Copy(out, code, h)[i] == out[i]
  {
  }

  /** With words apart, a byte has one word over it at most: it is that word's byte if picked, else what it was. */
  lemma {:induction false} LastByteOfWord(rs: seq<Rela>, pick: Rela -> bool, w: nat, i: nat, b: nat, base: nat)
    requires WordsApart(rs) && w < |rs| && Covers(rs[w], i)
    ensures LastByte(rs, pick, i, b, base)
            == if pick(rs[w]) then Encode(Relocated(rs[w], base), WORD)[i - rs[w].offset] else b
  {
    hide Encode, Relocated;
    if pick(rs[w]) {
      WordByte(rs, pick, w, i, b, base);
    } else {
      forall r | r in rs && Covers(r, i) ensures !pick(r) {
        var v :| 0 <= v < |rs| && rs[v] == r;
        assert v == w;
      }
      NoPicks(rs, pick, i, b, base);
    }
  }

  lemma PrefixInBounds(size: nat, hs: seq<Header>, len: nat, rs: seq<Rela>, n: nat)
    requires Fits(size, hs, len, rs) && n < |hs|
    ensures Fits(size, hs[..n], len, rs) && hs[n] in hs
    ensures hs[n].load ==> InFile(hs[n], len, size)
    ensures hs[n].load ==> forall r :: r in rs && Touches(hs[n], r) ==> r.offset + WORD <= size
  {
  }

  /** One turn of the loop at a byte under word `w`. */
  lemma {:induction false} TurnByte(out: seq<nat>, code: seq<nat>, h: Header, rs: seq<Rela>, base: nat, w: nat, i: nat)
    requires WordsApart(rs) && w < |rs| && Covers(rs[w], i) && i < |out|
    requires h.load && InFile(h, |code|, |out|) && forall r :: r in rs && Touches(h, r) ==> r.offset + WORD <= |out|
    ensures Relocate(Copy(out, code, h), rs, r => Touches(h, r), base)[i]
            == if Touches(h, rs[w]) then Encode(Relocated(rs[w], base), WORD)[i - rs[w].offset] else Copy(out, code, h)[i]
  {
    hide Copy, Encode, Relocated, WordsApart, Touches, Covers;
    RelocateByte(Copy(out, code, h), rs, r => Touches(h, r), base, i);
    LastByteOfWord(rs, r => Touches(h, r), w, i, Copy(out, code, h)[i], base);
  }

  /** A byte under no relocated word is the copied one in both orders. */
  lemma {:induction false} ByteUnderNoWord(img: seq<nat>, hs: seq<Header>, code: seq<nat>, rs: seq<Rela>, base: nat, i: nat)
    requires Fits(|img|, hs, |code|, rs) && i < |img| && forall r :: r in rs && Covers(r, i) ==> !InLoad(hs, r)
    ensures Interleaved(img, hs, code, rs, base)[i] == CopyAll(img, hs, code)[i]
  {
    hide Relocate, Copy, Fits, InFile, Touches, Covers;
    if hs != [] {
      var n := |hs| - 1;
      PrefixInBounds(|img|, hs, |code|, rs, n);
      assert forall r :: InLoad(hs[..n], r) ==> InLoad(hs, r);
      ByteUnderNoWord(img, hs[..n], code, rs, base, i);
      if hs[n].load {
        var out, copied := Interleaved(img, hs[..n], code, rs, base), CopyAll(img, hs[..n], code);
        SameByteCopied(out, copied, code, hs[n], i);
        RelocateByte(Copy(out, code, hs[n]), rs, r => Touches(hs[n], r), base, i);
        assert forall r :: Touches(hs[n], r) ==> InLoad(hs, r);
        NoPicks(rs, r => Touches(hs[n], r), i, Copy(out, code, hs[n])[i], base);
      }
    }
  }

  lemma SameByteCopied(out: seq<nat>, out': seq<nat>, code: seq<nat>, h: Header, i: nat)
    requires i < |out| == |out'| && out[i] == out'[i] && h.load && InFile(h, |code|, |out|)
    ensures Copy(out, code, h)[i] == Copy(out', code, h)[i]
  {
    CopyByte(out, code, h, i);
    CopyByte(out', code, h, i);
  }

  /** A byte under a word that no copy follows holds the word's byte. */
  lemma {:induction false} ByteUnderLastWord(img: seq<nat>, hs: seq<Header>, code: seq<nat>, rs: seq<Rela>, base: nat,
                                             w: nat, i: nat)
    requires Fits(|img|, hs, |code|, rs) && WordsApart(rs) && w < |rs| && Covers(rs[w], i) && i < |img|
    requires TouchedFrom(hs, 0, rs[w])
    requires forall k :: 0 <= k < |hs| && InFilePart(hs[k], i) ==> TouchedFrom(hs, k, rs[w])
    ensures Interleaved(img, hs, code, rs, base)[i] == Encode(Relocated(rs[w], base), WORD)[i - rs[w].offset]
  {
    hide Relocate, Copy, Fits, InFile, Touches, Covers, Encode, Relocated, WordsApart, InFilePart;
    var n := |hs| - 1;
    PrefixInBounds(|img|, hs, |code|, rs, n);
    var out := Interleaved(img, hs[..n], code, rs, base);
    if hs[n].load { TurnByte(out, code, hs[n], rs, base, w, i); }
    if !(hs[n].load && Touches(hs[n], rs[w])) {
      assert !TouchedFrom(hs, n, rs[w]);
      forall k | 0 <= k < n && (k == 0 || InFilePart(hs[k], i)) ensures TouchedFrom(hs[..n], k, rs[w]) {
        TouchedEarlier(hs, k, rs[w]);
      }
      TouchedEarlier(hs, 0, rs[w]);
      ByteUnderLastWord(img, hs[..n], code, rs, base, w, i);
      if hs[n].load { CopyByte(out, code, hs[n], i); }
    }
  }

  lemma TouchedEarlier(hs: seq<Header>, from: nat, r: Rela)
    requires hs != [] && TouchedFrom(hs, from, r) && !(hs[|hs| - 1].load && Touches(hs[|hs| - 1], r))
    ensures TouchedFrom(hs[..|hs| - 1], from, r)
  {
    var j :| from <= j < |hs| && hs[j].load && Touches(hs[j], r);
    assert hs[..|hs| - 1][j] == hs[j];
  }

  /** A byte copied over after its word's last relocation holds the file's byte; `code` is constant here. */
  lemma {:induction false} ByteCopiedOver(img: seq<nat>, hs: seq<Header>, code: seq<nat>, rs: seq<Rela>, base: nat,
                                          w: nat, k: nat, i: nat, c: nat)
    requires Fits(|img|, hs, |code|, rs) && WordsApart(rs) && w < |rs| && Covers(rs[w], i) && i < |img|
    requires k < |hs| && InFilePart(hs[k], i) && !TouchedFrom(hs, k, rs[w]) && forall b :: b in code ==> b == c
    ensures Interleaved(img, hs, code, rs, base)[i] == c
  {
    hide Relocate, Copy, Fits, InFile, Touches, Covers, Encode, Relocated, WordsApart;
    var n := |hs| - 1;
    PrefixInBounds(|img|, hs, |code|, rs, n);
    var out := Interleaved(img, hs[..n], code, rs, base);
    if k < n {
      assert forall j :: 0 <= j < n ==> hs[..n][j] == hs[j];
      ByteCopiedOver(img, hs[..n], code, rs, base, w, k, i, c);
    }
    if hs[n].load {
      TurnByte(out, code, hs[n], rs, base, w, i);
      CopyConstant(out, code, hs[n], i, c);
    }
  }

  lemma CopyConstant(out: seq<nat>, code: seq<nat>, h: Header, i: nat, c: nat)
    requires i < |out| && h.load && InFile(h, |code|, |out|) && forall b :: b in code ==> b == c
    requires InFilePart(h, i) || out[i] == c
    ensures Copy(out, code, h)[i] == c
  {
    CopyByte(out, code, h, i);
    if InFilePart(h, i) { assert code[h.offset + (i - h.vaddr)] in code; }
  }

  /** In the textbook order a byte under a relocated word holds the word's byte. */
  lemma {:induction false} TextbookWordByte(img: seq<nat>, hs: seq<Header>, code: seq<nat>, rs: seq<Rela>, base: nat, w: nat, i: nat)
    requires Fits(|img|, hs, |code|, rs) && WordsApart(rs) && w < |rs| && Covers(rs[w], i) && i < |img|
    ensures Textbook(img, hs, code, rs, base)[i]
            == if TouchedFrom(hs, 0, rs[w]) then Encode(Relocated(rs[w], base), WORD)[i - rs[w].offset] else CopyAll(img, hs, code)[i]
  {
    hide Relocate, CopyAll, Touches, Covers, Encode, Relocated, WordsApart;
    TouchedIsInLoad(hs, rs[w]);
    RelocateByte(CopyAll(img, hs, code), rs, r => InLoad(hs, r), base, i);
    LastByteOfWord(rs, r => InLoad(hs, r), w, i, CopyAll(img, hs, code)[i], base);
  }

  lemma {:induction false} TextbookUnderNoWord(img: seq<nat>, hs: seq<Header>, code: seq<nat>, rs: seq<Rela>, base: nat, i: nat)
    requires Fits(|img|, hs, |code|, rs) && i < |img| && forall r :: r in rs && Covers(r, i) ==> !InLoad(hs, r)
    ensures Textbook(img, hs, code, rs, base)[i] == CopyAll(img, hs, code)[i]
  {
    hide Relocate, CopyAll, Touches, Covers;
    RelocateByte(CopyAll(img, hs, code), rs, r => InLoad(hs, r), base, i);
    NoPicks(rs, r => InLoad(hs, r), i, CopyAll(img, hs, code)[i], base);
  }

  lemma {:induction false} SameByte(img: seq<nat>, hs: seq<Header>, code: seq<nat>, rs: seq<Rela>, base: nat, i: nat)
    requires Fits(|img|, hs, |code|, rs) && WordsApart(rs) && RelocatedLast(hs, rs) && i < |img|
    ensures Interleaved(img, hs, code, rs, base)[i] == Textbook(img, hs, code, rs, base)[i]
  {
    hide Relocate, CopyAll, Interleaved, Touches, Covers, Encode, Relocated, WordsApart, Fits, TouchedFrom, InFilePart;
    if w :| 0 <= w < |rs| && Covers(rs[w], i) && TouchedFrom(hs, 0, rs[w]) {
      ByteUnderLastWord(img, hs, code, rs, base, w, i);
      TextbookWordByte(img, hs, code, rs, base, w, i);
    } else {
      forall r | r in rs && Covers(r, i) ensures !InLoad(hs, r) {
        var w :| 0 <= w < |rs| && rs[w] == r;
        TouchedIsInLoad(hs, rs[w]);
      }
      ByteUnderNoWord(img, hs, code, rs, base, i);
      TextbookUnderNoWord(img, hs, code, rs, base, i);
    }
  }

  /** For every file of this length, the two orders build the same image. */
  ghost predicate OrdersAgree(img: seq<nat>, hs: seq<Header>, len: nat, rs: seq<Rela>, base: nat)
    requires Fits(|img|, hs, len, rs)
  {
    forall code: seq<nat> :: |code| == len ==> Interleaved(img, hs, code, rs, base) == Textbook(img, hs, code, rs, base)
  }

  /**
    Relocating segment by segment agrees with copying everything first, for all
    files, exactly when no copy over a byte of a relocated word comes after the
    last relocation of that word. Segments may overlap and words may straddle them.
   */
  lemma {:induction false} OrdersAgreeExactly(img: seq<nat>, hs: seq<Header>, len: nat, rs: seq<Rela>, base: nat)
    requires Fits(|img|, hs, len, rs) && WordsApart(rs)
    ensures OrdersAgree(img, hs, len, rs, base) <==> RelocatedLast(hs, rs)
  {
    hide Relocate, CopyAll, Interleaved, Textbook, Touches, WordsApart, Fits, Encode, Relocated, RelocatedLast;
    if RelocatedLast(hs, rs) {
      forall code: seq<nat> | |code| == len ensures Interleaved(img, hs, code, rs, base) == Textbook(img, hs, code, rs, base) {
        forall i | 0 <= i < |img|
          ensures Interleaved(img, hs, code, rs, base)[i] == Textbook(img, hs, code, rs, base)[i]
        { SameByte(img, hs, code, rs, base, i); }
      }
    } else {
      var code, i := OrdersDiffer(img, hs, len, rs, base);
    }
  }

  /** A file and a byte that the two orders load differently. */
  lemma {:induction false} OrdersDiffer(img: seq<nat>, hs: seq<Header>, len: nat, rs: seq<Rela>, base: nat)
    returns (code: seq<nat>, i: nat)
    requires Fits(|img|, hs, len, rs) && WordsApart(rs) && !RelocatedLast(hs, rs)
    ensures |code| == len && i < |img|
    ensures Interleaved(img, hs, code, rs, base)[i] != Textbook(img, hs, code, rs, base)[i]
  {
    hide Relocate, CopyAll, Interleaved, Textbook, Touches, WordsApart, Relocated, TouchedFrom, Encode, Fits;
    var w, k;
    w, k, i :| 0 <= w < |rs| && 0 <= k < |hs| && Covers(rs[w], i) && InFilePart(hs[k], i)
               && TouchedFrom(hs, 0, rs[w]) && !TouchedFrom(hs, k, rs[w]);
    var word := Encode(Relocated(rs[w], base), WORD)[i - rs[w].offset];
    var c := if word == 0 then 1 else 0;
    code := seq(len, _ => c);
    InFilePartFits(|img|, hs, len, rs, k, i);
    ByteCopiedOver(img, hs, code, rs, base, w, k, i, c);
    TextbookWordByte(img, hs, code, rs, base, w, i);
  }

  lemma InFilePartFits(size: nat, hs: seq<Header>, len: nat, rs: seq<Rela>, k: nat, i: nat)
    requires Fits(size, hs, len, rs) && k < |hs| && InFilePart(hs[k], i)
    ensures i < size
  {
    assert hs[k] in hs;
  }

  /** For segments with disjoint memory: no word that starts in one segment reaches into the file part of a later one. */
  ghost predicate NoneStraddles(hs: seq<Header>, rs: seq<Rela>) {
    forall w, j, k, i ::
      (0 <= w < |rs| && 0 <= j < k < |hs| && hs[j].load && Touches(hs[j], rs[w]) && Covers(rs[w], i))
      ==> !InFilePart(hs[k], i)
  }

  /** Read off headers and relocations alone: the orders agree exactly when no relocated word straddles into a later segment. */
  lemma {:induction false} DisjointOrdersAgreeExactly(img: seq<nat>, hs: seq<Header>, len: nat, rs: seq<Rela>, base: nat)
    requires Fits(|img|, hs, len, rs) && WordsApart(rs)
    requires forall j, k, i :: 0 <= j < k < |hs| && Contains(hs[j], i) ==> !Contains(hs[k], i)
    ensures OrdersAgree(img, hs, len, rs, base) <==> NoneStraddles(hs, rs)
  {
    hide OrdersAgree, Fits, WordsApart;
    OrdersAgreeExactly(img, hs, len, rs, base);
    StraddlesIsLast(hs, rs);
  }

  lemma {:induction false} StraddlesIsLast(hs: seq<Header>, rs: seq<Rela>)
    requires forall j, k, i :: 0 <= j < k < |hs| && Contains(hs[j], i) ==> !Contains(hs[k], i)
    ensures RelocatedLast(hs, rs) <==> NoneStraddles(hs, rs)
  {
    hide Covers, InFilePart;
    if RelocatedLast(hs, rs) {
      forall w, j, k, i | 0 <= w < |rs| && 0 <= j < k < |hs| && hs[j].load && Touches(hs[j], rs[w]) && Covers(rs[w], i)
        ensures !InFilePart(hs[k], i)
      {
        assert TouchedFrom(hs, 0, rs[w]);
        assert Contains(hs[j], rs[w].offset);
        forall l | k <= l < |hs| ensures !(hs[l].load && Touches(hs[l], rs[w])) { assert !Contains(hs[l], rs[w].offset); }
        assert !TouchedFrom(hs, k, rs[w]);
      }
    } else {
      var w, k, i :| 0 <= w < |rs| && 0 <= k < |hs| && Covers(rs[w], i) && InFilePart(hs[k], i)
                     && TouchedFrom(hs, 0, rs[w]) && !TouchedFrom(hs, k, rs[w]);
      var j :| 0 <= j < |hs| && hs[j].load && Touches(hs[j], rs[w]);
      assert j < k;
    }
  }

  /** A word that sticks out of its segment into a later one is lost when that one is copied: the order then matters. */
  lemma {:induction false} StraddlingWordDiffers()
    ensures var hs := [Header(true, 0, 0, 1, 1), Header(true, 1, 0, 1, 8)];
            var rs := [Rela(0, 0)];
            && Fits(9, hs, 1, rs)
            && Interleaved(Zeros(9), hs, [7], rs, 0)[1] == 7 && Textbook(Zeros(9), hs, [7], rs, 0)[1] == 0
  {
    var g, h, r := Header(true, 0, 0, 1, 1), Header(true, 1, 0, 1, 8), Rela(0, 0);
    var hs, rs := [g, h], [r];
    assert hs[..1] == [g] && rs[..0] == [];
    var first := Interleaved(Zeros(9), [g], [7], rs, 0);
    assert Copy(first, [7], h)[1] == 7;
    RelocateByte(Copy(first, [7], h), rs, r => Touches(h, r), 0, 1);
    NoPicks(rs, r => Touches(h, r), 1, 7, 0);
    RelocateByte(CopyAll(Zeros(9), hs, [7]), rs, r => InLoad(hs, r), 0, 1);
    assert g in hs && Touches(g, r) && InLoad(hs, r);
    assert Encode(0, WORD)[1] == Encode(0, WORD - 1)[0] == 0;
  }

  // ---- Position independence ----

  /** At the relocation's offset the image holds addend plus load address modulo 2^64, in eight little-endian bytes. */
  ghost predicate HoldsAddress(img: seq<nat>, r: Rela, base: nat) {
    && r.offset + 8 <= |img|
    && LittleEndian(img[r.offset..r.offset + 8], (r.addend + base) % 0x1_0000_0000_0000_0000)
  }

  /** The relocation starts in the memory of some Load segment. */
  ghost predicate InMemory(hs: seq<Header>, r: Rela) {
    exists h :: h in hs && h.load && h.vaddr <= r.offset < h.vaddr + h.memsz
  }

  /** A relocated word of the loaded image holds its addend plus the load address, if no copy follows its relocation. */
  lemma {:induction false} RelocatedWord(img: seq<nat>, hs: seq<Header>, code: seq<nat>, rs: seq<Rela>, base: nat, j: nat)
    requires Fits(|img|, hs, |code|, rs) && WordsApart(rs) && RelocatedLast(hs, rs) && j < |rs| && InMemory(hs, rs[j])
    ensures HoldsAddress(Interleaved(img, hs, code, rs, base), rs[j], base)
    ensures Decode(Interleaved(img, hs, code, rs, base)[rs[j].offset..rs[j].offset + WORD])
            == (rs[j].addend + base) % 0x1_0000_0000_0000_0000
  {
    assert InLoad(hs, rs[j]);
    var out, off := Interleaved(img, hs, code, rs, base), rs[j].offset;
    assert rs[j] in rs;
    hide Interleaved, Fits, WordsApart, Encode, Decode, Touches;
    TouchedIsInLoad(hs, rs[j]);
    WordFits(|img|, hs, |code|, rs, rs[j]);
    forall i | off <= i < off + WORD ensures out[i] == Encode(Relocated(rs[j], base), WORD)[i - off] {
      ByteUnderLastWord(img, hs, code, rs, base, j, i);
    }
    assert out[off..off + WORD] == Encode(Relocated(rs[j], base), WORD);
    WordRange();
    DecodeEncode(Relocated(rs[j], base), WORD);
    EncodesLittleEndian(Relocated(rs[j], base));
  }

  lemma {:induction false} AllRelocated(img: seq<nat>, hs: seq<Header>, code: seq<nat>, rs: seq<Rela>, base: nat)
    requires Fits(|img|, hs, |code|, rs) && WordsApart(rs) && RelocatedLast(hs, rs)
    ensures forall j :: 0 <= j < |rs| && InMemory(hs, rs[j]) ==> HoldsAddress(Interleaved(img, hs, code, rs, base), rs[j], base)
  {
    hide Fits, WordsApart, RelocatedLast, InMemory, HoldsAddress;
    forall j | 0 <= j < |rs| && InMemory(hs, rs[j]) ensures HoldsAddress(Interleaved(img, hs, code, rs, base), rs[j], base) {
      RelocatedWord(img, hs, code, rs, base, j);
    }
  }

  /** One segment's relocations, done over one another: each of its words holds its address. */
  lemma {:induction false} SegmentRelocated(img: seq<nat>, h: Header, rs: seq<Rela>, base: nat)
    requires WordsApart(rs) && forall r :: r in rs && Touches(h, r) ==> r.offset + WORD <= |img|
    ensures forall r :: r in rs && h.vaddr <= r.offset < h.vaddr + h.memsz ==>
              HoldsAddress(Relocate(img, rs, r => Touches(h, r), base), r, base)
  {
    hide WordsApart, LittleEndian, Relocate, LastByte, Encode;
    var pick := (r: Rela) => Touches(h, r);
    var out := Relocate(img, rs, pick, base);
    forall r | r in rs && h.vaddr <= r.offset < h.vaddr + h.memsz ensures HoldsAddress(out, r, base) {
      var j :| 0 <= j < |rs| && rs[j] == r;
      forall i | r.offset <= i < r.offset + WORD ensures out[i] == Encode(Relocated(r, base), WORD)[i - r.offset] {
        RelocateByte(img, rs, pick, base, i);
        WordByte(rs, pick, j, i, img[i], base);
      }
      assert out[r.offset..r.offset + WORD] == Encode(Relocated(r, base), WORD);
      EncodesLittleEndian(Relocated(r, base));
    }
  }

  lemma WordFits(size: nat, hs: seq<Header>, len: nat, rs: seq<Rela>, r: Rela)
    requires Fits(size, hs, len, rs) && r in rs && InLoad(hs, r)
    ensures r.offset + WORD <= size
  {
  }

  lemma WordRange()
    ensures Pow256(WORD) == U64_RANGE
  {
    assert Pow256(4) == 0x1_0000_0000;
  }

  /** Loaded at two addresses, an image differs at most inside relocated words. */
  lemma {:induction false} DiffersInWords(img: seq<nat>, hs: seq<Header>, code: seq<nat>, rs: seq<Rela>, b1: nat, b2: nat, i: nat)
    requires Fits(|img|, hs, |code|, rs) && i < |img|
    requires Interleaved(img, hs, code, rs, b1)[i] != Interleaved(img, hs, code, rs, b2)[i]
    ensures exists r :: r in rs && InLoad(hs, r) && Covers(r, i)
  {
    if forall r :: r in rs && Covers(r, i) ==> !InLoad(hs, r) {
      ByteUnderNoWord(img, hs, code, rs, b1, i);
      ByteUnderNoWord(img, hs, code, rs, b2, i);
    }
  }

  /** And there, if no copy follows a word's relocation, by the distance of the addresses, modulo 2^64. */
  lemma {:induction false} PositionIndependent(img: seq<nat>, hs: seq<Header>, code: seq<nat>, rs: seq<Rela>, b1: nat, b2: nat)
    requires Fits(|img|, hs, |code|, rs) && WordsApart(rs) && RelocatedLast(hs, rs) && b1 <= b2
    ensures var i1, i2 := Interleaved(img, hs, code, rs, b1), Interleaved(img, hs, code, rs, b2);
            && (forall i :: 0 <= i < |img| && i1[i] != i2[i] ==> exists r :: r in rs && InLoad(hs, r) && Covers(r, i))
            && (forall j :: 0 <= j < |rs| && InMemory(hs, rs[j]) ==>
                  rs[j].offset + WORD <= |img|
                  && Decode(i2[rs[j].offset..rs[j].offset + WORD])
                     == (Decode(i1[rs[j].offset..rs[j].offset + WORD]) + (b2 - b1)) % U64_RANGE)
  {
    hide Interleaved, Fits, WordsApart, RelocatedLast, Covers, InLoad, InMemory, LittleEndian;
    var i1, i2 := Interleaved(img, hs, code, rs, b1), Interleaved(img, hs, code, rs, b2);
    forall i | 0 <= i < |img| && i1[i] != i2[i] ensures exists r :: r in rs && InLoad(hs, r) && Covers(r, i) {
      DiffersInWords(img, hs, code, rs, b1, b2, i);
    }
    forall j | 0 <= j < |rs| && InMemory(hs, rs[j])
      ensures rs[j].offset + WORD <= |img|
      ensures Decode(i2[rs[j].offset..rs[j].offset + WORD])
              == (Decode(i1[rs[j].offset..rs[j].offset + WORD]) + (b2 - b1)) % U64_RANGE
    {
      RelocatedWord(img, hs, code, rs, b1, j);
      RelocatedWord(img, hs, code, rs, b2, j);
      Rebased(rs[j].addend, b1, b2);
    }
  }

  lemma {:induction false} Rebased(addend: nat, b1: nat, b2: nat)
    requires b1 <= b2
    ensures (addend + b2) % U64_RANGE == ((addend + b1) % U64_RANGE + (b2 - b1)) % U64_RANGE
  {
    var a, d := addend + b1, b2 - b1;
    var m := a % U64_RANGE + d;
    DivisionUnique(a + d, U64_RANGE, a / U64_RANGE + m / U64_RANGE, m % U64_RANGE);
  }

  /** A well-formed file relocates every word last. */
  lemma {:induction false} ProperIsLast(hs: seq<Header>, rs: seq<Rela>)
    requires Proper(hs, rs)
    ensures RelocatedLast(hs, rs)
  {
    forall w, j, k, i | 0 <= w < |rs| && 0 <= j < k < |hs| && hs[j].load && Touches(hs[j], rs[w]) && Covers(rs[w], i)
      ensures !InFilePart(hs[k], i)
    {
      assert hs[j] in hs && rs[w] in rs && hs[k] in hs;
      assert Contains(hs[j], i);
    }
    StraddlesIsLast(hs, rs);
  }

  // ---- The loader, in place ----

  method FindSize(hs: seq<Header>) returns (n: nat)
    ensures n == ImageSize(hs) && HighestEnd(hs, n)
  {
    n := 0;
    for k := 0 to |hs|
      invariant n == ImageSize(hs[..k])
    {
      assert hs[..k + 1][..k] == hs[..k];
      if hs[k].memsz > 0 && hs[k].vaddr + hs[k].memsz > n { n := hs[k].vaddr + hs[k].memsz; }
    }
    assert hs[..|hs|] == hs;
    ImageSizeIsHighest(hs);
  }

  /** The copy loop of one segment; an index out of range panics. */
  method CopySegment(img: array<nat>, code: seq<nat>, h: Header) returns (ok: bool)
    modifies img
    ensures ok <==> h.filesz == 0 || (h.offset + h.filesz <= |code| && h.vaddr + h.filesz <= img.Length)
    ensures ok ==> img[..] == Copy(old(img[..]), code, h)
    ensures ok ==> forall i :: 0 <= i < img.Length ==>
              img[i] == if h.vaddr <= i < h.vaddr + h.filesz then code[h.offset + (i - h.vaddr)] else old(img[i])
  {
    for byte := 0 to h.filesz
      invariant byte > 0 ==> h.offset + byte <= |code| && h.vaddr + byte <= img.Length
      invariant forall i :: 0 <= i < img.Length ==>
                  img[i] == if h.vaddr <= i < h.vaddr + byte then code[h.offset + (i - h.vaddr)] else old(img[i])
    {
      if h.offset + byte >= |code| || h.vaddr + byte >= img.Length { return false; }
      img[h.vaddr + byte] := code[h.offset + byte];
    }
    return true;
  }

  /** One unaligned 8-byte store. */
  method WriteWord(img: array<nat>, r: Rela, base: nat)
    requires r.offset + WORD <= img.Length
    modifies img
    ensures img[..] == Patch(old(img[..]), r, base) && HoldsAddress(img[..], r, base)
  {
    var bytes := Encode(Relocated(r, base), WORD);
    forall i | 0 <= i < WORD {
      img[r.offset + i] := bytes[i];
    }
    assert img[r.offset..r.offset + WORD] == bytes;
    EncodesLittleEndian(Relocated(r, base));
  }

  /** The relocation loop of one segment; it stops where the source would write outside the image. */
  method RelocateSegment(img: array<nat>, h: Header, rs: seq<Rela>, base: nat) returns (ok: bool)
    modifies img
    ensures ok <==> forall r :: r in rs && Touches(h, r) ==> r.offset + WORD <= img.Length
    ensures ok ==> img[..] == Relocate(old(img[..]), rs, r => Touches(h, r), base)
    ensures ok && WordsApart(rs) ==>
              forall r :: r in rs && h.vaddr <= r.offset < h.vaddr + h.memsz ==> HoldsAddress(img[..], r, base)
  {
    hide HoldsAddress, WordsApart;
    for j := 0 to |rs|
      invariant forall r :: r in rs[..j] && Touches(h, r) ==> r.offset + WORD <= img.Length
      invariant img[..] == Relocate(old(img[..]), rs[..j], r => Touches(h, r), base)
    {
      assert rs[..j + 1][..j] == rs[..j];
      if Touches(h, rs[j]) {
        if rs[j].offset + WORD > img.Length { return false; }
        WriteWord(img, rs[j], base);
      }
    }
    assert rs[..|rs|] == rs;
    ok := true;
    if WordsApart(rs) { SegmentRelocated(old(img[..]), h, rs, base); }
  }

  /** `App::new`: `false` where an index panics or a word would be written outside the image. */
  method Load(hs: seq<Header>, code: seq<nat>, rs: seq<Rela>, base: nat) returns (ok: bool, img: array<nat>)
    ensures fresh(img) && img.Length == ImageSize(hs)
    ensures ok <==> Fits(img.Length, hs, |code|, rs)
    ensures Proper(hs, rs) && FileHolds(hs, |code|) ==> ok
    ensures ok ==> img[..] == Interleaved(Zeros(ImageSize(hs)), hs, code, rs, base)
    ensures ok && WordsApart(rs) && RelocatedLast(hs, rs) ==>
              forall j :: 0 <= j < |rs| && InMemory(hs, rs[j]) ==> HoldsAddress(img[..], rs[j], base)
  {
    hide Proper, FileHolds, HighestEnd, HoldsAddress, WordsApart, RelocatedLast, InMemory;
    if Proper(hs, rs) && FileHolds(hs, |code|) { ProperFits(hs, |code|, rs); }
    var n := FindSize(hs);
    img := new nat[n](_ => 0);
    assert img[..] == Zeros(n);
    for k := 0 to |hs|
      invariant Fits(n, hs[..k], |code|, rs)
      invariant img[..] == Interleaved(Zeros(n), hs[..k], code, rs, base)
    {
      assert hs[..k + 1][..k] == hs[..k] && hs[k] in hs && hs[..k + 1][k] == hs[k];
      if hs[k].load {
        ok := CopySegment(img, code, hs[k]);
        if !ok { return false, img; }
        ok := RelocateSegment(img, hs[k], rs, base);
        if !ok { return false, img; }
      }
    }
    assert hs[..|hs|] == hs;
    ok := true;
    if WordsApart(rs) && RelocatedLast(hs, rs) { AllRelocated(Zeros(n), hs, code, rs, base); }
  }
}
