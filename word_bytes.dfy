/** Bytes of 32-bit data-register words as the RNG driver copies them out.
    The driver copies each word with memcpy from a uint32_t, so the bytes land
    in memory order; the STM32MP cores run little-endian, so that is
    least-significant byte first. */
module WordBytes {

  /** The four bytes of `w` in little-endian memory order. */
  function LeBytes(w: bv32): (r: seq<bv8>)
    ensures |r| == 4
    ensures LeWord(r) == w
  {
    [(w & 0xFF) as bv8, ((w >> 8) & 0xFF) as bv8, ((w >> 16) & 0xFF) as bv8, (w >> 24) as bv8]
  }

  /** The word whose little-endian memory image is `b`. */
  function LeWord(b: seq<bv8>): bv32
    requires |b| == 4
  {
    (b[0] as bv32) | ((b[1] as bv32) << 8) | ((b[2] as bv32) << 16) | ((b[3] as bv32) << 24)
  }

  /** The other half of the round trip: four bytes survive being assembled
      into a word and copied out again. */
  lemma LeWordBytes(b: seq<bv8>)
    requires |b| == 4
    ensures LeBytes(LeWord(b)) == b
  {
    var w := LeWord(b);
    Lane0(b[0], b[1], b[2], b[3]);
    Lane1(b[0], b[1], b[2], b[3]);
    Lane2(b[0], b[1], b[2], b[3]);
    Lane3(b[0], b[1], b[2], b[3]);
    assert LeBytes(w) == [b[0], b[1], b[2], b[3]];
  }

  // Each byte lane of an assembled word holds its byte.
  lemma Lane0(b0: bv8, b1: bv8, b2: bv8, b3: bv8)
    ensures (LeWord([b0, b1, b2, b3]) & 0xFF) as bv8 == b0
  {
  }

  lemma Lane1(b0: bv8, b1: bv8, b2: bv8, b3: bv8)
    ensures ((LeWord([b0, b1, b2, b3]) >> 8) & 0xFF) as bv8 == b1
  {
  }

  lemma Lane2(b0: bv8, b1: bv8, b2: bv8, b3: bv8)
    ensures ((LeWord([b0, b1, b2, b3]) >> 16) & 0xFF) as bv8 == b2
  {
  }

  lemma Lane3(b0: bv8, b1: bv8, b2: bv8, b3: bv8)
    ensures (LeWord([b0, b1, b2, b3]) >> 24) as bv8 == b3
  {
  }

  /** The byte stream of a sequence of words, each in memory order, in the order they were read. */
  function Stream(ws: seq<bv32>): (r: seq<bv8>)
    ensures |r| == 4 * |ws|
  {
    if ws == [] then [] else Stream(ws[..|ws| - 1]) + LeBytes(ws[|ws| - 1])
  }

  /** Byte `i` of the stream is byte `i % 4` of word `i / 4`. */
  lemma {:induction false} StreamAt(ws: seq<bv32>, i: nat)
    requires i < 4 * |ws|
    ensures Stream(ws)[i] == LeBytes(ws[i / 4])[i % 4]
  {
    var n := |ws| - 1;
    if i < 4 * n {
      StreamAt(ws[..n], i);
      assert ws[..n][i / 4] == ws[i / 4];
    } else {
      assert i / 4 == n;
    }
  }

  /** Appending one word appends its four bytes. */
  lemma StreamSnoc(ws: seq<bv32>, w: bv32)
    ensures Stream(ws + [w]) == Stream(ws) + LeBytes(w)
  {
    assert (ws + [w])[..|ws|] == ws;
  }

  /** The stream of a concatenation is the concatenation of the streams. */
  lemma {:induction false} StreamAppend(a: seq<bv32>, b: seq<bv32>)
    ensures Stream(a + b) == Stream(a) + Stream(b)
    decreases |b|
  {
    if b == [] {
      assert a + b == a;
    } else {
      var c := b[..|b| - 1];
      assert b == c + [b[|b| - 1]];
      assert a + b == (a + c) + [b[|b| - 1]];
      StreamAppend(a, c);
      StreamSnoc(a + c, b[|b| - 1]);
      StreamSnoc(c, b[|b| - 1]);
    }
  }

  /** The stream of earlier words followed by a cut of the stream of later
      words is the stream of all of them, cut at the same point. */
  lemma StreamPrefix(a: seq<bv32>, b: seq<bv32>, k: nat, end: nat)
    requires k <= 4 * |b| && end == 4 * |a| + k
    ensures Stream(a) + Stream(b)[..k] == Stream(a + b)[..end]
  {
    StreamAppend(a, b);
    assert (Stream(a) + Stream(b))[..end] == Stream(a) + Stream(b)[..k];
  }

  /** Number of 32-bit words needed to cover `size` bytes: the ceiling of size / 4. */
  function WordsFor(size: nat): (n: nat)
    ensures 4 * n >= size
    ensures n == 0 || 4 * (n - 1) < size
  {
    (size + 3) / 4
  }

  /** The two bounds of WordsFor determine it: it is the only count that covers
      `size` bytes without a spare word. */
  lemma WordsForUnique(size: nat, n: nat)
    requires 4 * n >= size
    requires n == 0 || 4 * (n - 1) < size
    ensures n == WordsFor(size)
  {
  }
}
