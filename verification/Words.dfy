/** 64-bit little-endian words as bytes, and signed integers as words: the numpy dtypes <i8 and <f8 on disk. */
module Words {
  type Byte = b: nat | b < 256

  const TWO63 := 0x8000_0000_0000_0000
  const TWO64 := 0x1_0000_0000_0000_0000

  /** The 64 bits of an int64 or of a float64. */
  type Word = w: nat | w < 0x1_0000_0000_0000_0000

  function Power(k: nat): (p: nat)
    ensures p > 0
  {
    if k == 0 then 1 else 256 * Power(k - 1)
  }

  function Bytes(w: nat, k: nat): (b: seq<Byte>)
    ensures |b| == k
  {
    if k == 0 then [] else [w % 256] + Bytes(w / 256, k - 1)
  }

  function Number(b: seq<Byte>): nat {
    if |b| == 0 then 0 else b[0] + 256 * Number(b[1..])
  }

  lemma {:induction false} NumberBelow(b: seq<Byte>)
    ensures Number(b) < Power(|b|)
  {
    if |b| > 0 {
      NumberBelow(b[1..]);
    }
  }

  lemma {:induction false} NumberOfBytes(w: nat, k: nat)
    requires w < Power(k)
    ensures Number(Bytes(w, k)) == w
  {
    if k > 0 {
      NumberOfBytes(w / 256, k - 1);
      assert Bytes(w, k)[1..] == Bytes(w / 256, k - 1);
    }
  }

  lemma {:induction false} BytesOfNumber(b: seq<Byte>)
    ensures Bytes(Number(b), |b|) == b
  {
    if |b| > 0 {
      BytesOfNumber(b[1..]);
      assert Number(b) % 256 == b[0] && Number(b) / 256 == Number(b[1..]);
      assert b == [b[0]] + b[1..];
    }
  }

  lemma EightBytes()
    ensures Power(8) == TWO64
  {
    assert Power(4) == 0x1_0000_0000 by {
      assert Power(2) == 0x1_0000;
    }
    assert Power(6) == 0x1_0000_0000_0000;
  }

  function WordOf(b: seq<Byte>): Word
    requires |b| == 8
  {
    NumberBelow(b);
    EightBytes();
    Number(b)
  }

  /** tobytes() of an array of 64-bit items. */
  function BytesOf(words: seq<Word>): (b: seq<Byte>)
    ensures |b| == 8 * |words|
  {
    if |words| == 0 then [] else BytesOf(words[..|words| - 1]) + Bytes(words[|words| - 1], 8)
  }

  lemma OneMoreWord(words: seq<Word>, w: Word)
    ensures BytesOf(words + [w]) == BytesOf(words) + Bytes(w, 8)
  {
    hide Bytes;
    assert (words + [w])[..|words|] == words;
  }

  lemma {:induction false} BytesOfBoth(a: seq<Word>, b: seq<Word>)
    ensures BytesOf(a + b) == BytesOf(a) + BytesOf(b)
  {
    hide BytesOf, Bytes;
    if |b| == 0 {
      assert a + b == a && BytesOf(b) == [];
    } else {
      var front, w := b[..|b| - 1], b[|b| - 1];
      BytesOfBoth(a, front);
      OneMoreWord(front, w);
      OneMoreWord(a + front, w);
      assert b == front + [w] && a + b == a + front + [w];
    }
  }

  lemma {:induction false} WordBytes(words: seq<Word>, i: nat)
    requires i < |words|
    ensures BytesOf(words)[8 * i..8 * i + 8] == Bytes(words[i], 8)
  {
    var last := |words| - 1;
    if i < last {
      WordBytes(words[..last], i);
      assert BytesOf(words)[8 * i..8 * i + 8] == BytesOf(words[..last])[8 * i..8 * i + 8];
    }
  }

  /** np.fromfile(path, count=count, offset=offset) of 64-bit items. */
  function FromFile(file: seq<Byte>, offset: nat, count: nat): (words: seq<Word>)
    requires offset + 8 * count <= |file|
    ensures |words| == count
  {
    seq(count, i requires 0 <= i < count => WordOf(file[offset + 8 * i..offset + 8 * i + 8]))
  }

  lemma WordRead(words: seq<Word>, i: nat)
    requires i < |words|
    ensures 8 * i + 8 <= 8 * |words| && WordOf(BytesOf(words)[8 * i..8 * i + 8]) == words[i]
  {
    WordBytes(words, i);
    EightBytes();
    hide BytesOf, Bytes, Number, Power;
    NumberOfBytes(words[i], 8);
  }

  lemma FromFileAt(file: seq<Byte>, offset: nat, count: nat, i: nat)
    requires offset + 8 * count <= |file| && i < count
    ensures offset + 8 * i + 8 <= |file| && FromFile(file, offset, count)[i] == WordOf(file[offset + 8 * i..offset + 8 * i + 8])
  {
    hide WordOf;
  }

  lemma ReadAt(words: seq<Word>, start: nat, count: nat, i: nat)
    requires start + count <= |words| && i < count
    ensures FromFile(BytesOf(words), 8 * start, count)[i] == words[start + i]
  {
    hide BytesOf, WordOf, FromFile;
    FromFileAt(BytesOf(words), 8 * start, count, i);
    WordRead(words, start + i);
    assert 8 * start + 8 * i == 8 * (start + i);
  }

  /** What was written is read, from any word on. */
  lemma ReadsWritten(words: seq<Word>, start: nat, count: nat)
    requires start + count <= |words|
    ensures FromFile(BytesOf(words), 8 * start, count) == words[start..start + count]
  {
    hide BytesOf, FromFile;
    forall i | 0 <= i < count ensures FromFile(BytesOf(words), 8 * start, count)[i] == words[start + i] {
      ReadAt(words, start, count, i);
    }
  }

  /** What is read is what writing it would give. */
  lemma {:induction false} WritesRead(file: seq<Byte>, count: nat)
    requires |file| == 8 * count
    ensures BytesOf(FromFile(file, 0, count)) == file
  {
    hide WordOf, Bytes, FromFile, BytesOf;
    if count == 0 {
      assert file == [] && BytesOf([]) == [];
    } else {
      var front, back := file[..8 * (count - 1)], file[8 * (count - 1)..];
      WritesRead(front, count - 1);
      FrontRead(file, count);
      LastWord(back);
      OneMoreWord(FromFile(front, 0, count - 1), WordOf(back));
      assert file == front + back;
    }
  }

  lemma LastWord(b: seq<Byte>)
    requires |b| == 8
    ensures Bytes(WordOf(b), 8) == b
  {
    BytesOfNumber(b);
  }

  lemma FrontRead(file: seq<Byte>, count: nat)
    requires count > 0 && |file| == 8 * count
    ensures FromFile(file, 0, count) == FromFile(file[..8 * (count - 1)], 0, count - 1) + [WordOf(file[8 * (count - 1)..])]
  {
    hide WordOf;
    var front := file[..8 * (count - 1)];
    forall i | 0 <= i < count - 1 ensures FromFile(file, 0, count)[i] == FromFile(front, 0, count - 1)[i] {
      assert file[8 * i..8 * i + 8] == front[8 * i..8 * i + 8];
    }
    assert file[8 * (count - 1)..8 * (count - 1) + 8] == file[8 * (count - 1)..];
  }

  predicate IsInt64(v: int) {
    -TWO63 <= v < TWO63
  }

  /** Two's complement. */
  function ToWord(v: int): Word
    requires IsInt64(v)
  {
    if v < 0 then v + TWO64 else v
  }

  function ToInt(w: Word): (v: int)
    ensures IsInt64(v) && ToWord(v) == w
  {
    if w >= TWO63 then w - TWO64 else w
  }

  lemma IntRoundTrip(v: int)
    requires IsInt64(v)
    ensures ToInt(ToWord(v)) == v
  {
  }

  /** Little-endian: byte i has the weight 256^i. */
  lemma {:induction false} ByteAt(w: nat, k: nat, i: nat)
    requires i < k
    ensures Bytes(w, k)[i] == w / Power(i) % 256
  {
    if i > 0 {
      ByteAt(w / 256, k - 1, i - 1);
      DivideTwice(w, Power(i - 1));
    }
  }

  lemma DivideTwice(w: nat, p: nat)
    requires p > 0
    ensures w / 256 / p == w / (256 * p)
  {
    var q, r := w / (256 * p), w % (256 * p);
    assert w == 256 * (p * q) + r;
    var h := r / 256;
    assert w / 256 == p * q + h && 0 <= h < p;
    Quotient(w / 256, p, q, h);
  }

  lemma Quotient(x: nat, p: nat, q: nat, h: nat)
    requires p > 0 && x == p * q + h && h < p
    ensures x / p == q
  {
    var c := x / p;
    assert p * c <= x < p * (c + 1);
    assert c < q ==> p * (c + 1) <= p * q;
    assert c > q ==> p * c >= p * (q + 1);
  }

  /** Two's complement. */
  lemma WordIsModular(v: int)
    requires IsInt64(v)
    ensures ToWord(v) == v % TWO64
  {
  }
}
