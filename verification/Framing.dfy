// RouterOS API framing (internal/tcpmock/sentence.go): words are written with a
// variable-length big-endian length prefix, a sentence is its words followed by an
// empty word. `Writer` and `Reader` are the two ends of the connection; the functions
// above them say what bytes mean, and the lemmas below relate the two directions.
module Framing {
  import opened Arithmetic
  import opened Sequences
  import opened Wrappers

  type Byte = b: int | 0 <= b < 0x100

  const MAX_WORD := 0x1_0000_0000

  /** What a read can fail with: io.EOF, io.ErrUnexpectedEOF, or a first byte 0xF1..0xFF. */
  datatype ReadError = Eof | UnexpectedEof | BadPrefix

  /** A read gives a value or an error, and in both cases what is left of the stream. */
  datatype Read<T> = Got(value: T, rest: seq<Byte>) | Failed(error: ReadError, rest: seq<Byte>)

  /** What DecodeSentence returns: the words read so far, the error if any, and the rest. */
  datatype Sentence = Sentence(words: seq<seq<Byte>>, error: Option<ReadError>, rest: seq<Byte>)

  // ---------------------------------------------------------------- meaning of the bytes

  /** The low `k` bytes of `n`, most significant first. */
  function Bytes(n: nat, k: nat): (b: seq<Byte>)
    ensures |b| == k
  {
    if k == 0 then [] else Bytes(n / 0x100, k - 1) + [n % 0x100]
  }

  function BigEndian(bytes: seq<Byte>): (n: nat) {
    if bytes == [] then 0 else BigEndian(bytes[..|bytes| - 1]) * 0x100 + bytes[|bytes| - 1]
  }

  /** How many bytes follow the first one in the prefix of a word of length `n`. */
  function ExtraBytesFor(n: nat): (k: nat)
    ensures k <= 4
  {
    if n < 0x80 then 0 else if n < 0x4000 then 1 else if n < 0x20_0000 then 2 else if n < 0x1000_0000 then 3 else 4
  }

  /** How many bytes follow a given first byte. */
  function ExtraBytesAfter(first: Byte): (k: nat)
    requires first <= 0xF0
    ensures k <= 4
  {
    if first < 0x80 then 0 else if first < 0xC0 then 1 else if first < 0xE0 then 2 else if first < 0xF0 then 3 else 4
  }

  /** The marker bits of a first byte that is followed by `k` more. */
  function Marker(k: nat): Byte
    requires k <= 4
  {
    if k == 0 then 0 else if k == 1 then 0x80 else if k == 2 then 0xC0 else if k == 3 then 0xE0 else 0xF0
  }

  /** The prefix of a word of length `n`: the marker, and `n` modulo 2^32 big-endian. */
  function LengthPrefix(n: nat): (p: seq<Byte>)
    ensures |p| == ExtraBytesFor(n) + 1
  {
    var k := ExtraBytesFor(n);
    var b := Bytes(n % MAX_WORD, k + 1);
    FirstByteFits(n);
    [Marker(k) + b[0]] + b[1..]
  }

  /** Room left beside the marker in a first byte followed by `k` bytes. */
  function Room(k: nat): nat
    requires k <= 4
  {
    if k == 0 then 0x80 else if k == 1 then 0x40 else if k == 2 then 0x20 else if k == 3 then 0x10 else 1
  }

  lemma TopByteSmall(m: nat)
    requires m < MAX_WORD
    ensures ByteAt(m, ExtraBytesFor(m)) < Room(ExtraBytesFor(m))
  {
    ByteAtShifted(m);
  }

  lemma MarkerAndBits(k: nat, bits: nat)
    requires k <= 4 && bits < Room(k)
    ensures Marker(k) + bits <= 0xF0 && ExtraBytesAfter(Marker(k) + bits) == k
  {
  }

  lemma FirstByteFits(n: nat)
    ensures var k := ExtraBytesFor(n);
            var first := Marker(k) + Bytes(n % MAX_WORD, k + 1)[0];
            first <= 0xF0 && ExtraBytesAfter(first) == k
  {
    var m, k := n % MAX_WORD, ExtraBytesFor(n);
    BytesByIndex(m, k + 1, k);
    if n < MAX_WORD {
      TopByteSmall(n);
    } else {
      ByteAtShifted(m);
    }
    MarkerAndBits(k, Bytes(m, k + 1)[0]);
  }

  function EncodedWord(word: seq<Byte>): (e: seq<Byte>)
    ensures |e| > |word|
  {
    LengthPrefix(|word|) + word
  }

  function EncodedWords(words: seq<seq<Byte>>): seq<Byte> {
    if words == [] then [] else EncodedWord(words[0]) + EncodedWords(words[1..])
  }

  function EncodedSentence(words: seq<seq<Byte>>): seq<Byte> {
    EncodedWords(words) + EncodedWord([])
  }

  function EncodedStream(sentences: seq<seq<seq<Byte>>>): seq<Byte> {
    if sentences == [] then [] else EncodedSentence(sentences[0]) + EncodedStream(sentences[1..])
  }

  /** io.ReadFull: all `n` bytes, or an error that tells an empty read from a short one. */
  function Full(data: seq<Byte>, n: nat): Read<seq<Byte>> {
    if n <= |data| then Got(data[..n], data[n..])
    else if data == [] then Failed(Eof, [])
    else Failed(UnexpectedEof, [])
  }

  /** The length a prefix announces, read off the front of the stream. */
  function LengthAt(data: seq<Byte>): Read<nat> {
    if data == [] then Failed(Eof, [])
    else if data[0] > 0xF0 then Failed(BadPrefix, data[1..])
    else
      match Full(data[1..], ExtraBytesAfter(data[0]))
      case Failed(e, rest) => Failed(e, rest)
      case Got(low, rest) => Got(BigEndian([data[0] - Marker(ExtraBytesAfter(data[0]))] + low), rest)
  }

  function WordAt(data: seq<Byte>): (r: Read<seq<Byte>>)
    ensures r.Got? ==> |r.rest| < |data|
  {
    match LengthAt(data)
    case Failed(e, rest) => Failed(e, rest)
    case Got(n, rest) => Full(rest, n)
  }

  function SentenceAt(data: seq<Byte>): Sentence
    decreases |data|
  {
    match WordAt(data)
    case Failed(e, rest) => Sentence([], Some(e), rest)
    case Got(word, rest) =>
      if word == [] then Sentence([], None, rest)
      else
        var later := SentenceAt(rest);
        later.(words := [word] + later.words)
  }

  /** The words of `n` sentences decoded one after the other, and the rest of the stream. */
  function StreamAt(data: seq<Byte>, n: nat): (seq<seq<seq<Byte>>>, seq<Byte>)
    decreases n
  {
    if n == 0 then ([], data)
    else
      var s := SentenceAt(data);
      var (later, rest) := StreamAt(s.rest, n - 1);
      ([s.words] + later, rest)
  }

  function AsResult<T>(r: Read<T>): Result<T, ReadError> {
    match r
    case Got(value, _) => Success(value)
    case Failed(error, _) => Failure(error)
  }

  lemma {:induction false} WordsAppend(words: seq<seq<Byte>>, word: seq<Byte>)
    ensures EncodedWords(words + [word]) == EncodedWords(words) + EncodedWord(word)
  {
    if words == [] {
      assert [] + [word] == [word] && [word][1..] == [];
    } else {
      WordsAppend(words[1..], word);
      assert (words + [word])[1..] == words[1..] + [word];
    }
  }

  /** Byte `j` of `n`, counted from the lowest. */
  function ByteAt(n: nat, j: nat): Byte {
    if j == 0 then n % 0x100 else ByteAt(n / 0x100, j - 1)
  }

  lemma {:induction false} BytesByIndex(n: nat, k: nat, j: nat)
    requires j < k
    ensures Bytes(n, k)[k - 1 - j] == ByteAt(n, j)
  {
    if j > 0 {
      BytesByIndex(n / 0x100, k - 1, j - 1);
    }
  }

  lemma ByteAtShifted(n: nat)
    ensures ByteAt(n, 0) == n % 0x100
    ensures ByteAt(n, 1) == n / 0x100 % 0x100
    ensures ByteAt(n, 2) == n / 0x1_0000 % 0x100
    ensures ByteAt(n, 3) == n / 0x100_0000 % 0x100
    ensures ByteAt(n, 4) == n / 0x1_0000_0000 % 0x100
  {
    var a := n / 0x100;
    var b := a / 0x100;
    var c := b / 0x100;
    assert b == n / 0x1_0000 && c == n / 0x100_0000 && c / 0x100 == n / 0x1_0000_0000;
    assert ByteAt(n, 1) == ByteAt(a, 0);
    assert ByteAt(n, 2) == ByteAt(a, 1) == ByteAt(b, 0);
    assert ByteAt(n, 3) == ByteAt(a, 2) == ByteAt(b, 1) == ByteAt(c, 0);
    assert ByteAt(n, 4) == ByteAt(a, 3) == ByteAt(b, 2) == ByteAt(c, 1) == ByteAt(c / 0x100, 0);
  }

  /** `Bytes` spelled out by shifts, one byte of `n` at a time. */
  lemma BytesShifted(n: nat, k: nat)
    requires 1 <= k <= 5
    ensures Bytes(n, k)[k - 1] == n % 0x100
    ensures k >= 2 ==> Bytes(n, k)[k - 2] == n / 0x100 % 0x100
    ensures k >= 3 ==> Bytes(n, k)[k - 3] == n / 0x1_0000 % 0x100
    ensures k >= 4 ==> Bytes(n, k)[k - 4] == n / 0x100_0000 % 0x100
    ensures k >= 5 ==> Bytes(n, k)[k - 5] == n / 0x1_0000_0000 % 0x100
  {
    ByteAtShifted(n);
    forall j | 0 <= j < k
      ensures Bytes(n, k)[k - 1 - j] == ByteAt(n, j)
    {
      BytesByIndex(n, k, j);
    }
    assert Bytes(n, k)[k - 1 - 0] == ByteAt(n, 0);
    assert k >= 2 ==> Bytes(n, k)[k - 1 - 1] == ByteAt(n, 1);
    assert k >= 3 ==> Bytes(n, k)[k - 1 - 2] == ByteAt(n, 2);
    assert k >= 4 ==> Bytes(n, k)[k - 1 - 3] == ByteAt(n, 3);
    assert k >= 5 ==> Bytes(n, k)[k - 1 - 4] == ByteAt(n, 4);
  }

  /** The low four bytes of `n` do not see what lies above 2^32. */
  lemma ShiftsIgnoreHighBytes(n: nat)
    ensures n % MAX_WORD % 0x100 == n % 0x100
    ensures n % MAX_WORD / 0x100 % 0x100 == n / 0x100 % 0x100
    ensures n % MAX_WORD / 0x1_0000 % 0x100 == n / 0x1_0000 % 0x100
    ensures n % MAX_WORD / 0x100_0000 % 0x100 == n / 0x100_0000 % 0x100
    ensures n % MAX_WORD / 0x1_0000_0000 == 0
  {
    var high, low := n / MAX_WORD, n % MAX_WORD;
    AddMultiple(low, high * 0x100_0000, 0x100);
    AddMultiple(low, high * 0x1_0000, 0x1_0000);
    AddMultiple(low, high * 0x100, 0x100_0000);
    AddMultiple(low / 0x100, high * 0x1_0000, 0x100);
    AddMultiple(low / 0x1_0000, high * 0x100, 0x100);
    AddMultiple(low / 0x100_0000, high, 0x100);
  }

  lemma {:induction false} BigEndianShifted(b: seq<Byte>)
    requires 1 <= |b| <= 5
    ensures |b| == 1 ==> BigEndian(b) == b[0] as int
    ensures |b| == 2 ==> BigEndian(b) == b[0] as int * 0x100 + b[1] as int
    ensures |b| == 3 ==> BigEndian(b) == b[0] as int * 0x1_0000 + b[1] as int * 0x100 + b[2] as int
    ensures |b| == 4 ==> BigEndian(b) == b[0] as int * 0x100_0000 + b[1] as int * 0x1_0000
                           + b[2] as int * 0x100 + b[3] as int
    ensures |b| == 5 ==> BigEndian(b) == b[0] as int * 0x1_0000_0000 + b[1] as int * 0x100_0000
                                      + b[2] as int * 0x1_0000 + b[3] as int * 0x100 + b[4] as int
  {
    if |b| > 1 {
      BigEndianShifted(b[..|b| - 1]);
    } else {
      assert BigEndian(b[..0]) == 0;
    }
  }

  // ---------------------------------------------------------------- the two ends

  /** `LengthPrefix` read off by shifts. */
  lemma PrefixShifted(n: nat)
    ensures var p, k := LengthPrefix(n), ExtraBytesFor(n);
            && p[0] == Marker(k) + (if k == 4 then 0 else Shifted(n, k))
            && (forall j :: 0 <= j < k ==> p[k - j] == Shifted(n, j))
  {
    var m, k := n % MAX_WORD, ExtraBytesFor(n);
    BytesShifted(m, k + 1);
    ShiftsIgnoreHighBytes(n);
    FirstByteFits(n);
    forall j | 0 <= j <= k
      ensures Bytes(m, k + 1)[k - j] == Shifted(m, j)
    {
    }
  }

  lemma PrefixIs(n: nat, buf: seq<Byte>)
    requires var k := ExtraBytesFor(n);
             && |buf| == k + 1
             && buf[0] == Marker(k) + (if k == 4 then 0 else Shifted(n, k))
             && (forall j :: 0 <= j < k ==> buf[k - j] == Shifted(n, j))
    ensures buf == LengthPrefix(n)
  {
    var p, k := LengthPrefix(n), ExtraBytesFor(n);
    PrefixShifted(n);
    forall i | 0 <= i < |buf| ensures buf[i] == p[i] {
      if i > 0 {
        assert buf[k - (k - i)] == Shifted(n, k - i) && p[k - (k - i)] == Shifted(n, k - i);
      }
    }
  }

  /** `byte(n >> 8j)`. */
  function Shifted(n: nat, j: nat): Byte
    requires j <= 4
  {
    if j == 0 then n % 0x100
    else if j == 1 then n / 0x100 % 0x100
    else if j == 2 then n / 0x1_0000 % 0x100
    else if j == 3 then n / 0x100_0000 % 0x100
    else n / 0x1_0000_0000 % 0x100
  }

  /** A byte as eight bits, counted up from zero. */
  function Bits(b: Byte): (v: bv8)
    ensures v as int == b
  {
    if b == 0 then 0
    else
      BitsNext(Bits(b - 1));
      Bits(b - 1) + 1
  }

  lemma BitsNext(v: bv8)
    requires v as int < 0xFF
    ensures (v + 1) as int == v as int + 1
  {
    assert v < 0xFF;
  }

  /** The bit operations of EncodeWord and DecodeWord, on a byte, are ranges, remainders and sums. */
  lemma MasksAreRanges(v: bv8)
    ensures (v & 0x80 == 0) <==> v as int < 0x80
    ensures (v & 0xC0 == 0x80) <==> 0x80 <= v as int < 0xC0
    ensures (v & 0xE0 == 0xC0) <==> 0xC0 <= v as int < 0xE0
    ensures (v & 0xF0 == 0xE0) <==> 0xE0 <= v as int < 0xF0
    ensures (v == 0xF0) <==> v as int == 0xF0
    ensures (v & 0x3F) as int == v as int % 0x40
    ensures (v & 0x1F) as int == v as int % 0x20
    ensures (v & 0x0F) as int == v as int % 0x10
    ensures v as int < 0x40 ==> (v | 0x80) as int == v as int + 0x80
    ensures v as int < 0x20 ==> (v | 0xC0) as int == v as int + 0xC0
    ensures v as int < 0x10 ==> (v | 0xE0) as int == v as int + 0xE0
  {
    TestsAreRanges(v);
    LowSixBits(v);
    LowFiveBits(v);
    LowFourBits(v);
    MarkTwoBytes(v);
    MarkThreeBytes(v);
    MarkFourBytes(v);
  }

  lemma TestsAreRanges(v: bv8)
    ensures (v & 0x80 == 0) <==> v as int < 0x80
    ensures (v & 0xC0 == 0x80) <==> 0x80 <= v as int < 0xC0
    ensures (v & 0xE0 == 0xC0) <==> 0xC0 <= v as int < 0xE0
    ensures (v & 0xF0 == 0xE0) <==> 0xE0 <= v as int < 0xF0
    ensures (v == 0xF0) <==> v as int == 0xF0
  {
  }

  lemma LowSixBits(v: bv8)
    ensures (v & 0x3F) as int == v as int % 0x40
  {
    assert v & 0x3F == v % 0x40;
  }

  lemma LowFiveBits(v: bv8)
    ensures (v & 0x1F) as int == v as int % 0x20
  {
    assert v & 0x1F == v % 0x20;
  }

  lemma LowFourBits(v: bv8)
    ensures (v & 0x0F) as int == v as int % 0x10
  {
    assert v & 0x0F == v % 0x10;
  }

  lemma MarkTwoBytes(v: bv8)
    ensures v as int < 0x40 ==> (v | 0x80) as int == v as int + 0x80
  {
    assert v < 0x40 ==> v | 0x80 == v + 0x80;
  }

  lemma MarkThreeBytes(v: bv8)
    ensures v as int < 0x20 ==> (v | 0xC0) as int == v as int + 0xC0
  {
    assert v < 0x20 ==> v | 0xC0 == v + 0xC0;
  }

  lemma MarkFourBytes(v: bv8)
    ensures v as int < 0x10 ==> (v | 0xE0) as int == v as int + 0xE0
  {
    assert v < 0x10 ==> v | 0xE0 == v + 0xE0;
  }

  /** The marker of a size class set in a first byte. */
  method WithMarker(bits: Byte, k: nat) returns (first: Byte)
    requires 1 <= k <= 3 && bits < Room(k)
    ensures first == Marker(k) + bits
  {
    var v := Bits(bits);
    MasksAreRanges(v);
    first := (if k == 1 then v | 0x80 else if k == 2 then v | 0xC0 else v | 0xE0) as int;
  }

  /** The switch of EncodeWord over the length. */
  method PrefixFor(n: nat) returns (buf: seq<Byte>)
    ensures buf == LengthPrefix(n)
  {
    if n < 0x80 {
      buf := [Shifted(n, 0)];
    } else if n < 0x4000 {
      var first := WithMarker(Shifted(n, 1), 1);
      buf := [first, Shifted(n, 0)];
    } else if n < 0x20_0000 {
      var first := WithMarker(Shifted(n, 2), 2);
      buf := [first, Shifted(n, 1), Shifted(n, 0)];
    } else if n < 0x1000_0000 {
      var first := WithMarker(Shifted(n, 3), 3);
      buf := [first, Shifted(n, 2), Shifted(n, 1), Shifted(n, 0)];
    } else {
      buf := [0xF0, Shifted(n, 3), Shifted(n, 2), Shifted(n, 1), Shifted(n, 0)];
    }
    PrefixIs(n, buf);
  }

  class Writer {
    var out: seq<Byte>

    constructor ()
      ensures out == []
    {
      out := [];
    }

    method EncodeWord(word: seq<Byte>)
      modifies this
      ensures out == old(out) + EncodedWord(word)
    {
      var buf := PrefixFor(|word|);
      out := out + buf;
      if |word| > 0 {
        out := out + word;
      }
    }

    method EncodeSentence(words: seq<seq<Byte>>)
      modifies this
      ensures out == old(out) + EncodedSentence(words)
    {
      for i := 0 to |words|
        invariant out == old(out) + EncodedWords(words[..i])
      {
        WordsAppend(words[..i], words[i]);
        Associative(old(out), EncodedWords(words[..i]), EncodedWord(words[i]));
        assert words[..i] + [words[i]] == words[..i + 1];
        EncodeWord(words[i]);
      }
      assert words[..|words|] == words;
      Associative(old(out), EncodedWords(words), EncodedWord([]));
      EncodeWord([]);
    }
  }

  /** How DecodeWord's switch classifies a first byte; 0xF1 to 0xFF are in no class. */
  method Class(first: Byte) returns (extra: Option<nat>)
    ensures extra == if first <= 0xF0 then Some(ExtraBytesAfter(first)) else None
  {
    var v := Bits(first);
    MasksAreRanges(v);
    extra := if v & 0x80 == 0 then Some(0) else if v & 0xC0 == 0x80 then Some(1) else if v & 0xE0 == 0xC0 then Some(2)
             else if v & 0xF0 == 0xE0 then Some(3) else if v == 0xF0 then Some(4) else None;
  }

  /** The masks and shifts of DecodeWord's switch; `|` of disjoint bits is a sum. */
  method Announced(first: Byte, low: seq<Byte>) returns (length: nat)
    requires first <= 0xF0 && |low| == ExtraBytesAfter(first)
    ensures length == BigEndian([first - Marker(|low|)] + low)
  {
    BigEndianShifted([first - Marker(|low|)] + low);
    var v := Bits(first);
    MasksAreRanges(v);
    if |low| == 0 {
      length := first;
    } else if |low| == 1 {
      length := (v & 0x3F) as int * 0x100 + low[0] as int;
    } else if |low| == 2 {
      length := (v & 0x1F) as int * 0x1_0000 + low[0] as int * 0x100 + low[1] as int;
    } else if |low| == 3 {
      length := (v & 0x0F) as int * 0x100_0000 + low[0] as int * 0x1_0000 + low[1] as int * 0x100 + low[2] as int;
    } else {
      length := low[0] as int * 0x100_0000 + low[1] as int * 0x1_0000 + low[2] as int * 0x100 + low[3] as int;
    }
  }

  class Reader {
    var data: seq<Byte>

    constructor (bytes: seq<Byte>)
      ensures data == bytes
    {
      data := bytes;
    }

    method ReadFull(n: nat) returns (r: Result<seq<Byte>, ReadError>)
      modifies this
      ensures data == Full(old(data), n).rest
      ensures r == AsResult(Full(old(data), n))
    {
      if n <= |data| {
        r := Success(data[..n]);
        data := data[n..];
      } else if data == [] {
        r := Failure(Eof);
      } else {
        r := Failure(UnexpectedEof);
        data := [];
      }
    }

    /** The first byte and its switch: how long the next word is. */
    method ReadLength() returns (r: Result<nat, ReadError>)
      modifies this
      ensures data == LengthAt(old(data)).rest
      ensures r == AsResult(LengthAt(old(data)))
    {
      if data == [] {
        return Failure(Eof);
      }
      var first := data[0];
      data := data[1..];
      var extra := Class(first);
      if extra.None? {
        return Failure(BadPrefix);
      }
      var low: seq<Byte> := [];
      if extra.value > 0 {
        var b := ReadFull(extra.value);
        if b.Failure? {
          return Failure(b.error);
        }
        low := b.value;
      }
      var length := Announced(first, low);
      HeaderRead(first, low, data);
      assert old(data) == [first] + low + data;
      r := Success(length);
    }

    method DecodeWord() returns (r: Result<seq<Byte>, ReadError>)
      modifies this
      ensures data == WordAt(old(data)).rest
      ensures r == AsResult(WordAt(old(data)))
    {
      var length := ReadLength();
      if length.Failure? {
        return Failure(length.error);
      }
      if length.value == 0 {
        return Success([]);
      }
      r := ReadFull(length.value);
    }

    method DecodeSentence() returns (words: seq<seq<Byte>>, error: Option<ReadError>)
      modifies this
      ensures Sentence(words, error, data) == SentenceAt(old(data))
    {
      words := [];
      while true
        invariant var later := SentenceAt(data);
                  SentenceAt(old(data)) == later.(words := words + later.words)
        decreases |data|
      {
        var w := DecodeWord();
        if w.Failure? {
          if w.error == Eof && words == [] {
            return [], Some(Eof);
          }
          return words, Some(w.error);
        }
        if w.value == [] {
          return words, None;
        }
        words := words + [w.value];
      }
    }
  }

  // ---------------------------------------------------------------- words

  /** What `Bytes(n, k)` leaves out. */
  function Above(n: nat, k: nat): nat {
    if k == 0 then n else Above(n / 0x100, k - 1)
  }

  lemma {:induction false} BytesRoundTrip(n: nat, k: nat)
    requires Above(n, k) == 0
    ensures BigEndian(Bytes(n, k)) == n
  {
    if k > 0 {
      BytesRoundTrip(n / 0x100, k - 1);
      assert Bytes(n, k)[..k - 1] == Bytes(n / 0x100, k - 1);
    }
  }

  /** 256^k. */
  function Limit(k: nat): (p: nat)
  {
    if k == 0 then 1 else 0x100 * Limit(k - 1)
  }

  lemma {:induction false} NothingAbove(n: nat, k: nat)
    requires n < Limit(k)
    ensures Above(n, k) == 0
  {
    if k > 0 {
      NothingAbove(n / 0x100, k - 1);
    }
  }

  lemma PrefixHolds(n: nat)
    ensures Above(n % MAX_WORD, ExtraBytesFor(n) + 1) == 0
  {
    assert Limit(1) == 0x100 && Limit(2) == 0x1_0000 && Limit(3) == 0x100_0000;
    assert Limit(4) == 0x1_0000_0000 && Limit(5) == 0x100_0000_0000;
    NothingAbove(n % MAX_WORD, ExtraBytesFor(n) + 1);
  }

  lemma HeaderRead(first: Byte, low: seq<Byte>, rest: seq<Byte>)
    requires first <= 0xF0 && |low| == ExtraBytesAfter(first)
    ensures LengthAt([first] + low + rest) == Got(BigEndian([first - Marker(|low|)] + low), rest)
  {
    var data := [first] + low + rest;
    assert data[1..] == low + rest;
    assert Full(low + rest, |low|) == Got(low, rest);
  }

  lemma HeaderCut(first: Byte, low: seq<Byte>)
    requires first <= 0xF0 && |low| < ExtraBytesAfter(first)
    ensures LengthAt([first] + low) == Failed(if low == [] then Eof else UnexpectedEof, [])
  {
    assert ([first] + low)[1..] == low;
  }

  /** The table of the RouterOS API: what is written for a word of n bytes. */
  lemma PrefixTable(n: nat)
    requires n < 0x1_0000_0000
    ensures LengthPrefix(n) ==
      if n < 0x80 then [n]
      else if n < 0x4000 then [0x80 + n / 0x100, n % 0x100]
      else if n < 0x20_0000 then [0xC0 + n / 0x1_0000, n / 0x100 % 0x100, n % 0x100]
      else if n < 0x1000_0000 then [0xE0 + n / 0x100_0000, n / 0x1_0000 % 0x100, n / 0x100 % 0x100, n % 0x100]
      else [0xF0, n / 0x100_0000, n / 0x1_0000 % 0x100, n / 0x100 % 0x100, n % 0x100]
  {
    var p, k := LengthPrefix(n), ExtraBytesFor(n);
    PrefixShifted(n);
    assert k > 0 ==> p[k - 0] == Shifted(n, 0);
    assert k > 1 ==> p[k - 1] == Shifted(n, 1);
    assert k > 2 ==> p[k - 2] == Shifted(n, 2);
    assert k > 3 ==> p[k - 3] == Shifted(n, 3);
    TopBytes(n);
  }

  /** In a length of its class the top byte is not reduced. */
  lemma TopBytes(n: nat)
    requires n < 0x1_0000_0000
    ensures var k := ExtraBytesFor(n);
      && (k == 0 ==> Shifted(n, 0) == n) && (k == 1 ==> Shifted(n, 1) == n / 0x100)
      && (k == 2 ==> Shifted(n, 2) == n / 0x1_0000) && (k >= 3 ==> Shifted(n, 3) == n / 0x100_0000)
  {
  }

  /** A prefix announces the length it was written for, modulo 2^32. */
  lemma PrefixRoundTrip(n: nat, rest: seq<Byte>)
    ensures LengthAt(LengthPrefix(n) + rest) == Got(n % MAX_WORD, rest)
  {
    var m, k := n % MAX_WORD, ExtraBytesFor(n);
    var b := Bytes(m, k + 1);
    FirstByteFits(n);
    PrefixHolds(n);
    BytesRoundTrip(m, k + 1);
    HeaderRead(Marker(k) + b[0], b[1..], rest);
    assert [b[0]] + b[1..] == b;
  }

  lemma {:induction false} BigEndianBound(b: seq<Byte>, k: nat, room: nat)
    requires |b| == k + 1 && b[0] < room
    ensures BigEndian(b) < room * Limit(k)
    decreases k
  {
    if k == 0 {
      assert BigEndian(b[..0]) == 0;
    } else {
      BigEndianBound(b[..k], k - 1, room);
      assert BigEndian(b) < 0x100 * (room * Limit(k - 1));
      assert 0x100 * (room * Limit(k - 1)) == room * Limit(k);
    }
  }

  /** What a prefix with `k` bytes after the first can announce at most. */
  lemma RoomHolds(n: nat, k: nat)
    requires k <= 4 && n < Room(k) * Limit(k)
    ensures ExtraBytesFor(n) <= k && n < MAX_WORD
  {
    assert Limit(1) == 0x100 && Limit(2) == 0x1_0000 && Limit(3) == 0x100_0000 && Limit(4) == 0x1_0000_0000;
  }

  /**
    The prefix written for a length is as short as any that is read as that length, and no
    prefix starts above 0xF0.
   */
  lemma PrefixIsShortest(n: nat, p: seq<Byte>, rest: seq<Byte>)
    requires LengthAt(p + rest) == Got(n, rest)
    ensures n < MAX_WORD && |p| >= |LengthPrefix(n)| && p[0] <= 0xF0
  {
    var data := p + rest;
    var k := ExtraBytesAfter(data[0]);
    assert |p| == k + 1 && data[0] == p[0];
    var b := [data[0] - Marker(k)] + data[1..][..k];
    BigEndianBound(b, k, Room(k));
    RoomHolds(n, k);
  }

  /** The word that comes back is the first |word| mod 2^32 bytes. */
  lemma WordComesBack(word: seq<Byte>, rest: seq<Byte>)
    ensures |word| % MAX_WORD <= |word|
    ensures WordAt(EncodedWord(word) + rest)
         == Got(word[..|word| % MAX_WORD], word[|word| % MAX_WORD..] + rest)
  {
    var m := |word| % MAX_WORD;
    PrefixRoundTrip(|word|, word + rest);
    assert EncodedWord(word) + rest == LengthPrefix(|word|) + (word + rest);
    FullOfTwo(word, rest, m);
  }

  lemma FullOfTwo(word: seq<Byte>, rest: seq<Byte>, m: nat)
    requires m <= |word|
    ensures Full(word + rest, m) == Got(word[..m], word[m..] + rest)
  {
    assert (word + rest)[..m] == word[..m];
    assert (word + rest)[m..] == word[m..] + rest;
  }

  /** Decoding an encoded word gives it back and leaves what follows, exactly when it is shorter than 2^32 bytes. */
  lemma WordRoundTrip(word: seq<Byte>, rest: seq<Byte>)
    ensures WordAt(EncodedWord(word) + rest) == Got(word, rest) <==> |word| < MAX_WORD
  {
    WordComesBack(word, rest);
    if |word| < MAX_WORD {
      assert word[..|word|] == word && word[|word|..] + rest == rest;
    }
  }

  lemma TakeOfTwo(a: seq<Byte>, b: seq<Byte>, k: nat)
    requires |a| <= k <= |a| + |b|
    ensures (a + b)[..k] == a + b[..k - |a|]
  {
  }

  lemma TakeFromFirst(a: seq<Byte>, b: seq<Byte>, k: nat)
    requires k <= |a|
    ensures (a + b)[..k] == a[..k]
  {
  }

  lemma PrefixCut(n: nat, k: nat)
    requires k < |LengthPrefix(n)|
    ensures LengthAt(LengthPrefix(n)[..k]) == Failed(if k <= 1 then Eof else UnexpectedEof, [])
  {
    var prefix := LengthPrefix(n);
    if k > 0 {
      FirstByteFits(n);
      assert prefix[..k] == [prefix[0]] + prefix[1..k];
      HeaderCut(prefix[0], prefix[1..k]);
    }
  }

  function CutError(word: seq<Byte>, k: nat): ReadError {
    if k <= 1 || k == |LengthPrefix(|word|)| then Eof else UnexpectedEof
  }

  /**
    A word cut anywhere before its end is an error, and the error is io.EOF only when the cut
    falls before the word, after its first byte, or between its prefix and its bytes.
   */
  lemma WordCut(word: seq<Byte>, k: nat)
    requires |word| < MAX_WORD && k < |EncodedWord(word)|
    ensures WordAt(EncodedWord(word)[..k]) == Failed(CutError(word, k), [])
  {
    var prefix := LengthPrefix(|word|);
    if k < |prefix| {
      PrefixCut(|word|, k);
      TakeFromFirst(prefix, word, k);
    } else {
      TakeOfTwo(prefix, word, k);
      PrefixRoundTrip(|word|, word[..k - |prefix|]);
    }
  }

  // ---------------------------------------------------------------- sentences

  predicate Sendable(words: seq<seq<Byte>>) {
    forall i :: 0 <= i < |words| ==> 0 < |words[i]| < MAX_WORD
  }

  lemma SentenceSplits(words: seq<seq<Byte>>)
    requires words != []
    ensures EncodedSentence(words) == EncodedWord(words[0]) + EncodedSentence(words[1..])
  {
    Associative(EncodedWord(words[0]), EncodedWords(words[1..]), EncodedWord([]));
  }

  lemma SentenceUnfolds(words: seq<seq<Byte>>, rest: seq<Byte>)
    requires words != []
    ensures EncodedSentence(words) + rest == EncodedWord(words[0]) + (EncodedSentence(words[1..]) + rest)
  {
    SentenceSplits(words);
    Associative(EncodedWord(words[0]), EncodedSentence(words[1..]), rest);
  }

  lemma SendableUnfolds(words: seq<seq<Byte>>)
    requires words != []
    ensures Sendable(words) <==> 0 < |words[0]| < MAX_WORD && Sendable(words[1..])
  {
    assert words == [words[0]] + words[1..];
  }

  function Prepend(word: seq<Byte>, s: Sentence): Sentence {
    s.(words := [word] + s.words)
  }

  lemma SentenceStep(data: seq<Byte>, word: seq<Byte>, later: seq<Byte>)
    requires WordAt(data) == Got(word, later)
    ensures SentenceAt(data) == if word == [] then Sentence([], None, later) else Prepend(word, SentenceAt(later))
  {
  }

  lemma HeadComesBack(words: seq<seq<Byte>>, later: seq<Byte>)
    requires words != [] && 0 < |words[0]| < MAX_WORD
    ensures SentenceAt(EncodedWord(words[0]) + later) == Prepend(words[0], SentenceAt(later))
  {
    WordRoundTrip(words[0], later);
    SentenceStep(EncodedWord(words[0]) + later, words[0], later);
  }

  lemma HeadLost(words: seq<seq<Byte>>, later: seq<Byte>)
    requires words != [] && !(0 < |words[0]| < MAX_WORD)
    ensures SentenceAt(EncodedWord(words[0]) + later).words != words
  {
    var m := |words[0]| % MAX_WORD;
    WordComesBack(words[0], later);
    SentenceStep(EncodedWord(words[0]) + later, words[0][..m], words[0][m..] + later);
  }

  /**
    A sentence comes back, and what follows it stays, exactly when every word is non-empty
    and shorter than 2^32 bytes.
   */
  lemma {:induction false} SentenceRoundTrip(words: seq<seq<Byte>>, rest: seq<Byte>)
    ensures Sendable(words) ==> SentenceAt(EncodedSentence(words) + rest) == Sentence(words, None, rest)
    ensures !Sendable(words) ==> SentenceAt(EncodedSentence(words) + rest).words != words
  {
    if words == [] {
      WordComesBack([], rest);
    } else {
      var later := EncodedSentence(words[1..]) + rest;
      SentenceUnfolds(words, rest);
      SendableUnfolds(words);
      SentenceRoundTrip(words[1..], rest);
      assert words == [words[0]] + words[1..];
      if 0 < |words[0]| < MAX_WORD {
        HeadComesBack(words, later);
      } else {
        HeadLost(words, later);
      }
    }
  }

  predicate AllSendable(sentences: seq<seq<seq<Byte>>>) {
    forall i :: 0 <= i < |sentences| ==> Sendable(sentences[i])
  }

  lemma AllSendableUnfolds(sentences: seq<seq<seq<Byte>>>)
    requires sentences != []
    ensures AllSendable(sentences) <==> Sendable(sentences[0]) && AllSendable(sentences[1..])
  {
    assert sentences == [sentences[0]] + sentences[1..];
  }

  lemma StreamUnfolds(sentences: seq<seq<seq<Byte>>>, rest: seq<Byte>)
    requires sentences != []
    ensures EncodedStream(sentences) + rest == EncodedSentence(sentences[0]) + (EncodedStream(sentences[1..]) + rest)
  {
    Associative(EncodedSentence(sentences[0]), EncodedStream(sentences[1..]), rest);
  }

  lemma StreamStep(data: seq<Byte>, n: nat)
    requires n > 0
    ensures var s := SentenceAt(data);
            && StreamAt(data, n).0 == [s.words] + StreamAt(s.rest, n - 1).0
            && StreamAt(data, n).1 == StreamAt(s.rest, n - 1).1
  {
  }

  lemma FirstSentence(data: seq<Byte>, words: seq<seq<Byte>>, later: seq<Byte>, n: nat)
    requires n > 0 && data == EncodedSentence(words) + later
    ensures var r := StreamAt(data, n);
            && |r.0| > 0
            && (r.0[0] == words <==> Sendable(words))
            && (Sendable(words) ==> r.0[1..] == StreamAt(later, n - 1).0 && r.1 == StreamAt(later, n - 1).1)
  {
    SentenceRoundTrip(words, later);
    StreamStep(data, n);
  }

  lemma StreamGrows(r: (seq<seq<seq<Byte>>>, seq<Byte>), later: (seq<seq<seq<Byte>>>, seq<Byte>),
                    sentences: seq<seq<seq<Byte>>>, rest: seq<Byte>, first: bool, others: bool)
    requires sentences != [] && r.0 != []
    requires r.0[0] == sentences[0] <==> first
    requires first ==> r.0[1..] == later.0 && r.1 == later.1
    requires later == (sentences[1..], rest) <==> others
    ensures r == (sentences, rest) <==> first && others
  {
    assert r.0 == [r.0[0]] + r.0[1..] && sentences == [sentences[0]] + sentences[1..];
  }

  lemma OneMoreSentence(data: seq<Byte>, sentences: seq<seq<seq<Byte>>>, later: seq<Byte>, rest: seq<Byte>)
    requires sentences != [] && data == EncodedSentence(sentences[0]) + later
    requires StreamAt(later, |sentences| - 1) == (sentences[1..], rest) <==> AllSendable(sentences[1..])
    ensures StreamAt(data, |sentences|) == (sentences, rest) <==> AllSendable(sentences)
  {
    AllSendableUnfolds(sentences);
    FirstSentence(data, sentences[0], later, |sentences|);
    StreamGrows(StreamAt(data, |sentences|), StreamAt(later, |sentences| - 1),
                sentences, rest, Sendable(sentences[0]), AllSendable(sentences[1..]));
  }

  lemma {:induction false} StreamComesBack(data: seq<Byte>, sentences: seq<seq<seq<Byte>>>, rest: seq<Byte>)
    requires data == EncodedStream(sentences) + rest
    ensures StreamAt(data, |sentences|) == (sentences, rest) <==> AllSendable(sentences)
    decreases |sentences|
  {
    if sentences == [] {
      EmptyStream(rest);
    } else {
      var later := EncodedStream(sentences[1..]) + rest;
      StreamUnfolds(sentences, rest);
      StreamComesBack(later, sentences[1..], rest);
      assert |sentences[1..]| == |sentences| - 1;
      OneMoreSentence(data, sentences, later, rest);
    }
  }

  /** The same for any number of sentences sent one after the other. */
  lemma StreamRoundTrip(sentences: seq<seq<seq<Byte>>>, rest: seq<Byte>)
    ensures StreamAt(EncodedStream(sentences) + rest, |sentences|) == (sentences, rest)
       <==> AllSendable(sentences)
  {
    StreamComesBack(EncodedStream(sentences) + rest, sentences, rest);
  }

  lemma EmptyStream(rest: seq<Byte>)
    ensures StreamAt(EncodedStream([]) + rest, 0) == ([], rest)
  {
    assert EncodedStream([]) + rest == rest;
  }

  /** How many of the words lie completely within the first `k` bytes of the encoded sentence. */
  function WholeWords(words: seq<seq<Byte>>, k: nat): (n: nat)
    ensures n <= |words|
  {
    if words == [] || k < |EncodedWord(words[0])| then 0
    else 1 + WholeWords(words[1..], k - |EncodedWord(words[0])|)
  }

  /** Where the cut falls inside the first word that is not complete (the terminator counts as a word). */
  function CutOffset(words: seq<seq<Byte>>, k: nat): nat {
    if words == [] || k < |EncodedWord(words[0])| then k
    else CutOffset(words[1..], k - |EncodedWord(words[0])|)
  }

  /** The word in which the cut falls. */
  function CutWord(words: seq<seq<Byte>>, k: nat): seq<Byte> {
    if WholeWords(words, k) < |words| then words[WholeWords(words, k)] else []
  }

  lemma CutInHead(words: seq<seq<Byte>>, k: nat)
    requires words != [] && |words[0]| < MAX_WORD && k < |EncodedWord(words[0])|
    ensures k <= |EncodedSentence(words)|
    ensures SentenceAt(EncodedSentence(words)[..k]) == Sentence([], Some(CutError(words[0], k)), [])
  {
    SentenceSplits(words);
    WordCut(words[0], k);
    assert EncodedSentence(words)[..k] == EncodedWord(words[0])[..k];
  }

  lemma CutAfterHead(words: seq<seq<Byte>>, k: nat)
    requires words != [] && 0 < |words[0]| < MAX_WORD && |EncodedWord(words[0])| <= k < |EncodedSentence(words)|
    ensures var j := k - |EncodedWord(words[0])|;
            && j < |EncodedSentence(words[1..])|
            && SentenceAt(EncodedSentence(words)[..k])
                == Prepend(words[0], SentenceAt(EncodedSentence(words[1..])[..j]))
  {
    var e, later := EncodedWord(words[0]), EncodedSentence(words[1..]);
    SentenceSplits(words);
    TakeOfTwo(e, later, k);
    HeadComesBack(words, later[..k - |e|]);
  }

  /** The answer promised for the first `k` bytes of a sentence. */
  function CutAnswer(words: seq<seq<Byte>>, k: nat): Sentence {
    Sentence(words[..WholeWords(words, k)], Some(CutError(CutWord(words, k), CutOffset(words, k))), [])
  }

  lemma CutAnswerUnfolds(words: seq<seq<Byte>>, k: nat)
    ensures words == [] ==> CutAnswer(words, k) == Sentence([], Some(CutError([], k)), [])
    ensures words != [] && k < |EncodedWord(words[0])|
        ==> CutAnswer(words, k) == Sentence([], Some(CutError(words[0], k)), [])
    ensures words != [] && k >= |EncodedWord(words[0])|
        ==> CutAnswer(words, k) == Prepend(words[0], CutAnswer(words[1..], k - |EncodedWord(words[0])|))
  {
    if words != [] && k >= |EncodedWord(words[0])| {
      var whole := WholeWords(words[1..], k - |EncodedWord(words[0])|);
      assert [words[0]] + words[1..][..whole] == words[..whole + 1];
    }
  }

  lemma TerminatorCut(k: nat)
    requires k < |EncodedSentence([])|
    ensures SentenceAt(EncodedSentence([])[..k]) == Sentence([], Some(CutError([], k)), [])
  {
    assert EncodedSentence([]) == EncodedWord([]);
    WordCut([], k);
  }

  /**
    Every strict prefix of an encoded sentence decodes to an error together with exactly the words
    it holds completely. The error is io.EOF, as DecodeSentence documents for a closed
    connection, only at the cuts named in `WordCut`; elsewhere it is io.ErrUnexpectedEOF.
   */
  lemma {:induction false} SentenceCut(words: seq<seq<Byte>>, k: nat)
    requires Sendable(words) && k < |EncodedSentence(words)|
    ensures SentenceAt(EncodedSentence(words)[..k]) == CutAnswer(words, k)
  {
    CutAnswerUnfolds(words, k);
    if words == [] {
      TerminatorCut(k);
    } else if k < |EncodedWord(words[0])| {
      CutInHead(words, k);
    } else {
      CutAfterHead(words, k);
      SentenceCut(words[1..], k - |EncodedWord(words[0])|);
    }
  }

  /**
    An empty sentence decodes to no words and no error: ErrEndOfSentence, which the comment at
    sentence.go:104-106 announces for it, is never returned.
   */
  lemma EmptySentence(rest: seq<Byte>)
    ensures SentenceAt([0] + rest) == Sentence([], None, rest)
  {
    SentenceRoundTrip([], rest);
    assert EncodedWord([]) == [0] && EncodedSentence([]) == EncodedWord([]);
  }
}
