/**
 The address-event codec of example_server.py and convert.py: every event is
 a pair of 32-bit words. Word A is the timestamp with a tag in bit 31; word B
 packs polarity (bit 0), x (bits 1-9), y (bits 10-17) and channel (bit 20),
 with a tag in bit 26.
 */
module AerCodec {

  type Word = bv32

  /** One decoded row, in the column order decode returns:
      timestamp, channel, x, y, polarity. */
  datatype Row = Row(ts: Word, channel: Word, x: Word, y: Word, polarity: Word)

  /** Word A's tag, set on encode and masked off on decode. */
  const TsTag: Word := 0x8000_0000
  /** Word B's tag, set on encode and ignored on decode. */
  const AttrTag: Word := 0x0400_0000
  /** The bits of word B that decode reads: 0-17 and 20. */
  const AttrMask: Word := 0x0013_FFFF

  /** Every field fits the width the wire format gives it. */
  predicate Fits(r: Row)
  {
    r.ts < 0x8000_0000 && r.channel < 2 && r.x < 0x200 && r.y < 0x100 && r.polarity < 2
  }

  /** Each field cut to its wire width. */
  function Truncate(r: Row): (t: Row)
    ensures Fits(t)
    ensures Fits(r) <==> t == r
  {
    Row(r.ts & 0x7FFF_FFFF, r.channel & 1, r.x & 0x1FF, r.y & 0xFF, r.polarity & 1)
  }

  /** Decode one word pair, shifting word B step by step as the source does. */
  function DecodePair(a: Word, b: Word): (r: Row)
    ensures Fits(r)
  {
    var polarity := b & 0x01;
    var b1 := b >> 1;
    var x := b1 & 0x1FF;
    var b2 := b1 >> 9;
    var y := b2 & 0xFF;
    var b3 := b2 >> 10;
    var channel := b3 & 0x01;
    Row(a & !TsTag, channel, x, y, polarity)
  }

  /** Encode one row: fields are masked to their widths, never rejected, and
      both tags are set whatever the input. */
  function EncodePair(r: Row): (w: (Word, Word))
    ensures w.0 & TsTag == TsTag && w.1 & AttrTag == AttrTag
    ensures w.1 & !(AttrMask | AttrTag) == 0
    ensures DecodePair(w.0, w.1) == Truncate(r)
  {
    var cxyp := ((r.channel & 0x01) << 20) | ((r.y & 0xFF) << 10) | ((r.x & 0x1FF) << 1) | (r.polarity & 0x01);
    (r.ts | TsTag, cxyp | AttrTag)
  }

  /** Encoding a decoded pair normalises it: sets both tags and clears the
      reserved bits of word B, keeping every other bit. */
  lemma EncodeDecodePair(a: Word, b: Word)
    ensures EncodePair(DecodePair(a, b)) == (a | TsTag, (b & AttrMask) | AttrTag)
  {
  }

  /** Two pairs decode alike exactly when they agree outside word A's tag and
      on the bits of word B that carry fields: the tags and reserved bits do
      not affect the result. */
  lemma DecodeIgnoresReserved(a: Word, b: Word, a': Word, b': Word)
    ensures DecodePair(a, b) == DecodePair(a', b')
        <==> (a & !TsTag == a' & !TsTag && b & AttrMask == b' & AttrMask)
  {
    if DecodePair(a, b) == DecodePair(a', b') {
      EncodeDecodePair(a, b);
      EncodeDecodePair(a', b');
    }
  }

  /** A pair survives decode-then-encode unchanged exactly when its tags are
      set and its reserved bits are clear. */
  lemma ReEncodeFixedPoint(a: Word, b: Word)
    ensures EncodePair(DecodePair(a, b)) == (a, b)
        <==> (a & TsTag == TsTag && b & !AttrMask == AttrTag)
  {
    var e := EncodePair(DecodePair(a, b));
    EncodeDecodePair(a, b);
    assert e == (a, b) <==> (e.0 == a && e.1 == b);
    TagSetIff(a);
    ReservedClearIff(b);
  }

  lemma TagSetIff(a: Word)
    ensures a | TsTag == a <==> a & TsTag == TsTag
  {
  }

  lemma ReservedClearIff(b: Word)
    ensures (b & AttrMask) | AttrTag == b <==> b & !AttrMask == AttrTag
  {
  }

  /** The result of decoding a flat word list. */
  datatype DecodeResult = Decoded(rows: seq<Row>) | OddWordCount

  /** `decode`: the words are reshaped into pairs, which fails on an odd
      count; otherwise one row per pair, in input order. */
  function Decode(words: seq<Word>): (r: DecodeResult)
    ensures r.OddWordCount? <==> |words| % 2 == 1
    ensures r.Decoded? ==> |r.rows| * 2 == |words|
    ensures r.Decoded? ==>
              forall i :: 0 <= i < |r.rows| ==> r.rows[i] == DecodePair(words[2 * i], words[2 * i + 1])
  {
    if |words| % 2 == 1 then OddWordCount else Decoded(DecodeWords(words))
  }

  function DecodeWords(words: seq<Word>): (rows: seq<Row>)
    requires |words| % 2 == 0
    ensures |rows| * 2 == |words|
    ensures forall i :: 0 <= i < |rows| ==> rows[i] == DecodePair(words[2 * i], words[2 * i + 1])
    decreases |words|
  {
    if |words| == 0 then []
    else
      var rest := DecodeWords(words[2..]);
      assert forall i :: 0 <= i < |rest| ==>
        (words[2..][2 * i] == words[2 * (i + 1)] && words[2..][2 * i + 1] == words[2 * (i + 1) + 1]);
      [DecodePair(words[0], words[1])] + rest
  }

  /** `encode`: one word pair per row, word A first, in row order. */
  function Encode(rows: seq<Row>): (words: seq<Word>)
    ensures |words| == 2 * |rows|
    ensures forall i :: 0 <= i < |rows| ==> (words[2 * i], words[2 * i + 1]) == EncodePair(rows[i])
    decreases |rows|
  {
    if |rows| == 0 then []
    else
      var w := EncodePair(rows[0]);
      var rest := Encode(rows[1..]);
      var words := [w.0, w.1] + rest;
      forall i | 1 <= i < |rows|
        ensures (words[2 * i], words[2 * i + 1]) == EncodePair(rows[i])
      {
        assert rows[1..][i - 1] == rows[i];
        assert words[2 * i] == rest[2 * (i - 1)] && words[2 * i + 1] == rest[2 * (i - 1) + 1];
      }
      words
  }

  /** Decoding an encoding gives back the rows with every field cut to its
      wire width; rows that fit come back unchanged. */
  lemma DecodeEncode(rows: seq<Row>)
    ensures Decode(Encode(rows)).Decoded?
    ensures |Decode(Encode(rows)).rows| == |rows|
    ensures forall i :: 0 <= i < |rows| ==> Decode(Encode(rows)).rows[i] == Truncate(rows[i])
    ensures (forall i :: 0 <= i < |rows| ==> Fits(rows[i])) ==> Decode(Encode(rows)) == Decoded(rows)
  {
    var words := Encode(rows);
    var r := Decode(words);
    assert forall i :: 0 <= i < |rows| ==> r.rows[i] == DecodePair(words[2 * i], words[2 * i + 1]);
  }

  /** Re-encoding decoded words gives back the words with both tags set and
      the reserved bits of word B cleared. */
  lemma EncodeDecode(words: seq<Word>)
    requires |words| % 2 == 0
    ensures var out := Encode(Decode(words).rows);
            && |out| == |words|
            && forall i :: 0 <= i < |words| / 2 ==>
                 out[2 * i] == words[2 * i] | TsTag
                 && out[2 * i + 1] == (words[2 * i + 1] & AttrMask) | AttrTag
  {
    var rows := Decode(words).rows;
    var out := Encode(rows);
    forall i | 0 <= i < |words| / 2
      ensures out[2 * i] == words[2 * i] | TsTag
      ensures out[2 * i + 1] == (words[2 * i + 1] & AttrMask) | AttrTag
    {
      assert (out[2 * i], out[2 * i + 1]) == EncodePair(rows[i]);
      EncodeDecodePair(words[2 * i], words[2 * i + 1]);
    }
  }

  /** A single pair decodes to the one-row list of its decoding. */
  lemma DecodeOnePair(a: Word, b: Word)
    ensures Decode([a, b]) == Decoded([DecodePair(a, b)])
  {
    var r := Decode([a, b]);
    assert |r.rows| == 1;
  }

  /** A single row encodes to its own word pair. */
  lemma EncodeOneRow(r: Row)
    ensures Encode([r]) == [EncodePair(r).0, EncodePair(r).1]
  {
    var w := Encode([r]);
    assert w == [w[0], w[1]];
  }

  /** A sample pair: 0x80000064, 0x04000003 is the event at time 100,
      channel 0 (bit 20 of word B is clear), x 1, y 0, polarity 1. */
  lemma SamplePairDecodes()
    ensures Decode([0x8000_0064, 0x0400_0003]) == Decoded([Row(100, 0, 1, 0, 1)])
  {
    assert DecodePair(0x8000_0064, 0x0400_0003) == Row(100, 0, 1, 0, 1);
    DecodeOnePair(0x8000_0064, 0x0400_0003);
  }

  /** ... and that event encodes back to the same two words. */
  lemma SamplePairEncodes()
    ensures Encode([Row(100, 0, 1, 0, 1)]) == [0x8000_0064, 0x0400_0003]
  {
    assert EncodePair(Row(100, 0, 1, 0, 1)) == (0x8000_0064, 0x0400_0003);
    EncodeOneRow(Row(100, 0, 1, 0, 1));
  }
}
