/** Length-framed records of signed 32-bit lengths. */
module SprayFrames {
  import opened Bytes
  import opened Options

  const SIGNED_LIMIT: nat := 0x8000_0000
  const MINIMUM_RECORDS := 14

  /** The framing of one payload. */
  function Frame(payload: seq<Byte>): (r: seq<Byte>)
    ensures |r| == |payload| + 8
  {
    Le(|payload|, 4) + (payload + Le(|payload|, 4))
  }

  function FrameAll(payloads: seq<seq<Byte>>): seq<Byte> {
    if payloads == [] then [] else Frame(payloads[0]) + FrameAll(payloads[1..])
  }

  /** A length fits its signed marker. */
  ghost predicate Framable(payloads: seq<seq<Byte>>) {
    forall i :: 0 <= i < |payloads| ==> |payloads[i]| < SIGNED_LIMIT
  }

  /** The first payload from a position on, if a whole well-marked record starts there. */
  function RecordAt(data: seq<Byte>, offset: nat): Option<seq<Byte>>
    requires offset < |data|
  {
    if offset + 8 > |data| then None
    else
      var size := ValueAt(data, offset, 4);
      if size >= SIGNED_LIMIT || offset + size + 8 > |data| then None
      else if ValueAt(data, offset + size + 4, 4) != size then None
      else Some(data[offset + 4..offset + size + 4])
  }

  lemma FrameParts(data: seq<Byte>, offset: nat, payload: seq<Byte>, rest: seq<Byte>)
    requires offset <= |data| && data[offset..] == Frame(payload) + rest
    ensures var n := |payload|;
            && offset + n + 8 + |rest| == |data|
            && data[offset..offset + 4] == Le(n, 4) && data[offset + 4..offset + n + 4] == payload
            && data[offset + n + 4..offset + n + 8] == Le(n, 4) && data[offset + n + 8..] == rest
  {
    var n, tail := |payload|, data[offset..];
    var marker := Le(n, 4);
    assert tail == marker + (payload + (marker + rest));
    assert tail[..4] == marker && tail[4..] == payload + (marker + rest);
    assert tail[4..][..n] == payload && tail[4..][n..] == marker + rest;
    assert data[offset..offset + 4] == tail[..4];
    assert data[offset + 4..offset + n + 4] == tail[4..][..n];
    assert data[offset + n + 4..] == tail[4..][n..];
    assert data[offset + n + 4..offset + n + 8] == data[offset + n + 4..][..4];
    assert data[offset + n + 8..] == data[offset + n + 4..][4..];
  }

  /** Where a framed payload stands, it is read. */
  lemma FramedRead(data: seq<Byte>, offset: nat, payload: seq<Byte>, rest: seq<Byte>)
    requires offset <= |data| && data[offset..] == Frame(payload) + rest && |payload| < SIGNED_LIMIT
    ensures offset < |data| && RecordAt(data, offset) == Some(payload)
    ensures offset + |payload| + 8 <= |data| && data[offset + |payload| + 8..] == rest
  {
    FrameParts(data, offset, payload, rest);
    Widths();
    ValueOfLe(data, offset, |payload|, 4);
    ValueOfLe(data, offset + |payload| + 4, |payload|, 4);
  }

  /** What is read was framed. */
  lemma ReadFramed(data: seq<Byte>, offset: nat)
    requires offset < |data| && RecordAt(data, offset).Some?
    ensures var payload := RecordAt(data, offset).value;
            && |payload| < SIGNED_LIMIT && offset + |payload| + 8 <= |data|
            && data[offset..] == Frame(payload) + data[offset + |payload| + 8..]
  {
    var size := ValueAt(data, offset, 4);
    MarkerAt(data, offset, size);
    MarkerAt(data, offset + size + 4, size);
    Pieces(data, offset, offset + 4, offset + size + 4, offset + size + 8);
  }

  lemma MarkerAt(data: seq<Byte>, at: nat, size: nat)
    requires at + 4 <= |data| && ValueAt(data, at, 4) == size
    ensures Le(size, 4) == data[at..at + 4]
  {
    LeOfValue(data, at, 4);
  }

  lemma Pieces(data: seq<Byte>, a: nat, b: nat, c: nat, d: nat)
    requires a <= b <= c <= d <= |data|
    ensures data[a..] == (data[a..b] + (data[b..c] + data[c..d])) + data[d..]
  {
  }

  function Prepend(front: seq<seq<Byte>>, rest: Option<seq<seq<Byte>>>): Option<seq<seq<Byte>>> {
    match rest
    case None => None
    case Some(payloads) => Some(front + payloads)
  }

  /** The payloads from a position on. */
  function Parse(data: seq<Byte>, offset: nat): Option<seq<seq<Byte>>>
    decreases |data| - offset
  {
    if offset >= |data| then Some([])
    else
      match RecordAt(data, offset)
      case None => None
      case Some(payload) => Prepend([payload], Parse(data, offset + |payload| + 8))
  }

  /** The records of the data, one after another from a position to the end, hold these payloads. */
  ghost predicate Chain(data: seq<Byte>, offset: nat, payloads: seq<seq<Byte>>)
    decreases |payloads|
  {
    if payloads == [] then offset == |data|
    else
      && offset < |data| && RecordAt(data, offset) == Some(payloads[0])
      && Chain(data, offset + |payloads[0]| + 8, payloads[1..])
  }

  lemma {:induction false} ChainParse(data: seq<Byte>, offset: nat, payloads: seq<seq<Byte>>)
    requires Chain(data, offset, payloads)
    ensures Parse(data, offset) == Some(payloads)
    decreases |payloads|
  {
    if payloads != [] {
      ChainParse(data, offset + |payloads[0]| + 8, payloads[1..]);
      assert payloads == [payloads[0]] + payloads[1..];
    }
  }

  lemma {:induction false} ParseChain(data: seq<Byte>, offset: nat)
    requires offset <= |data| && Parse(data, offset).Some?
    ensures Chain(data, offset, Parse(data, offset).value)
    decreases |data| - offset
  {
    if offset < |data| {
      var payload := RecordAt(data, offset).value;
      RecordInside(data, offset);
      ParseChain(data, offset + |payload| + 8);
      var rest := Parse(data, offset + |payload| + 8).value;
      assert ([payload] + rest)[1..] == rest;
    }
  }

  lemma RecordInside(data: seq<Byte>, offset: nat)
    requires offset < |data| && RecordAt(data, offset).Some?
    ensures offset + |RecordAt(data, offset).value| + 8 <= |data|
  {
  }

  lemma {:induction false} FramesChain(data: seq<Byte>, offset: nat, payloads: seq<seq<Byte>>)
    requires offset <= |data| && Framable(payloads) && data[offset..] == FrameAll(payloads)
    ensures Chain(data, offset, payloads)
    decreases |payloads|
  {
    if payloads != [] {
      FramedRead(data, offset, payloads[0], FrameAll(payloads[1..]));
      FramesChain(data, offset + |payloads[0]| + 8, payloads[1..]);
    }
  }

  lemma {:induction false} ChainFrames(data: seq<Byte>, offset: nat, payloads: seq<seq<Byte>>)
    requires offset <= |data| && Chain(data, offset, payloads)
    ensures Framable(payloads) && data[offset..] == FrameAll(payloads)
    decreases |payloads|
  {
    if payloads != [] {
      ReadFramed(data, offset);
      ChainFrames(data, offset + |payloads[0]| + 8, payloads[1..]);
      FramableCons(payloads);
    }
  }

  lemma FramableCons(payloads: seq<seq<Byte>>)
    requires payloads != [] && |payloads[0]| < SIGNED_LIMIT && Framable(payloads[1..])
    ensures Framable(payloads)
  {
    forall i | 0 <= i < |payloads|
      ensures |payloads[i]| < SIGNED_LIMIT
    {
      if i > 0 {
        assert payloads[1..][i - 1] == payloads[i];
      }
    }
  }

  lemma FramesParse(data: seq<Byte>, payloads: seq<seq<Byte>>)
    requires Framable(payloads) && data == FrameAll(payloads)
    ensures Parse(data, 0) == Some(payloads)
  {
    assert data[0..] == data;
    FramesChain(data, 0, payloads);
    ChainParse(data, 0, payloads);
  }

  /** Framing is injective, so at most one list of payloads can be read. */
  lemma FramingInjective(a: seq<seq<Byte>>, b: seq<seq<Byte>>)
    requires Framable(a) && Framable(b) && FrameAll(a) == FrameAll(b)
    ensures a == b
  {
    FramesParse(FrameAll(a), a);
    FramesParse(FrameAll(a), b);
  }

  lemma ParseExactly(data: seq<Byte>)
    ensures Parse(data, 0).Some? ==> Framable(Parse(data, 0).value) && data == FrameAll(Parse(data, 0).value)
    ensures forall payloads :: Framable(payloads) && data == FrameAll(payloads) ==> Parse(data, 0) == Some(payloads)
  {
    if Parse(data, 0).Some? {
      ParseChain(data, 0);
      ChainFrames(data, 0, Parse(data, 0).value);
      assert data[0..] == data;
    }
    forall payloads | Framable(payloads) && data == FrameAll(payloads)
      ensures Parse(data, 0) == Some(payloads)
    {
      FramesParse(data, payloads);
    }
  }

  /** The parsing loop of the source. */
  method ParseAll(data: seq<Byte>) returns (r: Option<seq<seq<Byte>>>)
    ensures r == Parse(data, 0)
  {
    var result: seq<seq<Byte>>, offset := [], 0;
    PrependNothing(Parse(data, 0));
    while offset < |data|
      invariant 0 <= offset <= |data|
      invariant Parse(data, 0) == Prepend(result, Parse(data, offset))
    {
      var read := RecordAt(data, offset);
      if read == None {
        return None;
      }
      PrependAssociates(result, read.value, Parse(data, offset + |read.value| + 8));
      result := result + [read.value];
      offset := offset + |read.value| + 8;
    }
    assert result + [] == result;
    r := Some(result);
  }

  /** The parser accepts exactly the framings of at least fourteen payloads, and returns those payloads. */
  method Records(data: seq<Byte>) returns (r: Option<seq<seq<Byte>>>)
    ensures r.Some? ==> Framable(r.value) && |r.value| >= MINIMUM_RECORDS && data == FrameAll(r.value)
    ensures forall payloads :: Framable(payloads) && |payloads| >= MINIMUM_RECORDS && data == FrameAll(payloads) ==>
              r == Some(payloads)
  {
    ParseExactly(data);
    r := ParseAll(data);
    if r.Some? && |r.value| < MINIMUM_RECORDS {
      r := None;
    }
  }

  lemma PrependNothing(rest: Option<seq<seq<Byte>>>)
    ensures Prepend([], rest) == rest
  {
    if rest.Some? {
      assert [] + rest.value == rest.value;
    }
  }

  lemma PrependAssociates(front: seq<seq<Byte>>, payload: seq<Byte>, rest: Option<seq<seq<Byte>>>)
    ensures Prepend(front, Prepend([payload], rest)) == Prepend(front + [payload], rest)
  {
    if rest.Some? {
      assert front + ([payload] + rest.value) == (front + [payload]) + rest.value;
    }
  }
}
