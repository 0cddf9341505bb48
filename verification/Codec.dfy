/**
 Framing of the command stream: every payload is preceded by its length as two bytes,
 most significant first. The payload format itself is a parameter.
 */
module Codec {
  import opened Types
  import opened Seqs

  type byte = b: int | 0 <= b < 256

  const MAX_FRAME := 65535

  datatype FrameError = InvalidData

  /** The payload format: writing may fail, and reading accepts some byte strings. */
  datatype Format<!T> = Format(write: T -> Option<seq<byte>>, read: seq<byte> -> Option<T>)

  /** Reading gives back what was written. */
  ghost predicate Faithful<T(!new)>(f: Format<T>) {
    forall x: T :: f.write(x).Some? ==> f.read(f.write(x).value) == Some(x)
  }

  // ---- frames ----

  function LengthBytes(n: nat): seq<byte>
    requires n <= MAX_FRAME
  {
    [n / 256, n % 256]
  }

  /** The length announced by the first two bytes. */
  function Announced(buf: seq<byte>): nat
    requires |buf| >= 2
  {
    256 * (buf[0] as int) + buf[1] as int
  }

  function Frame(payload: seq<byte>): seq<byte>
    requires |payload| <= MAX_FRAME
  {
    LengthBytes(|payload|) + payload
  }

  predicate HasFrame(buf: seq<byte>) {
    |buf| >= 2 && |buf| >= 2 + Announced(buf)
  }

  function FirstPayload(buf: seq<byte>): seq<byte>
    requires HasFrame(buf)
  {
    buf[2..2 + Announced(buf)]
  }

  function AfterFrame(buf: seq<byte>): seq<byte>
    requires HasFrame(buf)
  {
    buf[2 + Announced(buf)..]
  }

  // ---- the wire format ----

  lemma FrameIsFirst(payload: seq<byte>, more: seq<byte>)
    requires |payload| <= MAX_FRAME
    ensures var buf := Frame(payload) + more;
            HasFrame(buf) && FirstPayload(buf) == payload && AfterFrame(buf) == more
  {
    var buf := Frame(payload) + more;
    assert buf[0] == |payload| / 256 && buf[1] == |payload| % 256;
    assert Announced(buf) == |payload|;
  }

  /** The wire format: a payload of up to 65535 bytes is sent behind its length, high byte first. */
  lemma FrameBytes(payload: seq<byte>, hi: byte, lo: byte)
    requires |payload| == 256 * hi + lo
    ensures |payload| <= MAX_FRAME && MAX_FRAME == 65535 && Frame(payload) == [hi, lo] + payload
  {}

  /** What a buffer holds is a frame exactly when it has two bytes, and behind them as many as they say. */
  lemma FrameInBuffer(buf: seq<byte>, hi: byte, lo: byte, payload: seq<byte>, more: seq<byte>)
    requires |payload| == 256 * hi + lo && buf == [hi, lo] + payload + more
    ensures HasFrame(buf) && FirstPayload(buf) == payload && AfterFrame(buf) == more
  {
    FrameBytes(payload, hi, lo);
    FrameIsFirst(payload, more);
  }

  lemma NoFrameInBuffer(buf: seq<byte>)
    ensures |buf| < 2 ==> !HasFrame(buf)
    ensures |buf| >= 2 && |buf| - 2 < 256 * (buf[0] as int) + buf[1] as int ==> !HasFrame(buf)
  {}

  // ---- the codec ----

  class ByteBuffer {
    var data: seq<byte>

    constructor ()
      ensures data == []
    {
      data := [];
    }

    method Extend(bytes: seq<byte>)
      modifies this
      ensures data == old(data) + bytes
    {
      data := data + bytes;
    }

    method Advance(n: nat)
      requires n <= |data|
      modifies this
      ensures data == old(data)[n..]
    {
      data := data[n..];
    }
  }

  /** Append one framed item; a payload that is too long, or cannot be written, leaves the buffer as it was. */
  method Encode<T>(f: Format<T>, item: T, dst: ByteBuffer) returns (r: Result<(), FrameError>)
    modifies dst
    ensures r.Ok? <==> f.write(item).Some? && |f.write(item).value| <= MAX_FRAME
    ensures dst.data == if r.Ok? then old(dst.data) + Frame(f.write(item).value) else old(dst.data)
    ensures forall hi: byte, lo: byte :: f.write(item).Some? && |f.write(item).value| == 256 * hi + lo ==>
              r.Ok? && dst.data == old(dst.data) + ([hi, lo] + f.write(item).value)
  {
    var payload := f.write(item);
    forall hi: byte, lo: byte | payload.Some? && |payload.value| == 256 * hi + lo
      ensures |payload.value| <= MAX_FRAME && Frame(payload.value) == [hi, lo] + payload.value
    {
      FrameBytes(payload.value, hi, lo);
    }
    if payload.None? {
      return Err(InvalidData);
    }
    if |payload.value| > MAX_FRAME {
      return Err(InvalidData);
    }
    dst.Extend(LengthBytes(|payload.value|));
    dst.Extend(payload.value);
    assert old(dst.data) + LengthBytes(|payload.value|) + payload.value == old(dst.data) + Frame(payload.value);
    return Ok(());
  }

  /** Take one item off the front. An incomplete frame, and one that cannot be read, stay in the buffer. */
  method Decode<T>(f: Format<T>, src: ByteBuffer) returns (r: Result<Option<T>, FrameError>)
    modifies src
    ensures !HasFrame(old(src.data)) ==> r == Ok(None) && src.data == old(src.data)
    ensures HasFrame(old(src.data)) ==>
              match f.read(FirstPayload(old(src.data)))
              case None => r == Err(InvalidData) && src.data == old(src.data)
              case Some(x) => r == Ok(Some(x)) && src.data == AfterFrame(old(src.data))
    ensures forall hi: byte, lo: byte, payload: seq<byte>, more: seq<byte> ::
              old(src.data) == [hi, lo] + payload + more && |payload| == 256 * hi + lo && f.read(payload).Some? ==>
                r == Ok(Some(f.read(payload).value)) && src.data == more
    ensures |old(src.data)| < 2 || |old(src.data)| - 2 < 256 * (old(src.data)[0] as int) + old(src.data)[1] as int ==>
              r == Ok(None) && src.data == old(src.data)
  {
    forall hi: byte, lo: byte, payload: seq<byte>, more: seq<byte> |
      src.data == [hi, lo] + payload + more && |payload| == 256 * hi + lo
      ensures HasFrame(src.data) && FirstPayload(src.data) == payload && AfterFrame(src.data) == more
    {
      FrameInBuffer(src.data, hi, lo, payload, more);
    }
    NoFrameInBuffer(src.data);
    if |src.data| < 2 {
      return Ok(None);
    }
    var length := 256 * (src.data[0] as int) + src.data[1] as int;
    if |src.data| < 2 + length {
      return Ok(None);
    }
    var item := f.read(src.data[2..2 + length]);
    if item.None? {
      return Err(InvalidData);
    }
    src.Advance(2 + length);
    return Ok(Some(item.value));
  }

  // ---- the stream a reader sees ----

  /** What decoding over and over gives: items, what stays in the buffer, and whether a frame could not be read. */
  datatype Decoded<T> = Decoded(items: seq<T>, rest: seq<byte>, failed: bool)

  function DecodeAll<T>(f: Format<T>, buf: seq<byte>): Decoded<T>
    decreases |buf|
  {
    if !HasFrame(buf) then Decoded([], buf, false)
    else
      match f.read(FirstPayload(buf))
      case None => Decoded([], buf, true)
      case Some(x) =>
        var r := DecodeAll(f, AfterFrame(buf));
        Decoded([x] + r.items, r.rest, r.failed)
  }

  /** The reading loop of a framed stream: decode until nothing complete is left. */
  method DecodeReady<T>(f: Format<T>, src: ByteBuffer) returns (items: seq<T>, failed: bool)
    modifies src
    ensures var d := DecodeAll(f, old(src.data));
            items == d.items && src.data == d.rest && failed == d.failed
  {
    items, failed := [], false;
    ghost var all := DecodeAll(f, src.data);
    assert [] + all.items == all.items;
    while true
      invariant !failed
      invariant var d := DecodeAll(f, src.data);
                all == Decoded(items + d.items, d.rest, d.failed)
      decreases |src.data|
    {
      ghost var d := DecodeAll(f, src.data);
      var r := Decode(f, src);
      match r {
        case Ok(None) =>
          assert items + [] == items;
          return;
        case Err(_) =>
          assert items + [] == items;
          failed := true;
          return;
        case Ok(Some(x)) =>
          ConcatAssociative(items, [x], DecodeAll(f, src.data).items);
          items := items + [x];
      }
    }
  }

  // ---- chunking ----

  function Joined(chunks: seq<seq<byte>>): seq<byte> {
    if chunks == [] then [] else Joined(chunks[..|chunks| - 1]) + chunks[|chunks| - 1]
  }

  /** Everything decoded when the bytes arrive in these chunks, decoding after each. */
  function Fed<T>(f: Format<T>, chunks: seq<seq<byte>>): Decoded<T> {
    if chunks == [] then Decoded([], [], false)
    else
      var before := Fed(f, chunks[..|chunks| - 1]);
      var d := DecodeAll(f, before.rest + chunks[|chunks| - 1]);
      Decoded(before.items + d.items, d.rest, d.failed)
  }

  /** The reader: append each chunk to the buffer as it arrives and decode what is complete. */
  method Feed<T>(f: Format<T>, chunks: seq<seq<byte>>) returns (items: seq<T>, rest: seq<byte>, failed: bool)
    ensures Fed(f, chunks) == Decoded(items, rest, failed)
  {
    var src := new ByteBuffer();
    items, failed := [], false;
    for k := 0 to |chunks|
      invariant fresh(src)
      invariant Fed(f, chunks[..k]) == Decoded(items, src.data, failed)
    {
      assert chunks[..k + 1][..k] == chunks[..k];
      src.Extend(chunks[k]);
      var more, bad := DecodeReady(f, src);
      items, failed := items + more, bad;
    }
    assert chunks[..|chunks|] == chunks;
    rest := src.data;
  }

  lemma FramePrefix(buf: seq<byte>, more: seq<byte>)
    requires HasFrame(buf)
    ensures HasFrame(buf + more) && FirstPayload(buf + more) == FirstPayload(buf)
    ensures AfterFrame(buf + more) == AfterFrame(buf) + more
  {
    assert Announced(buf + more) == Announced(buf);
  }

  /** Decoding first what is there and then the rest with what follows is decoding it all at once. */
  lemma {:induction false} DecodeConcat<T>(f: Format<T>, buf: seq<byte>, more: seq<byte>)
    ensures var a := DecodeAll(f, buf);
            var b := DecodeAll(f, a.rest + more);
            DecodeAll(f, buf + more) == Decoded(a.items + b.items, b.rest, b.failed)
    decreases |buf|
  {
    var a := DecodeAll(f, buf);
    var b := DecodeAll(f, a.rest + more);
    if HasFrame(buf) {
      FramePrefix(buf, more);
      match f.read(FirstPayload(buf)) {
        case None =>
          assert [] + b.items == b.items;
        case Some(x) =>
          DecodeConcat(f, AfterFrame(buf), more);
          ConcatAssociative([x], DecodeAll(f, AfterFrame(buf)).items, b.items);
      }
    } else {
      assert [] + b.items == b.items;
    }
  }

  /** How the bytes are cut into chunks makes no difference, whatever the bytes are. */
  lemma {:induction false} ChunkingIrrelevant<T>(f: Format<T>, chunks: seq<seq<byte>>)
    ensures Fed(f, chunks) == DecodeAll(f, Joined(chunks))
  {
    if chunks != [] {
      var n := |chunks| - 1;
      ChunkingIrrelevant(f, chunks[..n]);
      DecodeConcat(f, Joined(chunks[..n]), chunks[n]);
    }
  }

  // ---- round trip ----

  predicate Encodable<T>(f: Format<T>, items: seq<T>) {
    forall i :: 0 <= i < |items| ==> f.write(items[i]).Some? && |f.write(items[i]).value| <= MAX_FRAME
  }

  /** The bytes sent for a list of items. */
  function Stream<T>(f: Format<T>, items: seq<T>): seq<byte>
    requires Encodable(f, items)
  {
    if items == [] then [] else Frame(f.write(items[0]).value) + Stream(f, items[1..])
  }

  lemma {:induction false} StreamDecodes<T(!new)>(f: Format<T>, items: seq<T>)
    requires Faithful(f) && Encodable(f, items)
    ensures DecodeAll(f, Stream(f, items)) == Decoded(items, [], false)
  {
    if items != [] {
      FrameIsFirst(f.write(items[0]).value, Stream(f, items[1..]));
      StreamDecodes(f, items[1..]);
      assert [items[0]] + items[1..] == items;
    }
  }

  /** Any items whose payloads fit a frame arrive unchanged and in order, however the stream is cut. */
  lemma FramingRoundTrip<T(!new)>(f: Format<T>, items: seq<T>, chunks: seq<seq<byte>>)
    requires Faithful(f) && Encodable(f, items)
    requires Joined(chunks) == Stream(f, items)
    ensures Fed(f, chunks) == Decoded(items, [], false)
  {
    ChunkingIrrelevant(f, chunks);
    StreamDecodes(f, items);
  }
}
