/**
 The pre-image that a result checkpoint digests: every field is written as a
 two-byte tag length, the tag, an eight-byte payload length and the payload.
 SHA-256 itself is a free constructor, so equal digests mean equal pre-images.
 */
module Framing {
  import opened Bytes
  import opened Sequences

  datatype Digest = Sha256(preimage: seq<Byte>)

  type Tag = s: seq<Byte> | |s| < 0x1_0000

  datatype Field = Field(tag: Tag, payload: Text)

  function Frame(f: Field): (s: seq<Byte>)
    ensures |s| == 10 + |f.tag| + |f.payload|
  {
    FieldWidths();
    Prefixed(f.tag, 2) + Prefixed(f.payload, 8)
  }

  function Frames(fs: seq<Field>): seq<Byte> {
    if fs == [] then [] else Frame(fs[0]) + Frames(fs[1..])
  }

  /** A frame delimits itself: what follows it cannot be mistaken for part of it. */
  lemma FrameIsSelfDelimiting(f: Field, g: Field, rest: seq<Byte>, rest': seq<Byte>)
    requires Frame(f) + rest == Frame(g) + rest'
    ensures f == g && rest == rest'
  {
    FieldWidths();
    hide Power256, Prefixed;
    Associative(Prefixed(f.tag, 2), Prefixed(f.payload, 8), rest);
    Associative(Prefixed(g.tag, 2), Prefixed(g.payload, 8), rest');
    PrefixedIsSelfDelimiting(f.tag, g.tag, 2, Prefixed(f.payload, 8) + rest, Prefixed(g.payload, 8) + rest');
    PrefixedIsSelfDelimiting(f.payload, g.payload, 8, rest, rest');
  }

  lemma {:induction false} FramesInjective(fs: seq<Field>, gs: seq<Field>)
    requires Frames(fs) == Frames(gs)
    ensures fs == gs
  {
    if fs != [] && gs != [] {
      FrameIsSelfDelimiting(fs[0], gs[0], Frames(fs[1..]), Frames(gs[1..]));
      FramesInjective(fs[1..], gs[1..]);
      assert fs == [fs[0]] + fs[1..] && gs == [gs[0]] + gs[1..];
    }
  }

  lemma {:induction false} FramesAppend(fs: seq<Field>, gs: seq<Field>)
    ensures Frames(fs + gs) == Frames(fs) + Frames(gs)
  {
    if fs == [] {
      assert fs + gs == gs;
    } else {
      assert (fs + gs)[1..] == fs[1..] + gs;
      FramesAppend(fs[1..], gs);
    }
  }

  lemma FramesSnoc(fs: seq<Field>, i: nat)
    requires i < |fs|
    ensures Frames(fs[..i + 1]) == Frames(fs[..i]) + Frame(fs[i])
  {
    assert fs[..i + 1] == fs[..i] + [fs[i]];
    FramesAppend(fs[..i], [fs[i]]);
    assert Frames([fs[i]]) == Frame(fs[i]) + [];
  }

  lemma NoFrames()
    ensures Frames([]) == []
  {
  }

  // ----- the events a stream prefix is made of -----

  datatype FileKind = ResultFile | ErrorFile

  datatype StreamEvent =
    | OpenFile(kind: FileKind, fileId: Text)
    | PhysicalLine(number: Uint64, bytes: Text, terminated: bool)

  /** The request identity that every digest starts with. */
  datatype StreamId = StreamId(batchId: Text, endpointAlias: Text)

  function Ascii(s: string): (b: seq<Byte>)
    requires forall i :: 0 <= i < |s| ==> s[i] < 128 as char
    ensures |b| == |s|
  {
    seq(|s|, i requires 0 <= i < |s| => s[i] as int)
  }

  const DOMAIN: string := "pg-llm-batch/result-checkpoint/v1"

  /** No two tags have the same length, so a tag's length names the field. */
  function Named(name: string, payload: Text): (f: Field)
    requires |name| <= 18
    requires forall i :: 0 <= i < |name| ==> name[i] < 128 as char
    ensures |f.tag| == |name| && f.payload == payload
  {
    Field(Ascii(name), payload)
  }

  function Short(s: string): (t: Text)
    requires |s| < 256
    requires forall i :: 0 <= i < |s| ==> s[i] < 128 as char
    ensures |t| == |s|
  {
    Ascii(s)
  }

  function KindName(kind: FileKind): (t: Text)
    ensures |t| == if kind.ResultFile? then 6 else 5
  {
    if kind.ResultFile? then Short("result") else Short("error")
  }

  function Flag(b: bool): (t: Text)
    ensures |t| == 1
  {
    if b then [1] else [0]
  }

  function EightBytes(n: Uint64): (t: Text)
    ensures |t| == 8
  {
    FieldWidths();
    BigEndian(n, 8)
  }

  function HeaderFields(id: StreamId): seq<Field> {
    [Named("domain", Short(DOMAIN)), Named("batch_id", id.batchId), Named("endpoint_alias", id.endpointAlias)]
  }

  function EventFields(e: StreamEvent): (fs: seq<Field>)
    ensures |fs| == (if e.OpenFile? then 2 else 3)
    ensures |fs[|fs| - 1].tag| == (if e.OpenFile? then 7 else 18)
  {
    match e
    case OpenFile(kind, fileId) =>
      [Named("file_kind", KindName(kind)), Named("file_id", fileId)]
    case PhysicalLine(number, bytes, terminated) =>
      [Named("file_line_number", EightBytes(number)), Named("line_bytes", bytes),
       Named("newline_terminated", Flag(terminated))]
  }

  function EventsFields(es: seq<StreamEvent>): seq<Field> {
    if es == [] then [] else EventsFields(es[..|es| - 1]) + EventFields(es[|es| - 1])
  }

  function Preimage(id: StreamId, es: seq<StreamEvent>): seq<Byte> {
    Frames(HeaderFields(id) + EventsFields(es))
  }

  lemma EventFieldsInjective(e: StreamEvent, e': StreamEvent)
    requires EventFields(e) == EventFields(e')
    ensures e == e'
  {
    var fs, gs := EventFields(e), EventFields(e');
    assert |fs[0].tag| == |gs[0].tag| && fs[0].payload == gs[0].payload && fs[1].payload == gs[1].payload;
    if e.PhysicalLine? {
      assert fs[2].payload == gs[2].payload;
      FieldWidths();
      BigEndianInjective(e.number, e'.number, 8);
    }
  }

  /** The last field of a file and of a line carry tags of different lengths, so the last event is recognised. */
  lemma LastEventInjective(a: seq<Field>, e: StreamEvent, a': seq<Field>, e': StreamEvent)
    requires a + EventFields(e) == a' + EventFields(e')
    ensures a == a' && e == e'
  {
    var b, b' := EventFields(e), EventFields(e');
    var s := a + b;
    assert s[|s| - 1] == b[|b| - 1] == b'[|b'| - 1];
    assert s[|s| - |b|..] == b == b';
    assert s[..|s| - |b|] == a == a';
    EventFieldsInjective(e, e');
  }

  lemma {:induction false} EventsFieldsInjective(es: seq<StreamEvent>, es': seq<StreamEvent>)
    requires EventsFields(es) == EventsFields(es')
    ensures es == es'
  {
    if es != [] && es' != [] {
      var p, p', e, e' := es[..|es| - 1], es'[..|es'| - 1], es[|es| - 1], es'[|es'| - 1];
      LastEventInjective(EventsFields(p), e, EventsFields(p'), e');
      EventsFieldsInjective(p, p');
      SnocEqual(es, es');
    }
  }

  /**
   The pre-image is uniquely decodable: it fixes the batch, the alias, the
   ordered files, the line numbers, the exact line bytes and the termination
   flags.
   */
  lemma PreimageInjective(id: StreamId, es: seq<StreamEvent>, id': StreamId, es': seq<StreamEvent>)
    requires Preimage(id, es) == Preimage(id', es')
    ensures id == id' && es == es'
  {
    var fs, gs := HeaderFields(id) + EventsFields(es), HeaderFields(id') + EventsFields(es');
    FramesInjective(fs, gs);
    assert fs[1].payload == gs[1].payload && fs[2].payload == gs[2].payload;
    assert fs[3..] == EventsFields(es) && gs[3..] == EventsFields(es');
    EventsFieldsInjective(es, es');
  }

  /** Reading one more event only appends to the pre-image, which is what lets the digest be kept incrementally. */
  lemma PreimageExtends(id: StreamId, es: seq<StreamEvent>, e: StreamEvent)
    ensures Preimage(id, es + [e]) == Preimage(id, es) + Frames(EventFields(e))
  {
    assert (es + [e])[..|es|] == es;
    assert HeaderFields(id) + EventsFields(es + [e]) == (HeaderFields(id) + EventsFields(es)) + EventFields(e);
    FramesAppend(HeaderFields(id) + EventsFields(es), EventFields(e));
  }

  // ----- the hasher object -----

  /** `hashlib.sha256()` seen from outside: the bytes absorbed so far. */
  class Hasher {
    var absorbed: seq<Byte>

    constructor ()
      ensures absorbed == []
    {
      absorbed := [];
    }

    method Update(data: seq<Byte>)
      modifies this
      ensures absorbed == old(absorbed) + data
    {
      absorbed := absorbed + data;
    }

    method Digest() returns (d: Digest)
      ensures d == Sha256(absorbed)
    {
      d := Sha256(absorbed);
    }

    method CheckpointFrame(f: Field)
      modifies this
      ensures absorbed == old(absorbed) + Frame(f)
    {
      FieldWidths();
      Update(BigEndian(|f.tag|, 2));
      Update(f.tag);
      Update(BigEndian(|f.payload|, 8));
      Update(f.payload);
    }

    /** Appends each field as one unambiguous length-prefixed frame. */
    method AddFields(fs: seq<Field>)
      modifies this
      ensures absorbed == old(absorbed) + Frames(fs)
    {
      hide Frames, Frame;
      NoFrames();
      var i := 0;
      ghost var added: seq<Byte> := [];
      while i < |fs|
        invariant 0 <= i <= |fs|
        invariant added == Frames(fs[..i])
        invariant absorbed == old(absorbed) + added
      {
        CheckpointFrame(fs[i]);
        FramesSnoc(fs, i);
        Associative(old(absorbed), added, Frame(fs[i]));
        added := added + Frame(fs[i]);
        i := i + 1;
      }
      assert fs[..i] == fs;
    }

    /** Binds one event of the stream to the digested prefix. */
    method AddEvent(ghost id: StreamId, ghost es: seq<StreamEvent>, e: StreamEvent)
      requires absorbed == Preimage(id, es)
      modifies this
      ensures absorbed == Preimage(id, es + [e])
    {
      AddFields(EventFields(e));
      PreimageExtends(id, es, e);
    }

    /** A hasher that has absorbed the domain and the request identity. */
    constructor ForStream(id: StreamId)
      ensures absorbed == Preimage(id, [])
    {
      absorbed := [];
      new;
      AddFields(HeaderFields(id));
      assert HeaderFields(id) + EventsFields([]) == HeaderFields(id);
    }
  }
}
