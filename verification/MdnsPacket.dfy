/** pkg/discovery/mdns_packet.go: the DNS wire codec of RFC 1035, sections 4.1.1 to 4.1.4, as mDNS discovery uses it.
    Strings are byte sequences, as in Go. */
module MdnsPackets {
  import opened Bytes

  type Text = seq<byte>

  const DOT: byte := 0x2E

  datatype Result<T> = Ok(value: T) | Err

  // ---------- names ----------

  /** strings.Split at dots. */
  function Split(s: Text): (labels: seq<Text>)
    ensures labels != []
  {
    if s == [] then [[]]
    else
      var rest := Split(s[1..]);
      if s[0] == DOT then [[]] + rest else [[s[0]] + rest[0]] + rest[1..]
  }

  /** strings.Join with dots. */
  function Join(labels: seq<Text>): (s: Text) {
    if labels == [] then []
    else if |labels| == 1 then labels[0]
    else labels[0] + [DOT] + Join(labels[1..])
  }

  lemma {:induction false} JoinSplit(s: Text)
    ensures Join(Split(s)) == s
  {
    if s != [] {
      var rest := Split(s[1..]);
      JoinSplit(s[1..]);
      var labels := Split(s);
      if s[0] == DOT {
        assert labels[1..] == rest;
        assert s == [DOT] + s[1..];
      } else {
        assert labels[1..] == rest[1..];
        assert s == [s[0]] + s[1..];
      }
    }
  }

  /** The labels of a name that ends with a dot; the root name has none. */
  function LabelsOf(name: Text): (labels: seq<Text>) {
    if name == [DOT] || name == [] then [] else Split(TrimDot(name))
  }

  function TrimDot(name: Text): (s: Text) {
    if name != [] && name[|name| - 1] == DOT then name[..|name| - 1] else name
  }

  /** The name a decoder builds from labels. */
  function NameOf(labels: seq<Text>): (name: Text) { Join(labels) + [DOT] }

  /** A label of 1 to 63 bytes. */
  predicate GoodLabel(l: Text) { 1 <= |l| <= 63 }

  /** A fully qualified name of labels of 1 to 63 bytes. */
  predicate GoodName(name: Text) {
    name != [] && name[|name| - 1] == DOT && forall l :: l in LabelsOf(name) ==> GoodLabel(l)
  }

  lemma {:induction false} NameOfLabels(name: Text)
    requires name != [] && name[|name| - 1] == DOT
    ensures NameOf(LabelsOf(name)) == name
  {
    JoinSplit(TrimDot(name));
    assert TrimDot(name) + [DOT] == name;
  }

  function Cut(l: Text): (c: Text) { if |l| > 63 then l[..63] else l }

  /** The labels on the wire, without the closing zero. */
  function LabelBytes(labels: seq<Text>): (b: seq<byte>) {
    if labels == [] then [] else [|Cut(labels[0])|] + Cut(labels[0]) + LabelBytes(labels[1..])
  }

  function EncodeName(name: Text): (b: seq<byte>)
    ensures b != []
  {
    LabelBytes(LabelsOf(name)) + [0]
  }

  /** The 14 low bits of the two bytes at `offset`. */
  function Pointer(buf: seq<byte>, offset: nat): (p: nat)
    requires offset + 1 < |buf|
  {
    var hi: int, lo: int := buf[offset], buf[offset + 1];
    (256 * hi + lo) % 0x4000
  }

  /** Decoding from `offset` of a name that starts at `start`: the labels so far, where the reader goes on once it
      jumped, and how often it jumped. */
  function DecodeFrom(buf: seq<byte>, start: nat, offset: nat, jumped: bool, resume: nat, depth: nat, labels: seq<Text>)
    : (r: Result<(Text, nat)>)
    requires depth <= 11
    decreases 11 - depth, |buf| - offset
  {
    if depth > 10 || offset >= |buf| then Err
    else
      var length := buf[offset];
      if length == 0 then Ok((NameOf(labels), if jumped then resume else offset + 1))
      else if length >= 0xC0 then
        if offset + 1 >= |buf| then Err
        else
          var ptr := Pointer(buf, offset);
          if ptr >= start && !jumped then Err
          else DecodeFrom(buf, start, ptr, true, if jumped then resume else offset + 2, depth + 1, labels)
      else if offset + 1 + length > |buf| then Err
      else DecodeFrom(buf, start, offset + 1 + length, jumped, resume, depth,
                      labels + [buf[offset + 1..offset + 1 + length]])
  }

  function DecodeName(buf: seq<byte>, offset: nat): (r: Result<(Text, nat)>) {
    DecodeFrom(buf, offset, offset, false, 0, 0, [])
  }

  /** On any bytes the decoder stays in bounds and advances. */
  lemma {:induction false} DecodeAdvances(buf: seq<byte>, start: nat, offset: nat, jumped: bool, resume: nat, depth: nat,
                                          labels: seq<Text>)
    requires depth <= 11 && DecodeFrom(buf, start, offset, jumped, resume, depth, labels).Ok?
    ensures var (name, end) := DecodeFrom(buf, start, offset, jumped, resume, depth, labels).value;
            && (if jumped then end == resume else offset < end <= |buf|)
            && name != [] && name[|name| - 1] == DOT
    decreases 11 - depth, |buf| - offset
  {
    var length := buf[offset];
    if length >= 0xC0 {
      var ptr := Pointer(buf, offset);
      DecodeAdvances(buf, start, ptr, true, if jumped then resume else offset + 2, depth + 1, labels);
    } else if length > 0 {
      DecodeAdvances(buf, start, offset + 1 + length, jumped, resume, depth,
                     labels + [buf[offset + 1..offset + 1 + length]]);
    }
  }

  /** A pointer to itself or ahead is refused before the first jump, so a name never decodes from its own start. */
  lemma {:induction false} FirstPointerGoesBack(buf: seq<byte>, offset: nat)
    requires offset + 1 < |buf| && buf[offset] >= 0xC0 && DecodeName(buf, offset).Ok?
    ensures Pointer(buf, offset) < offset && DecodeName(buf, offset).value.1 == offset + 2
  {
    DecodeAdvances(buf, offset, Pointer(buf, offset), true, offset + 2, 1, []);
  }

  lemma {:induction false} HeldByte(buf: seq<byte>, pos: nat, x: byte)
    requires Holds(buf, pos, [x])
    ensures pos < |buf| && buf[pos] == x
  {
    assert buf[pos..pos + 1][0] == x;
  }

  lemma {:induction false} HeldSlice(buf: seq<byte>, pos: nat, field: seq<byte>)
    requires Holds(buf, pos, field)
    ensures pos + |field| <= |buf| && buf[pos..pos + |field|] == field
  {
  }

  lemma {:induction false} LabelSplit(l: Text, rest: seq<byte>, end: seq<byte>)
    requires |l| < 0x100
    ensures [|l|] + l + rest + end == [|l|] + (l + (rest + end))
  {
  }

  // ---------- the bytes a name is read from ----------

  /** The labels lie in order from `at` on: each is its length, below 0xC0 and not 0, and its bytes. */
  predicate Written(buf: seq<byte>, at: nat, labels: seq<Text>)
    decreases |labels|
  {
    labels != [] ==>
      var l := labels[0];
      && 1 <= |l| < 0xC0 && at + 1 + |l| <= |buf| && buf[at] == |l| && buf[at + 1..at + 1 + |l|] == l
      && Written(buf, at + 1 + |l|, labels[1..])
  }

  /** Where labels written at `at` end. */
  function WireEnd(at: nat, labels: seq<Text>): (e: nat)
    ensures e >= at
    decreases |labels|
  {
    if labels == [] then at else WireEnd(at + 1 + |labels[0]|, labels[1..])
  }

  /** A run of labels in the message, and what the runs of a name add up to. */
  datatype Run = Run(at: nat, labels: seq<Text>)

  function AllLabels(runs: seq<Run>): (labels: seq<Text>) {
    if runs == [] then [] else runs[0].labels + AllLabels(runs[1..])
  }

  /** The two bytes at `at` are a pointer to `target` (section 4.1.4 of RFC 1035). */
  predicate PointsTo(buf: seq<byte>, at: nat, target: nat) {
    && at + 1 < |buf| && target < 0x4000
    && buf[at] == 0xC0 + target / 256 && buf[at + 1] == target % 256
  }

  /** The runs of a compressed name that begins at `start`: each ends in a pointer to the next, the last in a zero, and
      the first pointer points before the name. */
  predicate Chain(buf: seq<byte>, start: nat, runs: seq<Run>, jumped: bool)
    decreases |runs|
  {
    && runs != [] && Written(buf, runs[0].at, runs[0].labels)
    && var e := WireEnd(runs[0].at, runs[0].labels);
       if |runs| == 1 then e < |buf| && buf[e] == 0
       else
         && PointsTo(buf, e, runs[1].at) && (jumped || runs[1].at < start)
         && Chain(buf, start, runs[1..], true)
  }

  /** Where reading goes on after the name: past the zero, or past its first pointer. */
  function ChainEnd(runs: seq<Run>): (e: nat)
    requires runs != []
  {
    WireEnd(runs[0].at, runs[0].labels) + if |runs| == 1 then 1 else 2
  }

  lemma {:induction false} WrittenDecode(buf: seq<byte>, start: nat, at: nat, jumped: bool, resume: nat, depth: nat,
                                         labels: seq<Text>, before: seq<Text>)
    requires Written(buf, at, labels) && depth <= 10
    ensures DecodeFrom(buf, start, at, jumped, resume, depth, before) ==
            DecodeFrom(buf, start, WireEnd(at, labels), jumped, resume, depth, before + labels)
    decreases |labels|
  {
    if labels == [] {
      assert before + labels == before;
    } else {
      var l := labels[0];
      WrittenDecode(buf, start, at + 1 + |l|, jumped, resume, depth, labels[1..], before + [l]);
      assert before + [l] + labels[1..] == before + labels;
    }
  }

  lemma {:induction false} PointerTarget(buf: seq<byte>, at: nat, target: nat)
    requires at + 1 < |buf| && buf[at] >= 0xC0
    ensures PointsTo(buf, at, target) <==> Pointer(buf, at) == target
  {
  }

  lemma {:induction false} PointerDecodes(buf: seq<byte>, start: nat, at: nat, target: nat, jumped: bool, resume: nat, depth: nat,
                                          labels: seq<Text>)
    requires PointsTo(buf, at, target) && (jumped || target < start) && depth <= 10
    ensures DecodeFrom(buf, start, at, jumped, resume, depth, labels) ==
            DecodeFrom(buf, start, target, true, if jumped then resume else at + 2, depth + 1, labels)
  {
    PointerTarget(buf, at, target);
  }

  lemma {:induction false} ZeroDecodes(buf: seq<byte>, start: nat, at: nat, jumped: bool, resume: nat, depth: nat, labels: seq<Text>)
    requires at < |buf| && buf[at] == 0 && depth <= 10
    ensures DecodeFrom(buf, start, at, jumped, resume, depth, labels) ==
            Ok((NameOf(labels), if jumped then resume else at + 1))
  {
  }

  lemma {:induction false} LabelsAhead(before: seq<Text>, runs: seq<Run>)
    requires runs != []
    ensures before + AllLabels(runs) == before + runs[0].labels + AllLabels(runs[1..])
    ensures |runs| == 1 ==> before + AllLabels(runs) == before + runs[0].labels
  {
  }

  lemma {:induction false} ChainDecodesFrom(buf: seq<byte>, start: nat, runs: seq<Run>, jumped: bool, resume: nat, depth: nat,
                                            before: seq<Text>)
    requires Chain(buf, start, runs, jumped) && depth + |runs| <= 11
    ensures DecodeFrom(buf, start, runs[0].at, jumped, resume, depth, before) ==
            Ok((NameOf(before + AllLabels(runs)), if jumped then resume else ChainEnd(runs)))
    decreases |runs|
  {
    hide NameOf, Written, PointsTo, DecodeFrom, AllLabels, WireEnd;
    var at, labels := runs[0].at, runs[0].labels;
    var e := WireEnd(at, labels);
    WrittenDecode(buf, start, at, jumped, resume, depth, labels, before);
    LabelsAhead(before, runs);
    if |runs| == 1 {
      ZeroDecodes(buf, start, e, jumped, resume, depth, before + labels);
    } else {
      PointerDecodes(buf, start, e, runs[1].at, jumped, resume, depth, before + labels);
      ChainDecodesFrom(buf, start, runs[1..], true, if jumped then resume else e + 2, depth + 1, before + labels);
    }
  }

  /** A name whose runs are chained by up to ten pointers decodes to the labels of all of them, in order, and reading goes
      on after its first pointer. */
  lemma {:induction false} ChainDecodes(buf: seq<byte>, start: nat, runs: seq<Run>)
    requires 1 <= |runs| <= 11 && runs[0].at == start && Chain(buf, start, runs, false)
    ensures DecodeName(buf, start) == Ok((NameOf(AllLabels(runs)), ChainEnd(runs)))
  {
    ChainDecodesFrom(buf, start, runs, false, 0, 0, []);
    assert [] + AllLabels(runs) == AllLabels(runs);
  }

  lemma {:induction false} ChainBehind(buf: seq<byte>, start: nat, at: nat, jumped: bool, resume: nat, depth: nat,
                                       labels: seq<Text>) returns (runs: seq<Run>)
    requires depth <= 10 && DecodeFrom(buf, start, at, jumped, resume, depth, labels).Ok?
    ensures runs != [] && runs[0].at == at && depth + |runs| <= 11 && Chain(buf, start, runs, jumped)
    decreases 11 - depth, |buf| - at
  {
    hide NameOf;
    var length := buf[at];
    if length == 0 {
      runs := [Run(at, [])];
    } else if length >= 0xC0 {
      var ptr := Pointer(buf, at);
      PointerTarget(buf, at, ptr);
      var rest := ChainBehind(buf, start, ptr, true, if jumped then resume else at + 2, depth + 1, labels);
      runs := [Run(at, [])] + rest;
      assert runs[1..] == rest;
    } else {
      var l := buf[at + 1..at + 1 + length];
      var rest := ChainBehind(buf, start, at + 1 + length, jumped, resume, depth, labels + [l]);
      runs := [Run(at, [l] + rest[0].labels)] + rest[1..];
      assert runs[1..] == rest[1..] && runs[0].labels[1..] == rest[0].labels;
    }
  }

  /** On any bytes, whatever decodes is such a name: nothing else is accepted. */
  lemma {:induction false} DecodedIsChain(buf: seq<byte>, start: nat) returns (runs: seq<Run>)
    requires DecodeName(buf, start).Ok?
    ensures 1 <= |runs| <= 11 && runs[0].at == start && Chain(buf, start, runs, false)
    ensures DecodeName(buf, start) == Ok((NameOf(AllLabels(runs)), ChainEnd(runs)))
  {
    runs := ChainBehind(buf, start, start, false, 0, 0, []);
    ChainDecodes(buf, start, runs);
  }

  lemma {:induction false} LabelHeld(buf: seq<byte>, at: nat, l: Text, tail: seq<byte>)
    requires |l| < 0x100 && Holds(buf, at, [|l|] + (l + tail))
    ensures at + 1 + |l| <= |buf| && buf[at] == |l| && buf[at + 1..at + 1 + |l|] == l
    ensures Holds(buf, at + 1 + |l|, tail)
  {
    hide Holds;
    HoldsParts(buf, at, [|l|], l + tail);
    HoldsParts(buf, at + 1, l, tail);
    HeldByte(buf, at, |l|);
    HeldSlice(buf, at + 1, l);
  }

  predicate HasBytes(l: Text) { l != [] }

  lemma {:induction false} GoodHaveBytes(labels: seq<Text>)
    requires forall l :: l in labels ==> GoodLabel(l)
    ensures forall l :: l in labels ==> HasBytes(l)
  {
    forall l | l in labels
      ensures HasBytes(l)
    {
      assert GoodLabel(l);
    }
  }

  /** The labels with what the encoder leaves of them: at most 63 bytes each. */
  function Shortened(labels: seq<Text>): (cut: seq<Text>) {
    seq(|labels|, i requires 0 <= i < |labels| => labels[i][..Min(|labels[i]|, 63)])
  }

  lemma {:induction false} ShortenedNext(labels: seq<Text>)
    requires labels != []
    ensures Shortened(labels) == [Cut(labels[0])] + Shortened(labels[1..])
  {
    assert labels[0][..|labels[0]|] == labels[0];
    forall i | 0 < i < |labels|
      ensures Shortened(labels)[i] == Shortened(labels[1..])[i - 1]
    {
      assert labels[1..][i - 1] == labels[i];
    }
  }

  lemma {:induction false} GoodAreWhole(labels: seq<Text>)
    requires forall l :: l in labels ==> GoodLabel(l)
    ensures Shortened(labels) == labels
  {
    forall i | 0 <= i < |labels|
      ensures Shortened(labels)[i] == labels[i]
    {
      assert GoodLabel(labels[i]) && labels[i][..|labels[i]|] == labels[i];
    }
  }

  /** Labels as they are written on the wire, before whatever follows. */
  lemma {:induction false} LabelsWritten(buf: seq<byte>, at: nat, labels: seq<Text>, tail: seq<byte>)
    requires Holds(buf, at, LabelBytes(labels) + tail) && forall l :: l in labels ==> HasBytes(l)
    ensures Written(buf, at, Shortened(labels)) && WireEnd(at, Shortened(labels)) == at + |LabelBytes(labels)|
    ensures Holds(buf, at + |LabelBytes(labels)|, tail)
    decreases |labels|
  {
    hide Holds;
    if labels == [] {
      assert LabelBytes([]) + tail == tail;
    } else {
      var l, rest := Cut(labels[0]), labels[1..];
      assert HasBytes(labels[0]);
      LabelSplit(l, LabelBytes(rest), tail);
      LabelHeld(buf, at, l, LabelBytes(rest) + tail);
      LabelsWritten(buf, at + 1 + |l|, rest, tail);
      ShortenedNext(labels);
      assert Shortened(labels)[1..] == Shortened(rest);
    }
  }

  /** Labels followed by a pointer to a name written before them: the name is the first labels and then those. */
  lemma {:induction false} CompressedName(buf: seq<byte>, start: nat, first: seq<Text>, target: nat, rest: seq<Text>)
    requires forall l :: l in first + rest ==> GoodLabel(l)
    requires target < start && target < 0x4000
    requires Holds(buf, start, LabelBytes(first) + [0xC0 + target / 256, target % 256])
    requires Holds(buf, target, LabelBytes(rest) + [0])
    ensures DecodeName(buf, start) == Ok((NameOf(first + rest), start + |LabelBytes(first)| + 2))
  {
    hide DecodeFrom, LabelBytes, NameOf, Holds, Written;
    var pointer := [0xC0 + target / 256, target % 256];
    forall l | l in first || l in rest
      ensures GoodLabel(l)
    {
      assert l in first + rest;
    }
    GoodAreWhole(first);
    GoodAreWhole(rest);
    GoodHaveBytes(first);
    GoodHaveBytes(rest);
    LabelsWritten(buf, start, first, pointer);
    HeldSlice(buf, WireEnd(start, first), pointer);
    assert buf[WireEnd(start, first)] == pointer[0] && buf[WireEnd(start, first) + 1] == pointer[1];
    LabelsWritten(buf, target, rest, [0]);
    HeldByte(buf, WireEnd(target, rest), 0);
    var runs := [Run(start, first), Run(target, rest)];
    assert runs[1..] == [Run(target, rest)] && Chain(buf, start, runs[1..], true);
    ChainDecodes(buf, start, runs);
    assert AllLabels(runs[1..]) == rest;
  }

  /** A name decodes to itself from wherever it was written. */
  lemma {:induction false} NameRoundTrip(buf: seq<byte>, offset: nat, name: Text)
    requires GoodName(name) && Holds(buf, offset, EncodeName(name))
    ensures DecodeName(buf, offset) == Ok((name, offset + |EncodeName(name)|))
  {
    hide EncodeName;
    GoodAreWhole(LabelsOf(name));
    GoodHaveBytes(LabelsOf(name));
    NameDecodes(buf, offset, name);
    NameOfLabels(name);
  }

  /** A name without empty labels decodes to its labels, each cut at 63 bytes. */
  lemma {:induction false} NameDecodes(buf: seq<byte>, offset: nat, name: Text)
    requires Holds(buf, offset, EncodeName(name)) && forall l :: l in LabelsOf(name) ==> HasBytes(l)
    ensures DecodeName(buf, offset) == Ok((NameOf(Shortened(LabelsOf(name))), offset + |EncodeName(name)|))
  {
    hide DecodeFrom, LabelBytes, LabelsOf, NameOf, Holds, Written, Shortened;
    var labels := LabelsOf(name);
    LabelsWritten(buf, offset, labels, [0]);
    HeldByte(buf, WireEnd(offset, Shortened(labels)), 0);
    ChainDecodes(buf, offset, [Run(offset, Shortened(labels))]);
    assert AllLabels([Run(offset, Shortened(labels))]) == Shortened(labels);
  }

  lemma {:induction false} BytesOfParts(a: seq<Text>, b: seq<Text>)
    ensures LabelBytes(a + b) == LabelBytes(a) + LabelBytes(b)
    decreases |a|
  {
    if a == [] {
      assert a + b == b;
    } else {
      BytesOfParts(a[1..], b);
      assert (a + b)[1..] == a[1..] + b;
      Joined([|Cut(a[0])|] + Cut(a[0]), LabelBytes(a[1..]), LabelBytes(b));
    }
  }

  lemma {:induction false} Joined(a: seq<byte>, b: seq<byte>, c: seq<byte>)
    ensures a + (b + c) == a + b + c
  {
  }

  lemma {:induction false} EndRegroups(a: seq<byte>, b: seq<byte>)
    ensures a + ([0] + b) + [0] == a + ([0] + (b + [0]))
  {
  }

  /** An empty label ends the name where it stands. */
  lemma {:induction false} EmptyLabelEnds(buf: seq<byte>, offset: nat, name: Text, i: nat)
    requires Holds(buf, offset, EncodeName(name)) && i < |LabelsOf(name)| && LabelsOf(name)[i] == []
    requires forall j :: 0 <= j < i ==> LabelsOf(name)[j] != []
    ensures DecodeName(buf, offset).Ok? && DecodeName(buf, offset).value.1 < offset + |EncodeName(name)|
  {
    hide DecodeFrom, LabelsOf, NameOf, Holds, Written, Shortened;
    var labels := LabelsOf(name);
    var front, rest := labels[..i], labels[i + 1..];
    assert labels == front + ([[]] + rest) && ([[]] + rest)[1..] == rest;
    BytesOfParts(front, [[]] + rest);
    assert LabelBytes([[]] + rest) == [0] + LabelBytes(rest);
    hide LabelBytes;
    EndRegroups(LabelBytes(front), LabelBytes(rest));
    assert EncodeName(name) == LabelBytes(front) + ([0] + (LabelBytes(rest) + [0]));
    LabelsWritten(buf, offset, front, [0] + (LabelBytes(rest) + [0]));
    HoldsParts(buf, offset + |LabelBytes(front)|, [0], LabelBytes(rest) + [0]);
    HeldByte(buf, offset + |LabelBytes(front)|, 0);
    ChainDecodes(buf, offset, [Run(offset, Shortened(front))]);
  }

  lemma {:induction false} JoinLength(labels: seq<Text>)
    ensures |Join(Shortened(labels))| <= |Join(labels)|
    ensures (exists l :: l in labels && |l| > 63) ==> |Join(Shortened(labels))| < |Join(labels)|
    decreases |labels|
  {
    if labels != [] {
      ShortenedNext(labels);
      var cut := Shortened(labels);
      assert cut[1..] == Shortened(labels[1..]) && cut[0] == Cut(labels[0]) && |cut| == |labels|;
      JoinLength(labels[1..]);
    }
  }

  /** Exactly the well-formed names survive: a fully qualified name decodes to itself, and to its end, if and only if each
      of its labels has 1 to 63 bytes. */
  lemma {:induction false} NameSurvivesExactly(buf: seq<byte>, offset: nat, name: Text)
    requires name != [] && name[|name| - 1] == DOT && Holds(buf, offset, EncodeName(name))
    ensures DecodeName(buf, offset) == Ok((name, offset + |EncodeName(name)|)) <==> GoodName(name)
  {
    hide DecodeName, EncodeName, LabelsOf, Holds, Shortened, Join;
    var labels := LabelsOf(name);
    if GoodName(name) {
      NameRoundTrip(buf, offset, name);
    } else if [] in labels {
      var i: nat := 0;
      while labels[i] != []
        invariant i < |labels| && [] in labels[i..] && forall j :: 0 <= j < i ==> labels[j] != []
        decreases |labels| - i
      {
        assert labels[i..] == [labels[i]] + labels[i + 1..];
        i := i + 1;
      }
      EmptyLabelEnds(buf, offset, name, i);
    } else {
      NameDecodes(buf, offset, name);
      NameOfLabels(name);
      JoinLength(labels);
      var l: Text :| l in labels && !GoodLabel(l);
      assert |l| > 63;
    }
  }

  // ---------- fields ----------

  function U16(buf: seq<byte>, pos: nat): (x: uint16)
    requires pos + 2 <= |buf|
  {
    var hi: int, lo: int := buf[pos], buf[pos + 1];
    256 * hi + lo
  }

  function U32(buf: seq<byte>, pos: nat): (x: uint32)
    requires pos + 4 <= |buf|
  {
    0x1_0000 * U16(buf, pos) + U16(buf, pos + 2)
  }

  function Put16(x: nat): (b: seq<byte>)
    ensures |b| == 2
  {
    [x / 256 % 256, x % 256]
  }

  function Put32(x: uint32): (b: seq<byte>)
    ensures |b| == 4
  {
    Put16(x / 0x1_0000) + Put16(x)
  }

  lemma {:induction false} TwoDigits(x: nat)
    ensures 256 * (x / 256 % 256) + x % 256 == x % 0x1_0000
  {
  }

  lemma {:induction false} Held16(buf: seq<byte>, pos: nat, x: nat)
    requires Holds(buf, pos, Put16(x))
    ensures U16(buf, pos) == x % 0x1_0000
  {
    TwoDigits(x);
    assert buf[pos] == buf[pos..pos + 2][0] && buf[pos + 1] == buf[pos..pos + 2][1];
  }

  lemma {:induction false} Held32(buf: seq<byte>, pos: nat, x: uint32)
    requires Holds(buf, pos, Put32(x))
    ensures U32(buf, pos) == x
  {
    HoldsParts(buf, pos, Put16(x / 0x1_0000), Put16(x));
    Held16(buf, pos, x / 0x1_0000);
    Held16(buf, pos + 2, x);
  }

  // ---------- messages ----------

  datatype Header = Header(id: uint16, flags: uint16, qd: uint16, an: uint16, ns: uint16, ar: uint16)

  datatype Question = Question(name: Text, qtype: uint16, qclass: uint16)

  /** A record; the last four fields are what the parser reads out of the data, and are not written. */
  datatype Record = Record(name: Text, rtype: uint16, rclass: uint16, ttl: uint32, data: seq<byte>, ptrName: Text,
                           srvPort: uint16, srvTarget: Text, addr: seq<byte>)

  datatype Message = Message(header: Header, questions: seq<Question>, answers: seq<Record>, additional: seq<Record>)

  const TYPE_A: uint16 := 1
  const TYPE_PTR: uint16 := 12
  const TYPE_AAAA: uint16 := 28
  const TYPE_SRV: uint16 := 33
  const CLASS_IN: uint16 := 1

  function EncodeHeader(h: Header): (b: seq<byte>)
    ensures |b| == 12
  {
    Put16(h.id) + Put16(h.flags) + Put16(h.qd) + Put16(h.an) + Put16(h.ns) + Put16(h.ar)
  }

  function EncodeQuestion(q: Question): (b: seq<byte>) { EncodeName(q.name) + (Put16(q.qtype) + Put16(q.qclass)) }

  function RecordHead(r: Record): (b: seq<byte>)
    ensures |b| == 10
  {
    Put16(r.rtype) + Put16(r.rclass) + Put32(r.ttl) + Put16(|r.data|)
  }

  function EncodeRecord(r: Record): (b: seq<byte>) { EncodeName(r.name) + (RecordHead(r) + r.data) }

  function EncodeQuestions(qs: seq<Question>): (b: seq<byte>) {
    if qs == [] then [] else EncodeQuestion(qs[0]) + EncodeQuestions(qs[1..])
  }

  function EncodeRecords(rs: seq<Record>): (b: seq<byte>) {
    if rs == [] then [] else EncodeRecord(rs[0]) + EncodeRecords(rs[1..])
  }

  /** The header as marshalling sets it: the counts, and the rest as given. */
  function Counted(m: Message): (h: Header) {
    m.header.(qd := |m.questions| % 0x1_0000, an := |m.answers| % 0x1_0000, ar := |m.additional| % 0x1_0000)
  }

  function Marshalled(m: Message): (b: seq<byte>) {
    EncodeHeader(Counted(m)) + (EncodeQuestions(m.questions) + (EncodeRecords(m.answers) + EncodeRecords(m.additional)))
  }

  // ---------- the layout ----------

  /** The header is six fields of two bytes, high byte first (section 4.1.1 of RFC 1035). */
  lemma {:induction false} HeaderLayout(h: Header)
    ensures var b: seq<int> := EncodeHeader(h);
            && h.id == 256 * b[0] + b[1] && h.flags == 256 * b[2] + b[3] && h.qd == 256 * b[4] + b[5]
            && h.an == 256 * b[6] + b[7] && h.ns == 256 * b[8] + b[9] && h.ar == 256 * b[10] + b[11]
  {
  }

  /** A question is its name, its type and its class (section 4.1.2). */
  lemma {:induction false} QuestionLayout(q: Question)
    ensures var b: seq<int>, n := EncodeQuestion(q), |EncodeName(q.name)|;
            && |b| == n + 4 && b[..n] == EncodeName(q.name)
            && q.qtype == 256 * b[n] + b[n + 1] && q.qclass == 256 * b[n + 2] + b[n + 3]
  {
    hide EncodeName;
    var name, tail := EncodeName(q.name), Put16(q.qtype) + Put16(q.qclass);
    assert (name + tail)[|name|..] == tail;
  }

  /** A record is its name, its type, its class, its time to live in four bytes, the length of its data and the data
      (section 4.1.3). */
  lemma {:induction false} RecordLayout(r: Record)
    requires |r.data| < 0x1_0000
    ensures var b: seq<int>, n := EncodeRecord(r), |EncodeName(r.name)|;
            && |b| == n + 10 + |r.data| && b[..n] == EncodeName(r.name) && b[n + 10..] == r.data
            && r.rtype == 256 * b[n] + b[n + 1] && r.rclass == 256 * b[n + 2] + b[n + 3]
            && r.ttl == 0x100_0000 * b[n + 4] + 0x1_0000 * b[n + 5] + 256 * b[n + 6] + b[n + 7]
            && |r.data| == 256 * b[n + 8] + b[n + 9]
  {
    hide EncodeName;
    var name, head := EncodeName(r.name), RecordHead(r);
    var b := EncodeRecord(r);
    forall k | 0 <= k < 10
      ensures b[|name| + k] == head[k]
    {
    }
    HeadBytes(r);
  }

  lemma {:induction false} HeadBytes(r: Record)
    requires |r.data| < 0x1_0000
    ensures var h: seq<int> := RecordHead(r);
            && r.rtype == 256 * h[0] + h[1] && r.rclass == 256 * h[2] + h[3]
            && r.ttl == 0x100_0000 * h[4] + 0x1_0000 * h[5] + 256 * h[6] + h[7] && |r.data| == 256 * h[8] + h[9]
  {
    assert Put32(r.ttl) == [r.ttl / 0x1_0000 / 256 % 256, r.ttl / 0x1_0000 % 256, r.ttl / 256 % 256, r.ttl % 256];
  }

  /** The name "a.bc." on the wire. */
  lemma {:induction false} NameLayout()
    ensures EncodeName([0x61, 0x2E, 0x62, 0x63, 0x2E]) == [1, 0x61, 2, 0x62, 0x63, 0]
    ensures EncodeName([0x2E]) == [0]
  {
    var a: Text, bc: Text := [0x61], [0x62, 0x63];
    SplitJoin([a, bc]);
    assert [a, bc][1..] == [bc];
    assert TrimDot([0x61, 0x2E, 0x62, 0x63, 0x2E]) == a + [DOT] + bc;
    assert LabelBytes([bc]) == [2, 0x62, 0x63];
    assert LabelBytes([a, bc]) == [1, 0x61, 2, 0x62, 0x63];
  }

  function ParseHeader(buf: seq<byte>): (h: Header)
    requires |buf| >= 12
  {
    Header(U16(buf, 0), U16(buf, 2), U16(buf, 4), U16(buf, 6), U16(buf, 8), U16(buf, 10))
  }

  function ParseQuestion(buf: seq<byte>, offset: nat): (r: Result<(Question, nat)>) {
    var name := DecodeName(buf, offset);
    if name.Err? then Err
    else
      var pos := name.value.1;
      if pos + 4 > |buf| then Err
      else Ok((Question(name.value.0, U16(buf, pos), U16(buf, pos + 2)), pos + 4))
  }

  function NameOrEmpty(r: Result<(Text, nat)>): (name: Text) { if r.Ok? then r.value.0 else [] }

  /** The fields the parser reads out of a record's data at `pos`. */
  function Interpreted(buf: seq<byte>, pos: nat, r: Record): (s: Record)
    requires pos + |r.data| <= |buf|
  {
    if r.rtype == TYPE_PTR then r.(ptrName := NameOrEmpty(DecodeName(buf, pos)))
    else if r.rtype == TYPE_SRV && |r.data| >= 6 then
      r.(srvPort := U16(buf, pos + 4), srvTarget := NameOrEmpty(DecodeName(buf, pos + 6)))
    else if (r.rtype == TYPE_A && |r.data| == 4) || (r.rtype == TYPE_AAAA && |r.data| == 16) then
      r.(addr := buf[pos..pos + |r.data|])
    else r
  }

  function ParseRecord(buf: seq<byte>, offset: nat): (r: Result<(Record, nat)>) {
    var name := DecodeName(buf, offset);
    if name.Err? then Err
    else
      var pos := name.value.1;
      if pos + 10 > |buf| then Err
      else
        var n := U16(buf, pos + 8);
        if pos + 10 + n > |buf| then Err
        else
          var plain := Record(name.value.0, U16(buf, pos), U16(buf, pos + 2), U32(buf, pos + 4),
                              buf[pos + 10..pos + 10 + n], [], 0, [], []);
          Ok((Interpreted(buf, pos + 10, plain), pos + 10 + n))
  }

  function ParseQuestions(buf: seq<byte>, offset: nat, n: nat): (r: Result<(seq<Question>, nat)>)
    decreases n
  {
    if n == 0 then Ok(([], offset))
    else
      var first := ParseQuestion(buf, offset);
      if first.Err? then Err
      else
        var rest := ParseQuestions(buf, first.value.1, n - 1);
        if rest.Err? then Err else Ok(([first.value.0] + rest.value.0, rest.value.1))
  }

  function ParseRecords(buf: seq<byte>, offset: nat, n: nat): (r: Result<(seq<Record>, nat)>)
    decreases n
  {
    if n == 0 then Ok(([], offset))
    else
      var first := ParseRecord(buf, offset);
      if first.Err? then Err
      else
        var rest := ParseRecords(buf, first.value.1, n - 1);
        if rest.Err? then Err else Ok(([first.value.0] + rest.value.0, rest.value.1))
  }

  /** dnsMessageParse: authority records are read with the additional ones. */
  function Parsed(buf: seq<byte>): (r: Result<Message>) {
    if |buf| < 12 then Err
    else
      var h := ParseHeader(buf);
      var questions := ParseQuestions(buf, 12, h.qd);
      if questions.Err? then Err else SectionsParsed(buf, h, questions.value.0, questions.value.1)
  }

  function SectionsParsed(buf: seq<byte>, h: Header, questions: seq<Question>, start: nat): (r: Result<Message>) {
    var answers := ParseRecords(buf, start, h.an);
    if answers.Err? then Err
    else
      var additional := ParseRecords(buf, answers.value.1, h.ar + h.ns);
      if additional.Err? then Err else Ok(Message(h, questions, answers.value.0, additional.value.0))
  }

  // ---------- arbitrary bytes ----------

  /** What a parsed record says of itself, by its type and the message it stands in: names in its data may point into
      the whole message, and a name that does not decode is left empty. */
  lemma {:induction false} RecordMeaning(buf: seq<byte>, offset: nat)
    requires ParseRecord(buf, offset).Ok?
    ensures var (r, end) := ParseRecord(buf, offset).value;
            && end <= |buf| && |r.data| <= end && r.data == buf[end - |r.data|..end]
            && (r.ptrName != [] ==> r.rtype == 12 && DecodeName(buf, end - |r.data|).Ok?)
            && (r.rtype == 12 && DecodeName(buf, end - |r.data|).Ok? ==> r.ptrName == DecodeName(buf, end - |r.data|).value.0)
            && (r.srvTarget != [] ==> r.rtype == 33 && |r.data| >= 6 && DecodeName(buf, end - |r.data| + 6).Ok?)
            && (r.rtype == 33 && |r.data| >= 6 ==>
                  && r.srvPort == 256 * (r.data[4] as int) + r.data[5] as int
                  && (DecodeName(buf, end - |r.data| + 6).Ok? ==> r.srvTarget == DecodeName(buf, end - |r.data| + 6).value.0))
            && (r.addr == if (r.rtype == 1 && |r.data| == 4) || (r.rtype == 28 && |r.data| == 16) then r.data else [])
  {
    hide DecodeName;
  }

  lemma {:induction false} QuestionsAdvance(buf: seq<byte>, offset: nat, n: nat)
    requires ParseQuestions(buf, offset, n).Ok? && offset <= |buf|
    ensures var (qs, end) := ParseQuestions(buf, offset, n).value;
            |qs| == n && offset + 5 * n <= end <= |buf|
    decreases n
  {
    if n > 0 {
      DecodeAdvances(buf, offset, offset, false, 0, 0, []);
      QuestionsAdvance(buf, ParseQuestion(buf, offset).value.1, n - 1);
    }
  }

  lemma {:induction false} RecordsAdvance(buf: seq<byte>, offset: nat, n: nat)
    requires ParseRecords(buf, offset, n).Ok? && offset <= |buf|
    ensures var (rs, end) := ParseRecords(buf, offset, n).value;
            |rs| == n && offset + 11 * n <= end <= |buf|
    decreases n
  {
    if n > 0 {
      DecodeAdvances(buf, offset, offset, false, 0, 0, []);
      RecordsAdvance(buf, ParseRecord(buf, offset).value.1, n - 1);
    }
  }

  /** On any bytes, what parses is in bounds: every question took at least 5 bytes of the message and every record
      at least 11, so a message holds no more of them than its length allows, whatever its counts claim. */
  lemma {:induction false} ParsedFits(buf: seq<byte>)
    requires Parsed(buf).Ok?
    ensures var m := Parsed(buf).value;
            12 + 5 * |m.questions| + 11 * (|m.answers| + |m.additional|) <= |buf|
    ensures var m := Parsed(buf).value;
            && |m.questions| == m.header.qd && |m.answers| == m.header.an
            && |m.additional| == m.header.ar + m.header.ns
  {
    hide ParseHeader, ParseQuestions, ParseRecords;
    var h := ParseHeader(buf);
    QuestionsAdvance(buf, 12, h.qd);
    var a := ParseQuestions(buf, 12, h.qd).value.1;
    RecordsAdvance(buf, a, h.an);
    RecordsAdvance(buf, ParseRecords(buf, a, h.an).value.1, h.ar + h.ns);
  }

  // ---------- round trip ----------

  predicate GoodQuestions(qs: seq<Question>) { forall q :: q in qs ==> GoodName(q.name) }

  predicate GoodRecords(rs: seq<Record>) { forall r :: r in rs ==> GoodName(r.name) && |r.data| < 0x1_0000 }

  /** The same record, apart from what a parser reads out of its data. */
  predicate SameRecord(r: Record, s: Record) {
    s.name == r.name && s.rtype == r.rtype && s.rclass == r.rclass && s.ttl == r.ttl && s.data == r.data
  }

  predicate SameRecords(rs: seq<Record>, ss: seq<Record>) {
    |rs| == |ss| && forall i :: 0 <= i < |rs| ==> SameRecord(rs[i], ss[i])
  }

  lemma {:induction false} HeaderRoundTrip(buf: seq<byte>, h: Header)
    requires Holds(buf, 0, EncodeHeader(h))
    ensures ParseHeader(buf) == h
  {
    hide Put16, U16, Holds;
    HoldsBound(buf, 0, EncodeHeader(h));
    var a, b, c, d, e, f := Put16(h.id), Put16(h.flags), Put16(h.qd), Put16(h.an), Put16(h.ns), Put16(h.ar);
    HoldsParts(buf, 0, a + b + c + d + e, f);
    HoldsParts(buf, 0, a + b + c + d, e);
    HoldsParts(buf, 0, a + b + c, d);
    HoldsParts(buf, 0, a + b, c);
    HoldsParts(buf, 0, a, b);
    Held16(buf, 0, h.id);
    Held16(buf, 2, h.flags);
    Held16(buf, 4, h.qd);
    Held16(buf, 6, h.an);
    Held16(buf, 8, h.ns);
    Held16(buf, 10, h.ar);
  }

  lemma {:induction false} HoldsBound(buf: seq<byte>, pos: nat, field: seq<byte>)
    requires Holds(buf, pos, field)
    ensures pos + |field| <= |buf|
  {
  }

  lemma {:induction false} QuestionRoundTrip(buf: seq<byte>, offset: nat, q: Question)
    requires GoodName(q.name) && Holds(buf, offset, EncodeQuestion(q))
    ensures ParseQuestion(buf, offset) == Ok((q, offset + |EncodeQuestion(q)|))
  {
    hide EncodeName, DecodeName, U16, Holds;
    var name := EncodeName(q.name);
    HoldsBound(buf, offset, EncodeQuestion(q));
    HoldsParts(buf, offset, name, Put16(q.qtype) + Put16(q.qclass));
    HoldsParts(buf, offset + |name|, Put16(q.qtype), Put16(q.qclass));
    NameRoundTrip(buf, offset, q.name);
    Held16(buf, offset + |name|, q.qtype);
    Held16(buf, offset + |name| + 2, q.qclass);
  }

  /** Where the data of an encoded record lies. */
  function DataAt(offset: nat, r: Record): (pos: nat) { offset + |EncodeName(r.name)| + 10 }

  lemma {:induction false} RecordHeadRoundTrip(buf: seq<byte>, pos: nat, r: Record)
    requires Holds(buf, pos, RecordHead(r)) && |r.data| < 0x1_0000
    ensures U16(buf, pos) == r.rtype && U16(buf, pos + 2) == r.rclass && U32(buf, pos + 4) == r.ttl
    ensures U16(buf, pos + 8) == |r.data|
  {
    HoldsParts(buf, pos, Put16(r.rtype) + Put16(r.rclass) + Put32(r.ttl), Put16(|r.data|));
    HoldsParts(buf, pos, Put16(r.rtype) + Put16(r.rclass), Put32(r.ttl));
    HoldsParts(buf, pos, Put16(r.rtype), Put16(r.rclass));
    Held16(buf, pos, r.rtype);
    Held16(buf, pos + 2, r.rclass);
    Held32(buf, pos + 4, r.ttl);
    Held16(buf, pos + 8, |r.data|);
  }

  lemma {:induction false} RecordRoundTrip(buf: seq<byte>, offset: nat, r: Record)
    requires GoodName(r.name) && |r.data| < 0x1_0000 && Holds(buf, offset, EncodeRecord(r))
    ensures Holds(buf, DataAt(offset, r), r.data) && DataAt(offset, r) + |r.data| <= |buf|
    ensures ParseRecord(buf, offset) ==
            Ok((Interpreted(buf, DataAt(offset, r), Record(r.name, r.rtype, r.rclass, r.ttl, r.data, [], 0, [], [])),
                offset + |EncodeRecord(r)|))
  {
    hide DecodeName, EncodeName, RecordHead, U16, U32, Interpreted;
    var name := EncodeName(r.name);
    HoldsParts(buf, offset, name, RecordHead(r) + r.data);
    HoldsParts(buf, offset + |name|, RecordHead(r), r.data);
    NameRoundTrip(buf, offset, r.name);
    RecordHeadRoundTrip(buf, offset + |name|, r);
  }

  lemma {:induction false} QuestionsRoundTrip(buf: seq<byte>, offset: nat, qs: seq<Question>)
    requires GoodQuestions(qs) && Holds(buf, offset, EncodeQuestions(qs))
    ensures ParseQuestions(buf, offset, |qs|) == Ok((qs, offset + |EncodeQuestions(qs)|))
    decreases |qs|
  {
    hide EncodeQuestion, ParseQuestion, Holds, GoodName;
    if qs != [] {
      HoldsParts(buf, offset, EncodeQuestion(qs[0]), EncodeQuestions(qs[1..]));
      QuestionRoundTrip(buf, offset, qs[0]);
      QuestionsRoundTrip(buf, offset + |EncodeQuestion(qs[0])|, qs[1..]);
      assert qs == [qs[0]] + qs[1..];
    }
  }

  lemma {:induction false} InterpretedSame(buf: seq<byte>, pos: nat, r: Record)
    requires pos + |r.data| <= |buf|
    ensures SameRecord(r, Interpreted(buf, pos, Record(r.name, r.rtype, r.rclass, r.ttl, r.data, [], 0, [], [])))
  {
  }

  lemma {:induction false} RecordsRoundTrip(buf: seq<byte>, offset: nat, rs: seq<Record>)
    requires GoodRecords(rs) && Holds(buf, offset, EncodeRecords(rs))
    ensures var parsed := ParseRecords(buf, offset, |rs|);
            parsed.Ok? && SameRecords(rs, parsed.value.0) && parsed.value.1 == offset + |EncodeRecords(rs)|
    decreases |rs|
  {
    hide EncodeRecord, ParseRecord, Holds, GoodName, Interpreted;
    if rs != [] {
      HoldsParts(buf, offset, EncodeRecord(rs[0]), EncodeRecords(rs[1..]));
      RecordRoundTrip(buf, offset, rs[0]);
      RecordsRoundTrip(buf, offset + |EncodeRecord(rs[0])|, rs[1..]);
      var rest := ParseRecords(buf, offset + |EncodeRecord(rs[0])|, |rs| - 1).value.0;
      var first := ParseRecord(buf, offset).value.0;
      InterpretedSame(buf, DataAt(offset, rs[0]), rs[0]);
      assert SameRecord(rs[0], first);
      forall i | 0 <= i < |rs|
        ensures SameRecord(rs[i], ([first] + rest)[i])
      {
        if i > 0 { assert SameRecord(rs[1..][i - 1], rest[i - 1]); }
      }
    }
  }

  /** The parts of a marshalled message, where they lie. */
  lemma {:induction false} MarshalledParts(m: Message)
    ensures var buf, q, a := Marshalled(m), EncodeQuestions(m.questions), EncodeRecords(m.answers);
            && Holds(buf, 0, EncodeHeader(Counted(m))) && Holds(buf, 12, q) && Holds(buf, 12 + |q|, a)
            && Holds(buf, 12 + |q| + |a|, EncodeRecords(m.additional))
  {
    hide EncodeHeader, EncodeQuestions, EncodeRecords;
    var buf, q, a, b := Marshalled(m), EncodeQuestions(m.questions), EncodeRecords(m.answers), EncodeRecords(m.additional);
    HoldsWhole(buf);
    HoldsParts(buf, 0, EncodeHeader(Counted(m)), q + (a + b));
    HoldsParts(buf, 12, q, a + b);
    HoldsParts(buf, 12 + |q|, a, b);
  }

  /** Parsing a marshalled message returns its questions and records, for any lists of well-formed names that fit
      the counts; the authority count must be zero, since nothing is marshalled for it. */
  lemma {:induction false} MessageRoundTrip(m: Message)
    requires |m.questions| < 0x1_0000 && |m.answers| < 0x1_0000 && |m.additional| < 0x1_0000 && m.header.ns == 0
    requires GoodQuestions(m.questions) && GoodRecords(m.answers) && GoodRecords(m.additional)
    ensures var parsed := Parsed(Marshalled(m));
            && parsed.Ok? && parsed.value.header == Counted(m) && parsed.value.questions == m.questions
            && SameRecords(m.answers, parsed.value.answers) && SameRecords(m.additional, parsed.value.additional)
  {
    hide ParseQuestions, ParseRecords, ParseHeader, EncodeQuestions, EncodeRecords, Marshalled;
    var buf, q, a := Marshalled(m), EncodeQuestions(m.questions), EncodeRecords(m.answers);
    MarshalledParts(m);
    HeaderRoundTrip(buf, Counted(m));
    QuestionsRoundTrip(buf, 12, m.questions);
    RecordsRoundTrip(buf, 12 + |q|, m.answers);
    RecordsRoundTrip(buf, 12 + |q| + |a|, m.additional);
  }

  // ---------- the service response ----------

  /** "_keibidrop", "_tcp" and "local"; the names "_keibidrop._tcp.local." and "local." are made of them. */
  const KEIBIDROP: Text := [0x5F, 0x6B, 0x65, 0x69, 0x62, 0x69, 0x64, 0x72, 0x6F, 0x70]
  const TCP: Text := [0x5F, 0x74, 0x63, 0x70]
  const LOCAL: Text := [0x6C, 0x6F, 0x63, 0x61, 0x6C]
  const SERVICE: Text := KEIBIDROP + [DOT] + (TCP + [DOT] + LOCAL) + [DOT]
  const DOMAIN: Text := LOCAL + [DOT]

  function InstanceName(instance: Text): (name: Text) { instance + [DOT] + SERVICE }

  function HostName(hostname: Text): (name: Text) { hostname + [DOT] + DOMAIN }

  function Plain(name: Text, rtype: uint16, ttl: uint32, data: seq<byte>): (r: Record) {
    Record(name, rtype, CLASS_IN, ttl, data, [], 0, [], [])
  }

  function SrvData(port: uint16, target: Text): (b: seq<byte>) { Put16(0) + Put16(0) + Put16(port) + EncodeName(target) }

  /** The message buildServiceResponse marshals, for an IPv4 address of four bytes. */
  function ServiceMessage(instance: Text, hostname: Text, port: uint16, ip: seq<byte>, ttl: uint32): (m: Message) {
    Message(Header(0, 0x8400, 0, 0, 0, 0), [],
            [Plain(SERVICE, TYPE_PTR, ttl, EncodeName(InstanceName(instance)))],
            [Plain(InstanceName(instance), TYPE_SRV, ttl, SrvData(port, HostName(hostname))),
             Plain(HostName(hostname), TYPE_A, ttl, ip)])
  }

  /** One record read back from a message that holds it, with its data interpreted. */
  lemma {:induction false} RecordReadBack(buf: seq<byte>, offset: nat, r: Record, rest: seq<Record>)
    requires GoodName(r.name) && |r.data| < 0x1_0000 && Holds(buf, offset, EncodeRecords([r] + rest))
    ensures Holds(buf, DataAt(offset, r), r.data) && DataAt(offset, r) + |r.data| <= |buf|
    ensures Holds(buf, offset + |EncodeRecord(r)|, EncodeRecords(rest))
    ensures var plain := Record(r.name, r.rtype, r.rclass, r.ttl, r.data, [], 0, [], []);
            ParseRecord(buf, offset) == Ok((Interpreted(buf, DataAt(offset, r), plain), offset + |EncodeRecord(r)|))
  {
    hide ParseRecord, Holds, EncodeRecord;
    assert ([r] + rest)[1..] == rest;
    HoldsParts(buf, offset, EncodeRecord(r), EncodeRecords(rest));
    RecordRoundTrip(buf, offset, r);
  }

  lemma {:induction false} PtrReadBack(buf: seq<byte>, pos: nat, r: Record, name: Text)
    requires r.rtype == TYPE_PTR && r.data == EncodeName(name) && GoodName(name) && Holds(buf, pos, r.data)
    ensures pos + |r.data| <= |buf| && Interpreted(buf, pos, r) == r.(ptrName := name)
  {
    NameRoundTrip(buf, pos, name);
  }

  lemma {:induction false} SrvReadBack(buf: seq<byte>, pos: nat, r: Record, port: uint16, target: Text)
    requires r.rtype == TYPE_SRV && r.data == SrvData(port, target) && GoodName(target) && Holds(buf, pos, r.data)
    ensures pos + |r.data| <= |buf| && Interpreted(buf, pos, r) == r.(srvPort := port, srvTarget := target)
  {
    hide EncodeName, DecodeName, Put16, U16, Holds;
    HoldsBound(buf, pos, r.data);
    HoldsParts(buf, pos, Put16(0) + Put16(0) + Put16(port), EncodeName(target));
    HoldsParts(buf, pos, Put16(0) + Put16(0), Put16(port));
    Held16(buf, pos + 4, port);
    NameRoundTrip(buf, pos + 6, target);
  }

  /** A built service response parses back to its instance name, its port and target, and its address. */
  lemma {:induction false} ServiceResponseParses(instance: Text, hostname: Text, port: uint16, ip: seq<byte>, ttl: uint32)
    requires |ip| == 4 && GoodName(InstanceName(instance)) && GoodName(HostName(hostname))
    requires |EncodeName(InstanceName(instance))| < 0x1_0000 && |SrvData(port, HostName(hostname))| < 0x1_0000
    ensures var parsed := Parsed(Marshalled(ServiceMessage(instance, hostname, port, ip, ttl)));
            && parsed.Ok? && |parsed.value.answers| == 1 && |parsed.value.additional| == 2
            && parsed.value.answers[0].name == SERVICE
            && parsed.value.answers[0].ptrName == parsed.value.additional[0].name == InstanceName(instance)
            && parsed.value.additional[0].srvPort == port
            && parsed.value.additional[0].srvTarget == parsed.value.additional[1].name == HostName(hostname)
            && parsed.value.additional[1].addr == ip
  {
    hide EncodeName, DecodeName, SrvData, Marshalled, Holds, GoodName, EncodeRecord, ParseRecord, Interpreted, InstanceName, HostName;
    ServiceIsGood();
    var m := ServiceMessage(instance, hostname, port, ip, ttl);
    var buf := Marshalled(m);
    MarshalledParts(m);
    HeaderRoundTrip(buf, Counted(m));
    var ptr, srv, a := m.answers[0], m.additional[0], m.additional[1];
    assert m.answers == [ptr] + [] && m.additional == [srv] + [a] && [a] == [a] + [];
    RecordReadBack(buf, 12, ptr, []);
    PtrReadBack(buf, DataAt(12, ptr), ptr, InstanceName(instance));
    var second := 12 + |EncodeRecord(ptr)|;
    assert EncodeRecords(m.answers) == EncodeRecord(ptr);
    RecordReadBack(buf, second, srv, [a]);
    SrvReadBack(buf, DataAt(second, srv), srv, port, HostName(hostname));
    var third := second + |EncodeRecord(srv)|;
    RecordReadBack(buf, third, a, []);
    AddressReadBack(buf, DataAt(third, a), a);
    ParseOne(buf, 12);
    ParseTwo(buf, second, third);
  }

  lemma {:induction false} JoinThree(a: Text, b: Text, c: Text)
    ensures Join([a, b, c]) == a + [DOT] + (b + [DOT] + c)
  {
    assert [a, b, c][1..] == [b, c] && [b, c][1..] == [c];
    assert Join([b, c]) == b + [DOT] + c;
  }

  lemma {:induction false} ServiceIsGood()
    ensures GoodName(SERVICE)
  {
    var labels := [KEIBIDROP, TCP, LOCAL];
    SplitJoin(labels);
    JoinThree(KEIBIDROP, TCP, LOCAL);
    hide Split, Join;
    assert TrimDot(SERVICE) == Join(labels);
  }

  /** Joining labels without dots and splitting again gives them back. */
  lemma {:induction false} SplitJoin(labels: seq<Text>)
    requires labels != [] && forall l :: l in labels ==> DOT !in l
    ensures Split(Join(labels)) == labels
    decreases |labels|
  {
    if |labels| == 1 {
      SplitOne(labels[0]);
    } else {
      SplitJoin(labels[1..]);
      SplitFirst(labels[0], Join(labels[1..]));
    }
  }

  lemma {:induction false} SplitOne(l: Text)
    requires DOT !in l
    ensures Split(l) == [l]
  {
    if l != [] {
      SplitOne(l[1..]);
      assert [l[0]] + l[1..] == l;
    }
  }

  lemma {:induction false} SplitFirst(l: Text, rest: Text)
    requires DOT !in l
    ensures Split(l + [DOT] + rest) == [l] + Split(rest)
  {
    var s := l + [DOT] + rest;
    if l == [] {
      assert s[1..] == rest;
    } else {
      SplitFirst(l[1..], rest);
      assert s[1..] == l[1..] + [DOT] + rest;
      assert [l[0]] + l[1..] == l;
    }
  }

  lemma {:induction false} AddressReadBack(buf: seq<byte>, pos: nat, r: Record)
    requires r.rtype == TYPE_A && |r.data| == 4 && Holds(buf, pos, r.data)
    ensures pos + 4 <= |buf| && Interpreted(buf, pos, r) == r.(addr := r.data)
  {
  }

  lemma {:induction false} ParseOne(buf: seq<byte>, offset: nat)
    requires ParseRecord(buf, offset).Ok?
    ensures ParseRecords(buf, offset, 1) == Ok(([ParseRecord(buf, offset).value.0], ParseRecord(buf, offset).value.1))
  {
    var first, end := ParseRecord(buf, offset).value.0, ParseRecord(buf, offset).value.1;
    assert ParseRecords(buf, end, 0) == Ok(([], end));
    assert [first] + [] == [first];
  }

  lemma {:induction false} ParseTwo(buf: seq<byte>, offset: nat, next: nat)
    requires ParseRecord(buf, offset).Ok? && ParseRecord(buf, offset).value.1 == next && ParseRecord(buf, next).Ok?
    ensures ParseRecords(buf, offset, 2).Ok?
    ensures ParseRecords(buf, offset, 2).value.0 == [ParseRecord(buf, offset).value.0, ParseRecord(buf, next).value.0]
  {
    ParseOne(buf, next);
    var a, b := ParseRecord(buf, offset).value.0, ParseRecord(buf, next).value.0;
    assert [a] + [b] == [a, b];
  }

  // ---------- the codec ----------

  lemma {:induction false} LabelStep(buf: seq<byte>, labels: seq<Text>, i: nat)
    requires i < |labels|
    ensures buf + LabelBytes(labels[i..]) == buf + [|Cut(labels[i])|] + Cut(labels[i]) + LabelBytes(labels[i + 1..])
  {
    var l, rest := Cut(labels[i]), LabelBytes(labels[i + 1..]);
    assert labels[i..][1..] == labels[i + 1..] && labels[i..][0] == labels[i];
    assert buf + ([|l|] + l + rest) == buf + [|l|] + l + rest;
  }

  method DnsNameEncode(name: Text) returns (buf: seq<byte>)
    ensures buf == EncodeName(name)
  {
    if name == [DOT] || name == [] {
      return [0];
    }
    hide Split, TrimDot;
    var labels := Split(TrimDot(name));
    buf := [];
    var i := 0;
    assert labels[i..] == labels && [] + LabelBytes(labels) == LabelBytes(labels);
    while i < |labels|
      invariant 0 <= i <= |labels|
      invariant buf + LabelBytes(labels[i..]) == LabelBytes(labels)
    {
      var l := labels[i];
      if |l| > 63 {
        l := l[..63];
      }
      LabelStep(buf, labels, i);
      buf := buf + [|l|] + l;
      i := i + 1;
    }
    assert labels[i..] == [];
    buf := buf + [0];
  }

  /** dnsNameDecode: at most ten jumps are followed, and between jumps the offset rises. */
  method DnsNameDecode(buf: seq<byte>, start: nat) returns (r: Result<(Text, nat)>)
    ensures r == DecodeName(buf, start)
    ensures r.Ok? ==> start < r.value.1 <= |buf|
  {
    if start >= |buf| {
      return Err;
    }
    var offset: nat, jumped, resume: nat, depth: nat, labels: seq<Text> := start, false, 0, 0, [];
    while true
      invariant depth <= 11
      invariant DecodeFrom(buf, start, offset, jumped, resume, depth, labels) == DecodeName(buf, start)
      invariant jumped ==> start < resume <= |buf|
      invariant !jumped ==> start <= offset
      decreases 11 - depth, |buf| - offset
    {
      if depth > 10 || offset >= |buf| {
        return Err;
      }
      var length := buf[offset];
      if length == 0 {
        if !jumped {
          resume := offset + 1;
        }
        break;
      }
      if length >= 0xC0 {
        if offset + 1 >= |buf| {
          return Err;
        }
        var ptr := Pointer(buf, offset);
        if ptr >= start && !jumped {
          return Err;
        }
        if !jumped {
          resume, jumped := offset + 2, true;
        }
        offset, depth := ptr, depth + 1;
      } else {
        var end := offset + 1 + length;
        if end > |buf| {
          return Err;
        }
        labels := labels + [buf[offset + 1..end]];
        offset := end;
      }
    }
    r := Ok((NameOf(labels), resume));
  }

  method AppendRecords(start: seq<byte>, records: seq<Record>) returns (buf: seq<byte>)
    ensures buf == start + EncodeRecords(records)
  {
    buf := start;
    var i := 0;
    while i < |records|
      invariant 0 <= i <= |records|
      invariant buf + EncodeRecords(records[i..]) == start + EncodeRecords(records)
    {
      var r := records[i];
      assert records[i..][1..] == records[i + 1..];
      RecordPieces(buf, r, EncodeRecords(records[i + 1..]));
      var name := DnsNameEncode(r.name);
      buf := buf + name + Put16(r.rtype) + Put16(r.rclass) + Put32(r.ttl) + Put16(|r.data|) + r.data;
      i := i + 1;
    }
    assert records[i..] == [];
  }

  lemma {:induction false} RecordPieces(buf: seq<byte>, r: Record, rest: seq<byte>)
    ensures buf + (EncodeRecord(r) + rest) ==
            buf + EncodeName(r.name) + Put16(r.rtype) + Put16(r.rclass) + Put32(r.ttl) + Put16(|r.data|) + r.data + rest
  {
    hide EncodeName, Put16, Put32;
    assert RecordHead(r) == Put16(r.rtype) + Put16(r.rclass) + Put32(r.ttl) + Put16(|r.data|);
    var n, a, b, c, d := EncodeName(r.name), Put16(r.rtype), Put16(r.rclass), Put32(r.ttl), Put16(|r.data|);
    assert EncodeRecord(r) == n + (a + b + c + d + r.data);
    assert n + (a + b + c + d + r.data) == n + a + b + c + d + r.data;
    assert buf + ((n + a + b + c + d + r.data) + rest) == (buf + (n + a + b + c + d + r.data)) + rest;
    assert buf + (n + a + b + c + d + r.data) == buf + n + a + b + c + d + r.data;
  }

  /** dnsMessageMarshal. */
  method DnsMessageMarshal(m: Message) returns (buf: seq<byte>)
    ensures buf == Marshalled(m)
  {
    hide EncodeHeader, EncodeName, EncodeRecords;
    buf := EncodeHeader(Counted(m));
    ghost var start := buf;
    var i := 0;
    while i < |m.questions|
      invariant 0 <= i <= |m.questions|
      invariant buf + EncodeQuestions(m.questions[i..]) == start + EncodeQuestions(m.questions)
    {
      var q := m.questions[i];
      assert m.questions[i..][1..] == m.questions[i + 1..];
      var name := DnsNameEncode(q.name);
      buf := buf + name + Put16(q.qtype) + Put16(q.qclass);
      i := i + 1;
    }
    assert m.questions[i..] == [];
    buf := AppendRecords(buf, m.answers);
    buf := AppendRecords(buf, m.additional);
    Regroup(start, EncodeQuestions(m.questions), EncodeRecords(m.answers), EncodeRecords(m.additional));
  }

  lemma {:induction false} Regroup(a: seq<byte>, b: seq<byte>, c: seq<byte>, d: seq<byte>)
    ensures a + b + c + d == a + (b + (c + d))
  {
  }

  method ParseRecordList(buf: seq<byte>, start: nat, count: nat) returns (r: Result<(seq<Record>, nat)>)
    ensures r == ParseRecords(buf, start, count)
  {
    hide ParseRecord;
    var offset: nat, records: seq<Record> := start, [];
    var i := 0;
    while i < count
      invariant 0 <= i <= count
      invariant ParseRecords(buf, start, count) == Before(records, ParseRecords(buf, offset, count - i))
    {
      var one := ParseOneRecord(buf, offset);
      if one.Err? {
        return Err;
      }
      BeforeStep(records, one.value.0, ParseRecords(buf, one.value.1, count - i - 1));
      records, offset, i := records + [one.value.0], one.value.1, i + 1;
    }
    r := Ok((records, offset));
  }

  /** What was parsed so far, before what the rest gives. */
  function Before<T>(done: seq<T>, rest: Result<(seq<T>, nat)>): (r: Result<(seq<T>, nat)>)
    ensures done == [] ==> r == rest
    ensures rest.Ok? && rest.value.0 == [] ==> r == Ok((done, rest.value.1))
  {
    if rest.Err? then Err
    else
      var all := done + rest.value.0;
      assert (done == [] ==> all == rest.value.0) && (rest.value.0 == [] ==> all == done);
      Ok((all, rest.value.1))
  }

  lemma {:induction false} BeforeStep<T>(done: seq<T>, x: T, rest: Result<(seq<T>, nat)>)
    ensures Before(done, if rest.Err? then Err else Ok(([x] + rest.value.0, rest.value.1))) == Before(done + [x], rest)
  {
    if rest.Ok? { assert done + ([x] + rest.value.0) == (done + [x]) + rest.value.0; }
  }

  /** One record: its name, its fixed fields, its data, and what its type says to read out of the data. */
  method ParseOneRecord(buf: seq<byte>, start: nat) returns (r: Result<(Record, nat)>)
    ensures r == ParseRecord(buf, start)
  {
    var name := DnsNameDecode(buf, start);
    if name.Err? {
      return Err;
    }
    var offset := name.value.1;
    if offset + 10 > |buf| {
      return Err;
    }
    var rec := Record(name.value.0, U16(buf, offset), U16(buf, offset + 2), U32(buf, offset + 4), [], [], 0, [], []);
    var n := U16(buf, offset + 8);
    offset := offset + 10;
    if offset + n > |buf| {
      return Err;
    }
    rec := rec.(data := buf[offset..offset + n]);
    if rec.rtype == TYPE_PTR {
      var ptr := DnsNameDecode(buf, offset);
      if ptr.Ok? {
        rec := rec.(ptrName := ptr.value.0);
      }
    } else if rec.rtype == TYPE_SRV {
      if n >= 6 {
        rec := rec.(srvPort := U16(buf, offset + 4));
        var target := DnsNameDecode(buf, offset + 6);
        if target.Ok? {
          rec := rec.(srvTarget := target.value.0);
        }
      }
    } else if (rec.rtype == TYPE_A && n == 4) || (rec.rtype == TYPE_AAAA && n == 16) {
      rec := rec.(addr := buf[offset..offset + n]);
    }
    r := Ok((rec, offset + n));
  }

  method ParseQuestionList(buf: seq<byte>, start: nat, count: nat) returns (r: Result<(seq<Question>, nat)>)
    ensures r == ParseQuestions(buf, start, count)
  {
    hide DecodeName, U16;
    var offset: nat, questions: seq<Question> := start, [];
    var i := 0;
    while i < count
      invariant 0 <= i <= count
      invariant ParseQuestions(buf, start, count) == Before(questions, ParseQuestions(buf, offset, count - i))
    {
      var name := DnsNameDecode(buf, offset);
      if name.Err? || name.value.1 + 4 > |buf| {
        return Err;
      }
      var q := Question(name.value.0, U16(buf, name.value.1), U16(buf, name.value.1 + 2));
      BeforeStep(questions, q, ParseQuestions(buf, name.value.1 + 4, count - i - 1));
      questions, offset, i := questions + [q], name.value.1 + 4, i + 1;
    }
    r := Ok((questions, offset));
  }

  /** dnsMessageParse. */
  method DnsMessageParse(buf: seq<byte>) returns (r: Result<Message>)
    ensures r == Parsed(buf)
  {
    if |buf| < 12 {
      return Err;
    }
    var h := ParseHeader(buf);
    var questions := ParseQuestionList(buf, 12, h.qd);
    if questions.Err? {
      return Err;
    }
    r := ParseSections(buf, h, questions.value.0, questions.value.1);
  }

  /** The two record sections. */
  method ParseSections(buf: seq<byte>, h: Header, questions: seq<Question>, start: nat) returns (r: Result<Message>)
    ensures r == SectionsParsed(buf, h, questions, start)
  {
    hide ParseRecords;
    var answers := ParseRecordList(buf, start, h.an);
    if answers.Err? {
      return Err;
    }
    var additional := ParseRecordList(buf, answers.value.1, h.ar + h.ns);
    if additional.Err? {
      return Err;
    }
    r := Ok(Message(h, questions, answers.value.0, additional.value.0));
  }

  /** buildServiceResponse: an address that is not IPv4 is refused. */
  method BuildServiceResponse(instance: Text, hostname: Text, port: uint16, ip4: Option<seq<byte>>, ttl: uint32)
    returns (r: Result<seq<byte>>)
    requires ip4.Some? ==> |ip4.value| == 4
    ensures r == if ip4.None? then Err else Ok(Marshalled(ServiceMessage(instance, hostname, port, ip4.value, ttl)))
  {
    var ptrData := DnsNameEncode(InstanceName(instance));
    var target := DnsNameEncode(HostName(hostname));
    if ip4.None? {
      return Err;
    }
    var m := Message(Header(0, 0x8400, 0, 0, 0, 0), [],
                     [Plain(SERVICE, TYPE_PTR, ttl, ptrData)],
                     [Plain(InstanceName(instance), TYPE_SRV, ttl, Put16(0) + Put16(0) + Put16(port) + target),
                      Plain(HostName(hostname), TYPE_A, ttl, ip4.value)]);
    var buf := DnsMessageMarshal(m);
    r := Ok(buf);
  }
}
