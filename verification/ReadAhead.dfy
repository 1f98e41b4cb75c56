/** pkg/filesystem/fuse_directory.go and probe_fetch.go: the predictive read-ahead detector of one open file. */
module ReadAheads {
  import opened Bytes

  const BLOCK: int := 0x100_0000  // ReadAheadBlock, 16 MiB

  function BlockOf(p: int): (b: int) { p / 0x100_0000 }

  /** A refill: the blocks [lo, hi) one background fetch takes, in order. */
  datatype Refill = Refill(lo: int, hi: int)

  /** The detector's fields: raStreamActive, raStreamBytes, raHeadOffset, raPrefetchedTo, raWindowBlocks and
      raPrefetching. */
  datatype Stream = Stream(active: bool, consumed: int, head: int, frontier: int, window: int, running: bool)

  const IDLE: Stream := Stream(false, 0, 0, 0, 0, false)

  /** A read near the stream's head belongs to it; farther away is a seek. */
  predicate InStream(s: Stream, maxWin: int, offset: int) {
    s.active && BlockOf(s.head) - maxWin <= BlockOf(offset) <= BlockOf(s.head) + maxWin
  }

  /** A seek, or the first read: the stream starts here and nothing is fetched. */
  function Restarted(s: Stream, offset: int, n: int): (r: Stream) {
    s.(active := true, consumed := n, head := offset + n, frontier := BlockOf(offset) + 1, window := 1)
  }

  function Advanced(s: Stream, offset: int, n: int): (r: Stream) {
    s.(consumed := s.consumed + n, head := Max(s.head, offset + n))
  }

  /** Half a block was consumed since the stream started. */
  predicate StreamProven(s: Stream) { s.active && s.consumed >= 0x80_0000 }

  /** The frontier never lags the head. */
  function Caught(s: Stream): (r: Stream) { s.(frontier := Max(s.frontier, BlockOf(s.head) + 1)) }

  /** The buffered lead has drained to half the window and no refill runs. */
  predicate NeedsRefill(s: Stream) {
    s.frontier - (BlockOf(s.head) + 1) <= Max(s.window / 2, 1) && !s.running
  }

  /** One read: the stream after it and the refill it starts, if any. */
  function OnRead(s: Stream, maxWin: int, offset: int, n: int): (r: (Stream, Option<Refill>)) {
    if maxWin <= 0 then (s, None)
    else if !InStream(s, maxWin, offset) then (Restarted(s, offset, n), None)
    else
      var a := Advanced(s, offset, n);
      if !StreamProven(a) then (a, None)
      else
        var c := Caught(a);
        if !NeedsRefill(c) then (c, None)
        else
          var hi := BlockOf(c.head) + 1 + maxWin;
          (c.(window := maxWin, frontier := hi, running := true), Some(Refill(c.frontier, hi)))
  }

  // ---------- whole runs ----------

  datatype Event = Read(offset: nat, n: nat) | RefillEnds

  /** A refill as the run saw it: which stream it belongs to, the stream's own reads so far and their high-water mark. */
  datatype Issued = Issued(refill: Refill, stream: nat, since: seq<Event>)

  /** The detector with its history: seeks so far, the reads since the last one, every refill, and how many ended. */
  datatype History = History(now: Stream, stream: nat, since: seq<Event>, issued: seq<Issued>, ended: nat)

  const FRESH: History := History(IDLE, 0, [], [], 0)

  function After(h: History, maxWin: int, e: Event): (r: History) {
    match e
    case RefillEnds =>
      if h.now.running then h.(now := h.now.(running := false), ended := h.ended + 1) else h
    case Read(offset, n) =>
      var (s, refill) := OnRead(h.now, maxWin, offset, n);
      var restarts := maxWin > 0 && !InStream(h.now, maxWin, offset);
      var since := if restarts then [e] else h.since + [e];
      var stream := if restarts then h.stream + 1 else h.stream;
      History(s, stream, since,
              if refill.Some? then h.issued + [Issued(refill.value, stream, since)] else h.issued, h.ended)
  }

  function AfterAll(h: History, maxWin: int, events: seq<Event>): (r: History)
    decreases |events|
  {
    if events == [] then h else AfterAll(After(h, maxWin, events[0]), maxWin, events[1..])
  }

  /** The bytes a list of reads asked for, and the end of the farthest one. */
  function Consumed(since: seq<Event>): (n: nat) {
    if since == [] then 0
    else
      var last := since[|since| - 1];
      Consumed(since[..|since| - 1]) + if last.Read? then last.n else 0
  }

  function HighWater(since: seq<Event>): (p: nat) {
    if since == [] then 0
    else
      var last := since[|since| - 1];
      Max(HighWater(since[..|since| - 1]), if last.Read? then last.offset + last.n else 0)
  }

  /** One refill keeps the bounds: half a block was consumed, and it takes the blocks past the read head, at most
      the window. */
  predicate Bounded(i: Issued, maxWin: int) {
    && Consumed(i.since) >= 0x80_0000
    && BlockOf(HighWater(i.since)) + 1 <= i.refill.lo <= i.refill.hi == BlockOf(HighWater(i.since)) + 1 + maxWin
    && (maxWin >= 2 ==> i.refill.lo < i.refill.hi)
  }

  /** The refills so far are bounded, and within a stream ascending, disjoint and below the frontier. */
  ghost predicate Ascending(issued: seq<Issued>, stream: nat, frontier: int, maxWin: int) {
    && (forall i :: 0 <= i < |issued| ==> Bounded(issued[i], maxWin) && issued[i].stream <= stream)
    && (forall i :: 0 <= i < |issued| && issued[i].stream == stream ==> issued[i].refill.hi <= frontier)
    && (forall i, j :: 0 <= i < j < |issued| && issued[i].stream == issued[j].stream ==>
          issued[i].refill.hi <= issued[j].refill.lo)
  }

  ghost predicate Good(h: History, maxWin: int) {
    var s := h.now;
    && (s.active ==> s.consumed == Consumed(h.since) && s.head == HighWater(h.since))
    && (s.active ==> 1 <= s.window <= maxWin)
    && (!s.active ==> h.issued == [] && !s.running)
    && Ascending(h.issued, h.stream, s.frontier, maxWin)
    && |h.issued| == h.ended + if s.running then 1 else 0
  }

  lemma {:induction false} AscendingKept(issued: seq<Issued>, stream: nat, frontier: int, maxWin: int, stream': nat,
                                         frontier': int)
    requires Ascending(issued, stream, frontier, maxWin)
    requires stream < stream' || (stream == stream' && frontier <= frontier')
    ensures Ascending(issued, stream', frontier', maxWin)
  {
  }

  lemma {:induction false} AscendingAppend(issued: seq<Issued>, frontier: int, maxWin: int, x: Issued)
    requires Ascending(issued, x.stream, frontier, maxWin) && Bounded(x, maxWin) && frontier <= x.refill.lo
    ensures Ascending(issued + [x], x.stream, x.refill.hi, maxWin)
  {
  }

  /** What one read within the stream does to the frontier, and what a refill it starts takes. */
  lemma {:induction false} OnReadInStream(s: Stream, maxWin: int, offset: nat, n: nat)
    requires maxWin > 0 && InStream(s, maxWin, offset) && 1 <= s.window <= maxWin
    ensures var (r, refill) := OnRead(s, maxWin, offset, n);
            && r.active && r.consumed == s.consumed + n && r.head == Max(s.head, offset + n)
            && 1 <= r.window <= maxWin && s.frontier <= r.frontier
            && (refill.None? ==> r.running == s.running)
            && (refill.Some? ==>
                  && !s.running && r.running && r.consumed >= 0x80_0000 && s.frontier <= refill.value.lo
                  && BlockOf(r.head) + 1 <= refill.value.lo <= refill.value.hi == r.frontier
                  && r.frontier == BlockOf(r.head) + 1 + maxWin
                  && (maxWin >= 2 ==> refill.value.lo < refill.value.hi))
  {
  }

  lemma {:induction false} SinceGrows(since: seq<Event>, offset: nat, n: nat)
    ensures Consumed(since + [Read(offset, n)]) == Consumed(since) + n
    ensures HighWater(since + [Read(offset, n)]) == Max(HighWater(since), offset + n)
  {
    assert (since + [Read(offset, n)])[..|since|] == since;
  }

  lemma {:induction false} OnReadElsewhere(s: Stream, maxWin: int, offset: nat, n: nat)
    requires maxWin > 0 && !InStream(s, maxWin, offset)
    ensures OnRead(s, maxWin, offset, n) == (Restarted(s, offset, n), None)
    ensures Consumed([Read(offset, n)]) == n && HighWater([Read(offset, n)]) == offset + n
  {
    SinceGrows([], offset, n);
    assert [] + [Read(offset, n)] == [Read(offset, n)];
  }

  lemma {:induction false} DetectorOff(s: Stream, maxWin: int, offset: nat, n: nat)
    requires maxWin <= 0
    ensures OnRead(s, maxWin, offset, n) == (s, None)
  {
  }

  lemma {:induction false} AfterKeepsGood(h: History, maxWin: int, e: Event)
    requires Good(h, maxWin)
    ensures Good(After(h, maxWin, e), maxWin)
  {
    hide Ascending, Bounded, OnRead, BlockOf, Consumed, HighWater;
    if e.Read? && maxWin <= 0 {
      DetectorOff(h.now, maxWin, e.offset, e.n);
    } else if e.Read? {
      var s, r := h.now, After(h, maxWin, e);
      if InStream(s, maxWin, e.offset) {
        SinceGrows(h.since, e.offset, e.n);
        OnReadInStream(s, maxWin, e.offset, e.n);
        RefillBounded(h, maxWin, e.offset, e.n);
        AscendingKept(h.issued, h.stream, s.frontier, maxWin, h.stream, r.now.frontier);
        if |r.issued| > |h.issued| { AscendingAppend(h.issued, s.frontier, maxWin, r.issued[|h.issued|]); }
      } else {
        OnReadElsewhere(s, maxWin, e.offset, e.n);
        AscendingKept(h.issued, h.stream, s.frontier, maxWin, h.stream + 1, r.now.frontier);
      }
    }
  }

  lemma {:induction false} RefillBounded(h: History, maxWin: int, offset: nat, n: nat)
    requires maxWin > 0 && InStream(h.now, maxWin, offset) && 1 <= h.now.window <= maxWin
    requires h.now.consumed == Consumed(h.since) && h.now.head == HighWater(h.since)
    ensures var refill := OnRead(h.now, maxWin, offset, n).1;
            refill.Some? ==> Bounded(Issued(refill.value, h.stream, h.since + [Read(offset, n)]), maxWin)
  {
    SinceGrows(h.since, offset, n);
    OnReadInStream(h.now, maxWin, offset, n);
  }

  /** Over any run of reads and refills, for every window: the refills of one stream are ascending and disjoint,
      each takes only blocks within the window past the read head's high-water mark, none starts before half a
      block was consumed since the last seek, and at most one runs at a time. */
  lemma {:induction false} ReadAheadFrontier(maxWin: int, events: seq<Event>)
    ensures var h := AfterAll(FRESH, maxWin, events);
            && (forall i :: 0 <= i < |h.issued| ==> Bounded(h.issued[i], maxWin))
            && (forall i, j :: 0 <= i < j < |h.issued| && h.issued[i].stream == h.issued[j].stream ==>
                  h.issued[i].refill.hi <= h.issued[j].refill.lo)
            && h.ended <= |h.issued| <= h.ended + 1
  {
    AllGood(FRESH, maxWin, events);
  }

  lemma {:induction false} AllGood(h: History, maxWin: int, events: seq<Event>)
    requires Good(h, maxWin)
    ensures Good(AfterAll(h, maxWin, events), maxWin)
    decreases |events|
  {
    if events != [] {
      AfterKeepsGood(h, maxWin, events[0]);
      AllGood(After(h, maxWin, events[0]), maxWin, events[1..]);
    }
  }

  // ---------- when a refill must start ----------

  /** A read within the window of the farthest byte the stream has read. */
  predicate NearHead(since: seq<Event>, maxWin: int, offset: nat) {
    since != [] && BlockOf(HighWater(since)) - maxWin <= BlockOf(offset) <= BlockOf(HighWater(since)) + maxWin
  }

  /** The stream has had a refill. */
  predicate Refilled(issued: seq<Issued>, stream: nat) { issued != [] && issued[|issued| - 1].stream == stream }

  /** How many blocks past the one the read head is in the stream's refills reach. */
  function BlocksAhead(issued: seq<Issued>, stream: nat, head: int): (n: int) {
    if Refilled(issued, stream) then Max(issued[|issued| - 1].refill.hi - (BlockOf(head) + 1), 0) else 0
  }

  /** The lead at which the next refill is due: one block for the stream's first, then half the window. */
  function DueAt(issued: seq<Issued>, stream: nat, maxWin: int): (n: int) {
    if Refilled(issued, stream) then Max(maxWin / 2, 1) else 1
  }

  /** A read of this history has consumed half a block since the seek, no refill runs, and the lead has drained. */
  predicate RefillDue(h: History, maxWin: int, since: seq<Event>) {
    && Consumed(since) >= 0x80_0000 && |h.issued| == h.ended
    && BlocksAhead(h.issued, h.stream, HighWater(since)) <= DueAt(h.issued, h.stream, maxWin)
  }

  /** The detector's fields are those the history tells. */
  ghost predicate Told(h: History, maxWin: int) {
    var s, past := h.now, BlockOf(h.now.head) + 1;
    && (s.active <==> h.since != [])
    && (s.active ==>
          && s.frontier <= past + BlocksAhead(h.issued, h.stream, s.head)
          && Max(s.frontier, past) == past + BlocksAhead(h.issued, h.stream, s.head)
          && s.window == if Refilled(h.issued, h.stream) then maxWin else 1)
  }

  lemma {:induction false} AheadNear(h: History, maxWin: int, offset: nat, n: nat)
    requires Good(h, maxWin) && Told(h, maxWin) && maxWin > 0 && InStream(h.now, maxWin, offset)
    ensures var s := h.now; var head := Max(s.head, offset + n);
            Max(s.frontier, BlockOf(head) + 1) == BlockOf(head) + 1 + BlocksAhead(h.issued, h.stream, head)
  {
    var s, head := h.now, Max(h.now.head, offset + n);
    assert BlockOf(s.head) <= BlockOf(head);
  }

  /** One read of a stream starts exactly the refill that is due. */
  lemma {:induction false} ReadRefills(h: History, maxWin: int, offset: nat, n: nat)
    requires Good(h, maxWin) && Told(h, maxWin) && maxWin > 0
    ensures InStream(h.now, maxWin, offset) <==> NearHead(h.since, maxWin, offset)
    ensures NearHead(h.since, maxWin, offset) ==>
              var since, r := h.since + [Read(offset, n)], After(h, maxWin, Read(offset, n));
              var next := BlockOf(HighWater(since)) + 1;
              && r.stream == h.stream && r.since == since && r.ended == h.ended
              && r.issued == h.issued + if RefillDue(h, maxWin, since)
                                        then [Issued(Refill(next + BlocksAhead(h.issued, h.stream, HighWater(since)), next + maxWin),
                                                     h.stream, since)]
                                        else []
    ensures !NearHead(h.since, maxWin, offset) ==>
              After(h, maxWin, Read(offset, n)) ==
              History(Restarted(h.now, offset, n), h.stream + 1, [Read(offset, n)], h.issued, h.ended)
  {
    hide Ascending, BlockOf, Consumed, HighWater, Told;
    ToldActive(h, maxWin);
    if InStream(h.now, maxWin, offset) {
      ToldWindow(h, maxWin);
      AheadNear(h, maxWin, offset, n);
      SinceGrows(h.since, offset, n);
      assert h.issued + [] == h.issued;
    } else {
      OnReadElsewhere(h.now, maxWin, offset, n);
    }
  }

  lemma {:induction false} ToldActive(h: History, maxWin: int)
    requires Told(h, maxWin)
    ensures h.now.active <==> h.since != []
  {
  }

  lemma {:induction false} ToldWindow(h: History, maxWin: int)
    requires Told(h, maxWin) && h.now.active && maxWin > 0
    ensures Max(h.now.window / 2, 1) == DueAt(h.issued, h.stream, maxWin)
  {
  }

  lemma {:induction false} AfterKeepsTold(h: History, maxWin: int, e: Event)
    requires Good(h, maxWin) && Told(h, maxWin) && maxWin > 0
    ensures Told(After(h, maxWin, e), maxWin)
  {
    hide Good, Ascending;
    if e.Read? {
      if InStream(h.now, maxWin, e.offset) {
        InStreamKeepsTold(h, maxWin, e.offset, e.n);
      } else {
        hide Consumed, HighWater;
        assert BlockOf(e.offset) <= BlockOf(e.offset + e.n);
        NewStream(h, maxWin);
      }
    }
  }

  lemma {:induction false} InStreamKeepsTold(h: History, maxWin: int, offset: nat, n: nat)
    requires Good(h, maxWin) && Told(h, maxWin) && maxWin > 0 && InStream(h.now, maxWin, offset)
    ensures Told(After(h, maxWin, Read(offset, n)), maxWin)
  {
    hide Good, Ascending, Consumed, HighWater, BlockOf;
    AheadNear(h, maxWin, offset, n);
    var r := After(h, maxWin, Read(offset, n));
    if |r.issued| > |h.issued| {
      assert r.issued[|r.issued| - 1].refill.hi == BlockOf(r.now.head) + 1 + maxWin;
    } else {
      assert r.issued == h.issued;
    }
  }

  /** A stream that has just begun has no refill. */
  lemma {:induction false} NewStream(h: History, maxWin: int)
    requires Good(h, maxWin)
    ensures !Refilled(h.issued, h.stream + 1)
  {
  }

  lemma {:induction false} AllTold(h: History, maxWin: int, events: seq<Event>)
    requires Good(h, maxWin) && Told(h, maxWin) && maxWin > 0
    ensures Good(AfterAll(h, maxWin, events), maxWin) && Told(AfterAll(h, maxWin, events), maxWin)
    decreases |events|
  {
    hide Good, Told, After;
    if events != [] {
      AfterKeepsGood(h, maxWin, events[0]);
      AfterKeepsTold(h, maxWin, events[0]);
      AllTold(After(h, maxWin, events[0]), maxWin, events[1..]);
    }
  }

  /** Over any run, for every window: a read far from the head begins a new stream and starts no refill; a read near it
      starts one exactly when half a block has been consumed since the last seek, no refill runs, and the refills of the
      stream reach at most half the window past the head (one block before its first). That refill goes on where the
      last one ended, or past the head, and reaches the window past the head. */
  lemma {:induction false} RefillsExactly(maxWin: int, events: seq<Event>, offset: nat, n: nat)
    requires maxWin > 0
    ensures var h := AfterAll(FRESH, maxWin, events);
            var r, since := After(h, maxWin, Read(offset, n)), h.since + [Read(offset, n)];
            var next := BlockOf(HighWater(since)) + 1;
            r.ended == h.ended &&
            if NearHead(h.since, maxWin, offset) then
              && r.stream == h.stream && r.since == since
              && r.issued == h.issued + if RefillDue(h, maxWin, since)
                                        then [Issued(Refill(next + BlocksAhead(h.issued, h.stream, HighWater(since)), next + maxWin),
                                                     h.stream, since)]
                                        else []
            else r.stream == h.stream + 1 && r.since == [Read(offset, n)] && r.issued == h.issued
  {
    hide Told, Good, After, BlockOf, HighWater, Consumed;
    FreshTold(maxWin);
    AllTold(FRESH, maxWin, events);
    ReadRefills(AfterAll(FRESH, maxWin, events), maxWin, offset, n);
  }

  lemma {:induction false} FreshTold(maxWin: int)
    ensures Told(FRESH, maxWin) && Good(FRESH, maxWin)
  {
  }

  /** So a stream that has consumed half a block is never left without read-ahead: after each of its reads a refill runs,
      or the blocks ahead of the head are more than half the window. */
  lemma {:induction false} StreamKeptAhead(maxWin: int, events: seq<Event>, offset: nat, n: nat)
    requires maxWin > 0 && NearHead(AfterAll(FRESH, maxWin, events).since, maxWin, offset)
    requires Consumed(AfterAll(FRESH, maxWin, events).since + [Read(offset, n)]) >= 0x80_0000
    ensures var r := After(AfterAll(FRESH, maxWin, events), maxWin, Read(offset, n));
            || |r.issued| == r.ended + 1
            || BlocksAhead(r.issued, r.stream, HighWater(r.since)) > Max(maxWin / 2, 1)
  {
    hide Told, Good, BlockOf, HighWater, Consumed, NearHead;
    var h := AfterAll(FRESH, maxWin, events);
    RefillsExactly(maxWin, events, offset, n);
    FreshTold(maxWin);
    AllTold(FRESH, maxWin, events);
    AtMostOne(h, maxWin);
    if !Refilled(h.issued, h.stream) { assert BlocksAhead(h.issued, h.stream, HighWater(h.since + [Read(offset, n)])) == 0; }
  }

  lemma {:induction false} AtMostOne(h: History, maxWin: int)
    requires Good(h, maxWin)
    ensures h.ended <= |h.issued| <= h.ended + 1
  {
  }

  /** With a window of one block the bound is tight: a read inside the buffered lead starts a refill of nothing. */
  lemma {:induction false} WindowOfOneRefillsNothing() returns (events: seq<Event>)
    ensures var h := AfterAll(FRESH, 1, events);
            |h.issued| == 2 && h.issued[1].refill.lo == h.issued[1].refill.hi
  {
    var half := Read(0, 0x80_0000);
    var h1 := After(FRESH, 1, half);
    var h2 := After(h1, 1, Read(0, 1));
    var h3 := After(h2, 1, RefillEnds);
    var h4 := After(h3, 1, Read(0, 1));
    events := [half, Read(0, 1), RefillEnds, Read(0, 1)];
    assert events[1..] == [Read(0, 1), RefillEnds, Read(0, 1)];
    assert events[1..][1..] == [RefillEnds, Read(0, 1)];
    assert events[1..][1..][1..] == [Read(0, 1)];
    assert AfterAll(h3, 1, [Read(0, 1)]) == h4;
    assert AfterAll(h2, 1, [RefillEnds, Read(0, 1)]) == h4;
    assert AfterAll(h1, 1, [Read(0, 1), RefillEnds, Read(0, 1)]) == h4;
  }

  // ---------- the detector ----------

  class ReadAhead {
    const maxWin: int  // ReadAheadWindowBlocks
    var active: bool
    var consumed: int
    var head: int
    var frontier: int
    var window: int
    var running: bool

    function State(): (s: Stream)
      reads this
    {
      Stream(active, consumed, head, frontier, window, running)
    }

    constructor (windowBlocks: int)
      ensures State() == IDLE && maxWin == windowBlocks
    {
      maxWin := windowBlocks;
      active, consumed, head, frontier, window, running := false, 0, 0, 0, 0, false;
    }

    /** maybeReadAhead, on every read of a remote file. */
    method MaybeReadAhead(offset: nat, n: nat) returns (refill: Option<Refill>)
      modifies this
      ensures (State(), refill) == OnRead(old(State()), maxWin, offset, n)
    {
      if maxWin <= 0 {
        return None;
      }
      var curBlock, readEnd := BlockOf(offset), offset + n;
      var headBlock := BlockOf(head);
      var inStream := active && curBlock <= headBlock + maxWin && curBlock >= headBlock - maxWin;
      if !inStream {
        active, consumed, head, frontier, window := true, n, readEnd, curBlock + 1, 1;
        return None;
      }
      consumed := consumed + n;
      if readEnd > head {
        head := readEnd;
      }
      headBlock := BlockOf(head);
      if !(active && consumed >= 0x80_0000) {
        return None;
      }
      if frontier < headBlock + 1 {
        frontier := headBlock + 1;
      }
      var blocksAhead, half := frontier - (headBlock + 1), window / 2;
      if half < 1 {
        half := 1;
      }
      if blocksAhead > half || running {
        return None;
      }
      window := maxWin;
      var from, target := frontier, headBlock + 1 + maxWin;
      frontier, running := target, true;
      return Some(Refill(from, target));
    }

    /** prefetchRange on its way out. */
    method RefillDone()
      modifies this`running
      ensures State() == old(State()).(running := false)
    {
      running := false;
    }
  }
}
