/** pkg/filesystem/fuse_directory.go: the two-peer version protocol of one file. Stamps are nanoseconds; 0 is none. */
module VersionProtocols {
  import opened Bytes

  // ---------- one file on one peer ----------

  /** The version fields of a tracked file: the stat stamp, LocalNewer, RemoteMtimeNs (the watermark), HeldMtimeNs,
      LastAnnouncedMtimeNs, EditBaseMtimeNs and NotRemoteSynced. */
  datatype FileState = FileState(stat: int, localNewer: bool, remote: int, held: int, announced: int, editBase: int,
                                 dirty: bool)

  /** The base an edit session or a truncate declares: the newest version this peer held or announced, -1 when it
      never held any of an existing peer version. */
  function SessionBase(f: FileState): (b: int) {
    var b := Max(f.held, f.announced);
    if b == 0 && f.remote > 0 then -1 else b
  }

  /** A new file: the fresh-create class. */
  function Created(f: FileState, t: int): (r: FileState) {
    f.(editBase := -1, dirty := true, localNewer := true, stat := t)
  }

  function Wrote(f: FileState, t: int): (r: FileState) {
    f.(editBase := if f.dirty then f.editBase else SessionBase(f), dirty := true, localNewer := true, stat := t)
  }

  /** announceLocalEdit; the stamp is the disk mtime raised to the in-memory identity. */
  function AnnounceStamp(f: FileState, disk: int): (s: int) { Max(f.stat, disk) }

  function Announced(f: FileState, disk: int): (r: FileState) {
    var s := AnnounceStamp(f, disk);
    f.(dirty := false, announced := s, held := Max(f.held, s))
  }

  /** What an incoming stamp is compared with: the watermark, or the stat before there is one, raised by a newer
      local write. */
  function Identity(f: FileState): (i: int) {
    var w := if f.remote == 0 then f.stat else f.remote;
    if f.localNewer && f.stat > w then f.stat else w
  }

  datatype Kind = Add | Edit

  datatype Message = Message(kind: Kind, stamp: int, base: int)

  /** Is the announce accepted? An exact tie with our own write goes to the rank; on a tie with the watermark an
      ADD is a redelivery and an EDIT is accepted again. */
  predicate Accepts(f: FileState, m: Message, peerWinsTie: bool) {
    if m.kind.Add?
    then m.stamp > Identity(f) || (f.localNewer && m.stamp > 0 && m.stamp == Identity(f) && peerWinsTie)
    else m.stamp >= Identity(f) && (m.stamp == Identity(f) && f.localNewer ==> peerWinsTie)
  }

  /** The edit is concurrent: accepted over a local change its declared base is older than. */
  predicate Conflicts(f: FileState, m: Message, peerWinsTie: bool) {
    Accepts(f, m, peerWinsTie) && f.localNewer && m.base != 0 && m.base < Identity(f)
  }

  /** The file after the judgement. A rejected EDIT changes nothing; a rejected ADD raises the watermark, and on a
      file without local change it still replaces the stat, unless it is an older, shorter one over cached bytes. */
  function Judged(f: FileState, m: Message, peerWinsTie: bool, shrinks: bool): (r: FileState) {
    var raised := f.(remote := Max(f.remote, m.stamp));
    if Accepts(f, m, peerWinsTie) then raised.(localNewer := false, stat := m.stamp)
    else if m.kind.Edit? then f
    else if f.localNewer || (shrinks && m.stamp < Identity(f)) then raised
    else raised.(stat := m.stamp)
  }

  /** When an announce is accepted, by the stamps the file knows: the watermark, or the stat before there is one, and the
      stamp of a local change. An ADD must be newer than all of them, or tie with a local change and win; an EDIT must be
      older than none, and win a tie with any of them over a local change. */
  lemma {:induction false} AcceptedExactly(f: FileState, m: Message, peerWinsTie: bool)
    ensures var known := if f.remote == 0 then f.stat else f.remote;
            var ties := m.stamp >= known && m.stamp >= f.stat && (m.stamp == known || m.stamp == f.stat);
            && (m.kind.Add? ==>
                  (Accepts(f, m, peerWinsTie) <==>
                     || (m.stamp > known && (f.localNewer ==> m.stamp > f.stat))
                     || (f.localNewer && ties && peerWinsTie && m.stamp > 0)))
            && (m.kind.Edit? ==>
                  (Accepts(f, m, peerWinsTie) <==>
                     m.stamp >= known && (f.localNewer ==> m.stamp >= f.stat && (ties ==> peerWinsTie))))
            && (Conflicts(f, m, peerWinsTie) <==>
                  Accepts(f, m, peerWinsTie) && f.localNewer && m.base != 0 && (m.base < known || m.base < f.stat))
  {
  }

  /** What a judged announce leaves of the file. The held and announced stamps, the base and the session are never
      touched. An accepted announce ends the local change and gives the file its stamp; a rejected EDIT changes nothing;
      a rejected ADD raises the watermark, keeps a local change, and otherwise re-stamps the file unless it is an older
      announce of a shorter one. */
  lemma {:induction false} JudgedExactly(f: FileState, m: Message, peerWinsTie: bool, shrinks: bool)
    ensures var r, accepts := Judged(f, m, peerWinsTie, shrinks), Accepts(f, m, peerWinsTie);
            && r.held == f.held && r.announced == f.announced && r.editBase == f.editBase && r.dirty == f.dirty
            && r.remote == (if accepts || m.kind.Add? then Max(f.remote, m.stamp) else f.remote)
            && (r.localNewer <==> f.localNewer && !accepts)
            && (accepts ==> r.stat == m.stamp)
            && (!accepts && (m.kind.Edit? || f.localNewer) ==> r.stat == f.stat)
            && (!accepts && m.kind.Add? && !f.localNewer ==>
                  r.stat == if shrinks && m.stamp < (if f.remote == 0 then f.stat else f.remote) then f.stat else m.stamp)
  {
  }

  function NotedHeld(f: FileState): (r: FileState) { f.(held := Max(f.held, f.remote)) }

  /** swapStamps: first the base a swap-save over this file declares, then the stamp its own must exceed. */
  function SwapBase(f: FileState): (b: int) {
    var b := Max(f.held, f.announced);
    var b' := if f.localNewer then Max(b, f.stat) else b;
    if b' == 0 && f.remote > 0 then -1 else b'
  }

  function SwapSeen(f: FileState): (s: int) {
    var s := Max(f.remote, f.announced);
    if f.localNewer then Max(s, f.stat) else s
  }

  /** stampRenamedFile: a stamp above both clocks and everything seen. */
  function SwapStamp(disk: int, mem: int, seen: int): (s: int)
    ensures s > seen && s >= disk && s >= mem
  {
    if Max(disk, mem) <= seen then seen + 1 else Max(disk, mem)
  }

  /** The moved object after a swap-save onto this target: it keeps the target's watermark. */
  function SwappedIn(f: FileState, stamp: int, held: int): (r: FileState) {
    FileState(stamp, true, f.remote, held, stamp, f.editBase, false)
  }

  // ---------- two peers ----------

  /** The stamp an own version goes by: the one in memory, or the later one its release carried. */
  function Name(f: FileState): (t: int) { Max(f.stat, f.announced) }

  /** How an own version left the file: under which announce, and with which stamp in memory. */
  datatype Fall = Fall(under: Message, mem: int)

  /** One peer with what it wrote and what became of it. `out` is in flight to the other peer, in order; `lastSent`
      and `lastSeen` are the last stamps sent and received; `authored` are the names of the versions it wrote,
      `fetched` the peer's stamps whose bytes it received. An own version leaves the file by a later own write or under
      the later name of its release (`overwritten`), into a conflict sibling (`kept`), or under an accepted announce
      (`replaced`). `drafts` are own versions it swapped over before announcing them. When the file is no longer its
      own, a release repeats the stamp (`echoed`) or puts a later one on it (`restamped`). `claimed` are versions of
      the peer it noted as held without their bytes. `begun` are the versions of the fetches in flight, `whole` says
      that no chunk is missing, `zeroed` is WasTruncatedToZero. */
  datatype Peer = Peer(file: FileState, out: seq<Message>, lastSent: int, lastSeen: int, authored: set<int>,
                       fetched: set<int>, overwritten: set<int>, kept: set<int>, replaced: map<int, Fall>,
                       drafts: set<int>, echoed: set<int>, restamped: set<int>, claimed: set<int>,
                       begun: multiset<int>, whole: bool, zeroed: bool)

  const ABSENT: FileState := FileState(0, false, 0, 0, 0, 0, false)

  const NEW_PEER: Peer := Peer(ABSENT, [], 0, 0, {}, {}, {}, {}, map[], {}, {}, {}, {}, multiset{}, true, false)

  /** What an announce brings beside its stamps: a shorter file over cached bytes, a tie or a redelivery that starts the
      bitmap over (Acceptances.StartsOver), an empty file. */
  datatype Arrival = Arrival(shrinks: bool, resets: bool, empty: bool)

  const PLAIN: Arrival := Arrival(false, false, false)

  datatype Action =
    | Write(stamp: int)
    | Announce(disk: int)
    | Truncate(stamp: int, toZero: bool)
    | Swap(disk: int, mem: int, held: int, zeroed: bool)
    | FetchBegin
    | FetchEnd(version: int, completes: bool)
    | Deliver(how: Arrival)

  /** The file does not exist on this peer. */
  predicate Missing(f: FileState) { f.remote == 0 && f.held == 0 && f.announced == 0 && !f.dirty }

  /** The clock condition: a write's stamp exceeds every stamp its writer has seen. */
  predicate Fresh(f: FileState, stamp: int) {
    stamp > f.stat && stamp > f.remote && stamp > f.announced && stamp > 0
  }

  /** What the code can do in a state. The announce of a dirty file, whoever holds authority and whatever the disk time,
      waits for the fill while chunks are missing, unless the file was truncated to zero; a truncate and a swap-save
      need the file; the clock may show any time. */
  predicate Enabled(me: Peer, other: Peer, act: Action) {
    match act
    case Write(_) => true
    case Announce(_) => me.file.dirty && (me.whole || me.zeroed)
    case Truncate(_, _) => !Missing(me.file)
    case Swap(disk, mem, held, _) => !Missing(me.file) && 0 <= held <= mem
    case FetchBegin => me.file.remote > 0
    case FetchEnd(version, _) => version in me.begun
    case Deliver(_) => other.out != []
  }

  /** The clock condition on one action. */
  predicate Timely(me: Peer, act: Action) {
    match act
    case Write(t) => Fresh(me.file, t)
    case Truncate(t, _) => Fresh(me.file, t)
    case _ => true
  }

  /** The release finds no disk time above the identity in memory. */
  predicate InBounds(me: Peer, act: Action) { act.Announce? ==> act.disk <= me.file.stat }

  /** A new version of our own on top of what the file held. */
  function Authored(me: Peer, file: FileState): (r: Peer) {
    me.(file := file, authored := me.authored + {file.stat},
        overwritten := if me.file.localNewer then me.overwritten + {Name(me.file)} else me.overwritten)
  }

  function Sent(me: Peer, m: Message): (r: Peer) { me.(out := me.out + [m], lastSent := m.stamp) }

  function TruncateBase(f: FileState): (b: int) { if f.dirty then f.editBase else SessionBase(f) }

  /** The announce of a dirty file. A later stamp than the one in memory renames an own version. */
  function Released(me: Peer, disk: int): (r: Peer) {
    var f, stamp := me.file, AnnounceStamp(me.file, disk);
    var sent := Sent(me, Message(Add, stamp, f.editBase)).(file := Announced(f, disk));
    if f.localNewer
    then sent.(authored := me.authored + {stamp},
               overwritten := if stamp > f.stat then me.overwritten + {f.stat} else me.overwritten)
    else sent.(echoed := if stamp == f.stat then me.echoed + {stamp} else me.echoed,
               restamped := if stamp > f.stat then me.restamped + {stamp} else me.restamped,
               claimed := me.claimed + ({f.stat} - me.fetched - me.authored))
  }

  /** A fetch ends: bytes of the version it began under have arrived, and the watermark of this moment is noted as held. */
  function FetchEnded(me: Peer, version: int, completes: bool): (r: Peer) {
    var f, fetched := me.file, me.fetched + {version};
    me.(file := NotedHeld(f), fetched := fetched, begun := me.begun - multiset{version},
        claimed := if f.remote > f.held then me.claimed + ({f.remote} - fetched) else me.claimed,
        whole := me.whole || (completes && version == f.remote))
  }

  function Local(me: Peer, act: Action): (r: Peer)
    requires !act.Deliver?
  {
    match act
    case Write(t) =>
      Authored(me, if Missing(me.file) then Created(me.file, t) else Wrote(me.file, t)).(whole := me.whole || me.zeroed)
    case Announce(disk) => Released(me, disk)
    case Truncate(t, toZero) =>
      Sent(Authored(me, me.file.(stat := t, localNewer := true)), Message(Edit, t, TruncateBase(me.file))).(
        whole := me.whole || toZero, zeroed := me.zeroed || toZero)
    case Swap(disk, mem, held, zeroed) =>
      var stamp := SwapStamp(disk, mem, SwapSeen(me.file));
      Sent(Authored(me, SwappedIn(me.file, stamp, held)), Message(Add, stamp, SwapBase(me.file))).(
        drafts := if me.file.localNewer && me.file.dirty then me.drafts + {me.file.stat} else me.drafts,
        whole := true, zeroed := zeroed)
    case FetchBegin => me.(begun := me.begun + multiset{me.file.remote})
    case FetchEnd(version, completes) => FetchEnded(me, version, completes)
  }

  /** The bitmap starts over for the announced version; an empty one is whole and held at once. */
  function StartedOver(me: Peer, m: Message, empty: bool): (r: Peer) {
    me.(whole := empty, fetched := if empty then me.fetched + {m.stamp} else me.fetched)
  }

  /** The copy after the judgement: an accepted EDIT or newer ADD starts over, and only an accepted ADD forgets the
      truncate to zero. */
  function Recopied(me: Peer, m: Message, peerWinsTie: bool, how: Arrival): (r: Peer) {
    var f := me.file;
    if Accepts(f, m, peerWinsTie) then
      var copy := if m.kind.Edit? || m.stamp > Identity(f) || how.resets then StartedOver(me, m, how.empty) else me;
      if m.kind.Add? then copy.(zeroed := false) else copy
    else if m.kind.Add? && !f.localNewer && how.resets && !(how.shrinks && m.stamp < Identity(f))
    then StartedOver(me, m, how.empty) else me
  }

  /** The receiver's side of a delivery. */
  function Received(me: Peer, m: Message, peerWinsTie: bool, how: Arrival): (r: Peer) {
    var next := Recopied(me, m, peerWinsTie, how).(file := Judged(me.file, m, peerWinsTie, how.shrinks), lastSeen := m.stamp);
    if !Accepts(me.file, m, peerWinsTie) || !me.file.localNewer then next
    else if Conflicts(me.file, m, peerWinsTie) then next.(kept := me.kept + {Name(me.file)})
    else next.(replaced := me.replaced[Name(me.file) := Fall(m, me.file.stat)])
  }

  /** The two peers; `aYields` is TieBreakPeerWins on `a`, and `b` has the opposite. */
  datatype Net = Net(a: Peer, b: Peer, aYields: bool)

  datatype Step = Step(byA: bool, act: Action)

  predicate CanStep(n: Net, s: Step) {
    if s.byA then Enabled(n.a, n.b, s.act) else Enabled(n.b, n.a, s.act)
  }

  function Next(n: Net, s: Step): (r: Net)
    requires CanStep(n, s)
  {
    match s.act
    case Deliver(how) =>
      if s.byA then n.(a := Received(n.a, n.b.out[0], n.aYields, how), b := n.b.(out := n.b.out[1..]))
      else n.(b := Received(n.b, n.a.out[0], !n.aYields, how), a := n.a.(out := n.a.out[1..]))
    case _ =>
      if s.byA then n.(a := Local(n.a, s.act)) else n.(b := Local(n.b, s.act))
  }

  function Of(n: Net, isA: bool): (p: Peer) { if isA then n.a else n.b }

  /** A run from a state: every step is enabled where it is taken. */
  predicate CanRun(n: Net, steps: seq<Step>)
    decreases |steps|
  {
    steps != [] ==> CanStep(n, steps[0]) && CanRun(Next(n, steps[0]), steps[1..])
  }

  function Run(n: Net, steps: seq<Step>): (r: Net)
    requires CanRun(n, steps)
    decreases |steps|
  {
    if steps == [] then n else Run(Next(n, steps[0]), steps[1..])
  }

  /** Every step of the run obeys the clock condition. */
  predicate TimelyRun(n: Net, steps: seq<Step>)
    requires CanRun(n, steps)
    decreases |steps|
  {
    steps != [] ==> Timely(Of(n, steps[0].byA), steps[0].act) && TimelyRun(Next(n, steps[0]), steps[1..])
  }

  /** Every release of the run finds a disk time in bounds. */
  predicate InBoundsRun(n: Net, steps: seq<Step>)
    requires CanRun(n, steps)
    decreases |steps|
  {
    steps != [] ==> InBounds(Of(n, steps[0].byA), steps[0].act) && InBoundsRun(Next(n, steps[0]), steps[1..])
  }

  // ---------- the invariant ----------

  /** The messages in flight, after stamp `from`: stamps never fall, the last one is `to`, each carries a stamp of
      `named`, and each declares a base sent before or one of `bases`. */
  ghost predicate Chain(from: int, out: seq<Message>, to: int, named: set<int>, bases: set<int>)
    decreases |out|
  {
    if out == [] then from == to
    else
      && from <= out[0].stamp && out[0].stamp in named
      && out[0].base != 0 && (out[0].base <= from || out[0].base in bases)
      && Chain(out[0].stamp, out[1..], to, named, bases)
  }

  /** The stamps a peer puts on its announces: versions it wrote, and releases of files no longer its own. */
  function Named(p: Peer): (s: set<int>) { p.authored + p.echoed + p.restamped }

  /** The bases a peer declares beside stamps it sent: versions it fetched or claims, and drafts it swapped over. */
  function Bases(p: Peer): (s: set<int>) { p.fetched + p.claimed + p.drafts }

  /** What a peer keeps about its own stamps: how they are ordered, */
  ghost predicate Ordered(me: Peer, peerWinsTie: bool) {
    var f := me.file;
    && 0 <= f.remote <= me.lastSeen <= f.stat && 0 <= f.announced <= me.lastSent <= Name(f) && 0 <= f.held
    && (!f.localNewer ==> f.stat == f.remote == me.lastSeen)
    && (f.localNewer ==> f.stat > 0 && (f.stat > me.lastSeen || !peerWinsTie))
    && (f.localNewer && !f.dirty ==> Name(f) == me.lastSent)
    && (f.dirty ==> f.stat > 0 && me.lastSent <= f.stat && f.editBase != 0)
  }

  /** and where they come from. */
  ghost predicate Sourced(me: Peer) {
    var f, had := me.file, me.fetched + me.claimed;
    && (!f.localNewer && me.whole && f.stat > 0 ==> f.stat in me.fetched + me.authored)
    && (f.localNewer ==> f.stat in me.authored && Name(f) in me.authored)
    && (f.dirty ==> f.editBase <= me.lastSent || f.editBase in had)
    && (f.held <= me.lastSent || f.held in had)
    && (forall t :: t in me.authored ==> t > 0)
    && (forall t :: t in me.echoed ==> t > 0 && t in had + me.authored)
    && (forall t :: t in me.restamped ==> t > 0)
  }

  ghost predicate Stamps(me: Peer, peerWinsTie: bool) { Ordered(me, peerWinsTie) && Sourced(me) }

  /** A stamp no later than the file's, or the name of its version. */
  predicate Within(t: int, f: FileState) { t <= f.stat || t == Name(f) }

  /** What `me` knows of the stamps of `other`, whose file is `f`: none is later than its version. */
  ghost predicate Heard(me: Peer, f: FileState) {
    && Within(me.lastSeen, f) && Within(me.file.remote, f)
    && (forall t :: t in me.fetched ==> 0 <= t <= me.lastSeen && Within(t, f))
    && (forall t :: t in me.claimed ==> 0 <= t <= me.lastSeen && Within(t, f))
    && (forall t :: t in me.begun ==> 0 <= t <= me.lastSeen && Within(t, f))
  }

  /** What holds of the messages from `other` towards `me`. */
  ghost predicate Channel(me: Peer, other: Peer) {
    && (me.lastSeen == 0 || me.lastSeen in Named(other))
    && Chain(me.lastSeen, other.out, other.lastSent, Named(other), Bases(other))
    && Heard(me, other.file) && (forall m :: m in other.out ==> Within(m.stamp, other.file))
  }

  /** The author of the announce that replaced a version had its bytes. */
  ghost predicate Seen(fall: Fall, t: int, other: Peer) { t in other.fetched || fall.mem in other.fetched }

  /** It had not, and this is why: it had announced the very same stamp for something else, or claims to hold the version,
      or declared a draft it swapped over. */
  ghost predicate Unseen(fall: Fall, t: int, other: Peer) {
    || fall.mem in other.authored + other.restamped
    || t in other.claimed || fall.mem in other.claimed
    || fall.under.base in other.drafts
  }

  /** What became of every version a peer wrote. */
  ghost predicate Accounted(me: Peer, other: Peer) {
    && (forall t :: t in me.authored ==>
          || (me.file.localNewer && t == Name(me.file))
          || t in me.overwritten || t in me.kept || t in me.replaced)
    && (forall t :: t in me.replaced ==>
          var fall := me.replaced[t];
          fall.under.base >= fall.mem && (Seen(fall, t, other) || Unseen(fall, t, other)))
  }

  ghost predicate Inv(n: Net) {
    && Stamps(n.a, n.aYields) && Stamps(n.b, !n.aYields)
    && Channel(n.a, n.b) && Channel(n.b, n.a)
    && Accounted(n.a, n.b) && Accounted(n.b, n.a)
  }

  lemma {:induction false} ChainRises(from: int, out: seq<Message>, to: int, named: set<int>, bases: set<int>)
    requires Chain(from, out, to, named, bases)
    ensures from <= to
    decreases |out|
  {
    if out != [] { ChainRises(out[0].stamp, out[1..], to, named, bases); }
  }

  lemma {:induction false} ChainGrows(from: int, out: seq<Message>, to: int, named: set<int>, bases: set<int>,
                                      named': set<int>, bases': set<int>)
    requires Chain(from, out, to, named, bases) && named <= named' && bases <= bases'
    ensures Chain(from, out, to, named', bases')
    decreases |out|
  {
    if out != [] { ChainGrows(out[0].stamp, out[1..], to, named, bases, named', bases'); }
  }

  lemma {:induction false} ChainAppends(from: int, out: seq<Message>, to: int, named: set<int>, bases: set<int>,
                                        m: Message)
    requires Chain(from, out, to, named, bases)
    requires to <= m.stamp && m.stamp in named && m.base != 0 && (m.base <= to || m.base in bases)
    ensures Chain(from, out + [m], m.stamp, named, bases)
    decreases |out|
  {
    if out == [] {
      assert (out + [m])[1..] == [];
    } else {
      assert (out + [m])[1..] == out[1..] + [m];
      ChainAppends(out[0].stamp, out[1..], to, named, bases, m);
    }
  }

  lemma {:induction false} WriteKeepsStamps(me: Peer, peerWinsTie: bool, t: int)
    requires Stamps(me, peerWinsTie) && Fresh(me.file, t)
    ensures Stamps(Local(me, Write(t)), peerWinsTie)
  {
  }

  lemma {:induction false} AnnounceKeepsStamps(me: Peer, peerWinsTie: bool, disk: int)
    requires Stamps(me, peerWinsTie) && me.file.dirty && (me.whole || me.zeroed)
    ensures Stamps(Local(me, Announce(disk)), peerWinsTie)
  {
  }

  lemma {:induction false} TruncateKeepsStamps(me: Peer, peerWinsTie: bool, t: int, toZero: bool)
    requires Stamps(me, peerWinsTie) && !Missing(me.file) && Fresh(me.file, t)
    ensures Stamps(Local(me, Truncate(t, toZero)), peerWinsTie)
  {
  }

  lemma {:induction false} SwapKeepsStamps(me: Peer, peerWinsTie: bool, disk: int, mem: int, held: int, zeroed: bool)
    requires Stamps(me, peerWinsTie) && !Missing(me.file) && 0 <= held <= mem
    ensures Stamps(Local(me, Swap(disk, mem, held, zeroed)), peerWinsTie)
  {
  }

  lemma {:induction false} FetchKeepsStamps(me: Peer, peerWinsTie: bool, version: int, completes: bool)
    requires Stamps(me, peerWinsTie)
    ensures Stamps(Local(me, FetchEnd(version, completes)), peerWinsTie)
  {
  }

  lemma {:induction false} LocalKeepsStamps(me: Peer, other: Peer, peerWinsTie: bool, act: Action)
    requires Stamps(me, peerWinsTie) && !act.Deliver? && Enabled(me, other, act) && Timely(me, act)
    ensures Stamps(Local(me, act), peerWinsTie)
  {
    hide Released, FetchEnded, Authored, Sent;
    match act
    case Write(t) => WriteKeepsStamps(me, peerWinsTie, t);
    case Announce(disk) => AnnounceKeepsStamps(me, peerWinsTie, disk);
    case Truncate(t, toZero) => TruncateKeepsStamps(me, peerWinsTie, t, toZero);
    case Swap(disk, mem, held, zeroed) => SwapKeepsStamps(me, peerWinsTie, disk, mem, held, zeroed);
    case FetchEnd(version, completes) => FetchKeepsStamps(me, peerWinsTie, version, completes);
    case FetchBegin =>
  }

  /** No stamp sent before falls out of bounds. */
  lemma {:induction false} StaysWithin(me: Peer, other: Peer, peerWinsTie: bool, act: Action)
    requires Ordered(me, peerWinsTie) && !act.Deliver? && Enabled(me, other, act) && Timely(me, act)
    ensures forall t :: Within(t, me.file) ==> Within(t, Local(me, act).file)
    ensures act.Announce? || act.Truncate? || act.Swap? ==> Within(Local(me, act).lastSent, Local(me, act).file)
  {
  }

  /** What a local step sends: its stamp is its own and does not fall, its base is sent before, had, or a draft. */
  lemma {:induction false} SendsHonestly(me: Peer, other: Peer, peerWinsTie: bool, act: Action)
    requires Stamps(me, peerWinsTie) && (act.Announce? || act.Truncate? || act.Swap?)
    requires Enabled(me, other, act) && Timely(me, act)
    ensures var me' := Local(me, act);
            && |me'.out| == |me.out| + 1 && me'.out[..|me.out|] == me.out
            && var m := me'.out[|me.out|];
               && me.lastSent <= m.stamp == me'.lastSent && m.stamp in Named(me')
               && m.base != 0 && (m.base <= me.lastSent || m.base in Bases(me'))
  {
  }

  /** Writing and sending leave what a peer has heard alone. */
  lemma {:induction false} AuthoredFields(me: Peer, file: FileState)
    ensures var me' := Authored(me, file);
            && me'.file == file && me'.out == me.out && me'.lastSent == me.lastSent && me'.lastSeen == me.lastSeen
            && me.authored <= me'.authored && me'.echoed == me.echoed && me'.restamped == me.restamped
            && me'.fetched == me.fetched && me'.claimed == me.claimed && me'.drafts == me.drafts && me'.begun == me.begun
  {
    hide Name;
  }

  lemma {:induction false} ReleasedFields(me: Peer, disk: int)
    ensures var me' := Released(me, disk);
            && me'.lastSeen == me.lastSeen && me'.file.remote == me.file.remote
            && me.authored <= me'.authored && me.echoed <= me'.echoed && me.restamped <= me'.restamped
            && me'.fetched == me.fetched && me'.drafts == me.drafts && me'.begun == me.begun
            && me.claimed <= me'.claimed <= me.claimed + (if me.file.localNewer then {} else {me.file.stat})
  {
    hide AnnounceStamp;
  }

  lemma {:induction false} FetchEndedFields(me: Peer, version: int, completes: bool)
    ensures var me' := FetchEnded(me, version, completes);
            && me'.out == me.out && me'.lastSent == me.lastSent && me'.lastSeen == me.lastSeen
            && me'.file.remote == me.file.remote
            && me'.authored == me.authored && me'.echoed == me.echoed && me'.restamped == me.restamped
            && me'.fetched == me.fetched + {version} && me'.drafts == me.drafts && me'.begun <= me.begun
            && me.claimed <= me'.claimed <= me.claimed + {me.file.remote}
  {
  }

  /** What a local step adds to a peer's stamps and to what it knows of the other's. */
  lemma {:induction false} LocalFields(me: Peer, act: Action)
    requires !act.Deliver?
    ensures var me' := Local(me, act);
            && me.authored <= me'.authored && me.echoed <= me'.echoed && me.restamped <= me'.restamped
            && me.fetched <= me'.fetched && me.claimed <= me'.claimed && me.drafts <= me'.drafts
            && (act.Write? || act.FetchBegin? || act.FetchEnd? ==> me'.out == me.out && me'.lastSent == me.lastSent)
            && me'.lastSeen == me.lastSeen && me'.file.remote == me.file.remote
            && me'.fetched <= me.fetched + (if act.FetchEnd? then {act.version} else {})
            && me'.claimed <= me.claimed + {me.file.remote} + (if me.file.localNewer then {} else {me.file.stat})
            && (forall t :: t in me'.begun ==> t in me.begun || t == me.file.remote)
  {
    hide Authored, Released, FetchEnded, SessionBase, TruncateBase, SwapBase, SwapSeen, SwapStamp, Missing;
    match act
    case Write(t) => AuthoredFields(me, if Missing(me.file) then Created(me.file, t) else Wrote(me.file, t));
    case Announce(disk) => ReleasedFields(me, disk);
    case Truncate(t, _) => AuthoredFields(me, me.file.(stat := t, localNewer := true));
    case Swap(disk, mem, held, _) =>
      AuthoredFields(me, SwappedIn(me.file, SwapStamp(disk, mem, SwapSeen(me.file)), held));
    case FetchBegin =>
    case FetchEnd(version, completes) => FetchEndedFields(me, version, completes);
  }

  /** What a local step sends continues the chain. */
  lemma {:induction false} LocalKeepsChannel(me: Peer, other: Peer, peerWinsTie: bool, act: Action)
    requires Stamps(me, peerWinsTie) && Channel(other, me) && !act.Deliver? && Enabled(me, other, act) && Timely(me, act)
    ensures Channel(other, Local(me, act))
  {
    hide Ordered, Sourced, Local, Within, Enabled, Timely;
    var me' := Local(me, act);
    LocalFields(me, act);
    StaysWithin(me, other, peerWinsTie, act);
    ChainGrows(other.lastSeen, me.out, me.lastSent, Named(me), Bases(me), Named(me'), Bases(me'));
    if act.Announce? || act.Truncate? || act.Swap? {
      SendsHonestly(me, other, peerWinsTie, act);
      ChainAppends(other.lastSeen, me.out, me.lastSent, Named(me'), Bases(me'), me'.out[|me.out|]);
      assert me'.out == me.out + [me'.out[|me.out|]];
    }
  }

  lemma {:induction false} LocalLeavesChannel(me: Peer, other: Peer, peerWinsTie: bool, act: Action)
    requires Ordered(me, peerWinsTie) && Channel(me, other) && !act.Deliver? && Enabled(me, other, act)
    ensures Channel(Local(me, act), other)
  {
    hide Within, Local, Chain, Named, Bases;
    LocalFields(me, act);
  }

  lemma {:induction false} LocalKeepsAccounted(me: Peer, other: Peer, peerWinsTie: bool, act: Action)
    requires Ordered(me, peerWinsTie) && Sourced(me)
    requires Accounted(me, other) && Accounted(other, me) && !act.Deliver? && Enabled(me, other, act) && Timely(me, act)
    ensures Accounted(Local(me, act), other) && Accounted(other, Local(me, act))
  {
  }

  /** The three ways a delivery in order ends: accepted, rejected against an own version, or redelivered. */
  ghost predicate Outcome(me: Peer, m: Message, peerWinsTie: bool, f': FileState) {
    var f := me.file;
    if Accepts(f, m, peerWinsTie) then
      && f' == f.(remote := m.stamp, localNewer := false, stat := m.stamp) && m.stamp >= f.stat
      && (f.localNewer && m.stamp == f.stat ==> peerWinsTie)
    else if f.localNewer then
      f' == f.(remote := f'.remote) && f.remote <= f'.remote <= m.stamp <= f.stat && (m.stamp == f.stat ==> !peerWinsTie)
      && (f'.remote == f.remote || f'.remote == m.stamp)
    else f' == f && m.stamp == f.stat
  }

  lemma {:induction false} JudgedInOrder(me: Peer, m: Message, peerWinsTie: bool, shrinks: bool)
    requires Ordered(me, peerWinsTie) && me.lastSeen <= m.stamp && m.stamp > 0
    ensures Outcome(me, m, peerWinsTie, Judged(me.file, m, peerWinsTie, shrinks))
    ensures me.file.localNewer ==> Identity(me.file) == me.file.stat
    ensures Accepts(me.file, m, peerWinsTie) && m.kind.Add? && m.stamp <= Identity(me.file) ==>
              me.file.localNewer && m.stamp == me.file.stat
  {
  }

  lemma {:induction false} RecopiedFields(me: Peer, m: Message, peerWinsTie: bool, how: Arrival)
    ensures var copy := Recopied(me, m, peerWinsTie, how);
            && copy == me.(whole := copy.whole, zeroed := copy.zeroed, fetched := copy.fetched)
            && me.fetched <= copy.fetched <= me.fetched + {m.stamp}
            && (copy.whole && !me.whole ==> m.stamp in copy.fetched)
  {
    hide Accepts, Identity;
  }

  /** What a delivery leaves alone on the receiver's side. */
  lemma {:induction false} ReceivedFields(me: Peer, m: Message, peerWinsTie: bool, how: Arrival)
    ensures var me' := Received(me, m, peerWinsTie, how);
            && me'.file == Judged(me.file, m, peerWinsTie, how.shrinks) && me'.lastSeen == m.stamp
            && me'.out == me.out && me'.lastSent == me.lastSent && me'.authored == me.authored
            && me'.echoed == me.echoed && me'.restamped == me.restamped && me'.drafts == me.drafts
            && me'.claimed == me.claimed && me'.begun == me.begun && me'.overwritten == me.overwritten
            && me'.whole == Recopied(me, m, peerWinsTie, how).whole
            && me'.fetched == Recopied(me, m, peerWinsTie, how).fetched
            && me.fetched <= me'.fetched <= me.fetched + {m.stamp}
  {
    hide Accepts, Identity, Judged, Conflicts, Recopied, Name;
    RecopiedFields(me, m, peerWinsTie, how);
  }

  lemma {:induction false} ReceivedKeepsOrdered(me: Peer, m: Message, peerWinsTie: bool, how: Arrival)
    requires Ordered(me, peerWinsTie) && me.lastSeen <= m.stamp && m.stamp > 0
    ensures Ordered(Received(me, m, peerWinsTie, how), peerWinsTie)
  {
    hide Received, Judged, Identity, Accepts, Recopied;
    JudgedInOrder(me, m, peerWinsTie, how.shrinks);
    ReceivedFields(me, m, peerWinsTie, how);
  }

  /** A copy that is whole after an acceptance holds the accepted version, or tied with it. */
  lemma {:induction false} WholeIsHad(me: Peer, m: Message, peerWinsTie: bool, how: Arrival)
    requires Ordered(me, peerWinsTie) && Sourced(me) && me.lastSeen <= m.stamp && m.stamp > 0
    ensures var copy, f' := Recopied(me, m, peerWinsTie, how), Judged(me.file, m, peerWinsTie, how.shrinks);
            !f'.localNewer && copy.whole ==> f'.stat in copy.fetched + copy.authored
  {
    hide Judged, Identity, Accepts;
    JudgedInOrder(me, m, peerWinsTie, how.shrinks);
  }

  lemma {:induction false} ReceivedKeepsSourced(me: Peer, m: Message, peerWinsTie: bool, how: Arrival)
    requires Ordered(me, peerWinsTie) && Sourced(me) && me.lastSeen <= m.stamp && m.stamp > 0
    ensures Sourced(Received(me, m, peerWinsTie, how))
  {
    hide Received, Judged, Identity, Accepts, Recopied;
    JudgedInOrder(me, m, peerWinsTie, how.shrinks);
    WholeIsHad(me, m, peerWinsTie, how);
    RecopiedFields(me, m, peerWinsTie, how);
    ReceivedFields(me, m, peerWinsTie, how);
  }

  lemma {:induction false} HeadRises(me: Peer, other: Peer, peerWinsTie: bool)
    requires Stamps(other, peerWinsTie) && Channel(me, other) && other.out != []
    ensures me.lastSeen <= other.out[0].stamp && other.out[0].stamp > 0
  {
  }

  /** The channel a message was taken from. */
  lemma {:induction false} ReceivedKeepsChannel(me: Peer, other: Peer, peerWinsTie: bool, how: Arrival)
    requires Stamps(me, peerWinsTie) && Stamps(other, !peerWinsTie) && Channel(me, other) && other.out != []
    ensures Channel(Received(me, other.out[0], peerWinsTie, how), other.(out := other.out[1..]))
  {
    hide Received, Judged, Identity, Accepts, Within, Sourced, Conflicts;
    HeadRises(me, other, !peerWinsTie);
    JudgedInOrder(me, other.out[0], peerWinsTie, how.shrinks);
    ReceivedFields(me, other.out[0], peerWinsTie, how);
    assert other.out[0] in other.out;
  }

  /** The channel the other way. */
  lemma {:induction false} ReceivedLeavesChannel(me: Peer, other: Peer, peerWinsTie: bool, how: Arrival)
    requires Stamps(me, peerWinsTie) && Stamps(other, !peerWinsTie) && Channel(me, other) && Channel(other, me) && other.out != []
    ensures Channel(other.(out := other.out[1..]), Received(me, other.out[0], peerWinsTie, how))
  {
    hide Received, Judged, Identity, Accepts, Sourced, Conflicts, Within;
    HeadRises(me, other, !peerWinsTie);
    ReceivedFields(me, other.out[0], peerWinsTie, how);
    RaisedWithin(me, other.out[0], peerWinsTie, how);
    var me' := Received(me, other.out[0], peerWinsTie, how);
    ChainGrows(other.lastSeen, me.out, me.lastSent, Named(me), Bases(me), Named(me'), Bases(me'));
  }

  lemma {:induction false} RaisedWithin(me: Peer, m: Message, peerWinsTie: bool, how: Arrival)
    requires Ordered(me, peerWinsTie) && me.lastSeen <= m.stamp && m.stamp > 0
    ensures forall t :: Within(t, me.file) ==> Within(t, Received(me, m, peerWinsTie, how).file)
  {
    hide Received, Judged, Identity, Accepts;
    JudgedInOrder(me, m, peerWinsTie, how.shrinks);
    ReceivedFields(me, m, peerWinsTie, how);
  }

  /** The heart of it: an announce accepted without a conflict declares a base at least the stamp of the version it
      replaces, and then its author had fetched that version, or it had not for one of three reasons. */
  lemma {:induction false} AcceptedBaseIsHonest(me: Peer, other: Peer, peerWinsTie: bool)
    requires Stamps(me, peerWinsTie) && Stamps(other, !peerWinsTie)
    requires Channel(me, other) && Channel(other, me) && other.out != []
    requires me.file.localNewer && Accepts(me.file, other.out[0], peerWinsTie)
    requires !Conflicts(me.file, other.out[0], peerWinsTie)
    ensures other.out[0].base >= me.file.stat
    ensures var fall := Fall(other.out[0], me.file.stat);
            Seen(fall, Name(me.file), other) || Unseen(fall, Name(me.file), other)
  {
  }

  lemma {:induction false} ReceivedKeepsAccounted(me: Peer, other: Peer, peerWinsTie: bool, how: Arrival)
    requires Stamps(me, peerWinsTie) && Stamps(other, !peerWinsTie)
    requires Channel(me, other) && Channel(other, me) && other.out != [] && Accounted(me, other)
    ensures Accounted(Received(me, other.out[0], peerWinsTie, how), other.(out := other.out[1..]))
  {
    hide Identity, Conflicts, Accepts, Ordered, Sourced, Channel, Seen, Unseen, Recopied;
    var m := other.out[0];
    if Accepts(me.file, m, peerWinsTie) && me.file.localNewer && !Conflicts(me.file, m, peerWinsTie) {
      AcceptedBaseIsHonest(me, other, peerWinsTie);
    }
    RecopiedFields(me, m, peerWinsTie, how);
    SameSource(other);
  }

  lemma {:induction false} SameSource(other: Peer)
    requires other.out != []
    ensures forall fall, t :: Seen(fall, t, other.(out := other.out[1..])) == Seen(fall, t, other)
    ensures forall fall, t :: Unseen(fall, t, other.(out := other.out[1..])) == Unseen(fall, t, other)
  {
  }

  lemma {:induction false} ReceivedLeavesAccounted(me: Peer, other: Peer, peerWinsTie: bool, how: Arrival)
    requires other.out != [] && Accounted(other, me)
    ensures Accounted(other.(out := other.out[1..]), Received(me, other.out[0], peerWinsTie, how))
  {
    hide Received;
    ReceivedFields(me, other.out[0], peerWinsTie, how);
  }

  // ---------- safety over whole runs ----------

  /** Two peers without the file. */
  function Start(aYields: bool): (n: Net) { Net(NEW_PEER, NEW_PEER, aYields) }

  lemma {:induction false} StartInv(aYields: bool)
    ensures Inv(Start(aYields))
  {
  }

  lemma {:induction false} NextKeepsInv(n: Net, s: Step)
    requires Inv(n) && CanStep(n, s) && Timely(Of(n, s.byA), s.act)
    ensures Inv(Next(n, s))
  {
    hide Ordered, Sourced, Channel, Accounted, Local, Received, Enabled, Timely;
    var me, other := if s.byA then n.a else n.b, if s.byA then n.b else n.a;
    var tieFlag := if s.byA then n.aYields else !n.aYields;
    if s.act.Deliver? {
      DeliverKeepsInv(me, other, tieFlag, s.act.how);
    } else {
      LocalKeepsStamps(me, other, tieFlag, s.act);
      LocalKeepsChannel(me, other, tieFlag, s.act);
      LocalKeepsAccounted(me, other, tieFlag, s.act);
      LocalLeavesChannel(me, other, tieFlag, s.act);
    }
  }

  lemma {:induction false} DeliverKeepsInv(me: Peer, other: Peer, peerWinsTie: bool, how: Arrival)
    requires Stamps(me, peerWinsTie) && Stamps(other, !peerWinsTie) && Enabled(me, other, Deliver(how))
    requires Channel(me, other) && Channel(other, me) && Accounted(me, other) && Accounted(other, me)
    ensures other.out != []
    ensures var me', other' := Received(me, other.out[0], peerWinsTie, how), other.(out := other.out[1..]);
            && Stamps(me', peerWinsTie) && Stamps(other', !peerWinsTie)
            && Channel(me', other') && Channel(other', me') && Accounted(me', other') && Accounted(other', me')
  {
    hide Channel, Accounted, Received;
    HeadRises(me, other, !peerWinsTie);
    ReceivedKeepsOrdered(me, other.out[0], peerWinsTie, how);
    ReceivedKeepsSourced(me, other.out[0], peerWinsTie, how);
    ReceivedKeepsChannel(me, other, peerWinsTie, how);
    ReceivedLeavesChannel(me, other, peerWinsTie, how);
    ReceivedKeepsAccounted(me, other, peerWinsTie, how);
    ReceivedLeavesAccounted(me, other, peerWinsTie, how);
  }

  /** The invariant holds in every state of every run under the clock condition. */
  lemma {:induction false} RunKeepsInv(n: Net, steps: seq<Step>)
    requires Inv(n) && CanRun(n, steps) && TimelyRun(n, steps)
    ensures Inv(Run(n, steps))
    decreases |steps|
  {
    if steps != [] {
      NextKeepsInv(n, steps[0]);
      RunKeepsInv(Next(n, steps[0]), steps[1..]);
    }
  }

  /** Each peer's identity of the file never decreases. */
  lemma {:induction false} IdentityNeverDecreases(n: Net, steps: seq<Step>)
    requires Inv(n) && CanRun(n, steps) && TimelyRun(n, steps)
    ensures n.a.file.stat <= Run(n, steps).a.file.stat && n.b.file.stat <= Run(n, steps).b.file.stat
    decreases |steps|
  {
    if steps != [] {
      StepRaises(n, steps[0]);
      NextKeepsInv(n, steps[0]);
      IdentityNeverDecreases(Next(n, steps[0]), steps[1..]);
    }
  }

  lemma {:induction false} LocalRaises(me: Peer, act: Action)
    requires 0 <= me.file.stat && !act.Deliver? && Timely(me, act)
    requires me.file.localNewer || me.file.stat == me.file.remote
    ensures me.file.stat <= Local(me, act).file.stat
  {
  }

  lemma {:induction false} ReceivedRaises(me: Peer, m: Message, peerWinsTie: bool, how: Arrival)
    requires Ordered(me, peerWinsTie) && me.lastSeen <= m.stamp && m.stamp > 0
    ensures me.file.stat <= Received(me, m, peerWinsTie, how).file.stat
  {
    hide Received, Judged, Identity, Accepts, Recopied;
    JudgedInOrder(me, m, peerWinsTie, how.shrinks);
    ReceivedFields(me, m, peerWinsTie, how);
  }

  lemma {:induction false} StepRaises(n: Net, s: Step)
    requires Inv(n) && CanStep(n, s) && Timely(Of(n, s.byA), s.act)
    ensures n.a.file.stat <= Next(n, s).a.file.stat && n.b.file.stat <= Next(n, s).b.file.stat
  {
    hide Judged, Local, Received, Accounted, Timely, Sourced, Channel;
    var me, other := Of(n, s.byA), Of(n, !s.byA);
    var tieFlag := if s.byA then n.aYields else !n.aYields;
    if s.act.Deliver? {
      HeadRises(me, other, !tieFlag);
      ReceivedRaises(me, other.out[0], tieFlag, s.act.how);
    } else {
      LocalRaises(me, s.act);
    }
  }

  /** Every announce was delivered and no edit waits to be announced. */
  predicate Quiescent(n: Net) {
    && n.a.out == [] && n.b.out == []
    && !(n.a.file.localNewer && n.a.file.dirty) && !(n.b.file.localNewer && n.b.file.dirty)
  }

  /** At quiescence at most one peer holds the file as its own, and the other then shows its version by name. */
  lemma {:induction false} OwnerIsShown(n: Net)
    requires Inv(n) && Quiescent(n)
    ensures !(n.a.file.localNewer && n.b.file.localNewer)
    ensures n.a.file.localNewer ==> n.b.file.stat == Name(n.a.file)
    ensures n.b.file.localNewer ==> n.a.file.stat == Name(n.b.file)
  {
  }

  /** What releases in bounds keep: no stamp was sent above the identity, and a file given up to a tie was given up by
      rank, or by the release of a file no longer our own. */
  ghost predicate Aligned(me: Peer, peerWinsTie: bool) {
    && me.lastSent <= me.file.stat
    && (!me.file.localNewer ==>
          me.file.stat > me.lastSent || me.file.stat == 0 || peerWinsTie || me.file.stat in me.echoed)
  }

  ghost predicate BothAligned(n: Net) { Aligned(n.a, n.aYields) && Aligned(n.b, !n.aYields) }

  lemma {:induction false} LocalKeepsAligned(me: Peer, other: Peer, peerWinsTie: bool, act: Action)
    requires Stamps(me, peerWinsTie) && Aligned(me, peerWinsTie) && !act.Deliver? && Enabled(me, other, act)
    requires Timely(me, act) && InBounds(me, act)
    ensures Aligned(Local(me, act), peerWinsTie)
  {
  }

  lemma {:induction false} ReceivedKeepsAligned(me: Peer, m: Message, peerWinsTie: bool, how: Arrival)
    requires Stamps(me, peerWinsTie) && Aligned(me, peerWinsTie) && me.lastSeen <= m.stamp && m.stamp > 0
    ensures Aligned(Received(me, m, peerWinsTie, how), peerWinsTie)
  {
    hide Received, Judged, Identity, Accepts, Recopied;
    JudgedInOrder(me, m, peerWinsTie, how.shrinks);
    ReceivedFields(me, m, peerWinsTie, how);
  }

  lemma {:induction false} RunKeepsAligned(n: Net, steps: seq<Step>)
    requires Inv(n) && BothAligned(n) && CanRun(n, steps) && TimelyRun(n, steps) && InBoundsRun(n, steps)
    ensures BothAligned(Run(n, steps))
    decreases |steps|
  {
    hide Ordered, Sourced, Channel, Accounted, Aligned, Local, Received, Timely, InBounds;
    if steps != [] {
      var s := steps[0];
      var me, other, tieFlag := Of(n, s.byA), Of(n, !s.byA), if s.byA then n.aYields else !n.aYields;
      if s.act.Deliver? {
        HeadRises(me, other, !tieFlag);
        ReceivedKeepsAligned(me, other.out[0], tieFlag, s.act.how);
        OutKeepsAligned(other, !tieFlag);
      } else {
        LocalKeepsAligned(me, other, tieFlag, s.act);
      }
      NextKeepsInv(n, s);
      RunKeepsAligned(Next(n, s), steps[1..]);
    }
  }

  lemma {:induction false} OutKeepsAligned(me: Peer, peerWinsTie: bool)
    requires Aligned(me, peerWinsTie) && me.out != []
    ensures Aligned(me.(out := me.out[1..]), peerWinsTie)
  {
  }

  /** Convergence: at quiescence, after releases in bounds, both peers hold the same stamp, and never both as their own.
      One of them does, unless nothing was ever written or the file's stamp is one a release echoed. */
  lemma {:induction false} Converges(n: Net)
    requires Inv(n) && BothAligned(n) && Quiescent(n)
    ensures n.a.file.stat == n.b.file.stat
    ensures !(n.a.file.localNewer && n.b.file.localNewer)
    ensures n.a.file.stat > 0 && n.a.file.stat !in n.a.echoed + n.b.echoed ==> n.a.file.localNewer || n.b.file.localNewer
  {
  }

  lemma {:induction false} RunsConverge(aYields: bool, steps: seq<Step>)
    requires CanRun(Start(aYields), steps) && TimelyRun(Start(aYields), steps) && InBoundsRun(Start(aYields), steps)
    requires Quiescent(Run(Start(aYields), steps))
    ensures var n := Run(Start(aYields), steps);
            && n.a.file.stat == n.b.file.stat && !(n.a.file.localNewer && n.b.file.localNewer)
            && (n.a.file.stat > 0 && n.a.file.stat !in n.a.echoed + n.b.echoed ==> n.a.file.localNewer || n.b.file.localNewer)
  {
    StartInv(aYields);
    RunKeepsInv(Start(aYields), steps);
    RunKeepsAligned(Start(aYields), steps);
    Converges(Run(Start(aYields), steps));
  }

  /** The fate of an own version: it is the shared current version, or lies in a conflict sibling, or a later own
      version or its own release name went on top, or the author of the version that replaced it had its bytes. */
  ghost predicate NotLost(me: Peer, other: Peer, t: int) {
    || (me.file.localNewer && t == Name(me.file) == other.file.stat)
    || t in me.kept || t in me.overwritten
    || (t in me.replaced && me.replaced[t].under.base >= me.replaced[t].mem && Seen(me.replaced[t], t, other))
  }

  ghost predicate Excused(me: Peer, other: Peer, t: int) { t in me.replaced && Unseen(me.replaced[t], t, other) }

  /** No silent loss: over any run under the clock condition, whatever times the releases find on disk, at quiescence no
      version either peer ever wrote is lost, save under an announce whose author put the same stamp on something else,
      claims to hold the version, or declared a draft it swapped over. */
  lemma {:induction false} NoSilentLoss(aYields: bool, steps: seq<Step>)
    requires CanRun(Start(aYields), steps) && TimelyRun(Start(aYields), steps) && Quiescent(Run(Start(aYields), steps))
    ensures var n := Run(Start(aYields), steps);
            && (forall t :: t in n.a.authored ==> NotLost(n.a, n.b, t) || Excused(n.a, n.b, t))
            && (forall t :: t in n.b.authored ==> NotLost(n.b, n.a, t) || Excused(n.b, n.a, t))
  {
    StartInv(aYields);
    RunKeepsInv(Start(aYields), steps);
    OwnerIsShown(Run(Start(aYields), steps));
  }

  /** When exactly a step makes a peer claim a version without its bytes: the release of a file the peer took over while
      chunks of it are missing, which only the flag of a truncate to zero lets through, */
  lemma {:induction false} ReleaseClaims(me: Peer, peerWinsTie: bool, disk: int)
    requires Stamps(me, peerWinsTie) && me.file.dirty && (me.whole || me.zeroed)
    ensures Released(me, disk).claimed != me.claimed <==>
            !me.file.localNewer && !me.whole && me.zeroed && me.file.stat !in me.fetched + me.authored + me.claimed
  {
  }

  /** or the end of a fetch when the watermark has moved past the version it began under. */
  lemma {:induction false} FetchClaims(me: Peer, version: int, completes: bool)
    ensures FetchEnded(me, version, completes).claimed != me.claimed <==>
            me.file.remote > me.file.held && me.file.remote != version && me.file.remote !in me.fetched + me.claimed
  {
  }

  /** No other step does. */
  lemma {:induction false} NothingElseClaims(me: Peer, act: Action)
    requires !act.Deliver? && !act.Announce? && !act.FetchEnd?
    ensures Local(me, act).claimed == me.claimed
  {
  }

  /** An accepted ADD clears the flag, so such a release follows an accepted EDIT. */
  lemma {:induction false} OnlyEditLeavesZeroed(me: Peer, m: Message, peerWinsTie: bool, how: Arrival)
    requires me.file.localNewer
    ensures var me' := Received(me, m, peerWinsTie, how);
            !me'.file.localNewer && me'.zeroed <==> Accepts(me.file, m, peerWinsTie) && m.kind.Edit? && me.zeroed
  {
  }

  /** Two edits that cross, equal stamps included, are accepted by exactly one side, ADD or EDIT. */
  lemma {:induction false} CrossingEditsOneWinner(a: FileState, b: FileState, fromA: Message, fromB: Message, aYields: bool)
    requires a.localNewer && a.stat >= a.remote && fromA.stamp == a.stat > 0
    requires b.localNewer && b.stat >= b.remote && fromB.stamp == b.stat > 0
    ensures Accepts(a, fromB, aYields) <==> !Accepts(b, fromA, !aYields)
  {
  }

  // ---------- when exactly a version is lost or the peers part ----------

  /** What is known of two peers between steps, without the account of versions. */
  ghost predicate Linked(me: Peer, other: Peer, peerWinsTie: bool) {
    && Stamps(me, peerWinsTie) && Stamps(other, !peerWinsTie) && Channel(me, other) && Channel(other, me)
  }

  /** The version `other` owns, of which this peer has no byte, and which nothing has happened to yet. */
  ghost predicate UnseenVersion(me: Peer, other: Peer) {
    var t, mem := Name(other.file), other.file.stat;
    && other.file.localNewer && t !in me.fetched && mem !in me.fetched
    && t !in other.kept + other.overwritten && t !in other.replaced
  }

  /** Delivered and accepted, an announce loses such a version exactly when its base covers the version. */
  lemma {:induction false} AcceptedOverUnseen(me: Peer, other: Peer, peerWinsTie: bool, m: Message)
    requires Ordered(other, peerWinsTie) && UnseenVersion(me, other) && Accepts(other.file, m, peerWinsTie) && m.base != 0
    ensures var other' := Received(other, m, peerWinsTie, PLAIN);
            && (Name(other.file) in other'.replaced <==> m.base >= other.file.stat)
            && (!NotLost(other', me, Name(other.file)) <==> m.base >= other.file.stat)
  {
    hide Recopied;
    RecopiedFields(other, m, peerWinsTie, PLAIN);
  }

  /** A swap-save over an own draft, delivered to a peer with a version we never fetched and accepted there: that
      version is lost exactly when its stamp in memory is not above the draft's. */
  lemma {:induction false} SwapOverDraft(me: Peer, other: Peer, peerWinsTie: bool, disk: int, mem: int, held: int, zeroed: bool)
    requires Linked(me, other, peerWinsTie) && Enabled(me, other, Swap(disk, mem, held, zeroed))
    requires me.file.dirty && me.file.localNewer && me.out == [] && UnseenVersion(me, other)
    requires Accepts(other.file, Local(me, Swap(disk, mem, held, zeroed)).out[0], !peerWinsTie)
    ensures var me' := Local(me, Swap(disk, mem, held, zeroed));
            var other' := Received(other, me'.out[0], !peerWinsTie, PLAIN);
            && (Name(other.file) in other'.replaced <==> other.file.stat <= me.file.stat)
            && (!NotLost(other', me', Name(other.file)) <==> other.file.stat <= me.file.stat)
  {
    hide Received, Judged, NotLost, Accepts;
    var me' := Local(me, Swap(disk, mem, held, zeroed));
    assert Chain(other.lastSeen, me.out, me.lastSent, Named(me), Bases(me));
    AcceptedOverUnseen(me', other, !peerWinsTie, me'.out[0]);
  }

  function SavedBy(me: Peer, t: int, disk: int): (r: Peer) { Local(Local(me, Write(t)), Announce(disk)) }

  /** What the base of a new session covers: our last announced or held stamp is the other version's, in memory or by
      name, as after a tie or a claim. */
  predicate Claims(f: FileState, g: FileState) { f.announced == g.stat || f.held == g.stat || f.held == Name(g) }

  /** A save in a new session, delivered to a peer with a version we never fetched, loses that version exactly then. */
  lemma {:induction false} SaveOverUnseen(me: Peer, other: Peer, peerWinsTie: bool, t: int, disk: int)
    requires Linked(me, other, peerWinsTie) && !me.file.dirty && !Missing(me.file) && me.out == []
    requires Fresh(me.file, t) && t > other.file.stat && UnseenVersion(me, other)
    ensures var me' := SavedBy(me, t, disk);
            var other' := Received(other, me'.out[0], !peerWinsTie, PLAIN);
            !NotLost(other', me', Name(other.file)) <==> Claims(me.file, other.file)
  {
    hide Received, Judged, NotLost;
    var me' := SavedBy(me, t, disk);
    assert me'.out[0] == Message(Add, Max(t, disk), SessionBase(me.file));
    assert Chain(other.lastSeen, me.out, me.lastSent, Named(me), Bases(me));
    AcceptedOverUnseen(me', other, !peerWinsTie, me'.out[0]);
  }

  /** So does a truncate, which is announced at once. */
  lemma {:induction false} TruncateOverUnseen(me: Peer, other: Peer, peerWinsTie: bool, t: int, toZero: bool)
    requires Linked(me, other, peerWinsTie) && !me.file.dirty && !Missing(me.file) && me.out == []
    requires Fresh(me.file, t) && t > other.file.stat && UnseenVersion(me, other)
    ensures var me' := Local(me, Truncate(t, toZero));
            var other' := Received(other, me'.out[0], !peerWinsTie, PLAIN);
            !NotLost(other', me', Name(other.file)) <==> Claims(me.file, other.file)
  {
    hide Received, Judged, NotLost;
    var me' := Local(me, Truncate(t, toZero));
    assert Chain(other.lastSeen, me.out, me.lastSent, Named(me), Bases(me));
    AcceptedOverUnseen(me', other, !peerWinsTie, me'.out[0]);
  }

  /** And a swap-save over a file that is not our own. */
  lemma {:induction false} SwapOverUnseen(me: Peer, other: Peer, peerWinsTie: bool, disk: int, mem: int, held: int, zeroed: bool)
    requires Linked(me, other, peerWinsTie) && Enabled(me, other, Swap(disk, mem, held, zeroed))
    requires !me.file.localNewer && me.out == [] && UnseenVersion(me, other)
    requires SwapStamp(disk, mem, SwapSeen(me.file)) > other.file.stat
    ensures var me' := Local(me, Swap(disk, mem, held, zeroed));
            var other' := Received(other, me'.out[0], !peerWinsTie, PLAIN);
            !NotLost(other', me', Name(other.file)) <==> Claims(me.file, other.file)
  {
    hide Received, Judged, NotLost;
    var me' := Local(me, Swap(disk, mem, held, zeroed));
    assert Chain(other.lastSeen, me.out, me.lastSent, Named(me), Bases(me));
    AcceptedOverUnseen(me', other, !peerWinsTie, me'.out[0]);
  }

  /** A file given up to the peer whose copy is whole holds the peer's version, unless both wrote its stamp: so waiting
      for the fill keeps a release from claiming anything. */
  lemma {:induction false} WholeIsSeen(me: Peer, other: Peer, peerWinsTie: bool)
    requires Linked(me, other, peerWinsTie) && other.out == [] && other.file.localNewer && !other.file.dirty
    requires !me.file.localNewer && me.whole
    ensures Name(other.file) == me.file.stat && me.file.stat in me.fetched + me.authored
  {
    assert Chain(me.lastSeen, other.out, other.lastSent, Named(other), Bases(other));
  }

  /** A release, delivered with nothing else in flight and no edit open on the other peer, after releases in bounds: the
      stamps agree exactly when the disk time is not above the released identity. */
  lemma {:induction false} ReleaseConverges(me: Peer, other: Peer, peerWinsTie: bool, disk: int)
    requires Linked(me, other, peerWinsTie) && Aligned(me, peerWinsTie) && Aligned(other, !peerWinsTie)
    requires Enabled(me, other, Announce(disk)) && me.out == [] && other.out == []
    requires !(other.file.localNewer && other.file.dirty)
    ensures var me' := Local(me, Announce(disk));
            var other' := Received(other, me'.out[0], !peerWinsTie, PLAIN);
            me'.file.stat == other'.file.stat <==> disk <= me.file.stat
  {
    hide Received, Judged, Accepts, Identity, Sourced, Heard;
    assert Chain(other.lastSeen, me.out, me.lastSent, Named(me), Bases(me));
    assert Chain(me.lastSeen, other.out, other.lastSent, Named(other), Bases(other));
    var m := Message(Add, AnnounceStamp(me.file, disk), me.file.editBase);
    assert Local(me, Announce(disk)).out[0] == m;
    JudgedInOrder(other, m, !peerWinsTie, false);
    ReceivedFields(other, m, !peerWinsTie, PLAIN);
  }

  /** The release of a file the peer took over in the meantime, disk time in bounds: the peer stays the owner exactly
      when it was and its rank wins ties; otherwise neither is left as owner. */
  lemma {:induction false} EchoedReleaseOwner(me: Peer, other: Peer, peerWinsTie: bool, disk: int)
    requires Linked(me, other, peerWinsTie) && Aligned(me, peerWinsTie) && Aligned(other, !peerWinsTie)
    requires Enabled(me, other, Announce(disk)) && me.out == [] && other.out == []
    requires !(other.file.localNewer && other.file.dirty) && !me.file.localNewer && disk <= me.file.stat
    ensures var me' := Local(me, Announce(disk));
            var other' := Received(other, me'.out[0], !peerWinsTie, PLAIN);
            && !me'.file.localNewer
            && (other'.file.localNewer <==> other.file.localNewer && peerWinsTie)
  {
    hide Received, Judged, Accepts, Identity, Sourced, Heard;
    assert Chain(other.lastSeen, me.out, me.lastSent, Named(me), Bases(me));
    assert Chain(me.lastSeen, other.out, other.lastSent, Named(other), Bases(other));
    var m := Message(Add, AnnounceStamp(me.file, disk), me.file.editBase);
    assert Local(me, Announce(disk)).out[0] == m;
    JudgedInOrder(other, m, !peerWinsTie, false);
    ReceivedFields(other, m, !peerWinsTie, PLAIN);
  }

  // ---------- the base of an edit session ----------

  /** The peer neither announces its edit nor moves another file onto this one. */
  predicate InSession(steps: seq<Step>, isA: bool) {
    forall s :: s in steps && s.byA == isA ==> !s.act.Announce? && !s.act.Swap?
  }

  /** A session that is open stays open with the base it has: over any run, at any clock, whatever is written, truncated,
      fetched or received meanwhile. */
  lemma {:induction false} SessionKeepsBase(n: Net, steps: seq<Step>, isA: bool)
    requires CanRun(n, steps) && Of(n, isA).file.dirty && InSession(steps, isA)
    ensures var f := Of(Run(n, steps), isA).file;
            f.dirty && f.editBase == Of(n, isA).file.editBase
    decreases |steps|
  {
    hide Received, Recopied, Released, FetchEnded, Accepts, Identity;
    if steps != [] {
      assert steps[0] in steps;
      StepKeepsBase(n, steps[0], isA);
      SessionKeepsBase(Next(n, steps[0]), steps[1..], isA);
    }
  }

  lemma {:induction false} StepKeepsBase(n: Net, s: Step, isA: bool)
    requires CanStep(n, s) && Of(n, isA).file.dirty
    requires s.byA == isA ==> !s.act.Announce? && !s.act.Swap?
    ensures var f := Of(Next(n, s), isA).file;
            f.dirty && f.editBase == Of(n, isA).file.editBase
  {
    hide Received, Recopied, Released, Authored;
    if s.byA == isA {
      var me := Of(n, isA);
      match s.act
      case Deliver(how) => ReceivedFields(me, Of(n, !isA).out[0], if isA then n.aYields else !n.aYields, how);
      case Write(t) => AuthoredFields(me, Wrote(me.file, t));
      case Truncate(t, _) => AuthoredFields(me, me.file.(stat := t, localNewer := true));
      case _ =>
    }
  }

  /** What a file has at the moment its next edit begins: the larger of the held and the announced stamp; -1 when both
      are 0 and either a peer's version is known or there is no file yet. */
  predicate BaseAtHand(f: FileState, base: int) {
    if f.held > 0 || f.announced > 0 then base == Max(f.held, f.announced) && base >= f.held && base >= f.announced
    else base == -1
  }

  /** The announce that closes a session declares what was at hand right before the first write of the session, and so
      does every truncate inside it. */
  lemma {:induction false} SessionDeclaresFirstBase(n: Net, first: Step, rest: seq<Step>, last: Step, isA: bool)
    requires first.act.Write? && first.byA == last.byA == isA && (last.act.Announce? || last.act.Truncate?)
    requires !Of(n, isA).file.dirty && InSession(rest, isA)
    requires Of(n, isA).file.held >= 0 && Of(n, isA).file.announced >= 0 && Of(n, isA).file.remote >= 0
    requires CanRun(n, [first] + rest + [last])
    ensures var out := Of(Run(n, [first] + rest + [last]), isA).out;
            out != [] && BaseAtHand(Of(n, isA).file, out[|out| - 1].base)
  {
    var steps := [first] + rest + [last];
    assert steps[0] == first && steps[1..] == rest + [last];
    var n1 := Next(n, first);
    FirstWriteTakesBase(n, first, isA);
    RunParts(n1, rest, [last]);
    SessionKeepsBase(n1, rest, isA);
    var n2 := Run(n1, rest);
    assert [last][1..] == [];
    DeclaresOpenBase(n2, last, isA);
  }

  lemma {:induction false} FirstWriteTakesBase(n: Net, s: Step, isA: bool)
    requires CanStep(n, s) && s.act.Write? && s.byA == isA && !Of(n, isA).file.dirty
    requires Of(n, isA).file.held >= 0 && Of(n, isA).file.announced >= 0 && Of(n, isA).file.remote >= 0
    ensures var f := Of(Next(n, s), isA).file;
            f.dirty && BaseAtHand(Of(n, isA).file, f.editBase)
  {
  }

  lemma {:induction false} DeclaresOpenBase(n: Net, s: Step, isA: bool)
    requires CanStep(n, s) && (s.act.Announce? || s.act.Truncate?) && s.byA == isA && Of(n, isA).file.dirty
    ensures var out := Of(Next(n, s), isA).out;
            out != [] && out[|out| - 1].base == Of(n, isA).file.editBase
  {
  }

  /** A truncate outside a session declares what is at hand. */
  lemma {:induction false} BareTruncateDeclaresBase(n: Net, s: Step)
    requires CanStep(n, s) && s.act.Truncate? && !Of(n, s.byA).file.dirty
    requires var f := Of(n, s.byA).file; f.held >= 0 && f.announced >= 0 && f.remote >= 0
    ensures var out := Of(Next(n, s), s.byA).out;
            out != [] && BaseAtHand(Of(n, s.byA).file, out[|out| - 1].base)
  {
  }

  lemma {:induction false} RunParts(n: Net, xs: seq<Step>, ys: seq<Step>)
    requires CanRun(n, xs + ys)
    ensures CanRun(n, xs) && CanRun(Run(n, xs), ys) && Run(n, xs + ys) == Run(Run(n, xs), ys)
    decreases |xs|
  {
    if xs == [] {
      assert xs + ys == ys;
    } else {
      assert (xs + ys)[0] == xs[0] && (xs + ys)[1..] == xs[1..] + ys;
      RunParts(Next(n, xs[0]), xs[1..], ys);
    }
  }

  // ---------- the stamp of a swap-save, on any clock ----------

  /** A swap's stamp exceeds `s` whatever the clocks show exactly when one of the three fields still covers `s`. */
  lemma {:induction false} SwapCovers(f: FileState, s: int)
    ensures (forall disk, mem :: SwapStamp(disk, mem, SwapSeen(f)) > s) <==>
            s <= f.remote || s <= f.announced || (f.localNewer && s <= f.stat)
  {
    assert SwapStamp(SwapSeen(f), SwapSeen(f), SwapSeen(f)) == SwapSeen(f) + 1;
  }

  /** An edit or a release with a stamp behind what the file still remembers. */
  predicate Forgets(f: FileState, act: Action) {
    match act
    case Write(t) => f.localNewer && f.stat > Max(Max(f.remote, f.announced), t)
    case Truncate(t, _) => f.localNewer && f.stat > Max(Max(f.remote, f.announced), t)
    case Announce(disk) => f.announced > Max(f.remote, AnnounceStamp(f, disk))
    case _ => false
  }

  /** Those are the only local steps after which a swap-save may fall behind a stamp it would have exceeded. */
  lemma {:induction false} SeenFallsExactly(me: Peer, act: Action)
    requires !act.Deliver?
    ensures SwapSeen(Local(me, act).file) < SwapSeen(me.file) <==> Forgets(me.file, act)
  {
  }

  /** What every run keeps, whatever the clock: the watermark never falls, and a file without local change has a
      stat the watermark covers. */
  ghost predicate Marked(f: FileState) { f.remote >= 0 && (!f.localNewer && f.remote == 0 ==> f.stat <= 0) }

  /** The message a step delivers to a peer. */
  function Delivery(n: Net, s: Step): (m: Message)
    requires CanStep(n, s) && s.act.Deliver?
  {
    Of(n, !s.byA).out[0]
  }

  predicate Yields(n: Net, isA: bool) { if isA then n.aYields else !n.aYields }

  /** The stamps of the ADDs and the accepted EDITs a peer received along a run. */
  ghost function Raising(n: Net, steps: seq<Step>, isA: bool): (r: set<int>)
    requires CanRun(n, steps)
    decreases |steps|
  {
    if steps == [] then {}
    else
      var s := steps[0];
      var rest := Raising(Next(n, s), steps[1..], isA);
      if s.byA == isA && s.act.Deliver? && (Delivery(n, s).kind.Add? || Accepts(Of(n, isA).file, Delivery(n, s), Yields(n, isA)))
      then rest + {Delivery(n, s).stamp} else rest
  }

  /** All stamps a peer received or sent along a run. */
  ghost function Known(n: Net, steps: seq<Step>, isA: bool): (r: set<int>)
    requires CanRun(n, steps)
    decreases |steps|
  {
    if steps == [] then {}
    else
      var s := steps[0];
      var rest := Known(Next(n, s), steps[1..], isA);
      if s.byA != isA then rest
      else if s.act.Deliver? then rest + {Delivery(n, s).stamp}
      else if s.act.Announce? || s.act.Truncate? || s.act.Swap? then rest + {Of(Next(n, s), isA).lastSent}
      else rest
  }

  predicate NeverForgets(n: Net, steps: seq<Step>, isA: bool)
    requires CanRun(n, steps)
    decreases |steps|
  {
    steps != [] ==>
      && !(steps[0].byA == isA && Forgets(Of(n, isA).file, steps[0].act))
      && NeverForgets(Next(n, steps[0]), steps[1..], isA)
  }

  lemma {:induction false} LocalMarks(me: Peer, act: Action)
    requires !act.Deliver? && Marked(me.file)
    ensures Marked(Local(me, act).file) && me.file.remote <= Local(me, act).file.remote
    ensures act.Announce? || act.Truncate? || act.Swap? ==> Local(me, act).lastSent <= SwapSeen(Local(me, act).file)
  {
  }

  lemma {:induction false} JudgedMarks(f: FileState, m: Message, peerWinsTie: bool, shrinks: bool)
    requires Marked(f)
    ensures var f' := Judged(f, m, peerWinsTie, shrinks);
            && Marked(f') && f.remote <= f'.remote && SwapSeen(f) <= SwapSeen(f') && m.stamp <= SwapSeen(f')
            && (m.kind.Add? || Accepts(f, m, peerWinsTie) ==> m.stamp <= f'.remote)
  {
  }

  lemma {:induction false} StepMarks(n: Net, s: Step, isA: bool)
    requires CanStep(n, s) && Marked(Of(n, isA).file)
    ensures var f, f' := Of(n, isA).file, Of(Next(n, s), isA).file;
            && Marked(f') && f.remote <= f'.remote
            && (s.byA != isA ==> f' == f)
            && (s.byA == isA && s.act.Deliver? ==> Delivery(n, s).stamp <= SwapSeen(f') && SwapSeen(f) <= SwapSeen(f'))
            && (s.byA == isA && s.act.Deliver? && (Delivery(n, s).kind.Add? || Accepts(f, Delivery(n, s), Yields(n, isA)))
                ==> Delivery(n, s).stamp <= f'.remote)
            && (s.byA == isA && (s.act.Announce? || s.act.Truncate? || s.act.Swap?)
                ==> Of(Next(n, s), isA).lastSent <= SwapSeen(f'))
  {
    hide Marked, Judged, Local, Accepts, SwapSeen;
    if s.byA == isA {
      if s.act.Deliver? {
        JudgedMarks(Of(n, isA).file, Delivery(n, s), Yields(n, isA), s.act.how.shrinks);
      } else {
        LocalMarks(Of(n, isA), s.act);
      }
    }
  }

  /** On any run and any clock, the watermark covers every ADD and every accepted EDIT, and so does a swap's stamp. */
  lemma {:induction false} WatermarkCovers(n: Net, steps: seq<Step>, isA: bool)
    requires CanRun(n, steps) && Marked(Of(n, isA).file)
    ensures var f := Of(Run(n, steps), isA).file;
            && Of(n, isA).file.remote <= f.remote <= SwapSeen(f)
            && forall s :: s in Raising(n, steps, isA) ==> s <= f.remote
    decreases |steps|
  {
    if steps != [] {
      StepMarks(n, steps[0], isA);
      WatermarkCovers(Next(n, steps[0]), steps[1..], isA);
    }
  }

  /** A swap's stamp exceeds everything its author received or sent, rejected EDITs included, on every run in which
      no own edit or release forgets. */
  lemma {:induction false} SwapSeenCovers(n: Net, steps: seq<Step>, isA: bool)
    requires CanRun(n, steps) && Marked(Of(n, isA).file) && NeverForgets(n, steps, isA)
    ensures var f := Of(Run(n, steps), isA).file;
            && SwapSeen(Of(n, isA).file) <= SwapSeen(f)
            && forall s, disk, mem :: s in Known(n, steps, isA) ==> s < SwapStamp(disk, mem, SwapSeen(f))
    decreases |steps|
  {
    if steps != [] {
      var s := steps[0];
      StepMarks(n, s, isA);
      if s.byA == isA && !s.act.Deliver? { SeenFallsExactly(Of(n, isA), s.act); }
      SwapSeenCovers(Next(n, s), steps[1..], isA);
    }
  }

  /** Under the clock condition no step forgets. */
  lemma {:induction false} SwapIsFresh(n: Net, byA: bool, disk: int, mem: int)
    requires Inv(n)
    ensures var me := Of(n, byA);
            var stamp := SwapStamp(disk, mem, SwapSeen(me.file));
            stamp > me.lastSeen && stamp > me.lastSent && Fresh(me.file, stamp)
  {
  }

  // ---------- runs in which the code falls short ----------

  lemma {:induction false} RunCons(n: Net, s: Step, rest: seq<Step>)
    requires CanStep(n, s) && CanRun(Next(n, s), rest)
    ensures CanRun(n, [s] + rest) && Run(n, [s] + rest) == Run(Next(n, s), rest)
    ensures TimelyRun(n, [s] + rest) <==> Timely(Of(n, s.byA), s.act) && TimelyRun(Next(n, s), rest)
    ensures InBoundsRun(n, [s] + rest) <==> InBounds(Of(n, s.byA), s.act) && InBoundsRun(Next(n, s), rest)
    ensures forall isA :: Known(n, [s] + rest, isA) >= Known(Next(n, s), rest, isA)
  {
    assert ([s] + rest)[1..] == rest;
  }

  lemma {:induction false} RunOfOne(n: Net, s: Step)
    requires CanStep(n, s)
    ensures CanRun(n, [s]) && Run(n, [s]) == Next(n, s)
    ensures TimelyRun(n, [s]) <==> Timely(Of(n, s.byA), s.act)
    ensures InBoundsRun(n, [s]) <==> InBounds(Of(n, s.byA), s.act)
  {
    RunCons(n, s, []);
    assert [s] + [] == [s];
  }

  lemma {:induction false} RunOfTwo(n: Net, s: Step, s': Step)
    requires CanStep(n, s) && CanStep(Next(n, s), s')
    ensures CanRun(n, [s, s']) && Run(n, [s, s']) == Next(Next(n, s), s')
    ensures TimelyRun(n, [s, s']) <==> Timely(Of(n, s.byA), s.act) && Timely(Of(Next(n, s), s'.byA), s'.act)
    ensures InBoundsRun(n, [s, s']) <==> InBounds(Of(n, s.byA), s.act) && InBounds(Of(Next(n, s), s'.byA), s'.act)
  {
    RunCons(Next(n, s), s', []);
    RunCons(n, s, [s']);
  }

  lemma {:induction false} RunJoin(n: Net, xs: seq<Step>, ys: seq<Step>)
    requires CanRun(n, xs) && CanRun(Run(n, xs), ys)
    ensures CanRun(n, xs + ys) && Run(n, xs + ys) == Run(Run(n, xs), ys)
    ensures TimelyRun(n, xs) && TimelyRun(Run(n, xs), ys) ==> TimelyRun(n, xs + ys)
    ensures InBoundsRun(n, xs) && InBoundsRun(Run(n, xs), ys) ==> InBoundsRun(n, xs + ys)
    ensures forall isA :: Known(n, xs + ys, isA) >= Known(Run(n, xs), ys, isA)
    decreases |xs|
  {
    hide CanStep, Next, Timely, InBounds;
    if xs == [] {
      assert xs + ys == ys;
    } else {
      RunJoin(Next(n, xs[0]), xs[1..], ys);
      assert (xs + ys)[1..] == xs[1..] + ys;
    }
  }

  /** Writing and releasing, as two steps of a run. */
  function Save(byA: bool, t: int): (s: seq<Step>) { [Step(byA, Write(t)), Step(byA, Announce(t))] }

  lemma {:induction false} SaveRuns(n: Net, byA: bool, t: int)
    requires Of(n, byA).whole
    ensures CanRun(n, Save(byA, t))
    ensures Run(n, Save(byA, t)) == Next(Next(n, Step(byA, Write(t))), Step(byA, Announce(t)))
    ensures Fresh(Of(n, byA).file, t) ==> TimelyRun(n, Save(byA, t))
    ensures InBoundsRun(n, Save(byA, t))
  {
    RunOfTwo(n, Step(byA, Write(t)), Step(byA, Announce(t)));
  }

  /** Both peers mint 10; `a`, whose rank wins ties, has rejected the other's. */
  lemma {:induction false} BothMinted() returns (steps: seq<Step>)
    ensures CanRun(Start(false), steps) && TimelyRun(Start(false), steps) && InBoundsRun(Start(false), steps)
    ensures var n := Run(Start(false), steps);
            && n.a == NEW_PEER.(file := FileState(10, true, 10, 10, 10, -1, false), out := [Message(Add, 10, -1)],
                                lastSent := 10, lastSeen := 10, authored := {10})
            && n.b == NEW_PEER.(file := FileState(10, true, 0, 10, 10, -1, false), lastSent := 10, authored := {10})
            && !n.aYields
  {
    hide CanRun, Run, TimelyRun, InBoundsRun;
    var n0 := Start(false);
    SaveRuns(n0, true, 10);
    var n1 := Run(n0, Save(true, 10));
    SaveRuns(n1, false, 10);
    RunJoin(n0, Save(true, 10), Save(false, 10));
    var last := [Take(true)];
    RunOfOne(Run(n1, Save(false, 10)), last[0]);
    steps := Save(true, 10) + Save(false, 10) + last;
    RunJoin(n0, Save(true, 10) + Save(false, 10), last);
  }

  /** A stamp both peers minted hides a conflict: the peer whose rank lost the tie writes again, declares the tied
      stamp as its base, and the winner's version is replaced with no sibling though it was never fetched. */
  lemma {:induction false} TieLosesVersion() returns (steps: seq<Step>)
    ensures CanRun(Start(false), steps) && TimelyRun(Start(false), steps) && InBoundsRun(Start(false), steps)
    ensures var n := Run(Start(false), steps);
            Quiescent(n) && 10 in n.a.authored && 10 in n.b.authored && !NotLost(n.a, n.b, 10)
  {
    hide CanRun, Run, TimelyRun, InBoundsRun;
    var before := BothMinted();
    var n := Run(Start(false), before);
    SaveRuns(n, false, 20);
    var n1 := Run(n, Save(false, 20));
    var last := [Take(true), Take(false)];
    RunOfTwo(n1, last[0], last[1]);
    RunJoin(n, Save(false, 20), last);
    RunJoin(Start(false), before, Save(false, 20) + last);
    steps := before + (Save(false, 20) + last);
  }

  function Take(byA: bool): (s: Step) { Step(byA, Deliver(PLAIN)) }

  /** `b` fetches all of the version it has seen. */
  function Fill(version: int): (s: seq<Step>) { [Step(false, FetchBegin), Step(false, FetchEnd(version, true))] }

  lemma {:induction false} FillRuns(n: Net)
    requires n.b.file.remote > 0
    ensures var version := n.b.file.remote;
            && CanRun(n, Fill(version)) && TimelyRun(n, Fill(version)) && InBoundsRun(n, Fill(version))
            && Run(n, Fill(version)) == n.(b := n.b.(file := NotedHeld(n.b.file), fetched := n.b.fetched + {version}, whole := true))
  {
    var version := n.b.file.remote;
    RunOfTwo(n, Fill(version)[0], Fill(version)[1]);
    assert n.b.begun + multiset{version} - multiset{version} == n.b.begun;
    assert n.b.claimed + ({version} - (n.b.fetched + {version})) == n.b.claimed;
  }

  /** Both peers hold 10, which `a` wrote. */
  lemma {:induction false} Shared(aYields: bool) returns (steps: seq<Step>)
    ensures CanRun(Start(aYields), steps) && TimelyRun(Start(aYields), steps) && InBoundsRun(Start(aYields), steps)
    ensures Run(Start(aYields), steps) ==
            Net(NEW_PEER.(file := FileState(10, true, 0, 10, 10, -1, false), lastSent := 10, authored := {10}),
                NEW_PEER.(file := FileState(10, false, 10, 10, 0, 0, false), lastSeen := 10, fetched := {10}), aYields)
  {
    hide CanRun, Run, TimelyRun, InBoundsRun;
    var n0 := Start(aYields);
    SaveRuns(n0, true, 10);
    var n1 := Run(n0, Save(true, 10));
    RunOfOne(n1, Take(false));
    var n2 := Next(n1, Take(false));
    FillRuns(n2);
    RunJoin(n1, [Take(false)], Fill(10));
    RunJoin(n0, Save(true, 10), [Take(false)] + Fill(10));
    steps := Save(true, 10) + ([Take(false)] + Fill(10));
  }

  /** Then `b` drafts 14 while `a` writes and announces `t`. */
  lemma {:induction false} SharedThenCrossing(aYields: bool, t: int) returns (steps: seq<Step>)
    requires t > 10
    ensures CanRun(Start(aYields), steps) && TimelyRun(Start(aYields), steps) && InBoundsRun(Start(aYields), steps)
    ensures Run(Start(aYields), steps) ==
            Net(NEW_PEER.(file := FileState(t, true, 0, t, t, 10, false), out := [Message(Add, t, 10)], lastSent := t,
                          authored := {10, t}, overwritten := {10}),
                NEW_PEER.(file := FileState(14, true, 10, 10, 0, 10, true), lastSeen := 10, authored := {14}, fetched := {10}),
                aYields)
  {
    hide CanRun, Run, TimelyRun, InBoundsRun;
    var shared := Shared(aYields);
    var n := Run(Start(aYields), shared);
    SaveRuns(n, true, t);
    var n1 := Run(n, Save(true, t));
    assert n1.a.authored == {10, t};
    var draft := [Step(false, Write(14))];
    RunOfOne(n1, draft[0]);
    RunJoin(n, Save(true, t), draft);
    RunJoin(Start(aYields), shared, Save(true, t) + draft);
    steps := shared + (Save(true, t) + draft);
  }

  /** A swap-save over an unannounced edit declares that edit as its base. The other peer's concurrent version is
      older than the draft, so no conflict is seen and it is replaced with no sibling, never fetched. */
  lemma {:induction false} SwapOverDraftLosesVersion() returns (steps: seq<Step>)
    ensures CanRun(Start(true), steps) && TimelyRun(Start(true), steps) && InBoundsRun(Start(true), steps)
    ensures var n := Run(Start(true), steps);
            && Quiescent(n) && 12 in n.a.authored && 12 !in Named(n.b) && !NotLost(n.a, n.b, 12)
            && n.b.drafts == {14}
  {
    hide CanRun, Run, TimelyRun, InBoundsRun;
    var crossing := SharedThenCrossing(true, 12);
    var n := Run(Start(true), crossing);
    var rest := [Take(true), Take(false)];
    var swap := Step(false, Swap(0, 15, 0, false));
    RunOfTwo(Next(n, swap), rest[0], rest[1]);
    RunCons(n, swap, rest);
    RunJoin(Start(true), crossing, [swap] + rest);
    steps := crossing + ([swap] + rest);
  }

  /** The peer's 16 takes over a file with an open edit, and the fill brings its bytes. The release then finds a later
      time on disk: the peer accepts it, this peer's identity stays behind, and nothing is left to deliver. */
  lemma {:induction false} EchoedReleaseDiverges() returns (steps: seq<Step>)
    ensures CanRun(Start(true), steps) && TimelyRun(Start(true), steps)
    ensures var n := Run(Start(true), steps);
            && Quiescent(n) && !n.a.file.localNewer && !n.b.file.localNewer && 16 in n.b.fetched
            && n.a.file.stat == 17 && n.b.file.stat == 16
  {
    hide CanRun, Run, TimelyRun, InBoundsRun;
    var crossing := SharedThenCrossing(true, 16);
    var n := Run(Start(true), crossing);
    var n1 := Next(n, Take(false));
    FillRuns(n1);
    var n2 := Run(n1, Fill(16));
    var last := [Step(false, Announce(17)), Take(true)];
    RunOfTwo(n2, last[0], last[1]);
    RunJoin(n1, Fill(16), last);
    RunCons(n, Take(false), Fill(16) + last);
    RunJoin(Start(true), crossing, [Take(false)] + (Fill(16) + last));
    steps := crossing + ([Take(false)] + (Fill(16) + last));
  }

  /** `b` truncates the shared file to zero at 12 and writes 14 into it; `a` truncates it at 16. Both EDITs arrive. */
  lemma {:induction false} TruncatesCross() returns (steps: seq<Step>)
    ensures CanRun(Start(false), steps) && TimelyRun(Start(false), steps) && InBoundsRun(Start(false), steps)
    ensures Run(Start(false), steps) ==
            Net(NEW_PEER.(file := FileState(16, true, 0, 10, 10, -1, false), lastSent := 16, lastSeen := 12,
                          authored := {10, 16}, overwritten := {10}),
                NEW_PEER.(file := FileState(16, false, 16, 10, 0, 10, true), lastSent := 12, lastSeen := 16,
                          authored := {12, 14}, fetched := {10}, overwritten := {12}, kept := {14}, whole := false, zeroed := true),
                false)
  {
    hide CanRun, Run, TimelyRun, InBoundsRun;
    var shared := Shared(false);
    var n := Run(Start(false), shared);
    var s0, s1, s2 := Step(false, Truncate(12, true)), Step(false, Write(14)), Step(true, Truncate(16, false));
    var n1 := Next(n, s0);
    var n2 := Next(n1, s1);
    var n3 := Next(n2, s2);
    var rest := [Take(false), Take(true)];
    RunOfTwo(n3, rest[0], rest[1]);
    RunCons(n2, s2, rest);
    RunCons(n1, s1, [s2] + rest);
    RunCons(n, s0, [s1] + ([s2] + rest));
    var all := [s0] + ([s1] + ([s2] + rest));
    assert Run(n, all).b.authored == {12, 14} && Run(n, all).a.authored == {10, 16};
    RunJoin(Start(false), shared, all);
    steps := shared + all;
  }

  /** The EDIT left the truncate to zero in force, so the release of `b` does not wait for the fill: it repeats 16 and
      notes it as announced, so held. The next save declares it as its base and replaces it, though no byte of it
      was ever fetched. */
  lemma {:induction false} EchoLosesVersion() returns (steps: seq<Step>)
    ensures CanRun(Start(false), steps) && TimelyRun(Start(false), steps) && InBoundsRun(Start(false), steps)
    ensures var n := Run(Start(false), steps);
            && Quiescent(n) && 16 in n.a.authored && 16 !in n.b.authored && 16 !in n.b.fetched && !NotLost(n.a, n.b, 16)
  {
    hide CanRun, Run, TimelyRun, InBoundsRun;
    var before := TruncatesCross();
    var n := Run(Start(false), before);
    var release := [Step(false, Announce(16)), Take(true)];
    RunOfTwo(n, release[0], release[1]);
    var n1 := Run(n, release);
    var s0, s1, s2 := Step(false, Write(20)), Step(false, Announce(20)), Take(true);
    RunOfTwo(Next(n1, s0), s1, s2);
    RunCons(n1, s0, [s1, s2]);
    RunJoin(n, release, [s0] + [s1, s2]);
    RunJoin(Start(false), before, release + ([s0] + [s1, s2]));
    steps := before + (release + ([s0] + [s1, s2]));
  }

  /** `b` begins a fetch under 10; `a` saves 16, and `b` accepts it. */
  lemma {:induction false} FetchCrossed() returns (steps: seq<Step>)
    ensures CanRun(Start(true), steps) && TimelyRun(Start(true), steps) && InBoundsRun(Start(true), steps)
    ensures Run(Start(true), steps) ==
            Net(NEW_PEER.(file := FileState(16, true, 0, 16, 16, 10, false), lastSent := 16, authored := {10, 16},
                          overwritten := {10}),
                NEW_PEER.(file := FileState(16, false, 16, 10, 0, 0, false), lastSeen := 16, fetched := {10},
                          begun := multiset{10}, whole := false), true)
  {
    hide CanRun, Run, TimelyRun, InBoundsRun;
    var shared := Shared(true);
    var n := Run(Start(true), shared);
    var begin := Step(false, FetchBegin);
    var n1 := Next(n, begin);
    SaveRuns(n1, true, 16);
    var n2 := Run(n1, Save(true, 16));
    assert n2.a.authored == {10, 16} && n2.b.begun == multiset{10};
    RunOfOne(n2, Take(false));
    RunJoin(n1, Save(true, 16), [Take(false)]);
    RunCons(n, begin, Save(true, 16) + [Take(false)]);
    RunJoin(Start(true), shared, [begin] + (Save(true, 16) + [Take(false)]));
    steps := shared + ([begin] + (Save(true, 16) + [Take(false)]));
  }

  /** The fetch ends and notes 16 as held. A truncate then declares 16 as its base and replaces it, though no byte of it
      was ever fetched. */
  lemma {:induction false} LateFetchLosesVersion() returns (steps: seq<Step>)
    ensures CanRun(Start(true), steps) && TimelyRun(Start(true), steps) && InBoundsRun(Start(true), steps)
    ensures var n := Run(Start(true), steps);
            && Quiescent(n) && 16 in n.a.authored && 16 !in n.b.authored && n.b.fetched == {10} && !NotLost(n.a, n.b, 16)
  {
    hide CanRun, Run, TimelyRun, InBoundsRun;
    var before := FetchCrossed();
    var n := Run(Start(true), before);
    var end := Step(false, FetchEnd(10, true));
    var last := [Step(false, Truncate(20, false)), Take(true)];
    var n1 := Next(n, end);
    assert n1.b.fetched == {10} && n1.b.file.held == 16;
    RunOfTwo(n1, last[0], last[1]);
    RunCons(n, end, last);
    RunJoin(Start(true), before, [end] + last);
    steps := before + ([end] + last);
  }

  /** `a` announced 10 and drafts 20 while an EDIT 15 of `b` is on its way. */
  lemma {:induction false} EditUnderway() returns (steps: seq<Step>)
    ensures CanRun(Start(true), steps)
    ensures var n := Run(Start(true), steps);
            && n.a.file == FileState(20, true, 0, 10, 10, 10, true) && n.a.whole
            && n.b.out == [Message(Edit, 15, 10)] && n.aYields
  {
    hide CanRun, Run, TimelyRun, InBoundsRun;
    var shared := Shared(true);
    var n := Run(Start(true), shared);
    var rest := [Step(false, Truncate(15, false)), Step(true, Write(20))];
    RunOfTwo(n, rest[0], rest[1]);
    RunJoin(Start(true), shared, rest);
    steps := shared + rest;
  }

  /** A clock that steps back: `a` rejects the EDIT 15 against its draft 20, rewrites the draft at 12 and releases it.
      Its next swap-save is stamped 13, below the 15 it received. */
  lemma {:induction false} ClockBackForgets() returns (steps: seq<Step>)
    ensures CanRun(Start(true), steps)
    ensures var n := Run(Start(true), steps);
            && 15 in Known(Start(true), steps, true)
            && SwapStamp(0, 12, SwapSeen(n.a.file)) == 13
  {
    hide TimelyRun, InBoundsRun, Timely, InBounds, Run;
    var before := EditUnderway();
    var n := Run(Start(true), before);
    var rest := [Step(true, Write(12)), Step(true, Announce(12))];
    assert Delivery(n, Take(true)).stamp == 15;
    var n1 := Next(n, Take(true));
    RunOfTwo(n1, rest[0], rest[1]);
    RunCons(n, Take(true), rest);
    assert ([Take(true)] + rest)[1..] == rest;
    assert 15 in Known(n, [Take(true)] + rest, true);
    RunJoin(Start(true), before, [Take(true)] + rest);
    steps := before + ([Take(true)] + rest);
  }

  // ---------- the tracked file ----------

  /** The version fields of one file on one peer, updated in place. */
  class TrackedFile {
    var stat: int
    var localNewer: bool
    var remote: int
    var held: int
    var announced: int
    var editBase: int
    var dirty: bool
    var truncated: bool  // WasTruncatedToZero
    var afterFill: bool  // AnnounceAfterFill

    function State(): (f: FileState)
      reads this
    {
      FileState(stat, localNewer, remote, held, announced, editBase, dirty)
    }

    constructor ()
      ensures State() == ABSENT && !truncated && !afterFill
    {
      stat, localNewer, remote, held, announced, editBase, dirty := 0, false, 0, 0, 0, 0, false;
      truncated, afterFill := false, false;
    }

    /** Create: a new file starts an edit session of the fresh-create class. */
    method Create(t: int)
      modifies this
      ensures State() == Created(old(State()), t) && truncated == old(truncated) && afterFill == old(afterFill)
    {
      editBase, dirty, localNewer, stat := -1, true, true, t;
    }

    /** The version side of Write: the first write of a session captures its base. A pwrite that stores nothing
        opens the session all the same, but leaves the stamp. */
    method Write(t: int, written: bool)
      modifies this
      ensures State() == Wrote(old(State()), if written then t else old(stat))
      ensures truncated == old(truncated) && afterFill == old(afterFill)
      ensures old(dirty) ==> editBase == old(editBase)
    {
      if !dirty {
        editBase := Max(held, announced);
        if editBase == 0 && remote > 0 {
          editBase := -1;
        }
      }
      dirty, localNewer := true, true;
      if written {
        stat := t;
      }
    }

    /** The last close of the file: what wants an announce is announced now, or after the fill while chunks of a cache
        copy are missing and it was not truncated to zero. A wish left from before (`afterFill`) only restarts a
        fill. */
    method Release(hadEdits: bool, missing: bool) returns (announce: bool, fill: bool)
      modifies this`afterFill
      ensures fill <==> (hadEdits || (dirty && localNewer) || old(afterFill)) && missing && !truncated
      ensures announce <==> (hadEdits || (dirty && localNewer)) && !(missing && !truncated)
      ensures afterFill <==> old(afterFill) || fill
    {
      announce := hadEdits || (dirty && localNewer);
      fill := (announce || afterFill) && missing && !truncated;
      if fill {
        afterFill := true;
        announce := false;
      }
    }

    /** announceLocalEdit, with the disk mtime of the file. */
    method AnnounceLocalEdit(disk: int) returns (m: Message)
      modifies this
      ensures State() == Announced(old(State()), disk)
      ensures m == Message(Add, AnnounceStamp(old(State()), disk), old(editBase))
      // It carries the session's base and the later of the two stamps, which is then held.
      ensures m.base == old(editBase) && m.stamp == Max(old(stat), disk) == announced && held == Max(old(held), m.stamp)
      ensures !dirty && stat == old(stat) && remote == old(remote) && localNewer == old(localNewer) && editBase == old(editBase)
      ensures !afterFill && truncated == old(truncated)
    {
      var base, stamp := editBase, disk;
      dirty, afterFill := false, false;
      if stat > stamp {
        stamp := stat;
      }
      announced := stamp;
      if announced > held {
        held := announced;
      }
      m := Message(Add, stamp, base);
    }

    /** The version side of Truncate: an edit is announced at once, and a truncate to the size the file has is none. */
    method Truncate(t: int, sizeChanged: bool, toZero: bool) returns (m: Option<Message>)
      modifies this
      ensures truncated == (old(truncated) || toZero) && afterFill == old(afterFill)
      ensures State() == old(State()).(stat := t, localNewer := old(localNewer) || sizeChanged)
      ensures m == if sizeChanged then Some(Message(Edit, t, TruncateBase(old(State())))) else None
    {
      stat := t;
      if sizeChanged {
        localNewer := true;
      }
      if toZero {
        truncated := true;
      }
      var base := editBase;
      if !dirty {
        base := Max(held, announced);
        if base == 0 && remote > 0 {
          base := -1;
        }
      }
      m := if sizeChanged then Some(Message(Edit, t, base)) else None;
    }

    /** AddRemoteFileWithBase: the judgement and the fields it leaves. `preserved` says whether the sibling of a
        conflict could be written; when not, the version fields are as if the announce had never come. Both flags of a
        local rewrite fall with the judgement, even then. */
    method AddRemoteFile(stamp: int, base: int, peerWinsTie: bool, shrinks: bool, preserved: bool)
      returns (accepted: bool, sibling: bool)
      modifies this
      ensures var f, m := old(State()), Message(Add, stamp, base);
              && sibling == (Conflicts(f, m, peerWinsTie) && preserved)
              && accepted == (Accepts(f, m, peerWinsTie) && (Conflicts(f, m, peerWinsTie) ==> preserved))
              && State() == (if Conflicts(f, m, peerWinsTie) && !preserved then f else Judged(f, m, peerWinsTie, shrinks))
              && truncated == (old(truncated) && !Accepts(f, m, peerWinsTie))
              && afterFill == (old(afterFill) && !Accepts(f, m, peerWinsTie))
    {
      var existing, wasLocalNewer, prevRemote := remote, localNewer, remote;
      if existing == 0 {
        existing := stat;
      }
      if wasLocalNewer && stat > existing {
        existing := stat;
      }
      accepted := stamp > existing;
      if !accepted && wasLocalNewer && stamp > 0 && stamp == existing && peerWinsTie {
        accepted := true;
      }
      var conflict := accepted && wasLocalNewer && base != 0 && base < existing;
      sibling := conflict && preserved;
      if accepted {
        localNewer, truncated, afterFill := false, false, false;
      }
      if stamp > remote {
        remote := stamp;
      }
      if !accepted && (wasLocalNewer || (shrinks && stamp < existing)) {
        return;
      }
      if conflict && !preserved {
        if remote == stamp {
          remote := prevRemote;
        }
        localNewer := wasLocalNewer;
        return false, false;
      }
      stat := stamp;
    }

    /** EditRemoteFileWithBase, likewise, but for the two flags, which it leaves. */
    method EditRemoteFile(stamp: int, base: int, peerWinsTie: bool, preserved: bool)
      returns (accepted: bool, sibling: bool)
      modifies this
      ensures var f, m := old(State()), Message(Edit, stamp, base);
              && sibling == (Conflicts(f, m, peerWinsTie) && preserved)
              && accepted == (Accepts(f, m, peerWinsTie) && (Conflicts(f, m, peerWinsTie) ==> preserved))
              && State() == (if Conflicts(f, m, peerWinsTie) && !preserved then f else Judged(f, m, peerWinsTie, false))
              && truncated == old(truncated) && afterFill == old(afterFill)
    {
      var ref, prevRemote := remote, remote;
      if ref == 0 {
        ref := stat;
      }
      if localNewer && stat > ref {
        ref := stat;
      }
      if stamp < ref {
        return false, false;
      }
      if stamp == ref && localNewer && !peerWinsTie {
        return false, false;
      }
      var conflict := localNewer && base != 0 && base < ref;
      if stamp > remote {
        remote := stamp;
      }
      if conflict && !preserved {
        if remote == stamp {
          remote := prevRemote;
        }
        return false, false;
      }
      stat, localNewer := stamp, false;
      accepted, sibling := true, conflict;
    }

    method NoteHeld()
      modifies this`held
      ensures State() == NotedHeld(old(State()))
    {
      if remote > held {
        held := remote;
      }
    }

    method SwapStamps() returns (base: int, seen: int)
      ensures base == SwapBase(State()) && seen == SwapSeen(State())
    {
      base, seen := Max(held, announced), Max(remote, announced);
      if localNewer {
        base, seen := Max(base, stat), Max(seen, stat);
      }
      if base == 0 && remote > 0 {
        base := -1;
      }
    }

    /** stampRenamedFile on the moved object: `mem` is the stamp Write gave it, or 0. */
    method StampRenamed(disk: int, mem: int, seen: int) returns (stamp: int)
      modifies this`stat, this`announced
      ensures stamp == SwapStamp(disk, mem, seen) && stamp > seen
      ensures State() == old(State()).(stat := stamp, announced := stamp)
    {
      stamp := Max(disk, mem);
      if stamp <= seen {
        stamp := seen + 1;
      }
      stat, announced := stamp, stamp;
    }

    /** The map update of a swap-save: the moved object takes the ousted target's watermark. */
    method TakeWatermark(target: TrackedFile)
      modifies this`remote
      ensures remote == Max(old(remote), old(target.remote))
    {
      if target.remote > remote {
        remote := target.remote;
      }
    }

    /** A swap-save of this file onto `target`: the message it sends and the object that now stands at the path.
        `adopts` says that the target is a peer's file and this one is not, so the watermark moves over. A released
        local copy of no peer's file ends as the protocol's swapped file. */
    method SwapOnto(target: TrackedFile, disk: int, adopts: bool) returns (m: Message)
      requires target != this
      modifies this
      ensures var f, g := old(State()), target.State();
              && m == Message(Add, SwapStamp(disk, if f.localNewer then f.stat else 0, SwapSeen(g)), SwapBase(g))
              && m.stamp > SwapSeen(g) && (f.localNewer ==> m.stamp >= f.stat)
              && State() == f.(stat := m.stamp, announced := m.stamp,
                               remote := if adopts then Max(f.remote, g.remote) else f.remote)
              && (f.localNewer && !f.dirty && f.remote <= g.remote && adopts
                  ==> State() == SwappedIn(g, m.stamp, f.held).(editBase := f.editBase))
    {
      var base, seen := target.SwapStamps();
      var mem := if localNewer then stat else 0;
      if adopts {
        TakeWatermark(target);
      }
      var stamp := StampRenamed(disk, mem, seen);
      m := Message(Add, stamp, base);
    }
  }
}
