/**
 Port-to-port transitions: every clip port of a map is entered in one dictionary by cell and face, and
 a transition is counted wherever two entries face each other with the same clip.
 */
module FaceTransitions {
  import opened Rotation
  import opened Poses
  import opened Collections
  import opened Catalogue
  import opened Occupancy
  import opened ClipMeeting

  /** The block whose port was entered last at a spot. */
  datatype Holder = Holder(block: string, rot: Quarter, clip: string)

  datatype Entry = Entry(spot: Spot, holder: Holder)

  type OpenPorts = map<Spot, Holder>

  datatype TransitionKey = TransitionKey(a: string, b: string, clip: string, rel: Quarter, environment: string)

  // ----- the port dictionary of one map -----

  /** The indexed ports of a block at a rotation; blocks without any are not indexed. */
  function IndexedPorts(catalogue: Catalog, clips: Option<set<string>>, p: Placed): Option<seq<Port>> {
    if p.name !in catalogue then None
    else match GroundVariant(catalogue[p.name])
      case None => None
      case Some(v) =>
        var local := Collections.Filter((u: UnitPort) => clips.None? || u.clip in clips.value, SidePorts(v));
        if local == [] then None else Some(TurnPorts(local, p.pose.rot, v.size))
  }

  function EntryOf(p: Placed, port: Port): Entry {
    Entry(SpotOf(port, p.pose.at), Holder(p.name, p.pose.rot, port.clip))
  }

  function EntriesOf(catalogue: Catalog, clips: Option<set<string>>, p: Placed): seq<Entry> {
    match IndexedPorts(catalogue, clips, p)
    case None => []
    case Some(ports) => PortEntries(p, ports)
  }

  function PortEntries(p: Placed, ports: seq<Port>): seq<Entry> { Map(q => EntryOf(p, q), ports) }

  function AllEntries(catalogue: Catalog, clips: Option<set<string>>, placed: seq<Placed>): seq<Entry> {
    FlatMap(p => EntriesOf(catalogue, clips, p), placed)
  }

  ghost predicate Indexed(clips: Option<set<string>>, clip: string) { clips.None? || clip in clips.value }

  /** The entry of a clip of a placed block: the spot of its turned port, held by the block at its rotation. */
  ghost predicate EntryFor(p: Placed, v: BlockVariant, port: Port, e: Entry) {
    && TurnedClipOf(v, p.pose.rot, port)
    && e == Entry(Spot(Add(p.pose.at, port.cell), port.face), Holder(p.name, p.pose.rot, port.clip))
  }

  /** A placement enters exactly the indexed clips on the side faces of its ground variant, where they are turned to. */
  lemma {:induction false} EntriesAre(catalogue: Catalog, clips: Option<set<string>>, p: Placed, e: Entry)
    ensures e in EntriesOf(catalogue, clips, p) <==>
            && p.name in catalogue && GroundVariant(catalogue[p.name]).Some?
            && Indexed(clips, e.holder.clip)
            && exists port :: EntryFor(p, GroundVariant(catalogue[p.name]).value, port, e)
  {
    if p.name in catalogue && GroundVariant(catalogue[p.name]).Some? {
      var v := GroundVariant(catalogue[p.name]).value;
      var ports := TurnPorts(Collections.Filter((u: UnitPort) => clips.None? || u.clip in clips.value, SidePorts(v)),
                             p.pose.rot, v.size);
      assert EntriesOf(catalogue, clips, p) == PortEntries(p, ports);
      forall port ensures port in ports <==> Indexed(clips, port.clip) && TurnedClipOf(v, p.pose.rot, port) {
        TurnedPortsAre(v, (u: UnitPort) => clips.None? || u.clip in clips.value,
                       clip => clips.None? || clip in clips.value, p.pose.rot, port);
      }
      EntriesOfPorts(p, v, clips, ports, e);
    }
  }

  lemma {:induction false} EntriesOfPorts(p: Placed, v: BlockVariant, clips: Option<set<string>>, ports: seq<Port>,
                                          e: Entry)
    requires forall port :: port in ports <==> Indexed(clips, port.clip) && TurnedClipOf(v, p.pose.rot, port)
    ensures e in PortEntries(p, ports) <==> Indexed(clips, e.holder.clip) && exists port :: EntryFor(p, v, port, e)
  {
    if e in PortEntries(p, ports) {
      var i :| 0 <= i < |ports| && PortEntries(p, ports)[i] == e;
      assert ports[i] in ports && EntryFor(p, v, ports[i], e);
    }
    if port :| EntryFor(p, v, port, e) && Indexed(clips, e.holder.clip) {
      assert port in ports;
      var i :| 0 <= i < |ports| && ports[i] == port;
      assert PortEntries(p, ports)[i] == e;
    }
  }

  /** The entry that survives at a spot is the last one made. */
  function LastEntry(entries: seq<Entry>, s: Spot): Option<Holder> {
    if entries == [] then None
    else if entries[|entries| - 1].spot == s then Some(entries[|entries| - 1].holder)
    else LastEntry(entries[..|entries| - 1], s)
  }

  ghost predicate Records(ports: OpenPorts, entries: seq<Entry>) {
    forall s :: LastEntry(entries, s) == if s in ports then Some(ports[s]) else None
  }

  lemma {:induction false} RecordsMore(ports: OpenPorts, entries: seq<Entry>, e: Entry)
    requires Records(ports, entries)
    ensures Records(ports[e.spot := e.holder], entries + [e])
  {
    assert (entries + [e])[..|entries|] == entries;
    forall s ensures LastEntry(entries + [e], s) == if s == e.spot then Some(e.holder) else LastEntry(entries, s) {}
  }

  method EnterPorts(p: Placed, world: seq<Port>, before: OpenPorts, ghost entries: seq<Entry>)
    returns (ports: OpenPorts)
    requires Records(before, entries)
    ensures Records(ports, entries + PortEntries(p, world))
  {
    ports := before;
    ghost var made := PortEntries(p, world);
    assert entries + made[..0] == entries;
    for k := 0 to |world|
      invariant Records(ports, entries + made[..k])
    {
      var e := EntryOf(p, world[k]);
      RecordsMore(ports, entries + made[..k], e);
      assert entries + made[..k + 1] == (entries + made[..k]) + [e];
      ports := ports[e.spot := e.holder];
    }
    assert made[..|world|] == made;
  }

  method EnterPlaced(catalogue: Catalog, clips: Option<set<string>>, p: Placed, before: OpenPorts,
                     ghost entries: seq<Entry>)
    returns (ports: OpenPorts)
    requires Records(before, entries)
    ensures Records(ports, entries + EntriesOf(catalogue, clips, p))
  {
    var found := IndexedPorts(catalogue, clips, p);
    if found.None? {
      ports := before;
      assert entries + EntriesOf(catalogue, clips, p) == entries;
    } else {
      ports := EnterPorts(p, found.value, before, entries);
    }
  }

  /** A placement is unknown when its name is not in the catalogue. */
  ghost function Unknown(catalogue: Catalog, placed: seq<Placed>): nat {
    if placed == [] then 0
    else Unknown(catalogue, placed[..|placed| - 1]) + if placed[|placed| - 1].name !in catalogue then 1 else 0
  }

  method OpenPortsOf(catalogue: Catalog, clips: Option<set<string>>, placed: seq<Placed>)
    returns (ports: OpenPorts, unknown: nat)
    ensures Records(ports, AllEntries(catalogue, clips, placed))
    ensures unknown == Unknown(catalogue, placed)
  {
    ports, unknown := map[], 0;
    for i := 0 to |placed|
      invariant Records(ports, AllEntries(catalogue, clips, placed[..i]))
      invariant unknown == Unknown(catalogue, placed[..i])
    {
      var p := placed[i];
      EntriesMore(catalogue, clips, placed, i);
      assert placed[..i + 1][..i] == placed[..i];
      if p.name !in catalogue {
        unknown := unknown + 1;
      }
      ports := EnterPlaced(catalogue, clips, p, ports, AllEntries(catalogue, clips, placed[..i]));
    }
    assert placed[..|placed|] == placed;
  }

  lemma {:induction false} EntriesMore(catalogue: Catalog, clips: Option<set<string>>, placed: seq<Placed>, i: nat)
    requires i < |placed|
    ensures AllEntries(catalogue, clips, placed[..i + 1])
         == AllEntries(catalogue, clips, placed[..i]) + EntriesOf(catalogue, clips, placed[i])
  {
    assert placed[..i + 1][..i] == placed[..i];
  }

  // ----- matching -----

  lemma {:induction false} AcrossAgain(s: Spot)
    ensures Across(Across(s)) == s
    ensures Across(s) != s
  {
    OppositeFaces(s.face);
    StepBack(s.cell, FaceDelta(s.face));
    assert OppositeFace(s.face) != s.face by { OtherFace(s.face); }
  }

  lemma {:induction false} StepBack(c: Vec, d: Vec)
    ensures Add(Add(c, d), Neg(d)) == c
  {}

  lemma {:induction false} OtherFace(f: Quarter)
    ensures OppositeFace(f) != f
  {}

  predicate Matched(ports: OpenPorts, s: Spot) {
    s in ports && Across(s) in ports && ports[Across(s)].clip == ports[s].clip
  }

  function KeyAt(environment: string, ports: OpenPorts, s: Spot): TransitionKey
    requires Matched(ports, s)
  {
    var a, b := ports[s], ports[Across(s)];
    TransitionKey(a.block, b.block, a.clip, (b.rot - a.rot) % 4, environment)
  }

  /**
   A key names the block entered at the spot, the one across it, their clip, and the turn that takes the rotation
   of the first to that of the second.
   */
  lemma {:induction false} KeyMeans(environment: string, ports: OpenPorts, s: Spot)
    requires Matched(ports, s)
    ensures var k, a, b := KeyAt(environment, ports, s), ports[s], ports[Across(s)];
            && k.a == a.block && k.b == b.block && k.clip == a.clip == b.clip && k.environment == environment
            && RotateFace(a.rot, k.rel) == b.rot
  {
    RelativeTurn(ports[s].rot, ports[Across(s)].rot);
  }

  /** One map of the corpus, once its ports are entered. */
  datatype PortMap = PortMap(environment: string, ports: OpenPorts)

  predicate HasKey(m: PortMap, s: Spot, k: TransitionKey) {
    Matched(m.ports, s) && KeyAt(m.environment, m.ports, s) == k
  }

  ghost function WithKey(m: PortMap, spots: set<Spot>, k: TransitionKey): set<Spot> {
    set s | s in spots && HasKey(m, s, k)
  }

  ghost function MatchedIn(m: PortMap, spots: set<Spot>): set<Spot> {
    set s | s in spots && Matched(m.ports, s)
  }

  ghost function Transitions(m: PortMap, k: TransitionKey): nat { |WithKey(m, m.ports.Keys, k)| }

  function Get(counts: map<TransitionKey, nat>, k: TransitionKey): nat { if k in counts then counts[k] else 0 }

  /** The state of the counting loop after the spots `done`. */
  ghost predicate Counted(m: PortMap, done: set<Spot>, before: map<TransitionKey, nat>, counts: map<TransitionKey, nat>,
                          total: nat, hit: set<TransitionKey>) {
    && (forall k :: Get(counts, k) == Get(before, k) + |WithKey(m, done, k)|)
    && (forall k :: k in hit <==> WithKey(m, done, k) != {})
    && total == |MatchedIn(m, done)|
  }

  lemma {:induction false} CountedSkip(m: PortMap, done: set<Spot>, s: Spot)
    requires !Matched(m.ports, s)
    ensures MatchedIn(m, done + {s}) == MatchedIn(m, done)
    ensures forall k :: WithKey(m, done + {s}, k) == WithKey(m, done, k)
  {}

  lemma {:induction false} CountedOne(m: PortMap, done: set<Spot>, s: Spot)
    requires Matched(m.ports, s) && s !in done
    ensures |MatchedIn(m, done + {s})| == |MatchedIn(m, done)| + 1
    ensures forall k :: k != KeyAt(m.environment, m.ports, s) ==> WithKey(m, done + {s}, k) == WithKey(m, done, k)
    ensures var k := KeyAt(m.environment, m.ports, s);
            WithKey(m, done + {s}, k) != {} && |WithKey(m, done + {s}, k)| == |WithKey(m, done, k)| + 1
  {
    assert MatchedIn(m, done + {s}) == MatchedIn(m, done) + {s};
    var k := KeyAt(m.environment, m.ports, s);
    assert WithKey(m, done + {s}, k) == WithKey(m, done, k) + {s};
  }

  method CountMap(m: PortMap, before: map<TransitionKey, nat>)
    returns (counts: map<TransitionKey, nat>, total: nat, hit: set<TransitionKey>)
    ensures Counted(m, m.ports.Keys, before, counts, total, hit)
  {
    counts, total, hit := before, 0, {};
    var todo := m.ports.Keys;
    while todo != {}
      invariant todo <= m.ports.Keys
      invariant Counted(m, m.ports.Keys - todo, before, counts, total, hit)
    {
      var s :| s in todo;
      ghost var done := m.ports.Keys - todo;
      assert m.ports.Keys - (todo - {s}) == done + {s};
      todo := todo - {s};
      if Matched(m.ports, s) {
        CountedOne(m, done, s);
        var k := KeyAt(m.environment, m.ports, s);
        counts := counts[k := Get(counts, k) + 1];
        total := total + 1;
        hit := hit + {k};
      } else {
        CountedSkip(m, done, s);
      }
    }
    assert m.ports.Keys - todo == m.ports.Keys;
  }

  method BumpAll(before: map<TransitionKey, nat>, hit: set<TransitionKey>) returns (hits: map<TransitionKey, nat>)
    ensures forall k :: Get(hits, k) == Get(before, k) + if k in hit then 1 else 0
  {
    hits := before;
    var todo := hit;
    while todo != {}
      invariant todo <= hit
      invariant forall k :: Get(hits, k) == Get(before, k) + if k in hit - todo then 1 else 0
    {
      var k :| k in todo;
      hits := hits[k := Get(hits, k) + 1];
      todo := todo - {k};
    }
  }

  // ----- the corpus -----

  ghost function CorpusCount(maps: seq<PortMap>, k: TransitionKey): nat {
    if maps == [] then 0 else CorpusCount(maps[..|maps| - 1], k) + Transitions(maps[|maps| - 1], k)
  }

  ghost function CorpusHits(maps: seq<PortMap>, k: TransitionKey): nat {
    if maps == [] then 0
    else CorpusHits(maps[..|maps| - 1], k) + if Transitions(maps[|maps| - 1], k) > 0 then 1 else 0
  }

  ghost function CorpusTotal(maps: seq<PortMap>): nat {
    if maps == [] then 0
    else CorpusTotal(maps[..|maps| - 1]) + |MatchedIn(maps[|maps| - 1], maps[|maps| - 1].ports.Keys)|
  }

  datatype MapRow = MapRow(environment: string, placed: seq<Placed>)

  ghost function CorpusUnknown(catalogue: Catalog, rows: seq<MapRow>): nat {
    if rows == [] then 0
    else CorpusUnknown(catalogue, rows[..|rows| - 1]) + Unknown(catalogue, rows[|rows| - 1].placed)
  }

  ghost predicate Scanned(rows: seq<MapRow>, catalogue: Catalog, clips: Option<set<string>>, maps: seq<PortMap>) {
    && |maps| == |rows|
    && forall i :: 0 <= i < |rows| ==> maps[i].environment == rows[i].environment
                                       && Records(maps[i].ports, AllEntries(catalogue, clips, rows[i].placed))
  }

  lemma {:induction false} ScannedMore(rows: seq<MapRow>, i: nat, catalogue: Catalog, clips: Option<set<string>>,
                                       maps: seq<PortMap>, m: PortMap)
    requires i < |rows| && Scanned(rows[..i], catalogue, clips, maps)
    requires m.environment == rows[i].environment && Records(m.ports, AllEntries(catalogue, clips, rows[i].placed))
    ensures Scanned(rows[..i + 1], catalogue, clips, maps + [m])
  {}

  ghost predicate Mined(maps: seq<PortMap>, counts: map<TransitionKey, nat>, hits: map<TransitionKey, nat>,
                        total: nat) {
    && (forall k :: Get(counts, k) == CorpusCount(maps, k))
    && (forall k :: Get(hits, k) == CorpusHits(maps, k))
    && total == CorpusTotal(maps)
  }

  lemma {:induction false} MinedMore(maps: seq<PortMap>, m: PortMap, counts: map<TransitionKey, nat>,
                                     hits: map<TransitionKey, nat>, total: nat,
                                     counts': map<TransitionKey, nat>, hits': map<TransitionKey, nat>, more: nat,
                                     hit: set<TransitionKey>)
    requires Mined(maps, counts, hits, total) && Counted(m, m.ports.Keys, counts, counts', more, hit)
    requires forall k :: Get(hits', k) == Get(hits, k) + if k in hit then 1 else 0
    ensures Mined(maps + [m], counts', hits', total + more)
  {
    assert (maps + [m])[..|maps|] == maps;
    forall k ensures Transitions(m, k) > 0 <==> k in hit {
      assert k in hit <==> WithKey(m, m.ports.Keys, k) != {};
    }
  }

  method MineTransitions(rows: seq<MapRow>, catalogue: Catalog, clips: Option<set<string>>)
    returns (counts: map<TransitionKey, nat>, hits: map<TransitionKey, nat>, total: nat, unknown: nat,
             ghost maps: seq<PortMap>)
    ensures Scanned(rows, catalogue, clips, maps)
    ensures Mined(maps, counts, hits, total)
    ensures unknown == CorpusUnknown(catalogue, rows)
  {
    counts, hits, total, unknown, maps := map[], map[], 0, 0, [];
    for i := 0 to |rows|
      invariant Scanned(rows[..i], catalogue, clips, maps)
      invariant unknown == CorpusUnknown(catalogue, rows[..i])
      invariant Mined(maps, counts, hits, total)
    {
      assert rows[..i + 1][..i] == rows[..i];
      var ports, strangers := OpenPortsOf(catalogue, clips, rows[i].placed);
      var m := PortMap(rows[i].environment, ports);
      var counts', more, hit := CountMap(m, counts);
      var hits' := BumpAll(hits, hit);
      ScannedMore(rows, i, catalogue, clips, maps, m);
      MinedMore(maps, m, counts, hits, total, counts', hits', more, hit);
      maps := maps + [m];
      counts, hits, total, unknown := counts', hits', total + more, unknown + strangers;
    }
    assert rows[..|rows|] == rows;
  }

  // ----- what is counted is symmetric -----

  function Reverse(k: TransitionKey): TransitionKey {
    TransitionKey(k.b, k.a, k.clip, (0 - k.rel) % 4, k.environment)
  }

  lemma {:induction false} ReverseTwice(k: TransitionKey)
    ensures Reverse(Reverse(k)) == k
  {
    TurnBackTwice(k.rel);
  }

  lemma {:induction false} TurnBackTwice(r: Quarter)
    ensures (0 - (0 - r) % 4) % 4 == r
  {}

  /** Seen from the other side, a match is a match with the reversed key. */
  lemma {:induction false} OtherSide(m: PortMap, s: Spot, k: TransitionKey)
    requires HasKey(m, s, k)
    ensures HasKey(m, Across(s), Reverse(k))
  {
    AcrossAgain(s);
    ReverseTurns(m.ports[s].rot, m.ports[Across(s)].rot);
  }

  /** In every map, whatever was overwritten, a key and its reverse are counted equally often. */
  lemma {:induction false} MapSymmetric(m: PortMap, k: TransitionKey)
    ensures Transitions(m, k) == Transitions(m, Reverse(k))
  {
    var here, there := WithKey(m, m.ports.Keys, k), WithKey(m, m.ports.Keys, Reverse(k));
    forall s ensures s in here <==> Across(s) in there {
      AcrossAgain(s);
      ReverseTwice(k);
      if s in here {
        OtherSide(m, s, k);
      }
      if Across(s) in there {
        OtherSide(m, Across(s), Reverse(k));
      }
    }
    forall s, t | s in here && t in here && Across(s) == Across(t) ensures s == t {
      AcrossAgain(s);
      AcrossAgain(t);
    }
    forall t | t in there ensures exists s :: s in here && Across(s) == t {
      AcrossAgain(t);
      assert Across(Across(t)) in there;
      assert Across(t) in here;
    }
    ImageCardinality(Across, here, there);
  }

  /** A set that a fixed-point-free involution maps to itself has an even number of elements. */
  lemma {:induction false} PairedOff(spots: set<Spot>)
    requires forall s :: s in spots ==> Across(s) in spots
    ensures |spots| % 2 == 0
    decreases spots
  {
    if spots != {} {
      var s :| s in spots;
      AcrossAgain(s);
      var rest := spots - {s} - {Across(s)};
      forall t | t in rest ensures Across(t) in rest {
        AcrossAgain(t);
      }
      PairedOff(rest);
      assert |spots| == |rest| + 2;
    }
  }

  lemma {:induction false} MapTotalEven(m: PortMap)
    ensures |MatchedIn(m, m.ports.Keys)| % 2 == 0
  {
    forall s | s in MatchedIn(m, m.ports.Keys) ensures Across(s) in MatchedIn(m, m.ports.Keys) {
      AcrossAgain(s);
    }
    PairedOff(MatchedIn(m, m.ports.Keys));
  }

  /** Over the corpus: symmetric counts and map hits, hits within counts, and an even total. */
  lemma {:induction false} CorpusSymmetric(maps: seq<PortMap>, k: TransitionKey)
    ensures CorpusCount(maps, k) == CorpusCount(maps, Reverse(k))
    ensures CorpusHits(maps, k) == CorpusHits(maps, Reverse(k)) <= CorpusCount(maps, k)
    ensures CorpusTotal(maps) % 2 == 0
  {
    if maps != [] {
      CorpusSymmetric(maps[..|maps| - 1], k);
      MapSymmetric(maps[|maps| - 1], k);
      MapTotalEven(maps[|maps| - 1]);
    }
  }

  /** The mined tables inherit it. */
  lemma {:induction false} TablesSymmetric(maps: seq<PortMap>, counts: map<TransitionKey, nat>,
                                           hits: map<TransitionKey, nat>, total: nat, k: TransitionKey)
    requires Mined(maps, counts, hits, total)
    ensures Get(counts, k) == Get(counts, Reverse(k)) && Get(hits, k) == Get(hits, Reverse(k)) <= Get(counts, k)
    ensures total % 2 == 0
  {
    CorpusSymmetric(maps, k);
  }
}
