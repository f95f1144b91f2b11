/** Gathering the receptions of a packet by several stations (Server/FileParser.cs): receptions of the same hash are
    merged, and the packet is emitted once every station of some room has received it. */
module FileParser {
  import opened Wrappers
  import opened DictionaryStack

  type Hash = string
  type Station = nat
  type Room = nat

  datatype Reception = Reception(station: Station, rssi: real)

  datatype Packet = Packet(hash: Hash, timestamp: int, receivings: seq<Reception>)

  /** Which station stands in which room. The station counters the rooms keep are exact. */
  datatype Site = Site(roomOf: Station -> Room, stationsIn: Room -> set<Station>, stationCount: Room -> int)
  {
    ghost predicate Wf() {
      && (forall s, r :: s in stationsIn(r) <==> roomOf(s) == r)
      && (forall r :: stationCount(r) == |stationsIn(r)|)
    }
  }

  // ---------- merging receptions ----------

  function Raise(t: Reception, source: Reception): Reception {
    if t.station == source.station && t.rssi < source.rssi then t.(rssi := source.rssi) else t
  }

  function Hears(rs: seq<Reception>, s: Station): bool {
    exists i :: 0 <= i < |rs| && rs[i].station == s
  }

  /** One more reception: the strongest signal of its station is kept, a new station comes last. */
  function Received(rs: seq<Reception>, source: Reception): seq<Reception> {
    if Hears(rs, source.station) then seq(|rs|, i requires 0 <= i < |rs| => Raise(rs[i], source)) else rs + [source]
  }

  function Merged(rs: seq<Reception>, more: seq<Reception>): seq<Reception> {
    if more == [] then rs else Received(Merged(rs, more[..|more| - 1]), more[|more| - 1])
  }

  function Reduced(a: Packet, b: Packet): Packet {
    a.(receivings := Merged(a.receivings, b.receivings))
  }

  /** packetReducer: its two loops compute Reduced. */
  method PacketReducer(a: Packet, b: Packet) returns (r: Packet)
    ensures r == Reduced(a, b)
  {
    var rs := a.receivings;
    for i := 0 to |b.receivings|
      invariant rs == Merged(a.receivings, b.receivings[..i])
    {
      var source, before := b.receivings[i], rs;
      var isNewStation := true;
      for j := 0 to |rs|
        invariant |rs| == |before|
        invariant isNewStation <==> !Hears(before[..j], source.station)
        invariant forall k :: 0 <= k < |rs| ==> rs[k] == if k < j then Raise(before[k], source) else before[k]
      {
        assert forall k :: 0 <= k < j ==> before[..j + 1][k] == before[..j][k];
        assert before[..j + 1][j] == before[j];
        if rs[j].station == source.station {
          isNewStation := false;
          if rs[j].rssi < source.rssi {
            rs := rs[j := rs[j].(rssi := source.rssi)];
          }
        }
      }
      assert before[..|rs|] == before;
      if isNewStation {
        assert rs == before;
        rs := rs + [source];
      }
      assert b.receivings[..i + 1][..i] == b.receivings[..i];
      assert rs == Received(before, source);
    }
    assert b.receivings[..|b.receivings|] == b.receivings;
    r := a.(receivings := rs);
  }

  /** The receptions hold each station heard exactly once, with its strongest signal. */
  ghost predicate Strongest(rs: seq<Reception>, heard: seq<Reception>) {
    && (forall i, j :: 0 <= i < j < |rs| ==> rs[i].station != rs[j].station)
    && (forall j :: 0 <= j < |heard| ==> Hears(rs, heard[j].station))
    && (forall i :: 0 <= i < |rs| ==> rs[i] in heard)
    && (forall i, j :: 0 <= i < |rs| && 0 <= j < |heard| && heard[j].station == rs[i].station ==>
        heard[j].rssi <= rs[i].rssi)
  }

  /** Merging one reception after the other keeps the strongest of each station. */
  lemma {:induction false} MergedStrongest(heard: seq<Reception>)
    ensures Strongest(Merged([], heard), heard)
  {
    if heard != [] {
      var before, source := heard[..|heard| - 1], heard[|heard| - 1];
      MergedStrongest(before);
      ReceivedStrongest(Merged([], before), before, source);
      assert before + [source] == heard;
    }
  }

  lemma ReceivedStrongest(rs: seq<Reception>, heard: seq<Reception>, source: Reception)
    requires Strongest(rs, heard)
    ensures Strongest(Received(rs, source), heard + [source])
  {
    hide Received, Hears;
    ReceivedApart(rs, source);
    ReceivedHears(rs, heard, source);
    ReceivedFrom(rs, heard, source);
  }

  lemma ReceivedApart(rs: seq<Reception>, source: Reception)
    requires forall i, j :: 0 <= i < j < |rs| ==> rs[i].station != rs[j].station
    ensures var rs' := Received(rs, source); forall i, j :: 0 <= i < j < |rs'| ==> rs'[i].station != rs'[j].station
  {
    hide Received;
    ReceivedStations(rs, source);
    var rs' := Received(rs, source);
    forall i, j | 0 <= i < j < |rs'|
      ensures rs'[i].station != rs'[j].station
    {
      assert rs[i].station == rs'[i].station;
      assert Hears(rs, rs[i].station);
    }
  }

  lemma ReceivedHears(rs: seq<Reception>, heard: seq<Reception>, source: Reception)
    requires forall j :: 0 <= j < |heard| ==> Hears(rs, heard[j].station)
    ensures var rs', heard' := Received(rs, source), heard + [source];
            forall j :: 0 <= j < |heard'| ==> Hears(rs', heard'[j].station)
  {
    hide Received, Hears;
    ReceivedStations(rs, source);
  }

  lemma ReceivedFrom(rs: seq<Reception>, heard: seq<Reception>, source: Reception)
    requires Strongest(rs, heard)
    ensures var rs', heard' := Received(rs, source), heard + [source];
            forall i :: 0 <= i < |rs'| ==>
              && rs'[i] in heard'
              && forall j :: 0 <= j < |heard'| && heard'[j].station == rs'[i].station ==> heard'[j].rssi <= rs'[i].rssi
  {
    var rs', heard' := Received(rs, source), heard + [source];
    ReceivedStations(rs, source);
    assert heard'[|heard|] == source;
    assert forall j :: 0 <= j < |heard| ==> heard'[j] == heard[j];
    forall i | 0 <= i < |rs'|
      ensures rs'[i] in heard'
      ensures forall j :: 0 <= j < |heard'| && heard'[j].station == rs'[i].station ==> heard'[j].rssi <= rs'[i].rssi
    {
      hide Hears, Received;
      if i < |rs| {
        assert rs[i] in heard && rs[i].rssi <= rs'[i].rssi;
      } else {
        assert !Hears(rs, source.station);
        NotHeard(rs, heard, source.station);
      }
    }
  }

  lemma NotHeard(rs: seq<Reception>, heard: seq<Reception>, s: Station)
    requires Strongest(rs, heard) && !Hears(rs, s)
    ensures forall j :: 0 <= j < |heard| ==> heard[j].station != s
  {
    hide Hears;
  }

  /** One more reception adds its station, if it is new, after the others. */
  lemma ReceivedStations(rs: seq<Reception>, source: Reception)
    ensures var rs' := Received(rs, source);
            && |rs'| == (if Hears(rs, source.station) then |rs| else |rs| + 1)
            && (forall i :: 0 <= i < |rs| ==> rs'[i] == Raise(rs[i], source))
            && (|rs'| > |rs| ==> rs'[|rs|] == source)
            && (forall s :: Hears(rs', s) <==> Hears(rs, s) || s == source.station)
  {
    var rs' := Received(rs, source);
    assert forall i :: 0 <= i < |rs| ==> rs'[i] == Raise(rs[i], source) && rs'[i].station == rs[i].station;
    forall s
      ensures Hears(rs', s) <==> Hears(rs, s) || s == source.station
    {
      if Hears(rs, s) {
        var i :| 0 <= i < |rs| && rs[i].station == s;
        assert rs'[i].station == s;
      }
      if s == source.station && !Hears(rs, s) {
        assert rs'[|rs|].station == s;
      }
      if Hears(rs', s) {
        var i :| 0 <= i < |rs'| && rs'[i].station == s;
        assert i < |rs| ==> rs[i].station == s;
      }
    }
  }

  // ---------- rooms ----------

  function Count(site: Site, rs: seq<Reception>, r: Room): nat {
    if rs == [] then 0 else
      Count(site, rs[..|rs| - 1], r) + if site.roomOf(rs[|rs| - 1].station) == r then 1 else 0
  }

  /** The rooms of the receptions, in the order they first appear. */
  function Rooms(site: Site, rs: seq<Reception>): seq<Room> {
    if rs == [] then [] else
      var before, r := Rooms(site, rs[..|rs| - 1]), site.roomOf(rs[|rs| - 1].station);
      if r in before then before else before + [r]
  }

  function FirstFull(site: Site, rs: seq<Reception>, rooms: seq<Room>): Option<Room> {
    if rooms == [] then None
    else if Count(site, rs, rooms[0]) == site.stationCount(rooms[0]) then Some(rooms[0])
    else FirstFull(site, rs, rooms[1..])
  }

  function OfRoom(site: Site, rs: seq<Reception>, r: Room): seq<Reception> {
    if rs == [] then [] else
      OfRoom(site, rs[..|rs| - 1], r) + if site.roomOf(rs[|rs| - 1].station) == r then [rs[|rs| - 1]] else []
  }

  /** Whether a room is complete, and the packet as it is left: with the receptions of that room only. */
  function Ready(site: Site, pak: Packet): (bool, Packet) {
    match FirstFull(site, pak.receivings, Rooms(site, pak.receivings))
    case Some(r) => (true, pak.(receivings := OfRoom(site, pak.receivings, r)))
    case None => (false, pak)
  }

  /** What one more reception adds. */
  lemma OneMore(site: Site, rs: seq<Reception>, i: nat, r: Room)
    requires i < |rs|
    ensures var here, rooms := site.roomOf(rs[i].station), Rooms(site, rs[..i]);
            && Rooms(site, rs[..i + 1]) == (if here in rooms then rooms else rooms + [here])
            && Count(site, rs[..i + 1], r) == Count(site, rs[..i], r) + (if here == r then 1 else 0)
            && OfRoom(site, rs[..i + 1], r) == OfRoom(site, rs[..i], r) + if here == r then [rs[i]] else []
  {
    assert rs[..i + 1][..i] == rs[..i];
  }

  lemma NextFull(site: Site, rs: seq<Reception>, rooms: seq<Room>, k: nat)
    requires k <= |rooms|
    ensures FirstFull(site, rs, rooms[k..])
            == if k == |rooms| then None
               else if Count(site, rs, rooms[k]) == site.stationCount(rooms[k]) then Some(rooms[k])
               else FirstFull(site, rs, rooms[k + 1..])
  {
    assert k < |rooms| ==> rooms[k..][1..] == rooms[k + 1..];
  }

  /** isReady: the counts are kept per room in the order the rooms first appear. */
  method IsReady(site: Site, pak: Packet) returns (ready: bool, left: Packet)
    ensures (ready, left) == Ready(site, pak)
  {
    hide Rooms, Count, OfRoom, FirstFull;
    var rs := pak.receivings;
    var counter: map<Room, int>, keys := map[], [];
    NothingYet(site);
    for i := 0 to |rs|
      invariant keys == Rooms(site, rs[..i])
      invariant forall r :: r in keys <==> r in counter
      invariant forall r :: (if r in counter then counter[r] else 0) == Count(site, rs[..i], r)
    {
      forall r {
        OneMore(site, rs, i, r);
      }
      var currentRoom := site.roomOf(rs[i].station);
      if currentRoom in counter {
        counter := counter[currentRoom := counter[currentRoom] + 1];
      } else {
        keys, counter := keys + [currentRoom], counter[currentRoom := 1];
      }
    }
    assert rs[..|rs|] == rs;
    var winner := FullRoom(site, rs, keys, counter);
    if winner == None {
      return false, pak;
    }
    var newReceivings := [];
    for i := 0 to |rs|
      invariant newReceivings == OfRoom(site, rs[..i], winner.value)
    {
      OneMore(site, rs, i, winner.value);
      if site.roomOf(rs[i].station) == winner.value {
        newReceivings := newReceivings + [rs[i]];
      }
    }
    return true, pak.(receivings := newReceivings);
  }

  /** The loop over the counts. */
  method FullRoom(site: Site, rs: seq<Reception>, keys: seq<Room>, counter: map<Room, int>)
    returns (winner: Option<Room>)
    requires forall r :: r in keys ==> r in counter && counter[r] == Count(site, rs, r)
    ensures winner == FirstFull(site, rs, keys)
  {
    hide Count, FirstFull;
    winner := None;
    var k := 0;
    assert keys[0..] == keys;
    while k < |keys| && winner == None
      invariant 0 <= k <= |keys|
      invariant FirstFull(site, rs, keys) == if winner.Some? then winner else FirstFull(site, rs, keys[k..])
    {
      NextFull(site, rs, keys, k);
      if counter[keys[k]] == site.stationCount(keys[k]) {
        winner := Some(keys[k]);
      }
      k := k + 1;
    }
    if winner == None {
      NextFull(site, rs, keys, |keys|);
    }
  }

  lemma NothingYet(site: Site)
    ensures Rooms(site, []) == [] && forall r :: Count(site, [], r) == 0 && OfRoom(site, [], r) == []
  {}

  // ---------- a room is complete exactly when all its stations have heard ----------

  /** The receptions cover a room: it has stations and each of them is heard. */
  ghost predicate Covers(site: Site, heard: seq<Reception>, r: Room) {
    site.stationsIn(r) != {} && forall s :: s in site.stationsIn(r) ==> Hears(heard, s)
  }

  ghost predicate OncePerStation(rs: seq<Reception>) {
    forall i, j :: 0 <= i < j < |rs| ==> rs[i].station != rs[j].station
  }

  ghost function HeardIn(site: Site, rs: seq<Reception>, r: Room): set<Station> {
    set s | s in site.stationsIn(r) && Hears(rs, s)
  }

  lemma HearsMore(rs: seq<Reception>, s: Station)
    requires rs != []
    ensures Hears(rs, s) <==> Hears(rs[..|rs| - 1], s) || s == rs[|rs| - 1].station
  {
    var n := |rs| - 1;
    if i :| 0 <= i < |rs| && rs[i].station == s {
      assert i < n ==> rs[..n][i].station == s;
    }
    if i :| 0 <= i < n && rs[..n][i].station == s {
      assert rs[i].station == s;
    }
  }

  lemma OnceBefore(rs: seq<Reception>)
    requires rs != [] && OncePerStation(rs)
    ensures OncePerStation(rs[..|rs| - 1]) && !Hears(rs[..|rs| - 1], rs[|rs| - 1].station)
  {}

  /** With one reception a station, the count of a room is the number of its stations heard. */
  lemma {:induction false} CountHeard(site: Site, rs: seq<Reception>, r: Room)
    requires site.Wf() && OncePerStation(rs)
    ensures Count(site, rs, r) == |HeardIn(site, rs, r)|
  {
    if rs != [] {
      hide Hears, OncePerStation;
      var before, s := rs[..|rs| - 1], rs[|rs| - 1].station;
      OnceBefore(rs);
      CountHeard(site, before, r);
      forall x
        ensures Hears(rs, x) <==> Hears(before, x) || x == s
      {
        HearsMore(rs, x);
      }
      assert HeardIn(site, rs, r) == HeardIn(site, before, r) + if site.roomOf(s) == r then {s} else {};
    } else {
      assert HeardIn(site, rs, r) == {};
    }
  }

  lemma FullSubset<T>(a: set<T>, b: set<T>)
    requires a <= b && |a| == |b|
    ensures a == b
  {
    assert |b - a| == |b| - |a|;
  }

  lemma CountFull(site: Site, rs: seq<Reception>, r: Room)
    requires site.Wf() && OncePerStation(rs)
    ensures Count(site, rs, r) == site.stationCount(r) && site.stationsIn(r) != {} <==> Covers(site, rs, r)
  {
    CountHeard(site, rs, r);
    var all, some := site.stationsIn(r), HeardIn(site, rs, r);
    if Covers(site, rs, r) {
      assert some == all;
    }
    if |some| == |all| {
      FullSubset(some, all);
      assert forall s :: s in all ==> s in some;
    }
  }

  lemma {:induction false} RoomsHeard(site: Site, rs: seq<Reception>, r: Room)
    ensures r in Rooms(site, rs) <==> exists i :: 0 <= i < |rs| && site.roomOf(rs[i].station) == r
  {
    if rs != [] {
      var before := rs[..|rs| - 1];
      RoomsHeard(site, before, r);
      RoomsHeard(site, before, site.roomOf(rs[|rs| - 1].station));
      if i :| 0 <= i < |rs| && site.roomOf(rs[i].station) == r {
        assert i < |before| ==> before[i] == rs[i];
      }
      if i :| 0 <= i < |before| && site.roomOf(before[i].station) == r {
        assert before[i] == rs[i];
      }
    }
  }

  lemma {:induction false} FirstFullIs(site: Site, rs: seq<Reception>, rooms: seq<Room>)
    ensures match FirstFull(site, rs, rooms)
            case Some(r) => r in rooms && Count(site, rs, r) == site.stationCount(r)
            case None => forall r :: r in rooms ==> Count(site, rs, r) != site.stationCount(r)
  {
    if rooms != [] {
      FirstFullIs(site, rs, rooms[1..]);
    }
  }

  /** isReady says yes exactly when the receptions cover a room. */
  lemma ReadyCovers(site: Site, pak: Packet)
    requires site.Wf() && OncePerStation(pak.receivings)
    ensures match FirstFull(site, pak.receivings, Rooms(site, pak.receivings))
            case Some(r) => Covers(site, pak.receivings, r)
            case None => forall r :: !Covers(site, pak.receivings, r)
  {
    var rs := pak.receivings;
    var rooms := Rooms(site, rs);
    FirstFullIs(site, rs, rooms);
    forall r
      ensures r in rooms && Count(site, rs, r) == site.stationCount(r) <==> Covers(site, rs, r)
    {
      CountFull(site, rs, r);
      RoomsHeard(site, rs, r);
      if r in rooms {
        var i :| 0 <= i < |rs| && site.roomOf(rs[i].station) == r;
        assert rs[i].station in site.stationsIn(r);
      }
      if Covers(site, rs, r) {
        var s :| s in site.stationsIn(r);
        assert Hears(rs, s);
      }
    }
  }

  /** One reception from each station of the room and from no other, each the strongest its station heard. */
  ghost predicate Best(site: Site, out: seq<Reception>, heard: seq<Reception>, r: Room) {
    && OncePerStation(out)
    && (forall s :: Hears(out, s) <==> s in site.stationsIn(r))
    && (forall i :: 0 <= i < |out| ==> out[i] in heard)
    && (forall i, j :: 0 <= i < |out| && 0 <= j < |heard| && heard[j].station == out[i].station ==>
        heard[j].rssi <= out[i].rssi)
  }

  lemma OnceAdded(rs: seq<Reception>, x: Reception)
    requires OncePerStation(rs) && !Hears(rs, x.station)
    ensures OncePerStation(rs + [x])
  {}

  lemma HearsIn(out: seq<Reception>, rs: seq<Reception>, s: Station)
    requires forall i :: 0 <= i < |out| ==> out[i] in rs
    ensures Hears(out, s) ==> Hears(rs, s)
  {}

  /** The part of the receptions that is from the room. */
  ghost predicate PartOf(site: Site, out: seq<Reception>, rs: seq<Reception>, r: Room) {
    && OncePerStation(out)
    && (forall i :: 0 <= i < |out| ==> out[i] in rs && site.roomOf(out[i].station) == r)
    && (forall s :: Hears(rs, s) && site.roomOf(s) == r ==> Hears(out, s))
  }

  lemma PartNext(site: Site, out: seq<Reception>, before: seq<Reception>, last: Reception, r: Room)
    requires PartOf(site, out, before, r) && !Hears(before, last.station)
    ensures PartOf(site, out + if site.roomOf(last.station) == r then [last] else [], before + [last], r)
  {
    hide OncePerStation, Hears;
    var rs, out' := before + [last], out + [last];
    HearsIn(out, before, last.station);
    OnceAdded(out, last);
    assert rs[..|before|] == before && out'[..|out|] == out && out + [] == out;
    forall s
      ensures Hears(rs, s) <==> Hears(before, s) || s == last.station
      ensures Hears(out', s) <==> Hears(out, s) || s == last.station
    {
      HearsMore(rs, s);
      HearsMore(out', s);
    }
  }

  lemma {:induction false} OfRoomOnly(site: Site, rs: seq<Reception>, r: Room)
    requires OncePerStation(rs)
    ensures PartOf(site, OfRoom(site, rs, r), rs, r)
  {
    if rs != [] {
      hide OncePerStation, Hears, PartOf;
      var before, last := rs[..|rs| - 1], rs[|rs| - 1];
      OnceBefore(rs);
      OfRoomOnly(site, before, r);
      PartNext(site, OfRoom(site, before, r), before, last, r);
      assert before + [last] == rs;
    }
  }

  lemma OfRoomBest(site: Site, rs: seq<Reception>, heard: seq<Reception>, r: Room)
    requires site.Wf() && Strongest(rs, heard) && Covers(site, rs, r)
    ensures Best(site, OfRoom(site, rs, r), heard, r)
  {
    OfRoomOnly(site, rs, r);
    var out := OfRoom(site, rs, r);
    forall i | 0 <= i < |out|
      ensures out[i] in heard && forall j :: 0 <= j < |heard| && heard[j].station == out[i].station ==>
              heard[j].rssi <= out[i].rssi
    {
      var k :| 0 <= k < |rs| && rs[k] == out[i];
    }
  }

  /** What covers a room, and what is the best of it, do not depend on the order in which receptions arrive. */
  lemma OrderIrrelevant(site: Site, heard: seq<Reception>, heard': seq<Reception>, r: Room)
    requires multiset(heard) == multiset(heard')
    ensures Covers(site, heard, r) <==> Covers(site, heard', r)
    ensures forall out, out' :: Best(site, out, heard, r) && Best(site, out', heard', r) ==>
            multiset(out) == multiset(out')
  {
    SameElements(heard, heard');
    SameElements(heard', heard);
    forall out, out' | Best(site, out, heard, r) && Best(site, out', heard', r)
      ensures multiset(out) == multiset(out')
    {
      BestIn(site, out, out', heard, heard', r);
      BestIn(site, out', out, heard', heard, r);
      SameOnce(out, out');
    }
  }

  lemma SameElements(a: seq<Reception>, b: seq<Reception>)
    requires multiset(a) == multiset(b)
    ensures forall i :: 0 <= i < |a| ==> a[i] in b && Hears(b, a[i].station)
  {
    forall i | 0 <= i < |a|
      ensures a[i] in b && Hears(b, a[i].station)
    {
      assert a[i] in multiset(b);
    }
  }

  lemma BestIn(site: Site, out: seq<Reception>, out': seq<Reception>, heard: seq<Reception>, heard': seq<Reception>,
      r: Room)
    requires Best(site, out, heard, r) && Best(site, out', heard', r)
    requires forall i :: 0 <= i < |heard| ==> heard[i] in heard'
    requires forall i :: 0 <= i < |heard'| ==> heard'[i] in heard
    ensures forall i :: 0 <= i < |out| ==> out[i] in out'
  {
    forall i | 0 <= i < |out|
      ensures out[i] in out'
    {
      assert Hears(out, out[i].station);
      var k :| 0 <= k < |out'| && out'[k].station == out[i].station;
      var a :| 0 <= a < |heard| && heard[a] == out[i];
      var b :| 0 <= b < |heard'| && heard'[b] == out'[k];
      assert heard[a] in heard' && heard'[b] in heard;
    }
  }

  lemma SameOnce(a: seq<Reception>, b: seq<Reception>)
    requires OncePerStation(a) && OncePerStation(b)
    requires forall i :: 0 <= i < |a| ==> a[i] in b
    requires forall i :: 0 <= i < |b| ==> b[i] in a
    ensures multiset(a) == multiset(b)
  {
    forall x
      ensures multiset(a)[x] == multiset(b)[x]
    {
      AtMostOnce(a, x);
      AtMostOnce(b, x);
    }
  }

  lemma {:induction false} AtMostOnce(a: seq<Reception>, x: Reception)
    requires OncePerStation(a)
    ensures multiset(a)[x] == if x in a then 1 else 0
  {
    if a != [] {
      var n := |a| - 1;
      AtMostOnce(a[..n], x);
      assert a == a[..n] + [a[n]];
      assert x in a[..n] ==> x != a[n];
    }
  }

  // ---------- the parser ----------

  /** What has been heard of a hash since it was last emitted or evicted: the time of the first reception, and all of
      them in the order they came. */
  datatype Heard = Heard(since: int, receptions: seq<Reception>)

  /** One more reception. */
  function Hear(heard: map<Hash, Heard>, h: Hash, time: int, rec: Reception): Heard {
    if h in heard then Heard(heard[h].since, heard[h].receptions + [rec]) else Heard(time, [rec])
  }

  /** isOld, in seconds. */
  predicate Old(pak: Packet, now: int) {
    pak.timestamp < now - 300
  }

  /** The stored packets are the receptions heard, merged, and none covers a room yet. */
  ghost predicate Agrees(site: Site, es: seq<Entry<Hash, Packet>>, heard: map<Hash, Heard>) {
    && Distinct(es)
    && (forall h :: h in heard <==> Lookup(es, h).Some?)
    && (forall h :: h in heard ==> Stored(site, h, Lookup(es, h), heard[h]))
  }

  ghost predicate Stored(site: Site, h: Hash, p: Option<Packet>, heard: Heard) {
    && p.Some? && p.value.hash == h && p.value.timestamp == heard.since
    && p.value.receivings == Merged([], heard.receptions)
    && forall r :: !Covers(site, heard.receptions, r)
  }

  function HeardOf(heard: map<Hash, Heard>, h: Hash): seq<Reception> {
    if h in heard then heard[h].receptions else []
  }

  /** Only the room of the station that has just heard can have become complete. */
  lemma OnlyItsRoom(site: Site, heard: seq<Reception>, rec: Reception, r: Room)
    requires site.Wf() && !Covers(site, heard, r) && Covers(site, heard + [rec], r)
    ensures r == site.roomOf(rec.station)
  {
    var s :| s in site.stationsIn(r) && !Hears(heard, s);
    var all := heard + [rec];
    assert Hears(all, s);
    HearsMore(all, s);
    assert all[..|heard|] == heard;
  }

  lemma CoversSame(site: Site, rs: seq<Reception>, heard: seq<Reception>, r: Room)
    requires Strongest(rs, heard)
    ensures Covers(site, rs, r) <==> Covers(site, heard, r)
  {
    forall s
      ensures Hears(rs, s) <==> Hears(heard, s)
    {
      if i :| 0 <= i < |rs| && rs[i].station == s {
        assert rs[i] in heard;
      }
    }
  }

  lemma FirstReceived(rec: Reception)
    ensures Received([], rec) == [rec]
  {}

  lemma MergedOne(rs: seq<Reception>, rec: Reception)
    ensures Merged(rs, [rec]) == Received(rs, rec)
  {
    hide Received;
    assert [rec][..0] == [];
    assert Merged(rs, []) == rs;
  }

  lemma MergedLast(rs: seq<Reception>, heard: seq<Reception>, rec: Reception)
    ensures Merged(rs, heard + [rec]) == Received(Merged(rs, heard), rec)
  {
    hide Received;
    assert (heard + [rec])[..|heard|] == heard;
  }

  /** The packet isReady looks at: all receptions so far, merged. */
  lemma Gathered(site: Site, es: seq<Entry<Hash, Packet>>, heard: map<Hash, Heard>, packet: Packet,
      rec: Reception)
    requires Agrees(site, es, heard) && packet.receivings == [rec]
    ensures var x, all := ValueAfter(es, packet.hash, packet, Reduced), Hear(heard, packet.hash, packet.timestamp, rec);
            && x.hash == packet.hash && x.timestamp == all.since && x.receivings == Merged([], all.receptions)
            && all.receptions == HeardOf(heard, packet.hash) + [rec]
  {
    hide Received, Merged, Find, Distinct, Covers;
    var before := HeardOf(heard, packet.hash);
    if packet.hash in heard {
      assert Stored(site, packet.hash, Lookup(es, packet.hash), heard[packet.hash]);
      MergedOne(Merged([], before), rec);
      MergedLast([], before, rec);
    } else {
      assert before + [rec] == [rec];
      MergedOne([], rec);
      FirstReceived(rec);
    }
  }

  lemma NotYet(site: Site, es: seq<Entry<Hash, Packet>>, heard: map<Hash, Heard>, h: Hash)
    requires Agrees(site, es, heard)
    ensures forall r :: !Covers(site, HeardOf(heard, h), r)
  {
    assert h in heard ==> Stored(site, h, Lookup(es, h), heard[h]);
  }

  lemma StrongestOnce(rs: seq<Reception>, heard: seq<Reception>)
    requires Strongest(rs, heard)
    ensures OncePerStation(rs)
  {}

  /** What isReady makes of all the receptions of a hash. */
  lemma ReadyOrNot(site: Site, heard: seq<Reception>, rec: Reception, x: Packet)
    requires site.Wf() && x.receivings == Merged([], heard + [rec]) && forall r :: !Covers(site, heard, r)
    ensures var (ready, out) := Ready(site, x);
            && (ready <==> exists r :: Covers(site, heard + [rec], r))
            && out.hash == x.hash && out.timestamp == x.timestamp
            && (ready ==> Best(site, out.receivings, heard + [rec], site.roomOf(rec.station)))
            && (!ready ==> out == x)
  {
    hide Merged, Rooms, FirstFull, OfRoom, Strongest, OncePerStation, Covers, Best;
    var rs, all := x.receivings, heard + [rec];
    MergedStrongest(all);
    StrongestOnce(rs, all);
    ReadyCovers(site, x);
    forall r
      ensures Covers(site, rs, r) <==> Covers(site, all, r)
    {
      CoversSame(site, rs, all, r);
    }
    var w := FirstFull(site, rs, Rooms(site, rs));
    if w.Some? {
      OnlyItsRoom(site, heard, rec, w.value);
      OfRoomBest(site, rs, all, w.value);
    }
  }

  lemma AgreesKeyed(site: Site, es: seq<Entry<Hash, Packet>>, heard: map<Hash, Heard>)
    requires Agrees(site, es, heard)
    ensures Keyed(es, HashOf())
  {
    forall i | 0 <= i < |es|
      ensures HashOf()(es[i].value) == es[i].key
    {
      FindUnique(es, i);
      assert Stored(site, es[i].key, Lookup(es, es[i].key), heard[es[i].key]);
    }
  }

  lemma AgreesWithout(site: Site, es: seq<Entry<Hash, Packet>>, heard: map<Hash, Heard>, h: Hash)
    requires Agrees(site, es, heard)
    ensures Agrees(site, Without(es, h), heard - {h})
  {
    hide Stored, Without, Lookup, Distinct;
    WithoutKey(es, h, h);
    forall x
      ensures Lookup(Without(es, h), x) == if x == h then None else Lookup(es, x)
    {
      WithoutKey(es, h, x);
    }
  }

  lemma AgreesWith(site: Site, es: seq<Entry<Hash, Packet>>, heard: map<Hash, Heard>, h: Hash, p: Packet,
      all: Heard)
    requires Agrees(site, es, heard) && Stored(site, h, Some(p), all)
    ensures Agrees(site, Without(es, h) + [Entry(h, p)], heard[h := all])
  {
    hide Stored, Without, Lookup, Distinct, Find;
    var keep := (a: Packet, b: Packet) => p;
    var u := Upserted(es, h, p, keep);
    assert u == Without(es, h) + [Entry(h, p)];
    UpsertedKey(es, h, p, keep, h);
    forall x
      ensures Lookup(u, x) == if x == h then Some(p) else Lookup(es, x)
    {
      UpsertedKey(es, h, p, keep, x);
    }
  }

  ghost function KeysOf(es: seq<Entry<Hash, Packet>>): set<Hash> {
    set e | e in es :: e.key
  }

  function OlderThan(now: int): Packet -> bool {
    (p: Packet) => Old(p, now)
  }

  function HashOf(): Packet -> Hash {
    (p: Packet) => p.hash
  }

  /** The packets gone are the first ones, up to the first that is not old. */
  ghost predicate Evicted(es: seq<Entry<Hash, Packet>>, now: int, gone: seq<Packet>, es': seq<Entry<Hash, Packet>>) {
    && |gone| <= |es| && es' == es[|gone|..]
    && (forall i :: 0 <= i < |gone| ==> gone[i] == es[i].value && Old(gone[i], now))
    && (es' != [] ==> !Old(es'[0].value, now))
  }

  lemma AllOld(es: seq<Entry<Hash, Packet>>, now: int, gone: seq<Packet>, es': seq<Entry<Hash, Packet>>)
    requires AllHold(OlderThan(now), gone) && |gone| + |es'| == |es| && es' == es[|gone|..]
    requires forall i :: 0 <= i < |gone| ==> gone[i] == es[i].value
    requires es' == [] || !OlderThan(now)(es'[0].value)
    ensures Evicted(es, now, gone, es')
  {
    forall i | 0 <= i < |gone|
      ensures Old(gone[i], now)
    {
      assert OlderThan(now)(gone[i]);
    }
  }

  lemma AgreesFrom(site: Site, es: seq<Entry<Hash, Packet>>, heard: map<Hash, Heard>, n: nat)
    requires Agrees(site, es, heard) && n <= |es|
    ensures Agrees(site, es[n..], heard - KeysOf(es[..n]))
  {
    hide Stored, Find, KeysOf, Lookup;
    forall h
      ensures Lookup(es[n..], h) == if h in KeysOf(es[..n]) then None else Lookup(es, h)
    {
      LookupFrom(es, n, h);
    }
  }

  /** The packets gone were first heard more than 300 seconds ago, and the first of those left was not. */
  lemma GoneLongAgo(site: Site, es: seq<Entry<Hash, Packet>>, heard: map<Hash, Heard>, now: int, gone: seq<Packet>,
      es': seq<Entry<Hash, Packet>>)
    requires Agrees(site, es, heard) && Evicted(es, now, gone, es')
    ensures forall h :: h in heard && h in KeysOf(es[..|gone|]) ==> heard[h].since < now - 300
    ensures es' != [] ==> es'[0].key in heard && heard[es'[0].key].since >= now - 300
  {
    hide Lookup, Merged, Covers;
    forall i | 0 <= i < |es|
      ensures es[i].key in heard && es[i].value.timestamp == heard[es[i].key].since
    {
      FindUnique(es, i);
      LookupAt(es, i);
      assert Stored(site, es[i].key, Lookup(es, es[i].key), heard[es[i].key]);
    }
  }

  lemma LookupAt(es: seq<Entry<Hash, Packet>>, i: nat)
    requires i < |es| && Find(es, es[i].key) == i
    ensures Lookup(es, es[i].key) == Some(es[i].value)
  {}

  lemma LookupFrom(es: seq<Entry<Hash, Packet>>, n: nat, h: Hash)
    requires Distinct(es) && n <= |es|
    ensures Lookup(es[n..], h) == if h in KeysOf(es[..n]) then None else Lookup(es, h)
  {
    hide Find, Lookup;
    var rest, f := es[n..], Find(es, h);
    assert forall i :: 0 <= i < |rest| ==> rest[i] == es[n + i];
    if f < |es| {
      FindOnly(es, h, f);
      if f < n {
        assert es[..n][f] == es[f];
        FindNone(rest, h);
      } else {
        assert rest[f - n] == es[f];
        FindOnly(rest, h, f - n);
      }
    } else {
      FindNone(es, h);
      FindNone(rest, h);
    }
  }

  class FileParser {
    const site: Site
    const cds: Stack<Hash, Packet>
    /** What has been heard of each hash. */
    ghost var heard: map<Hash, Heard>

    ghost predicate Valid()
      reads this, cds, cds.nodes
    {
      site.Wf() && cds.Valid() && Agrees(site, cds.Entries(), heard)
    }

    constructor (site: Site)
      requires site.Wf()
      ensures Valid() && this.site == site && heard == map[] && fresh(cds)
    {
      this.site := site;
      cds := new Stack();
      heard := map[];
    }

    /** A line of a station's file, read at the time now: the packet is emitted, and its receptions forgotten, exactly
        when those heard since it was last emitted or evicted cover a room, with the best reception of each station of
        that room and the time of the first. A time in the future counts as now. */
    method Receive(hash: Hash, time: int, now: int, station: Station, rssi: real) returns (emitted: Option<Packet>)
      requires Valid()
      modifies this, cds, cds.nodes
      ensures Valid() && (forall n :: n in cds.nodes ==> n in old(cds.nodes) || fresh(n))
      ensures var all := Hear(old(heard), hash, if time <= now then time else now, Reception(station, rssi));
              && (emitted.Some? <==> exists r :: Covers(site, all.receptions, r))
              && (emitted.Some? ==>
                    && emitted.value.hash == hash && emitted.value.timestamp == all.since
                    && Best(site, emitted.value.receivings, all.receptions, site.roomOf(station)))
              && heard == if emitted.Some? then old(heard) - {hash} else old(heard)[hash := all]
    {
      hide Agrees, Best, Covers, Stack.Valid, Stack.Entries, Distinct, Find, Without, Merged, Ready, ValueAfter;
      ghost var es, before, rec := cds.Entries(), HeardOf(heard, hash), Reception(station, rssi);
      var timestamp := time;
      if timestamp > now {
        timestamp := now;
      }
      ghost var all := Hear(heard, hash, timestamp, rec);
      var packet := Packet(hash, timestamp, [Reception(station, rssi)]);
      ghost var x := ValueAfter(es, hash, packet, Reduced);
      Gathered(site, es, heard, packet, rec);
      NotYet(site, es, heard, hash);
      ReadyOrNot(site, before, rec, x);
      var ready, p := cds.UpsertAndConditionallyRemove(hash, packet, Reduced, q => Ready(site, q));
      if ready {
        AgreesWithout(site, es, heard, hash);
        assert cds.Entries() == Without(es, hash);
      } else {
        AgreesWith(site, es, heard, hash, p, all);
      }
      heard := if ready then heard - {hash} else heard[hash := all];
      emitted := if ready then Some(p) else None;
    }

    /** The periodic pass drops packets, least recently heard first, as long as their first reception is more than 300
        seconds ago; their receptions are forgotten. */
    method Evict(now: int) returns (gone: seq<Packet>)
      requires Valid()
      modifies this, cds, cds.nodes
      ensures Valid() && (forall n :: n in cds.nodes ==> n in old(cds.nodes))
      ensures Evicted(old(cds.Entries()), now, gone, cds.Entries())
      ensures heard == old(heard) - KeysOf(old(cds.Entries())[..|gone|])
      ensures forall h :: h in old(heard) && h !in heard ==> old(heard)[h].since < now - 300
      ensures cds.Entries() != [] ==>
                var h := cds.Entries()[0].key; h in heard && heard[h].since >= now - 300
    {
      hide Agrees, Stack.Valid, Stack.Entries, Keyed, AllHold, Evicted, OlderThan, KeysOf;
      ghost var es := cds.Entries();
      AgreesKeyed(site, es, heard);
      gone := cds.Drain(OlderThan(now), HashOf());
      AllOld(es, now, gone, cds.Entries());
      AgreesFrom(site, es, heard, |gone|);
      GoneLongAgo(site, es, heard, now, gone, cds.Entries());
      heard := heard - KeysOf(es[..|gone|]);
    }
  }
}
