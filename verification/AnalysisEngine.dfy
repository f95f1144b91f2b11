/** Which devices there are and in which rooms (Server/AnalysisEngine.cs). A device that uses local MAC addresses gets a
    generated identifier; devices found to be the same are merged; devices not heard for a while are dropped. */
module AnalysisEngine {
  import opened Wrappers
  import opened DictionaryStack

  type Mac = nat
  type Room = nat

  /** The identifier of a device: its MAC address, or a generated name. The two cannot be confused. */
  datatype Id = OfMac(mac: Mac) | Generated(tag: nat)

  datatype Position = Position(room: Room, date: int)

  datatype Device = Device(id: Id, mac: Mac, anonymous: bool, first: Option<Position>, last: Option<Position>)

  type Devices = seq<Entry<Id, Device>>

  /** A packet, with the room of its first reception and the room triangulation finds. */
  datatype Packet = Packet(mac: Mac, timestamp: int, heardIn: Room, located: Room)

  /** anoni maps the MAC addresses of anonymous devices to their identifiers; counts holds the devicecount
      of each room. */
  datatype State = State(devices: Devices, anoni: map<Mac, Id>, counts: seq<int>)

  /** isMACLocal: bit 41 is set. */
  predicate IsLocal(mac: Mac) {
    mac / 0x020000000000 % 2 == 1
  }

  /** The second bit of the first of the six octets of the address says so. */
  lemma LocalBit(octet: nat, rest: nat)
    requires octet < 0x100 && rest < 0x1_00_00_00_00_00
    ensures IsLocal(octet * 0x1_00_00_00_00_00 + rest) <==> octet % 4 >= 2
  {
    var mac := octet * 0x1_00_00_00_00_00 + rest;
    assert mac / 0x020000000000 == octet / 2;
  }

  // ---------- counting ----------

  function Sum(counts: seq<int>): int {
    if counts == [] then 0 else Sum(counts[..|counts| - 1]) + counts[|counts| - 1]
  }

  lemma {:induction false} SumAdd(counts: seq<int>, r: nat, d: int)
    requires r < |counts|
    ensures Sum(counts[r := counts[r] + d]) == Sum(counts) + d
  {
    var n, c := |counts| - 1, counts[r := counts[r] + d];
    if r == n {
      assert c[..n] == counts[..n];
    } else {
      SumAdd(counts[..n], r, d);
      assert c[..n] == counts[..n][r := counts[r] + d];
    }
  }

  predicate StandsIn(d: Device, r: Room) {
    d.last.Some? && d.last.value.room == r
  }

  /** How many devices were last found in a room. */
  function Standing(es: Devices, r: Room): nat {
    if es == [] then 0 else Standing(es[..|es| - 1], r) + if StandsIn(es[|es| - 1].value, r) then 1 else 0
  }

  lemma {:induction false} StandingDrop(es: Devices, i: nat, r: Room)
    requires i < |es|
    ensures Standing(Drop(es, i), r) == Standing(es, r) - if StandsIn(es[i].value, r) then 1 else 0
  {
    var n := |es| - 1;
    if i == n {
      assert Drop(es, i) == es[..n];
    } else {
      StandingDrop(es[..n], i, r);
      var d := Drop(es, i);
      assert d[..n - 1] == Drop(es[..n], i);
      assert d[n - 1] == es[n];
    }
  }

  /** A room's counter, less the devices that were last found in it. */
  function Drift(s: State, r: Room): int
    requires r < |s.counts|
  {
    s.counts[r] - Standing(s.devices, r)
  }

  // ---------- what holds of the engine ----------

  predicate DeviceOk(d: Device, k: Id, rooms: nat) {
    && d.id == k && d.first.Some? && d.last.Some? && d.last.value.room < rooms
    && d.anonymous == IsLocal(d.mac)
    && (if d.anonymous then d.id.Generated? else d.id == OfMac(d.mac))
  }

  /** The tracked anonymous devices and the table of their MAC addresses match one to one. */
  ghost predicate Bijection(es: Devices, anoni: map<Mac, Id>) {
    && (forall k :: Lookup(es, k).Some? && Lookup(es, k).value.anonymous ==> Names(anoni, Lookup(es, k).value.mac, k))
    && (forall m :: m in anoni ==> IsFor(Lookup(es, anoni[m]), m))
  }

  predicate Names(anoni: map<Mac, Id>, m: Mac, k: Id) {
    m in anoni && anoni[m] == k
  }

  predicate IsFor(d: Option<Device>, m: Mac) {
    d.Some? && d.value.anonymous && d.value.mac == m
  }

  ghost predicate AllOk(es: Devices, rooms: nat) {
    forall k :: Lookup(es, k).Some? ==> DeviceOk(Lookup(es, k).value, k, rooms)
  }

  ghost predicate Sound(s: State) {
    && Distinct(s.devices)
    && AllOk(s.devices, |s.counts|)
    && Bijection(s.devices, s.anoni)
    && Sum(s.counts) == |s.devices|
  }

  // ---------- storing and removing a device ----------

  function Stored(es: Devices, d: Device): Devices {
    Without(es, d.id) + [Entry(d.id, d)]
  }

  function OneIf(b: bool): int {
    if b then 1 else 0
  }

  function Present(d: Option<Device>, r: Room): int {
    OneIf(d.Some? && StandsIn(d.value, r))
  }

  lemma StoredKey(es: Devices, d: Device, x: Id)
    requires Distinct(es)
    ensures Distinct(Stored(es, d))
    ensures Lookup(Stored(es, d), x) == if x == d.id then Some(d) else Lookup(es, x)
  {
    var keep := (a: Device, b: Device) => d;
    assert Upserted(es, d.id, d, keep) == Stored(es, d);
    UpsertedKey(es, d.id, d, keep, x);
  }

  lemma RemovedSize(es: Devices, k: Id, r: Room)
    ensures |Without(es, k)| == |es| - OneIf(Lookup(es, k).Some?)
    ensures Standing(Without(es, k), r) == Standing(es, r) - Present(Lookup(es, k), r)
  {
    var i := Find(es, k);
    if i < |es| {
      StandingDrop(es, i, r);
    } else {
      assert Without(es, k) == es;
    }
  }

  lemma StoredSize(es: Devices, d: Device, r: Room)
    ensures |Stored(es, d)| == |es| + OneIf(Lookup(es, d.id) == None)
    ensures Standing(Stored(es, d), r) == Standing(es, r) - Present(Lookup(es, d.id), r) + OneIf(StandsIn(d, r))
  {
    RemovedSize(es, d.id, r);
    var w, e := Without(es, d.id), Stored(es, d);
    assert e[..|w|] == w;
  }

  // ---------- one packet ----------

  function IdOf(s: State, mac: Mac): Id {
    if mac in s.anoni then s.anoni[mac] else OfMac(mac)
  }

  function NewDevice(mac: Mac, gen: Id): Device {
    Device(if IsLocal(mac) then gen else OfMac(mac), mac, IsLocal(mac), None, None)
  }

  /** The devicecounts when a device that was last in a room, or nowhere, is found in another. */
  function Moved(counts: seq<int>, old': Option<Position>, r: Room): seq<int> {
    if old' == None then Added(counts, r, 1)
    else if old'.value.room != r then Added(Added(counts, old'.value.room, -1), r, 1)
    else counts
  }

  function Added(counts: seq<int>, r: Room, d: int): (c: seq<int>)
    ensures |c| == |counts|
  {
    if r < |counts| then counts[r := counts[r] + d] else counts
  }

  function Located(d: Device, p: Packet): Device {
    var at := Position(p.located, p.timestamp);
    d.(first := if d.last == None then Some(at) else d.first, last := Some(at))
  }

  /** The device was found in the room it is heard in now, less than three seconds ago. */
  predicate Recent(d: Device, p: Packet) {
    d.last.Some? && d.last.value.date + 3 > p.timestamp && d.last.value.room == p.heardIn
  }

  /** The device a packet is from, as it is before the packet. */
  function Sender(s: State, p: Packet, gen: Id): Device {
    var found := Lookup(s.devices, IdOf(s, p.mac));
    if found.Some? then found.value else NewDevice(p.mac, gen)
  }

  function Analyzed(s: State, p: Packet, gen: Id): State {
    var found, d := Lookup(s.devices, IdOf(s, p.mac)), Sender(s, p, gen);
    var anoni := if found == None && IsLocal(p.mac) then s.anoni[p.mac := gen] else s.anoni;
    if Recent(d, p) then State(s.devices, anoni, s.counts)
    else State(Stored(s.devices, Located(d, p)), anoni, Moved(s.counts, d.last, p.located))
  }

  /** The packet is from an anonymous device that is not tracked. */
  predicate IsNewAnonymous(s: State, p: Packet) {
    IsLocal(p.mac) && Lookup(s.devices, IdOf(s, p.mac)) == None
  }

  predicate Fresh(s: State, gen: Id) {
    gen.Generated? && Lookup(s.devices, gen) == None
  }

  lemma StoredSound(es: Devices, anoni: map<Mac, Id>, d: Device, rooms: nat)
    requires Distinct(es) && AllOk(es, rooms) && Bijection(es, anoni)
    requires DeviceOk(d, d.id, rooms)
    requires Lookup(es, d.id).Some? ==> Lookup(es, d.id).value.mac == d.mac
    requires Lookup(es, d.id) == None && d.anonymous ==> d.mac !in anoni
    ensures var es', anoni' := Stored(es, d), if d.anonymous then anoni[d.mac := d.id] else anoni;
            Distinct(es') && AllOk(es', rooms) && Bijection(es', anoni')
  {
    hide Find, Stored, Distinct;
    StoredKey(es, d, d.id);
    forall x
      ensures Lookup(Stored(es, d), x) == if x == d.id then Some(d) else Lookup(es, x)
    {
      StoredKey(es, d, x);
    }
  }

  lemma MovedCounts(counts: seq<int>, from: Option<Position>, r: Room)
    requires r < |counts| && (from.Some? ==> from.value.room < |counts|)
    ensures |Moved(counts, from, r)| == |counts|
    ensures Sum(Moved(counts, from, r)) == Sum(counts) + OneIf(from == None)
    ensures forall x :: 0 <= x < |counts| ==>
            Moved(counts, from, r)[x] == counts[x] + OneIf(x == r) - OneIf(from.Some? && from.value.room == x)
  {
    if from == None {
      SumAdd(counts, r, 1);
    } else if from.value.room != r {
      SumAdd(counts, from.value.room, -1);
      SumAdd(Added(counts, from.value.room, -1), r, 1);
    }
  }

  lemma NewIsUnnamed(s: State, p: Packet)
    requires Bijection(s.devices, s.anoni) && IsNewAnonymous(s, p)
    ensures p.mac !in s.anoni
  {
    assert p.mac in s.anoni ==> IsFor(Lookup(s.devices, s.anoni[p.mac]), p.mac);
  }

  lemma StaleClash(s: State, p: Packet, gen: Id)
    requires Sound(s) && IsNewAnonymous(s, p) && !Fresh(s, gen)
    ensures !Sound(Analyzed(s, p, gen))
  {
    hide Find, Without, Distinct;
    var s', d := Analyzed(s, p, gen), Located(NewDevice(p.mac, gen), p);
    NewIsUnnamed(s, p);
    StoredKey(s.devices, d, gen);
    assert Lookup(s'.devices, gen) == Some(d);
    if gen.Generated? {
      var o := Lookup(s.devices, gen).value;
      assert DeviceOk(o, gen, |s.counts|) && Names(s.anoni, o.mac, gen);
      assert !IsFor(Lookup(s'.devices, s'.anoni[o.mac]), o.mac);
    } else {
      assert !DeviceOk(d, gen, |s'.counts|);
    }
  }

  /** The sender of a packet is tracked under its own identifier, or is new. */
  lemma SenderOk(s: State, p: Packet, gen: Id)
    requires Sound(s) && (IsNewAnonymous(s, p) ==> Fresh(s, gen))
    ensures var d := Sender(s, p, gen);
            && d.mac == p.mac && d.anonymous == IsLocal(p.mac)
            && (if d.anonymous then d.id.Generated? else d.id == OfMac(d.mac))
            && Lookup(s.devices, d.id) == (if Lookup(s.devices, IdOf(s, p.mac)).Some? then Some(d) else None)
            && (Lookup(s.devices, d.id).Some? ==>
                DeviceOk(d, d.id, |s.counts|) && (d.anonymous ==> Names(s.anoni, d.mac, d.id)))
            && (Lookup(s.devices, d.id) == None ==> d.last == None)
            && (Lookup(s.devices, d.id) == None && d.anonymous ==> d.mac !in s.anoni)
  {
    hide Find, Distinct;
    var k := IdOf(s, p.mac);
    if p.mac in s.anoni {
      assert IsFor(Lookup(s.devices, s.anoni[p.mac]), p.mac);
    }
    if Lookup(s.devices, k).Some? {
      assert DeviceOk(Lookup(s.devices, k).value, k, |s.counts|);
    }
  }

  lemma SenderRooms(s: State, p: Packet, gen: Id)
    requires Sound(s)
    ensures var d := Sender(s, p, gen);
            d.last.Some? ==> d.last.value.room < |s.counts|
  {
    hide Find, Distinct, Bijection, Sum;
    var k := IdOf(s, p.mac);
    assert Lookup(s.devices, k).Some? ==> DeviceOk(Lookup(s.devices, k).value, k, |s.counts|);
  }

  /** A packet keeps the engine sound exactly when the identifier made for a new anonymous device is fresh, and in that
      case it changes no room's drift. The table of MAC addresses has no entry yet for a new anonymous device. */
  lemma AnalyzedSound(s: State, p: Packet, gen: Id)
    requires Sound(s) && p.located < |s.counts|
    ensures Sound(Analyzed(s, p, gen)) <==> (IsNewAnonymous(s, p) ==> Fresh(s, gen))
    ensures IsNewAnonymous(s, p) ==> p.mac !in s.anoni
    ensures (IsNewAnonymous(s, p) ==> Fresh(s, gen)) ==> SameDrift(Analyzed(s, p, gen), s)
  {
    hide Find, Without, Distinct, Stored, Sum, Standing, Moved, AllOk, Bijection;
    if IsNewAnonymous(s, p) {
      NewIsUnnamed(s, p);
    }
    if IsNewAnonymous(s, p) && !Fresh(s, gen) {
      StaleClash(s, p, gen);
    } else {
      SenderOk(s, p, gen);
      var d := Sender(s, p, gen);
      var d' := Located(d, p);
      if !Recent(d, p) {
        assert s.anoni == Analyzed(s, p, gen).anoni || d.anonymous;
        assert d.anonymous ==> Analyzed(s, p, gen).anoni == s.anoni[d.mac := d.id];
        StoredSound(s.devices, s.anoni, d', |s.counts|);
        MovedCounts(s.counts, d.last, p.located);
        StoredSize(s.devices, d', p.located);
        forall r
          ensures Standing(Stored(s.devices, d'), r) ==
                  Standing(s.devices, r) + OneIf(r == p.located) - OneIf(d.last.Some? && d.last.value.room == r)
        {
          StoredSize(s.devices, d', r);
        }
      }
    }
  }

  /** What a packet leaves of its sender: nothing changes if the sender was last found, less than three seconds before,
      in the room the packet was heard in; else it is where and when the packet says, first seen when it was, and the
      most recently updated device. No other device changes. */
  lemma AnalyzedKeys(s: State, p: Packet, gen: Id, k: Id)
    requires Distinct(s.devices)
    ensures var s', d := Analyzed(s, p, gen), Sender(s, p, gen);
            if d.last.Some? && d.last.value.room == p.heardIn && p.timestamp - d.last.value.date < 3
            then s'.devices == s.devices && s'.counts == s.counts
            else
              && s'.devices != [] && s'.devices[|s'.devices| - 1].key == d.id
              && (k != d.id ==> Lookup(s'.devices, k) == Lookup(s.devices, k))
              && Lookup(s'.devices, d.id).Some? && var d' := Lookup(s'.devices, d.id).value;
                 && d'.last == Some(Position(p.located, p.timestamp)) && d'.first == (if d.last.Some? then d.first
                                                                                     else d'.last)
                 && d'.id == d.id && d'.mac == d.mac && d'.anonymous == d.anonymous
  {
    hide Find, Without, Distinct, Lookup, Moved;
    var d := Sender(s, p, gen);
    StoredKey(s.devices, Located(d, p), k);
    StoredKey(s.devices, Located(d, p), d.id);
  }

  ghost predicate SameDrift(s: State, s': State) {
    |s.counts| == |s'.counts| && forall r :: 0 <= r < |s.counts| ==> Drift(s, r) == Drift(s', r)
  }

  // ---------- merging two devices ----------

  predicate LaterThan(x: Device, y: Device) {
    x.first.Some? && y.first.Some? && x.first.value.date > y.first.value.date
  }

  /** Of two devices found to be the same, the one that appeared first keeps its identifier. */
  function Original(x: Device, y: Device): Device {
    if LaterThan(x, y) then y else x
  }

  function Recurrence(x: Device, y: Device): Device {
    if LaterThan(x, y) then x else y
  }

  /** The original is one of the two, and was seen first; of two that appeared at the same time it is the one named
      first. */
  lemma OriginalIsFirst(s: State, x: Device, y: Device)
    requires Sound(s) && Mergeable(s, x, y)
    ensures {Original(x, y), Recurrence(x, y)} == {x, y}
    ensures x.first.Some? && y.first.Some?
    ensures Original(x, y) == x <==> x.first.value.date <= y.first.value.date
  {
    MergeableRooms(s, x, y);
  }

  function Merge(s: State, x: Device, y: Device): State {
    var a, b := Original(x, y), Recurrence(x, y);
    State(Stored(Without(s.devices, b.id), a.(last := b.last, mac := b.mac)),
          (s.anoni - {a.mac})[b.mac := a.id],
          if b.last.Some? then Added(s.counts, b.last.value.room, -1) else s.counts)
  }

  /** Two tracked anonymous devices. */
  ghost predicate Mergeable(s: State, x: Device, y: Device) {
    && Lookup(s.devices, x.id) == Some(x) && Lookup(s.devices, y.id) == Some(y)
    && x.anonymous && y.anonymous && x.id != y.id
  }

  lemma OkAt(es: Devices, k: Id, rooms: nat)
    requires AllOk(es, rooms) && Lookup(es, k).Some?
    ensures DeviceOk(Lookup(es, k).value, k, rooms)
  {
  }

  lemma MergeableRooms(s: State, x: Device, y: Device)
    requires Sound(s) && Mergeable(s, x, y)
    ensures x.first.Some? && y.first.Some?
    ensures x.last.Some? && x.last.value.room < |s.counts| && y.last.Some? && y.last.value.room < |s.counts|
  {
    assert DeviceOk(x, x.id, |s.counts|) && DeviceOk(y, y.id, |s.counts|);
  }

  lemma RemovedKey(es: Devices, k: Id, rooms: nat)
    requires Distinct(es) && AllOk(es, rooms)
    ensures Distinct(Without(es, k)) && AllOk(Without(es, k), rooms)
    ensures forall x :: Lookup(Without(es, k), x) == if x == k then None else Lookup(es, x)
  {
    hide Find, Without, Distinct;
    WithoutKey(es, k, k);
    forall x
      ensures Lookup(Without(es, k), x) == if x == k then None else Lookup(es, x)
    {
      WithoutKey(es, k, x);
    }
  }

  lemma MergedTable(es: Devices, anoni: map<Mac, Id>, a: Device, b: Device, es': Devices, a': Device, rooms: nat)
    requires AllOk(es, rooms) && DeviceOk(a', a.id, rooms)
    requires Bijection(es, anoni) && Lookup(es, a.id) == Some(a) && Lookup(es, b.id) == Some(b)
    requires a.anonymous && b.anonymous && a.id != b.id && a'.id == a.id && a'.anonymous && a'.mac == b.mac
    requires forall k :: Lookup(es', k) == if k == b.id then None else if k == a.id then Some(a') else Lookup(es, k)
    ensures AllOk(es', rooms) && Bijection(es', (anoni - {a.mac})[b.mac := a.id])
  {
    hide Lookup;
    assert Names(anoni, a.mac, a.id) && Names(anoni, b.mac, b.id);
  }

  /** After a merge the recurrence is gone, and the original goes on under the recurrence's address and position. */
  lemma MergedKeys(s: State, x: Device, y: Device, k: Id)
    requires Distinct(s.devices) && Mergeable(s, x, y)
    ensures Distinct(Merge(s, x, y).devices) && |Merge(s, x, y).devices| == |s.devices| - 1
    ensures var a, b := Original(x, y), Recurrence(x, y);
            Lookup(Merge(s, x, y).devices, k) ==
              if k == b.id then None else if k == a.id then Some(a.(last := b.last, mac := b.mac))
                  else Lookup(s.devices, k)
  {
    hide Find, Without, Distinct, Stored, Lookup;
    var a, b := Original(x, y), Recurrence(x, y);
    var es, a' := Without(s.devices, b.id), a.(last := b.last, mac := b.mac);
    WithoutKey(s.devices, b.id, k);
    WithoutKey(s.devices, b.id, a.id);
    StoredKey(es, a', k);
    RemovedSize(s.devices, b.id, 0);
    StoredSize(es, a', 0);
  }

  /** Merging keeps the engine sound. */
  lemma MergedSound(s: State, x: Device, y: Device)
    requires Sound(s) && Mergeable(s, x, y)
    ensures Sound(Merge(s, x, y)) && |Merge(s, x, y).devices| == |s.devices| - 1
  {
    hide Find, Without, Distinct, Stored, Sum, AllOk, Bijection, Lookup;
    var a, b, rooms := Original(x, y), Recurrence(x, y), |s.counts|;
    var a', s' := a.(last := b.last, mac := b.mac), Merge(s, x, y);
    OkAt(s.devices, a.id, rooms);
    OkAt(s.devices, b.id, rooms);
    MergedKeys(s, x, y, a.id);
    forall k
      ensures Lookup(s'.devices, k) == if k == b.id then None else if k == a.id then Some(a') else Lookup(s.devices, k)
    {
      MergedKeys(s, x, y, k);
    }
    MergedTable(s.devices, s.anoni, a, b, s'.devices, a', rooms);
    SumAdd(s.counts, b.last.value.room, -1);
  }

  /** A merge moves one unit of drift from the room the original was last found in to that of the recurrence, so the
      counters of all rooms go on as before exactly when the two were last found in the same room. */
  lemma MergedDrift(s: State, x: Device, y: Device)
    requires Sound(s) && Mergeable(s, x, y)
    ensures var a, b := Original(x, y).last.value.room, Recurrence(x, y).last.value.room;
            && a < |s.counts| && b < |s.counts| == |Merge(s, x, y).counts|
            && (forall r :: 0 <= r < |s.counts| ==>
                Drift(Merge(s, x, y), r) == Drift(s, r) + OneIf(r == a) - OneIf(r == b))
            && (SameDrift(Merge(s, x, y), s) <==> a == b)
  {
    hide Find, Without, Distinct, Stored, Sum, Standing;
    var a, b, rooms := Original(x, y), Recurrence(x, y), |s.counts|;
    var es, a', s' := Without(s.devices, b.id), a.(last := b.last, mac := b.mac), Merge(s, x, y);
    assert DeviceOk(a, a.id, rooms) && DeviceOk(b, b.id, rooms);
    RemovedKey(s.devices, b.id, rooms);
    forall r | 0 <= r < rooms
      ensures Drift(s', r) == Drift(s, r) + OneIf(StandsIn(a, r)) - OneIf(StandsIn(b, r))
    {
      RemovedSize(s.devices, b.id, r);
      StoredSize(es, a', r);
    }
    assert Drift(s', a.last.value.room) == Drift(s, a.last.value.room) + 1 - OneIf(StandsIn(b, a.last.value.room));
  }

  // ---------- dropping silent devices ----------

  function DropFirst(s: State): State
    requires s.devices != []
  {
    var e := s.devices[0];
    State(Without(s.devices, e.key), if e.value.anonymous then s.anoni - {e.value.mac} else s.anoni,
          if e.value.last.Some? then Added(s.counts, e.value.last.value.room, -1) else s.counts)
  }

  predicate Silent(d: Device, now: int) {
    d.last.Some? && d.last.value.date + 300 < now
  }

  function Cleaned(s: State, now: int): State
    decreases |s.devices|
  {
    if s.devices == [] || !Silent(s.devices[0].value, now) then s
    else
      FirstEntry(s.devices);
      Cleaned(DropFirst(s), now)
  }

  lemma FirstEntry(es: Devices)
    requires es != []
    ensures Without(es, es[0].key) == es[1..] && Lookup(es, es[0].key) == Some(es[0].value)
  {
    FindIs(es, 0);
  }

  lemma DroppedSound(s: State)
    requires Sound(s) && s.devices != []
    ensures Sound(DropFirst(s)) && SameDrift(DropFirst(s), s)
  {
    hide Find, Without, Distinct, Sum, Standing;
    var e, s' := s.devices[0], DropFirst(s);
    var d := e.value;
    FirstEntry(s.devices);
    assert DeviceOk(d, e.key, |s.counts|);
    assert d.anonymous ==> Names(s.anoni, d.mac, e.key);
    RemovedKey(s.devices, e.key, |s.counts|);
    SumAdd(s.counts, d.last.value.room, -1);
    RemovedSize(s.devices, e.key, 0);
    forall r | 0 <= r < |s.counts|
      ensures Drift(s', r) == Drift(s, r)
    {
      RemovedSize(s.devices, e.key, r);
    }
  }

  /** How many devices, from the least recently updated on, are silent. */
  function SilentRun(es: Devices, now: int): (n: nat)
    ensures n <= |es| && (forall i :: 0 <= i < n ==> Silent(es[i].value, now))
            && (n < |es| ==> !Silent(es[n].value, now))
  {
    if es == [] || !Silent(es[0].value, now) then 0 else
      var n := SilentRun(es[1..], now);
      assert forall i :: 1 <= i < n + 1 ==> es[1..][i - 1] == es[i];
      n + 1
  }

  /** Cleaning keeps the engine sound and every room's drift, and drops exactly the longest run of silent devices, the
      least recently updated ones. */
  lemma {:induction false} CleanedSound(s: State, now: int)
    requires Sound(s)
    ensures Sound(Cleaned(s, now)) && SameDrift(Cleaned(s, now), s)
    ensures Cleaned(s, now).devices == s.devices[SilentRun(s.devices, now)..]
    ensures forall i :: 0 <= i < SilentRun(s.devices, now) ==>
              s.devices[i].value.last.Some? && s.devices[i].value.last.value.date < now - 300
    ensures Cleaned(s, now).devices != [] ==>
              var last := Cleaned(s, now).devices[0].value.last; last == None || last.value.date >= now - 300
    decreases |s.devices|
  {
    hide Sound, Drift, Find, Without, Lookup, Standing;
    if s.devices != [] && Silent(s.devices[0].value, now) {
      DroppedSound(s);
      FirstEntry(s.devices);
      CleanedSound(DropFirst(s), now);
    }
  }

  // ---------- finding devices that are the same ----------

  /** The best match among the tracked devices of ids[lo..hi], with its score capped at 100; none scores above 0 if
      there is no match. */
  function Pick(es: Devices, ids: seq<Id>, lo: nat, hi: nat, score: Device -> int): (Option<Device>, int)
    requires hi <= |ids|
    decreases hi
  {
    if hi <= lo then (None, 0) else
      var (best, points) := Pick(es, ids, lo, hi - 1, score);
      var d := Lookup(es, ids[hi - 1]);
      if d.Some? && score(d.value) > points then (d, Min(100, score(d.value))) else (best, points)
  }

  /** Among the tracked candidates there is one at j that beats every earlier one, unless it scores over 100, and that
      no later one beats. */
  ghost predicate IsBest(es: Devices, ids: seq<Id>, lo: nat, hi: nat, score: Device -> int, j: nat, points: int)
    requires hi <= |ids|
  {
    && lo <= j < hi && Lookup(es, ids[j]).Some?
    && points == Min(100, score(Lookup(es, ids[j]).value))
    && (forall k :: lo <= k < j && Lookup(es, ids[k]).Some? && score(Lookup(es, ids[j]).value) <= 100 ==>
          score(Lookup(es, ids[k]).value) < score(Lookup(es, ids[j]).value))
    && (forall k :: j < k < hi && Lookup(es, ids[k]).Some? ==> score(Lookup(es, ids[k]).value) <= points)
  }

  /** The match chosen is the first of the highest score, or, because scores are capped while the search goes on, the
      last of those over 100. */
  lemma {:induction false} PickIsBest(es: Devices, ids: seq<Id>, lo: nat, hi: nat, score: Device -> int)
    requires hi <= |ids|
    ensures var (best, points) := Pick(es, ids, lo, hi, score);
            if points > 0 then best.Some? && exists j: nat ::
                IsBest(es, ids, lo, hi, score, j, points) && best == Lookup(es, ids[j])
            else points == 0 && forall k :: lo <= k < hi && Lookup(es, ids[k]).Some? ==>
                score(Lookup(es, ids[k]).value) <= 0
  {
    hide Lookup;
    if hi > lo {
      PickIsBest(es, ids, lo, hi - 1, score);
      var (best, points) := Pick(es, ids, lo, hi - 1, score);
      var d := Lookup(es, ids[hi - 1]);
      PickBelow(es, ids, lo, hi - 1, score);
      if d.Some? && score(d.value) > points {
        assert IsBest(es, ids, lo, hi, score, hi - 1, Min(100, score(d.value)));
      } else if points > 0 {
        var j: nat :| IsBest(es, ids, lo, hi - 1, score, j, points) && best == Lookup(es, ids[j]);
        assert IsBest(es, ids, lo, hi, score, j, points);
      }
    }
  }

  lemma {:induction false} PickBelow(es: Devices, ids: seq<Id>, lo: nat, hi: nat, score: Device -> int)
    requires hi <= |ids|
    ensures 0 <= Pick(es, ids, lo, hi, score).1 <= 100
    ensures forall k :: lo <= k < hi && Lookup(es, ids[k]).Some? ==>
            Min(100, score(Lookup(es, ids[k]).value)) <= Pick(es, ids, lo, hi, score).1
  {
    hide Lookup;
    if hi > lo {
      PickBelow(es, ids, lo, hi - 1, score);
    }
  }

  function MatchAt(s: State, ids: seq<Id>, i: nat, score: (Device, Device) -> int): State
    requires i < |ids|
  {
    match Lookup(s.devices, ids[i])
    case None => s
    case Some(a) =>
      var (best, points) := Pick(s.devices, ids, i + 1, |ids|, b => score(a, b));
      if points > 50 && best.Some? then Merge(s, best.value, a) else s
  }

  predicate OverFifty(es: Devices, k: Id, a: Device, score: (Device, Device) -> int) {
    Lookup(es, k).Some? && score(a, Lookup(es, k).value) > 50
  }

  /** A round finds a match, and so drops one device, exactly if some later device scores over 50 with this one. */
  lemma MatchExactly(s: State, ids: seq<Id>, i: nat, score: (Device, Device) -> int)
    requires Sound(s) && i < |ids| && (forall j, k :: 0 <= j < k < |ids| ==> ids[j] != ids[k])
    requires forall j :: 0 <= j < |ids| ==> ids[j].Generated?
    ensures var a := Lookup(s.devices, ids[i]);
            if a.Some? && exists j :: i < j < |ids| && OverFifty(s.devices, ids[j], a.value, score) then
              |MatchAt(s, ids, i, score).devices| == |s.devices| - 1
            else MatchAt(s, ids, i, score) == s
  {
    hide Lookup, Merge, Find, Distinct, Sum, Bijection, Pick, Sound;
    var a := Lookup(s.devices, ids[i]);
    if a.Some? {
      var f := b => score(a.value, b);
      PickIsBest(s.devices, ids, i + 1, |ids|, f);
      PickBelow(s.devices, ids, i + 1, |ids|, f);
      MatchedPair(s, ids, i, score);
      var (best, points) := Pick(s.devices, ids, i + 1, |ids|, f);
      if points > 50 {
        var j: nat :| IsBest(s.devices, ids, i + 1, |ids|, f, j, points) && best == Lookup(s.devices, ids[j]);
        assert OverFifty(s.devices, ids[j], a.value, score);
        MergedSound(s, best.value, a.value);
      }
    }
  }

  function MatchUpTo(s: State, ids: seq<Id>, n: nat, score: (Device, Device) -> int): State
    requires n <= |ids|
  {
    if n == 0 then s else MatchAt(MatchUpTo(s, ids, n - 1, score), ids, n - 1, score)
  }

  /** The identifiers of the anonymous devices, each once, in some order. */
  ghost predicate Enumerates(ids: seq<Id>, anoni: map<Mac, Id>) {
    && (forall i, j :: 0 <= i < j < |ids| ==> ids[i] != ids[j])
    && (forall k :: k in ids <==> k in anoni.Values)
  }

  /** A round of a match pass that finds a match has two different tracked anonymous devices. */
  lemma MatchedPair(s: State, ids: seq<Id>, i: nat, score: (Device, Device) -> int)
    requires Sound(s) && i < |ids|
    requires forall j, k :: 0 <= j < k < |ids| ==> ids[j] != ids[k]
    requires forall j :: 0 <= j < |ids| ==> ids[j].Generated?
    ensures var a := Lookup(s.devices, ids[i]);
            a.Some? ==>
              var (best, points) := Pick(s.devices, ids, i + 1, |ids|, b => score(a.value, b));
              points > 50 ==> best.Some? && Mergeable(s, best.value, a.value) && score(a.value, best.value) > 50
  {
    hide Lookup, Merge, Find, Distinct, Sum, Bijection, Pick;
    var a := Lookup(s.devices, ids[i]);
    if a.Some? {
      var f := b => score(a.value, b);
      PickIsBest(s.devices, ids, i + 1, |ids|, f);
      var (best, points) := Pick(s.devices, ids, i + 1, |ids|, f);
      if points > 50 {
        var j: nat :| IsBest(s.devices, ids, i + 1, |ids|, f, j, points) && best == Lookup(s.devices, ids[j]);
        assert DeviceOk(a.value, ids[i], |s.counts|) && DeviceOk(best.value, ids[j], |s.counts|);
        assert f(best.value) == score(a.value, best.value);
      }
    }
  }

  /** Any round of a match pass merges two different tracked anonymous devices, or nothing. */
  lemma MatchAtSound(s: State, ids: seq<Id>, i: nat, score: (Device, Device) -> int)
    requires Sound(s) && i < |ids|
    requires forall j, k :: 0 <= j < k < |ids| ==> ids[j] != ids[k]
    requires forall j :: 0 <= j < |ids| ==> ids[j].Generated?
    ensures Sound(MatchAt(s, ids, i, score))
    ensures MatchAt(s, ids, i, score) == s || exists x, y ::
            Mergeable(s, x, y) && MatchAt(s, ids, i, score) == Merge(s, x, y)
  {
    hide Lookup, Merge, Mergeable, Sound, Pick;
    MatchedPair(s, ids, i, score);
    var a := Lookup(s.devices, ids[i]);
    if a.Some? {
      var (best, points) := Pick(s.devices, ids, i + 1, |ids|, b => score(a.value, b));
      if points > 50 {
        MergedSound(s, best.value, a.value);
      }
    }
  }

  lemma AllGenerated(s: State, ids: seq<Id>)
    requires Sound(s) && Enumerates(ids, s.anoni)
    ensures forall j :: 0 <= j < |ids| ==> ids[j].Generated?
    ensures forall j, k :: 0 <= j < k < |ids| ==> ids[j] != ids[k]
  {
    hide Lookup;
    forall j | 0 <= j < |ids|
      ensures ids[j].Generated?
    {
      assert ids[j] in s.anoni.Values;
      var m :| m in s.anoni && s.anoni[m] == ids[j];
      assert IsFor(Lookup(s.devices, ids[j]), m);
    }
  }

  /** A match pass keeps the engine sound, whatever the scores. */
  lemma {:induction false} MatchSound(s: State, ids: seq<Id>, n: nat, score: (Device, Device) -> int)
    requires Sound(s) && n <= |ids| && Enumerates(ids, s.anoni)
    ensures Sound(MatchUpTo(s, ids, n, score)) && |MatchUpTo(s, ids, n, score).counts| == |s.counts|
    ensures |MatchUpTo(s, ids, n, score).devices| <= |s.devices|
  {
    hide Lookup, MatchAt, Distinct, Bijection, AllOk, Sum, Mergeable;
    if n > 0 {
      AllGenerated(s, ids);
      MatchSound(s, ids, n - 1, score);
      var t := MatchUpTo(s, ids, n - 1, score);
      MatchAtSound(t, ids, n - 1, score);
      if MatchAt(t, ids, n - 1, score) != t {
        var x, y :| Mergeable(t, x, y) && MatchAt(t, ids, n - 1, score) == Merge(t, x, y);
        MergedSound(t, x, y);
      }
    }
  }

  // ---------- whole runs ----------

  /** What the analyzer does in a round: a packet, or, when none has come for a while, a match pass and a
      cleaning pass. */
  datatype Event = Heard(p: Packet, gen: Id) | Match(ids: seq<Id>, score: (Device, Device) -> int) | Clean(now: int)

  /** Rooms exist, generated identifiers are fresh, and a match pass starts from the identifiers there are. */
  ghost predicate Allowed(s: State, e: Event) {
    match e
    case Heard(p, gen) => p.located < |s.counts| && (IsNewAnonymous(s, p) ==> Fresh(s, gen))
    case Match(ids, _) => Enumerates(ids, s.anoni)
    case Clean(_) => true
  }

  function Next(s: State, e: Event): State {
    match e
    case Heard(p, gen) => Analyzed(s, p, gen)
    case Match(ids, score) => MatchUpTo(s, ids, |ids|, score)
    case Clean(now) => Cleaned(s, now)
  }

  function Ran(s: State, events: seq<Event>): State {
    if events == [] then s else Next(Ran(s, events[..|events| - 1]), events[|events| - 1])
  }

  ghost predicate AllAllowed(s: State, events: seq<Event>) {
    events == [] || (AllAllowed(s, events[..|events| - 1])
                     && Allowed(Ran(s, events[..|events| - 1]), events[|events| - 1]))
  }

  /** Over any run from a sound state, such as the empty one, the table of MAC addresses stays a bijection with the
      tracked anonymous devices and the counters of all rooms add up to the number of tracked devices. */
  lemma {:induction false} RunSound(s: State, events: seq<Event>)
    requires Sound(s) && AllAllowed(s, events)
    ensures Sound(Ran(s, events)) && |Ran(s, events).counts| == |s.counts|
  {
    if events != [] {
      hide Sound, Analyzed, MatchUpTo, Cleaned, Drift;
      RunSound(s, events[..|events| - 1]);
      var t := Ran(s, events[..|events| - 1]);
      match events[|events| - 1]
      case Heard(p, gen) => AnalyzedSound(t, p, gen);
      case Match(ids, score) => MatchSound(t, ids, |ids|, score);
      case Clean(now) => CleanedSound(t, now);
    }
  }

  /** Scores over 50 are given only to devices last found in the same room. */
  ghost predicate SameRoomOnly(score: (Device, Device) -> int) {
    forall x, y :: score(x, y) > 50 && x.last.Some? && y.last.Some? ==> x.last.value.room == y.last.value.room
  }

  lemma MatchAtDrift(s: State, ids: seq<Id>, i: nat, score: (Device, Device) -> int)
    requires Sound(s) && i < |ids| && SameRoomOnly(score)
    requires forall j, k :: 0 <= j < k < |ids| ==> ids[j] != ids[k]
    requires forall j :: 0 <= j < |ids| ==> ids[j].Generated?
    ensures SameDrift(MatchAt(s, ids, i, score), s)
  {
    hide Lookup, Merge, Mergeable, Sound, Pick, Drift;
    MatchedPair(s, ids, i, score);
    var a := Lookup(s.devices, ids[i]);
    if a.Some? {
      var (best, points) := Pick(s.devices, ids, i + 1, |ids|, b => score(a.value, b));
      if points > 50 {
        MergeableRooms(s, best.value, a.value);
        MergedDrift(s, best.value, a.value);
      }
    }
  }

  lemma {:induction false} MatchDrift(s: State, ids: seq<Id>, n: nat, score: (Device, Device) -> int)
    requires Sound(s) && n <= |ids| && Enumerates(ids, s.anoni) && SameRoomOnly(score)
    ensures SameDrift(MatchUpTo(s, ids, n, score), s)
  {
    hide Lookup, MatchAt, Distinct, Bijection, AllOk, Sum, Drift;
    if n > 0 {
      AllGenerated(s, ids);
      MatchDrift(s, ids, n - 1, score);
      MatchSound(s, ids, n - 1, score);
      MatchAtDrift(MatchUpTo(s, ids, n - 1, score), ids, n - 1, score);
    }
  }

  /** As long as only devices of one room are matched, the counter of every room changes exactly as the number of
      devices last found there does. */
  lemma {:induction false} RunExact(s: State, events: seq<Event>)
    requires Sound(s) && AllAllowed(s, events)
    requires forall e :: e in events && e.Match? ==> SameRoomOnly(e.score)
    ensures SameDrift(Ran(s, events), s)
  {
    if events != [] {
      hide Sound, Next, Allowed, SameDrift, SameRoomOnly;
      var before, e := events[..|events| - 1], events[|events| - 1];
      RunExact(s, before);
      RunSound(s, before);
      NextExact(Ran(s, before), e);
      DriftTrans(s, Ran(s, before), Ran(s, events));
    } else {
      DriftSame(s);
    }
  }

  lemma NextExact(t: State, e: Event)
    requires Sound(t) && Allowed(t, e) && (e.Match? ==> SameRoomOnly(e.score))
    ensures SameDrift(Next(t, e), t)
  {
    hide Sound, Analyzed, MatchUpTo, Cleaned, Drift, SameRoomOnly;
    match e
    case Heard(p, gen) => AnalyzedSound(t, p, gen);
    case Match(ids, score) => MatchDrift(t, ids, |ids|, score);
    case Clean(now) => CleanedSound(t, now);
  }

  lemma DriftTrans(s: State, t: State, u: State)
    requires SameDrift(t, s) && SameDrift(u, t)
    ensures SameDrift(u, s)
  {
    hide Drift;
  }

  lemma DriftSame(s: State)
    ensures SameDrift(s, s)
  {}

  lemma {:induction false} SumZero(n: nat)
    ensures Sum(seq(n, _ => 0)) == 0
  {
    if n > 0 {
      SumZero(n - 1);
      assert seq(n, _ => 0)[..n - 1] == seq(n - 1, _ => 0);
    }
  }

  lemma FirstOk(s: State)
    requires Sound(s) && s.devices != []
    ensures var e := s.devices[0]; DeviceOk(e.value, e.key, |s.counts|) && Lookup(s.devices, e.key) == Some(e.value)
  {
    FirstEntry(s.devices);
  }

  /** A conditional pop that removes a device drops the first one, which is silent. */
  lemma PoppedStep(s: State, now: int, gone: Option<Device>, es: Devices)
    requires Sound(s) && Popped(s.devices, (d: Device) => d.id, (d: Device) => Silent(d, now), true, gone, es)
    ensures s.devices != [] && gone == Some(s.devices[0].value) && gone.value.last.Some?
    ensures gone.value.last.value.room < |s.counts|
    ensures DropFirst(s) == State(es, if gone.value.anonymous then s.anoni - {gone.value.mac} else s.anoni,
                                  s.counts[gone.value.last.value.room := s.counts[gone.value.last.value.room] - 1])
    ensures Sound(DropFirst(s)) && |DropFirst(s).devices| < |s.devices| && Cleaned(DropFirst(s), now) == Cleaned(s, now)
  {
    hide Sound, Find, Lookup, Silent, Without;
    FirstOk(s);
    FirstEntry(s.devices);
    DroppedSound(s);
  }

  lemma PoppedEnd(s: State, now: int, gone: Option<Device>, es: Devices)
    requires Sound(s) && Popped(s.devices, (d: Device) => d.id, (d: Device) => Silent(d, now), false, gone, es)
    ensures es == s.devices && Cleaned(s, now) == s
  {
    hide Sound, Find, Silent, Without;
    if s.devices != [] {
      FirstOk(s);
    }
  }

  // ---------- the engine ----------

  class Engine {
    const deviceMap: Stack<Id, Device>
    var anoniDevices: map<Mac, Id>
    /** The devicecount of each room. */
    var counts: seq<int>

    ghost function Snapshot(): State
      requires deviceMap.Valid()
      reads this, deviceMap, deviceMap.nodes
    {
      State(deviceMap.Entries(), anoniDevices, counts)
    }

    ghost predicate Valid()
      reads this, deviceMap, deviceMap.nodes
    {
      deviceMap.Valid() && Sound(Snapshot())
    }

    constructor (rooms: nat)
      ensures Valid() && fresh(deviceMap) && |counts| == rooms
      ensures Snapshot().devices == [] && forall r :: 0 <= r < rooms ==> Drift(Snapshot(), r) == 0
    {
      deviceMap := new Stack();
      anoniDevices, counts := map[], seq(rooms, _ => 0);
      new;
      SumZero(rooms);
    }

    /** analyzePacket; the identifier for a new anonymous device is made by the caller. The engine stays sound exactly
        if the identifier, should it be needed, is not in use. */
    method AnalyzePacket(p: Packet, gen: Id)
      requires Valid() && p.located < |counts|
      modifies this, deviceMap, deviceMap.nodes
      ensures deviceMap.Valid() && (forall n :: n in deviceMap.nodes ==> n in old(deviceMap.nodes) || fresh(n))
      ensures Snapshot() == Analyzed(old(Snapshot()), p, gen)
      ensures Valid() <==> (IsNewAnonymous(old(Snapshot()), p) ==> Fresh(old(Snapshot()), gen))
    {
      hide Sound, Find, Without, Distinct, Stack.Valid, Drift, Stack.Entries, IsLocal, Moved, Lookup, Located,
           NewDevice, Recent;
      ghost var s := Snapshot();
      AnalyzedSound(s, p, gen);
      SenderRooms(s, p, gen);
      var permanentIdentifier := if p.mac in anoniDevices then anoniDevices[p.mac] else OfMac(p.mac);
      var known := deviceMap.GetKey(permanentIdentifier);
      var d;
      if known == None {
        d := NewDevice(p.mac, gen);
        if IsLocal(p.mac) {
          assert p.mac !in anoniDevices;
          anoniDevices := anoniDevices[p.mac := gen];
        }
      } else {
        d := known.value;
      }
      if !Recent(d, p) {
        Locate(d.last, p.located);
        Store(Located(d, p));
      }
    }

    /** An upsert that lets the new value replace the old. */
    method Store(d: Device)
      requires deviceMap.Valid()
      modifies deviceMap, deviceMap.nodes
      ensures deviceMap.Valid() && (forall n :: n in deviceMap.nodes ==> n in old(deviceMap.nodes) || fresh(n))
      ensures deviceMap.Entries() == Stored(old(deviceMap.Entries()), d)
    {
      hide Find, Without, Stack.Valid, Stack.Entries;
      var _ := deviceMap.Upsert(d.id, d, (old': Device, cur: Device) => cur);
    }

    /** The room counters of locateAndPublish. */
    method Locate(from: Option<Position>, to: Room)
      requires to < |counts| && (from.Some? ==> from.value.room < |counts|)
      modifies this`counts
      ensures counts == Moved(old(counts), from, to)
    {
      if from == None {
        counts := counts[to := counts[to] + 1];
      } else if from.value.room != to {
        counts := counts[from.value.room := counts[from.value.room] - 1];
        counts := counts[to := counts[to] + 1];
      }
    }

    /** mergeAnonimous: whichever of the two appeared later is merged into the other. */
    method MergeAnonimous(x: Device, y: Device)
      requires Valid() && Mergeable(Snapshot(), x, y)
      modifies this, deviceMap, deviceMap.nodes
      ensures Valid() && (forall n :: n in deviceMap.nodes ==> n in old(deviceMap.nodes) || fresh(n))
      ensures Snapshot() == Merge(old(Snapshot()), x, y)
    {
      hide Sound, Find, Without, Distinct, Stack.Valid, Stack.Entries, Lookup, Stored;
      ghost var s := Snapshot();
      MergedSound(s, x, y);
      MergeableRooms(s, x, y);
      var a, b := x, y;
      if a.first.value.date > b.first.value.date {
        a, b := b, a;
      }
      var mac := a.mac;
      a := a.(last := b.last);
      var _ := deviceMap.Remove(b.id);
      var room := b.last.value.room;
      counts := counts[room := counts[room] - 1];
      anoniDevices := anoniDevices - {mac};
      a := a.(mac := b.mac);
      assert forall i :: 0 <= i < |deviceMap.nodes| ==> deviceMap.nodes[i] in old(deviceMap.nodes);
      Store(a);
      anoniDevices := anoniDevices[b.mac := a.id];
    }

    /** The inner loop of findSameAnonimous. */
    method BestMatch(a: Device, ids: seq<Id>, i: nat, score: (Device, Device) -> int)
      returns (best: Option<Device>, points: int)
      requires deviceMap.Valid() && i < |ids|
      ensures (best, points) == Pick(deviceMap.Entries(), ids, i + 1, |ids|, b => score(a, b))
    {
      hide Lookup, Stack.Valid, Stack.Entries;
      best, points := None, 0;
      ghost var f := b => score(a, b);
      for j := i + 1 to |ids|
        invariant (best, points) == Pick(deviceMap.Entries(), ids, i + 1, j, f)
      {
        var b := deviceMap.GetKey(ids[j]);
        if b.Some? {
          var curpoint := score(a, b.value);
          if curpoint > points {
            points := Min(100, curpoint);
            best := b;
          }
        }
      }
    }

    /** findSameAnonimous; the identifiers come in the order the table is read out. */
    method FindSameAnonimous(ids: seq<Id>, score: (Device, Device) -> int)
      requires Valid() && Enumerates(ids, anoniDevices)
      modifies this, deviceMap, deviceMap.nodes
      ensures Valid() && (forall n :: n in deviceMap.nodes ==> n in old(deviceMap.nodes) || fresh(n))
      ensures Snapshot() == MatchUpTo(old(Snapshot()), ids, |ids|, score)
    {
      hide Sound, Lookup, Stack.Valid, Stack.Entries, Mergeable, Merge, Pick;
      ghost var s, ns := Snapshot(), deviceMap.nodes;
      AllGenerated(s, ids);
      for i := 0 to |ids|
        invariant Valid() && Snapshot() == MatchUpTo(s, ids, i, score)
        invariant forall n :: n in deviceMap.nodes ==> n in ns || fresh(n)
      {
        ghost var t := Snapshot();
        MatchedPair(t, ids, i, score);
        var a := deviceMap.GetKey(ids[i]);
        if a.Some? {
          var best, points := BestMatch(a.value, ids, i, score);
          if points > 50 {
            assert forall i :: 0 <= i < |deviceMap.nodes| ==> deviceMap.nodes[i] in ns || fresh(deviceMap.nodes[i]);
            MergeAnonimous(best.value, a.value);
          }
        }
      }
    }

    /** householdCleaning. */
    method HouseholdCleaning(now: int)
      requires Valid()
      modifies this, deviceMap, deviceMap.nodes
      ensures Valid() && (forall n :: n in deviceMap.nodes ==> n in old(deviceMap.nodes))
      ensures Snapshot() == Cleaned(old(Snapshot()), now)
    {
      hide Sound, Find, Lookup, Stack.Valid, Stack.Entries, Silent, Without, DropFirst, Popped, Cleaned;
      ghost var s, ns := Snapshot(), deviceMap.nodes;
      ghost var t := s;
      var removed, gone := deviceMap.PopConditional((d: Device) => Silent(d, now), (d: Device) => d.id);
      while removed
        invariant deviceMap.Valid() && Sound(t) && Cleaned(t, now) == Cleaned(s, now)
        invariant forall n :: n in deviceMap.nodes ==> n in ns
        invariant anoniDevices == t.anoni && counts == t.counts
        invariant Popped(t.devices, (d: Device) => d.id, (d: Device) => Silent(d, now), removed, gone,
                         deviceMap.Entries())
        decreases |t.devices|
      {
        PoppedStep(t, now, gone, deviceMap.Entries());
        var d := gone.value;
        if d.anonymous {
          anoniDevices := anoniDevices - {d.mac};
        }
        var room := d.last.value.room;
        counts := counts[room := counts[room] - 1];
        t := DropFirst(t);
        assert forall i :: 0 <= i < |deviceMap.nodes| ==> deviceMap.nodes[i] in ns;
        removed, gone := deviceMap.PopConditional((d: Device) => Silent(d, now), (d: Device) => d.id);
      }
      PoppedEnd(t, now, gone, deviceMap.Entries());
    }
  }
}
