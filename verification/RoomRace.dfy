/** The room server's locked sections (server/internal/room/manager.go, server/internal/room/room.go) as the
    handlers of concurrent datagrams and the timeout scan take them (server/internal/signaling/signaling.go,
    server/internal/server/server.go): exactly when a member ends up in a room object that the manager
    no longer has. */
module RoomRace {
  import opened Vip
  import opened RoomServer
  import opened Options

  // Identifies a handler, or a room object.
  type Id = nat

  // A join: the room object found or made, then entered.
  datatype Joining =
    | Found(room: RoomId, id: PeerId, obj: Id)
    | Entered

  // A leave: the room object found, left, and seen empty; the manager then removes the name.
  datatype Leaving =
    | Got(room: RoomId, id: PeerId, obj: Id)
    | Left(room: RoomId, obj: Id)
    | SawEmpty(room: RoomId)
    | Done

  // A scan, which holds the manager's lock: the rooms to visit, the one just swept, those seen empty.
  datatype Scanning = Scanning(todo: set<RoomId>, swept: Option<RoomId>, empty: set<RoomId>)

  datatype Obj = Obj(room: RoomId, members: set<PeerId>)

  datatype Server = Server(rooms: map<RoomId, Id>, objs: map<Id, Obj>,
                           joins: map<Id, Joining>, leaves: map<Id, Leaving>, scan: Option<Scanning>)

  datatype Section =
    | Find(j: Id, room: RoomId, id: PeerId, made: Id)   // GetOrCreate
    | Enter(j: Id)                                       // Room.Join
    | Get(l: Id, room: RoomId, id: PeerId)               // Get
    | Quit(l: Id)                                        // Room.Leave
    | Ask(l: Id)                                         // IsEmpty
    | Remove(l: Id)                                      // Remove
    | StartScan                                          // ScanTimeout takes the manager's lock
    | Sweep(room: RoomId, silent: set<PeerId>)           // Room.ScanTimeout
    | AskSwept                                           // IsEmpty
    | EndScan                                            // and gives it back

  ghost predicate Enabled(s: Server, e: Section) {
    match e
    case Find(j, _, _, made) => s.scan == None && j !in s.joins && made !in s.objs
    case Enter(j) => j in s.joins && s.joins[j].Found? && s.joins[j].obj in s.objs
    case Get(l, r, _) => s.scan == None && l !in s.leaves && r in s.rooms
    case Quit(l) => l in s.leaves && s.leaves[l].Got? && s.leaves[l].obj in s.objs
    case Ask(l) => l in s.leaves && s.leaves[l].Left? && s.leaves[l].obj in s.objs
    case Remove(l) => s.scan == None && l in s.leaves && s.leaves[l].SawEmpty?
    case StartScan => s.scan == None
    case Sweep(r, _) =>
      && s.scan.Some? && s.scan.value.swept == None
      && r in s.scan.value.todo && r in s.rooms && s.rooms[r] in s.objs
    case AskSwept =>
      s.scan.Some? && s.scan.value.swept.Some?
      && s.scan.value.swept.value in s.rooms && s.rooms[s.scan.value.swept.value] in s.objs
    case EndScan => s.scan.Some? && s.scan.value.swept == None && s.scan.value.todo == {}
  }

  /** The names a section takes out of the manager's map. */
  ghost function Removes(s: Server, e: Section): set<RoomId>
    requires Enabled(s, e)
  {
    match e
    case Remove(l) => {s.leaves[l].room}
    case EndScan => s.scan.value.empty
    case _ => {}
  }

  ghost function Without(o: Obj, ids: set<PeerId>): Obj {
    o.(members := o.members - ids)
  }

  ghost function After(s: Server, e: Section): Server
    requires Enabled(s, e)
  {
    match e
    case Find(j, r, id, made) =>
      if r in s.rooms then s.(joins := s.joins[j := Found(r, id, s.rooms[r])])
      else s.(rooms := s.rooms[r := made], objs := s.objs[made := Obj(r, {})],
              joins := s.joins[j := Found(r, id, made)])
    case Enter(j) =>
      var o := s.joins[j].obj;
      s.(objs := s.objs[o := s.objs[o].(members := s.objs[o].members + {s.joins[j].id})],
         joins := s.joins[j := Entered])
    case Get(l, r, id) => s.(leaves := s.leaves[l := Got(r, id, s.rooms[r])])
    case Quit(l) =>
      var w := s.leaves[l];
      s.(objs := s.objs[w.obj := Without(s.objs[w.obj], {w.id})], leaves := s.leaves[l := Left(w.room, w.obj)])
    case Ask(l) =>
      var w := s.leaves[l];
      s.(leaves := s.leaves[l := if s.objs[w.obj].members == {} then SawEmpty(w.room) else Done])
    case Remove(l) => s.(rooms := s.rooms - Removes(s, e), leaves := s.leaves[l := Done])
    case StartScan => s.(scan := Some(Scanning(s.rooms.Keys, None, {})))
    case Sweep(r, silent) =>
      var o, scan := s.rooms[r], s.scan.value;
      s.(objs := s.objs[o := Without(s.objs[o], silent)], scan := Some(Scanning(scan.todo - {r}, Some(r), scan.empty)))
    case AskSwept =>
      var scan := s.scan.value;
      var r := scan.swept.value;
      var empty := if s.objs[s.rooms[r]].members == {} then scan.empty + {r} else scan.empty;
      s.(scan := Some(Scanning(scan.todo, None, empty)))
    case EndScan => s.(rooms := s.rooms - Removes(s, e), scan := None)
  }

  ghost predicate Start(s: Server) {
    s == Server(map[], map[], map[], map[], None)
  }

  ghost predicate IsRun(states: seq<Server>, sections: seq<Section>) {
    && |states| == |sections| + 1 && Start(states[0])
    && forall i :: 0 <= i < |sections| ==>
         Enabled(states[i], sections[i]) && states[i + 1] == After(states[i], sections[i])
  }

  /** The manager has the object, under its own name. */
  ghost predicate Has(s: Server, r: RoomId, o: Id) {
    r in s.rooms && s.rooms[r] == o
  }

  ghost predicate Inv(s: Server) {
    && (forall r :: r in s.rooms ==> s.rooms[r] in s.objs && s.objs[s.rooms[r]].room == r)
    && (forall j :: j in s.joins && s.joins[j].Found? ==>
          s.joins[j].obj in s.objs && s.objs[s.joins[j].obj].room == s.joins[j].room)
  }

  lemma SectionKeepsInv(s: Server, e: Section)
    requires Inv(s) && Enabled(s, e)
    ensures Inv(After(s, e))
  {
  }

  lemma {:induction false} RunKeepsInv(states: seq<Server>, sections: seq<Section>, n: nat)
    requires IsRun(states, sections) && n <= |sections|
    ensures Inv(states[n])
    decreases n
  {
    if n > 0 {
      RunKeepsInv(states, sections, n - 1);
      SectionKeepsInv(states[n - 1], sections[n - 1]);
    }
  }

  // ---------------------------------------------------------------- between the lookup and later

  /** The name is taken out of the map by a section from the i-th to before the n-th. */
  ghost predicate RemovedIn(states: seq<Server>, sections: seq<Section>, r: RoomId, i: nat, n: nat)
    requires IsRun(states, sections) && n <= |sections|
  {
    exists k :: i <= k < n && RemovedAt(states, sections, r, k)
  }

  ghost predicate RemovedAt(states: seq<Server>, sections: seq<Section>, r: RoomId, k: nat)
    requires IsRun(states, sections)
  {
    k < |sections| && r in Removes(states[k], sections[k])
  }

  /** An object once made is never made again, so a section that does not remove the name keeps it there,
      and none brings it back. */
  lemma HasAfter(s: Server, e: Section, r: RoomId, o: Id)
    requires Enabled(s, e) && o in s.objs
    ensures o in After(s, e).objs
    ensures Has(After(s, e), r, o) <==> Has(s, r, o) && r !in Removes(s, e)
  {
  }

  lemma {:induction false} HasIff(states: seq<Server>, sections: seq<Section>, i: nat, n: nat, r: RoomId, o: Id)
    requires IsRun(states, sections) && i <= n <= |sections| && Has(states[i], r, o)
    ensures o in states[n].objs && (Has(states[n], r, o) <==> !RemovedIn(states, sections, r, i, n))
    decreases n
  {
    RunKeepsInv(states, sections, i);
    if i < n {
      HasIff(states, sections, i, n - 1, r, o);
      HasAfter(states[n - 1], sections[n - 1], r, o);
      assert RemovedIn(states, sections, r, i, n)
        <==> RemovedIn(states, sections, r, i, n - 1) || RemovedAt(states, sections, r, n - 1);
    }
  }

  ghost predicate FoundAs(s: Server, j: Id, r: RoomId, id: PeerId, o: Id) {
    j in s.joins && s.joins[j] == Found(r, id, o)
  }

  /** A join's lookup finds what the manager has. */
  lemma FindFinds(s: Server, e: Section)
    requires Inv(s) && Enabled(s, e) && e.Find?
    ensures var o := After(s, e).rooms[e.room];
            FoundAs(After(s, e), e.j, e.room, e.id, o) && Has(After(s, e), e.room, o)
  {
  }

  lemma {:induction false} FoundStays(states: seq<Server>, sections: seq<Section>, i: nat, k: nat, j: Id)
    requires IsRun(states, sections) && i <= k <= |sections| && j in states[i].joins
    requires j in states[k].joins && states[k].joins[j].Found?
    ensures states[k].joins[j] == states[i].joins[j]
    decreases k
  {
    if i < k {
      JoinsGrow(states, sections, i, k - 1, j);
      FoundBefore(states[k - 1], sections[k - 1], j);
      FoundStays(states, sections, i, k - 1, j);
    }
  }

  lemma FoundBefore(s: Server, e: Section, j: Id)
    requires Enabled(s, e) && j in s.joins && After(s, e).joins[j].Found?
    ensures s.joins[j] == After(s, e).joins[j]
  {
  }

  lemma {:induction false} JoinsGrow(states: seq<Server>, sections: seq<Section>, i: nat, k: nat, j: Id)
    requires IsRun(states, sections) && i <= k <= |sections| && j in states[i].joins
    ensures j in states[k].joins
    decreases k
  {
    if i < k {
      JoinsGrow(states, sections, i, k - 1, j);
    }
  }

  /** Over all interleavings: a join puts its peer into the object it found; and that object is the manager's
      at any later point exactly if its name was not taken out of the map since the lookup, be it by a leave
      that had seen it empty or by a scan. */
  lemma JoinKeepsRoomIff(states: seq<Server>, sections: seq<Section>, i: nat, k: nat, n: nat)
    requires IsRun(states, sections) && i < k < n <= |sections|
    requires sections[i].Find? && sections[k] == Enter(sections[i].j)
    ensures var Find(j, r, id, _) := sections[i];
            && r in states[i + 1].rooms
            && var o := states[i + 1].rooms[r];
            && o in states[k + 1].objs && id in states[k + 1].objs[o].members
            && (Has(states[n], r, o) <==> !RemovedIn(states, sections, r, i + 1, n))
  {
    var Find(j, r, id, _) := sections[i];
    RunKeepsInv(states, sections, i);
    FindFinds(states[i], sections[i]);
    FoundStays(states, sections, i + 1, k, j);
    HasIff(states, sections, i + 1, n, r, states[i + 1].rooms[r]);
  }

  // ---------------------------------------------------------------- when nobody is ever lost

  /** The peer is in a room object that the manager no longer has, where no later lookup finds it. */
  ghost predicate Lost(s: Server, o: Id, id: PeerId) {
    o in s.objs && id in s.objs[o].members && !Has(s, s.objs[o].room, o)
  }

  ghost predicate NobodyLost(s: Server) {
    forall o, id :: !Lost(s, o, id)
  }

  /** The section loses somebody: it enters an object the manager no longer has, or removes the name of one
      that has members. */
  ghost predicate Loses(s: Server, e: Section)
    requires Enabled(s, e)
  {
    match e
    case Enter(j) => !Has(s, s.joins[j].room, s.joins[j].obj)
    case _ => exists r :: r in Removes(s, e) && Peopled(s, r)
  }

  ghost predicate Peopled(s: Server, r: RoomId) {
    r in s.rooms && s.rooms[r] in s.objs && s.objs[s.rooms[r]].members != {}
  }

  lemma LosesIff(s: Server, e: Section)
    requires Inv(s) && Enabled(s, e) && NobodyLost(s)
    ensures NobodyLost(After(s, e)) <==> !Loses(s, e)
  {
    var s' := After(s, e);
    if Loses(s, e) {
      if e.Enter? {
        assert Lost(s', s.joins[e.j].obj, s.joins[e.j].id);
      } else {
        var r :| r in Removes(s, e) && Peopled(s, r);
        var id :| id in s.objs[s.rooms[r]].members;
        assert Lost(s', s.rooms[r], id);
      }
    } else {
      forall o, id ensures !Lost(s', o, id) {
        assert !Lost(s, o, id);
      }
    }
  }

  /** A join whose room was taken out of the map between its lookup and its entry. */
  ghost predicate RacedJoin(states: seq<Server>, sections: seq<Section>, i: nat, k: nat)
    requires IsRun(states, sections)
  {
    && i < k < |sections| && sections[i].Find? && sections[k] == Enter(sections[i].j)
    && RemovedIn(states, sections, sections[i].room, i + 1, k)
  }

  /** A room taken out of the map though somebody is in it. */
  ghost predicate PeopledRemoval(states: seq<Server>, sections: seq<Section>, k: nat)
    requires IsRun(states, sections)
  {
    k < |sections| && exists r :: r in Removes(states[k], sections[k]) && Peopled(states[k], r)
  }

  lemma {:induction false} JoinHasFind(states: seq<Server>, sections: seq<Section>, k: nat, j: Id) returns (i: nat)
    requires IsRun(states, sections) && k <= |sections| && j in states[k].joins
    ensures i < k && sections[i].Find? && sections[i].j == j
    decreases k
  {
    if j in states[k - 1].joins {
      i := JoinHasFind(states, sections, k - 1, j);
    } else {
      i := k - 1;
    }
  }

  /** What the entry enters is the manager's exactly if its join was not raced. */
  lemma EntersOwnIff(states: seq<Server>, sections: seq<Section>, i: nat, k: nat)
    requires IsRun(states, sections) && i < k < |sections|
    requires sections[i].Find? && sections[k] == Enter(sections[i].j)
    ensures Has(states[k], states[k].joins[sections[i].j].room, states[k].joins[sections[i].j].obj)
       <==> !RacedJoin(states, sections, i, k)
  {
    var Find(j, r, _, _) := sections[i];
    RunKeepsInv(states, sections, i);
    FindFinds(states[i], sections[i]);
    FoundStays(states, sections, i + 1, k, j);
    HasIff(states, sections, i + 1, k, r, states[i + 1].rooms[r]);
  }

  // ---------------------------------------------------------------- how somebody is in a removed room

  ghost predicate In(s: Server, o: Id, id: PeerId) {
    o in s.objs && id in s.objs[o].members
  }

  ghost predicate PutsIn(s: Server, e: Section, o: Id, id: PeerId) {
    e.Enter? && e.j in s.joins && s.joins[e.j].Found? && s.joins[e.j].obj == o && s.joins[e.j].id == id
  }

  /** By its own leave, or by a timeout. */
  ghost predicate TakesOut(s: Server, e: Section, o: Id, id: PeerId) {
    match e
    case Quit(l) => l in s.leaves && s.leaves[l].Got? && s.leaves[l].obj == o && s.leaves[l].id == id
    case Sweep(r, silent) => Has(s, r, o) && id in silent
    case _ => false
  }

  lemma InAfter(s: Server, e: Section, o: Id, id: PeerId)
    requires Enabled(s, e)
    ensures In(After(s, e), o, id) <==> PutsIn(s, e, o, id) || (In(s, o, id) && !TakesOut(s, e, o, id))
  {
  }

  /** The m-th section enters the object, and none from there to before the k-th takes the peer out again. */
  ghost predicate StaysSince(states: seq<Server>, sections: seq<Section>, m: nat, k: nat, o: Id, id: PeerId)
    requires IsRun(states, sections) && k <= |sections|
  {
    && m < k && PutsIn(states[m], sections[m], o, id)
    && forall n :: m < n < k ==> !TakesOut(states[n], sections[n], o, id)
  }

  lemma StaysOneMore(states: seq<Server>, sections: seq<Section>, m: nat, k: nat, o: Id, id: PeerId)
    requires IsRun(states, sections) && m < k < |sections|
    ensures StaysSince(states, sections, m, k + 1, o, id)
       <==> StaysSince(states, sections, m, k, o, id) && !TakesOut(states[k], sections[k], o, id)
  {
  }

  /** Who is in an object, told by the run. */
  lemma {:induction false} InIff(states: seq<Server>, sections: seq<Section>, k: nat, o: Id, id: PeerId)
    requires IsRun(states, sections) && k <= |sections|
    ensures In(states[k], o, id) <==> exists m :: StaysSince(states, sections, m, k, o, id)
    decreases k
  {
    if k > 0 {
      var e := sections[k - 1];
      InIff(states, sections, k - 1, o, id);
      InAfter(states[k - 1], e, o, id);
      if PutsIn(states[k - 1], e, o, id) {
        assert StaysSince(states, sections, k - 1, k, o, id);
      } else if In(states[k], o, id) {
        var m :| StaysSince(states, sections, m, k - 1, o, id);
        StaysOneMore(states, sections, m, k - 1, o, id);
      }
      forall m: nat | StaysSince(states, sections, m, k, o, id) ensures In(states[k], o, id) {
        if m < k - 1 {
          StaysOneMore(states, sections, m, k - 1, o, id);
        }
      }
    }
  }

  /** The k-th section takes the name out of the map because the i-th has seen a room object of that name
      empty: the same leave's, or the same scan's. */
  ghost predicate ActsOn(states: seq<Server>, sections: seq<Section>, i: nat, k: nat, r: RoomId)
    requires IsRun(states, sections) && k < |sections|
  {
    && i < k
    && match sections[k]
       case Remove(l) => sections[i] == Ask(l) && LeftIn(states[i], l, r)
       case EndScan => SeesEmpty(states[i], sections[i], r) && forall n :: i < n < k ==> sections[n] != EndScan
       case _ => false
  }

  ghost predicate LeftIn(s: Server, l: Id, r: RoomId) {
    l in s.leaves && s.leaves[l].Left? && s.leaves[l].room == r
  }

  ghost predicate SeesEmpty(s: Server, e: Section, r: RoomId) {
    e.AskSwept? && s.scan.Some? && s.scan.value.swept == Some(r) && NoneIn(s, r)
  }

  ghost predicate NoneIn(s: Server, r: RoomId) {
    r in s.rooms && s.rooms[r] in s.objs && s.objs[s.rooms[r]].members == {}
  }

  /** The leave saw an object that the name no longer stands for: it was taken out since the leave's lookup. */
  ghost predicate Remade(states: seq<Server>, sections: seq<Section>, i: nat, k: nat, r: RoomId)
    requires IsRun(states, sections) && i < k < |sections|
  {
    && sections[i].Ask?
    && exists g: nat :: GotBy(sections, g, i, sections[i].l) && RemovedIn(states, sections, r, g + 1, k)
  }

  predicate GotBy(sections: seq<Section>, g: nat, i: nat, l: Id) {
    g < i < |sections| && sections[g].Get? && sections[g].l == l
  }

  /** Somebody entered after the room was seen empty, or entered the one made anew under its name. */
  ghost predicate OvertakenBy(states: seq<Server>, sections: seq<Section>, i: nat, m: nat, k: nat, r: RoomId,
                              id: PeerId)
    requires IsRun(states, sections) && k < |sections|
  {
    && ActsOn(states, sections, i, k, r) && r in states[k].rooms
    && StaysSince(states, sections, m, k, states[k].rooms[r], id)
    && (i < m || Remade(states, sections, i, k, r))
  }

  ghost predicate Overtaken(states: seq<Server>, sections: seq<Section>, k: nat)
    requires IsRun(states, sections)
  {
    k < |sections| && exists i, m, r, id :: OvertakenBy(states, sections, i, m, k, r, id)
  }

  // What a leave holds: the object it found under the name.
  ghost predicate Keeps(s: Server, l: Id, r: RoomId, o: Id) {
    && l in s.leaves
    && ((s.leaves[l].Got? && s.leaves[l].room == r && s.leaves[l].obj == o) || s.leaves[l] == Left(r, o))
  }

  lemma KeepsBefore(s: Server, e: Section, l: Id, r: RoomId, o: Id)
    requires Enabled(s, e) && Keeps(After(s, e), l, r, o)
    ensures Keeps(s, l, r, o) || (e.Get? && e.l == l && Has(s, r, o))
  {
  }

  lemma {:induction false} GotSomewhere(states: seq<Server>, sections: seq<Section>, i: nat, l: Id, r: RoomId, o: Id)
      returns (g: nat)
    requires IsRun(states, sections) && i < |sections| && Keeps(states[i], l, r, o)
    ensures GotBy(sections, g, i, l) && Has(states[g], r, o)
    decreases i
  {
    KeepsBefore(states[i - 1], sections[i - 1], l, r, o);
    if Keeps(states[i - 1], l, r, o) {
      g := GotSomewhere(states, sections, i - 1, l, r, o);
    } else {
      g := i - 1;
    }
  }

  ghost predicate SawIt(s: Server, l: Id, r: RoomId) {
    l in s.leaves && s.leaves[l] == SawEmpty(r)
  }

  ghost predicate AsksEmpty(s: Server, e: Section, l: Id, r: RoomId) {
    && e == Ask(l) && LeftIn(s, l, r)
    && s.leaves[l].obj in s.objs && s.objs[s.leaves[l].obj].members == {}
  }

  lemma SawBefore(s: Server, e: Section, l: Id, r: RoomId)
    requires Enabled(s, e) && SawIt(After(s, e), l, r)
    ensures SawIt(s, l, r) || AsksEmpty(s, e, l, r)
  {
  }

  lemma {:induction false} SawSomewhere(states: seq<Server>, sections: seq<Section>, k: nat, l: Id, r: RoomId)
      returns (i: nat)
    requires IsRun(states, sections) && k <= |sections| && SawIt(states[k], l, r)
    ensures i < k && AsksEmpty(states[i], sections[i], l, r)
    decreases k
  {
    SawBefore(states[k - 1], sections[k - 1], l, r);
    if SawIt(states[k - 1], l, r) {
      i := SawSomewhere(states, sections, k - 1, l, r);
    } else {
      i := k - 1;
    }
  }

  ghost predicate Listed(s: Server, r: RoomId) {
    s.scan.Some? && r in s.scan.value.empty
  }

  lemma ListedBefore(s: Server, e: Section, r: RoomId)
    requires Enabled(s, e) && Listed(After(s, e), r)
    ensures e != EndScan && (Listed(s, r) || SeesEmpty(s, e, r))
  {
  }

  lemma {:induction false} ListedSomewhere(states: seq<Server>, sections: seq<Section>, k: nat, r: RoomId)
      returns (i: nat)
    requires IsRun(states, sections) && k <= |sections| && Listed(states[k], r)
    ensures i < k && SeesEmpty(states[i], sections[i], r) && forall n :: i < n < k ==> sections[n] != EndScan
    decreases k
  {
    ListedBefore(states[k - 1], sections[k - 1], r);
    if Listed(states[k - 1], r) {
      i := ListedSomewhere(states, sections, k - 1, r);
    } else {
      i := k - 1;
    }
  }

  lemma ScanStays(s: Server, e: Section, r: RoomId)
    requires Enabled(s, e) && s.scan.Some? && e != EndScan
    ensures After(s, e).scan.Some? && Removes(s, e) == {} && (Listed(s, r) ==> Listed(After(s, e), r))
  {
  }

  /** While a scan lasts, no name is taken out of the map, and what it has listed stays listed. */
  lemma {:induction false} ScanLasts(states: seq<Server>, sections: seq<Section>, i: nat, k: nat, r: RoomId)
    requires IsRun(states, sections) && i < k <= |sections| && SeesEmpty(states[i], sections[i], r)
    requires forall n :: i < n < k ==> sections[n] != EndScan
    ensures Listed(states[k], r) && !RemovedIn(states, sections, r, i, k)
    decreases k
  {
    if i < k - 1 {
      ScanLasts(states, sections, i, k - 1, r);
      ScanStays(states[k - 1], sections[k - 1], r);
      assert RemovedIn(states, sections, r, i, k)
        <==> RemovedIn(states, sections, r, i, k - 1) || RemovedAt(states, sections, r, k - 1);
    } else {
      assert RemovedIn(states, sections, r, i, k) <==> RemovedAt(states, sections, r, i);
    }
  }

  lemma {:induction false} AskedStays(states: seq<Server>, sections: seq<Section>, i: nat, k: nat, l: Id, r: RoomId)
    requires IsRun(states, sections) && i < k <= |sections| && sections[i] == Ask(l) && LeftIn(states[i], l, r)
    ensures SawIt(states[k], l, r) || (l in states[k].leaves && states[k].leaves[l] == Done)
    decreases k
  {
    if i < k - 1 {
      AskedStays(states, sections, i, k - 1, l, r);
    }
  }

  lemma ActsOnRemoves(states: seq<Server>, sections: seq<Section>, i: nat, k: nat, r: RoomId)
    requires IsRun(states, sections) && k < |sections| && ActsOn(states, sections, i, k, r)
    ensures r in Removes(states[k], sections[k])
  {
    if sections[k].Remove? {
      AskedStays(states, sections, i, k, sections[k].l, r);
    } else {
      ScanLasts(states, sections, i, k, r);
    }
  }

  /** Whoever was in before the room was seen empty, and is in it when it is removed, is in another object. */
  lemma InAnother(states: seq<Server>, sections: seq<Section>, i: nat, m: nat, k: nat, o: Id, id: PeerId)
    requires IsRun(states, sections) && m < i < k <= |sections| && StaysSince(states, sections, m, k, o, id)
    ensures In(states[i], o, id)
  {
    assert StaysSince(states, sections, m, i, o, id);
    InIff(states, sections, i, o, id);
  }

  lemma LeaveOvertaken(states: seq<Server>, sections: seq<Section>, k: nat, r: RoomId, m: nat, id: PeerId)
    requires IsRun(states, sections) && k < |sections| && sections[k].Remove? && r in Removes(states[k], sections[k])
    requires r in states[k].rooms && StaysSince(states, sections, m, k, states[k].rooms[r], id)
    ensures exists i :: OvertakenBy(states, sections, i, m, k, r, id)
  {
    var l, o := sections[k].l, states[k].rooms[r];
    var i := SawSomewhere(states, sections, k, l, r);
    var asked := states[i].leaves[l].obj;
    if m < i {
      InAnother(states, sections, i, m, k, o, id);
      assert asked != o;
      var g := GotSomewhere(states, sections, i, l, r, asked);
      HasIff(states, sections, g, k, r, asked);
      assert !RemovedAt(states, sections, r, g);
      assert Remade(states, sections, i, k, r);
    }
    assert OvertakenBy(states, sections, i, m, k, r, id);
  }

  lemma ScanOvertaken(states: seq<Server>, sections: seq<Section>, k: nat, r: RoomId, m: nat, id: PeerId)
    requires IsRun(states, sections) && k < |sections| && sections[k].EndScan? && r in Removes(states[k], sections[k])
    requires r in states[k].rooms && StaysSince(states, sections, m, k, states[k].rooms[r], id)
    ensures exists i :: OvertakenBy(states, sections, i, m, k, r, id)
  {
    var o := states[k].rooms[r];
    var i := ListedSomewhere(states, sections, k, r);
    ScanLasts(states, sections, i, k, r);
    HasIff(states, sections, i, k, r, states[i].rooms[r]);
    assert states[i].rooms[r] == o && !In(states[i], o, id);
    if m < i {
      InAnother(states, sections, i, m, k, o, id);
    }
    assert OvertakenBy(states, sections, i, m, k, r, id);
  }

  /** A room with somebody in it is taken out of the map exactly if, since the leave or scan saw it empty,
      somebody has entered it, or if the name was taken out since that leave's lookup and somebody has entered
      the room made anew; and has neither left nor timed out. */
  lemma OvertakenIff(states: seq<Server>, sections: seq<Section>, k: nat)
    requires IsRun(states, sections) && k < |sections|
    ensures PeopledRemoval(states, sections, k) <==> Overtaken(states, sections, k)
  {
    if PeopledRemoval(states, sections, k) {
      var r :| r in Removes(states[k], sections[k]) && Peopled(states[k], r);
      var id :| id in states[k].objs[states[k].rooms[r]].members;
      InIff(states, sections, k, states[k].rooms[r], id);
      var m :| StaysSince(states, sections, m, k, states[k].rooms[r], id);
      if sections[k].Remove? {
        LeaveOvertaken(states, sections, k, r, m, id);
      } else {
        ScanOvertaken(states, sections, k, r, m, id);
      }
    }
    forall i, m, r, id | OvertakenBy(states, sections, i, m, k, r, id) ensures PeopledRemoval(states, sections, k) {
      ActsOnRemoves(states, sections, i, k, r);
      InIff(states, sections, k, states[k].rooms[r], id);
      assert Peopled(states[k], r);
    }
  }

  // ---------------------------------------------------------------- over whole runs

  ghost predicate NothingLoses(states: seq<Server>, sections: seq<Section>)
    requires IsRun(states, sections)
  {
    && (forall i, k :: !RacedJoin(states, sections, i, k))
    && (forall k :: !Overtaken(states, sections, k))
  }

  lemma LosesAtIff(states: seq<Server>, sections: seq<Section>, k: nat)
    requires IsRun(states, sections) && k < |sections|
    ensures Loses(states[k], sections[k])
       <==> Overtaken(states, sections, k) || exists i :: RacedJoin(states, sections, i, k)
  {
    OvertakenIff(states, sections, k);
    if sections[k].Enter? {
      var i := JoinHasFind(states, sections, k, sections[k].j);
      EntersOwnIff(states, sections, i, k);
      forall n | RacedJoin(states, sections, n, k) ensures Loses(states[k], sections[k]) {
        EntersOwnIff(states, sections, n, k);
      }
    }
  }

  lemma {:induction false} NobodyLostSoFar(states: seq<Server>, sections: seq<Section>, n: nat)
    requires IsRun(states, sections) && n <= |sections| && NothingLoses(states, sections)
    ensures NobodyLost(states[n])
    decreases n
  {
    if n > 0 {
      NobodyLostSoFar(states, sections, n - 1);
      RunKeepsInv(states, sections, n - 1);
      LosesAtIff(states, sections, n - 1);
      LosesIff(states[n - 1], sections[n - 1]);
    }
  }

  /** Over all interleavings: every peer in a room is, at every point, in one the manager has, exactly if no
      join loses its room between lookup and entry and no removal is overtaken by an entry. */
  lemma NobodyLostIff(states: seq<Server>, sections: seq<Section>)
    requires IsRun(states, sections)
    ensures (forall n :: 0 <= n <= |sections| ==> NobodyLost(states[n])) <==> NothingLoses(states, sections)
  {
    if NothingLoses(states, sections) {
      forall n | 0 <= n <= |sections| ensures NobodyLost(states[n]) {
        NobodyLostSoFar(states, sections, n);
      }
    }
    if forall n :: 0 <= n <= |sections| ==> NobodyLost(states[n]) {
      forall k: nat | k < |sections| ensures !Loses(states[k], sections[k]) {
        RunKeepsInv(states, sections, k);
        assert NobodyLost(states[k]) && NobodyLost(states[k + 1]);
        LosesIff(states[k], sections[k]);
      }
      forall i: nat, k: nat ensures !RacedJoin(states, sections, i, k) {
        if k < |sections| { LosesAtIff(states, sections, k); }
      }
      forall k: nat ensures !Overtaken(states, sections, k) {
        if k < |sections| { LosesAtIff(states, sections, k); }
      }
    }
  }

  // ---------------------------------------------------------------- a room removed with somebody in it

  lemma More(states: seq<Server>, sections: seq<Section>, s: Server, e: Section)
      returns (states': seq<Server>, sections': seq<Section>)
    requires IsRun(states, sections) && states[|sections|] == s && Enabled(s, e)
    ensures IsRun(states', sections') && sections' == sections + [e] && states'[|sections'|] == After(s, e)
  {
    states', sections' := states + [After(s, e)], sections + [e];
  }

  lemma Alone(r: RoomId, a: PeerId) returns (states: seq<Server>, sections: seq<Section>)
    ensures IsRun(states, sections) && sections == [Find(0, r, a, 0), Enter(0)]
    ensures states[|sections|] == Server(map[r := 0], map[0 := Obj(r, {a})], map[0 := Entered], map[], None)
  {
    var s0 := Server(map[], map[], map[], map[], None);
    var s1 := Server(map[r := 0], map[0 := Obj(r, {})], map[0 := Found(r, a, 0)], map[], None);
    assert {} + {a} == {a};
    assert After(s0, Find(0, r, a, 0)) == s1;
    var states1, sections1 := More([s0], [], s0, Find(0, r, a, 0));
    states, sections := More(states1, sections1, s1, Enter(0));
  }

  /** a is in the room alone and leaves it, which its handler sees. */
  lemma LastLeaves(r: RoomId, a: PeerId) returns (states: seq<Server>, sections: seq<Section>)
    ensures IsRun(states, sections)
    ensures sections == [Find(0, r, a, 0), Enter(0), Get(0, r, a), Quit(0), Ask(0)]
    ensures states[|sections|]
         == Server(map[r := 0], map[0 := Obj(r, {})], map[0 := Entered], map[0 := SawEmpty(r)], None)
  {
    var s2 := Server(map[r := 0], map[0 := Obj(r, {a})], map[0 := Entered], map[], None);
    var s3 := s2.(leaves := map[0 := Got(r, a, 0)]);
    var s4 := Server(map[r := 0], map[0 := Obj(r, {})], map[0 := Entered], map[0 := Left(r, 0)], None);
    assert {a} - {a} == {};
    assert After(s2, Get(0, r, a)) == s3 && After(s3, Quit(0)) == s4;
    var states2, sections2 := Alone(r, a);
    var states3, sections3 := More(states2, sections2, s2, Get(0, r, a));
    var states4, sections4 := More(states3, sections3, s3, Quit(0));
    states, sections := More(states4, sections4, s4, Ask(0));
  }

  /** The second way does happen: b finds the room and enters it with nothing in between, the handler that
      saw it empty just before then removes it, and b is in a room nobody can find. */
  lemma LateRemoval(r: RoomId, a: PeerId, b: PeerId) returns (states: seq<Server>, sections: seq<Section>)
    ensures IsRun(states, sections)
    ensures sections == [Find(0, r, a, 0), Enter(0), Get(0, r, a), Quit(0), Ask(0)]
                        + [Find(1, r, b, 1), Enter(1), Remove(0)]
    ensures r !in states[|sections|].rooms && Lost(states[|sections|], 0, b)
  {
    var states5, sections5 := LastLeaves(r, a);
    var s5 := states5[|sections5|];
    var s6 := s5.(joins := map[0 := Entered, 1 := Found(r, b, 0)]);
    var s7 := s5.(objs := map[0 := Obj(r, {b})], joins := map[0 := Entered, 1 := Entered]);
    assert {} + {b} == {b};
    assert After(s5, Find(1, r, b, 1)) == s6 && After(s6, Enter(1)) == s7;
    var states6, sections6 := More(states5, sections5, s5, Find(1, r, b, 1));
    var states7, sections7 := More(states6, sections6, s6, Enter(1));
    states, sections := More(states7, sections7, s7, Remove(0));
  }

  /** Two leaves of a find the room it is in alone, and one leaves. */
  lemma LeavesTwice(r: RoomId, a: PeerId) returns (states: seq<Server>, sections: seq<Section>)
    ensures IsRun(states, sections)
    ensures sections == [Find(0, r, a, 0), Enter(0), Get(0, r, a), Get(1, r, a), Quit(0)]
    ensures states[|sections|] == Server(map[r := 0], map[0 := Obj(r, {})], map[0 := Entered],
                                         map[0 := Left(r, 0), 1 := Got(r, a, 0)], None)
  {
    var s2 := Server(map[r := 0], map[0 := Obj(r, {a})], map[0 := Entered], map[], None);
    var s3 := s2.(leaves := map[0 := Got(r, a, 0)]);
    var s4 := s2.(leaves := map[0 := Got(r, a, 0), 1 := Got(r, a, 0)]);
    assert {a} - {a} == {};
    assert After(s2, Get(0, r, a)) == s3 && After(s3, Get(1, r, a)) == s4;
    var states2, sections2 := Alone(r, a);
    var states3, sections3 := More(states2, sections2, s2, Get(0, r, a));
    var states4, sections4 := More(states3, sections3, s3, Get(1, r, a));
    states, sections := More(states4, sections4, s4, Quit(0));
  }

  /** It takes the room out of the map. */
  lemma FirstRemoves(r: RoomId, a: PeerId) returns (states: seq<Server>, sections: seq<Section>)
    ensures IsRun(states, sections)
    ensures sections == [Find(0, r, a, 0), Enter(0), Get(0, r, a), Get(1, r, a), Quit(0), Ask(0), Remove(0)]
    ensures states[|sections|]
         == Server(map[], map[0 := Obj(r, {})], map[0 := Entered], map[0 := Done, 1 := Got(r, a, 0)], None)
  {
    var states5, sections5 := LeavesTwice(r, a);
    var s5 := states5[|sections5|];
    var s6 := s5.(leaves := map[0 := SawEmpty(r), 1 := Got(r, a, 0)]);
    assert After(s5, Ask(0)) == s6;
    var states6, sections6 := More(states5, sections5, s5, Ask(0));
    states, sections := More(states6, sections6, s6, Remove(0));
  }

  /** And b has it made anew, and enters it. */
  lemma MadeAnew(r: RoomId, a: PeerId, b: PeerId) returns (states: seq<Server>, sections: seq<Section>)
    ensures IsRun(states, sections)
    ensures sections == [Find(0, r, a, 0), Enter(0), Get(0, r, a), Get(1, r, a), Quit(0), Ask(0), Remove(0)]
                        + [Find(1, r, b, 1), Enter(1)]
    ensures states[|sections|]
         == Server(map[r := 1], map[0 := Obj(r, {}), 1 := Obj(r, {b})], map[0 := Entered, 1 := Entered],
                   map[0 := Done, 1 := Got(r, a, 0)], None)
  {
    var states7, sections7 := FirstRemoves(r, a);
    var s7 := states7[|sections7|];
    var s8 := s7.(rooms := map[r := 1], objs := map[0 := Obj(r, {}), 1 := Obj(r, {})],
                  joins := map[0 := Entered, 1 := Found(r, b, 1)]);
    assert {} + {b} == {b};
    assert After(s7, Find(1, r, b, 1)) == s8;
    var states8, sections8 := More(states7, sections7, s7, Find(1, r, b, 1));
    states, sections := More(states8, sections8, s8, Enter(1));
  }

  /** The entry need not even come after the room was seen empty: b has the room made anew and is in it, and
      only then the second leave sees the old object empty and takes the new one out of the map. */
  lemma AnotherRemoved(r: RoomId, a: PeerId, b: PeerId) returns (states: seq<Server>, sections: seq<Section>)
    ensures IsRun(states, sections)
    ensures sections == [Find(0, r, a, 0), Enter(0), Get(0, r, a), Get(1, r, a), Quit(0), Ask(0), Remove(0)]
                        + [Find(1, r, b, 1), Enter(1)] + [Quit(1), Ask(1), Remove(1)]
    ensures r !in states[|sections|].rooms && Lost(states[|sections|], 1, b)
  {
    var states9, sections9 := MadeAnew(r, a, b);
    var s9 := states9[|sections9|];
    var s10 := s9.(leaves := map[0 := Done, 1 := Left(r, 0)]);
    var s11 := s9.(leaves := map[0 := Done, 1 := SawEmpty(r)]);
    assert {} - {a} == {};
    assert After(s9, Quit(1)) == s10 && After(s10, Ask(1)) == s11;
    var states10, sections10 := More(states9, sections9, s9, Quit(1));
    var states11, sections11 := More(states10, sections10, s10, Ask(1));
    states, sections := More(states11, sections11, s11, Remove(1));
  }
}
