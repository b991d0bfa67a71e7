/** Writing secrets when the check of the claim and the insert are not one step: under READ COMMITTED the statement
    of putSecrets looks the claim up in its snapshot and inserts later
    (transcode-gateway/src/repo/paidOperations.ts). */
module GatewaySecrets {
  import opened Text
  import opened Gateway
  import opened GatewayRuns

  /** A write whose claim was found and that has not landed yet. */
  datatype Put = Put(id: string, secret: string)

  datatype World = World(db: Db, puts: map<nat, Put>)

  datatype Action =
    | Plain(event: Event)
    | Check(put: nat, id: string, claim: Claim, secret: string, clock: int)
    | Land(put: nat)
    | Abandon(put: nat)

  ghost predicate Acts(w: World, a: Action, w': World)
  {
    match a
    case Plain(e) => !(e.Did? && e.call.PutSecrets?) && Next(w.db, e, w'.db) && w'.puts == w.puts
    case Check(h, id, c, secret, clock) =>
      h !in w.puts && Live(w.db, id, c, clock) && w' == w.(puts := w.puts[h := Put(id, secret)])
    case Land(h) =>
      && h in w.puts
      && w' == World(w.db.(secrets := w.db.secrets[w.puts[h].id := w.puts[h].secret]), w.puts - {h})
    case Abandon(h) => h in w.puts && w' == w.(puts := w.puts - {h})
  }

  ghost predicate Continues(w: World, actions: seq<Action>, worlds: seq<World>)
  {
    && |worlds| == |actions| + 1 && worlds[0] == w
    && forall i :: 0 <= i < |actions| ==> Acts(worlds[i], actions[i], worlds[i + 1])
  }

  ghost predicate InFlight(w: World, id: string) { exists h :: h in w.puts && w.puts[h].id == id }

  /** A terminal operation, as the terminal write leaves it. */
  ghost predicate Terminal(db: Db, id: string)
  {
    id in db.rows && db.rows[id].terminalAt.Some? && db.rows[id].owner.None?
  }

  lemma ClaimedLeavesTerminal(db: Db, call: Call, clock: int, id: string)
    requires Terminal(db, id) && CarriesClaim(call) && ApplyClaimed(db, call, clock).Some?
    ensures var db' := ApplyClaimed(db, call, clock).value;
            Terminal(db', id) && (id in db'.secrets ==> id in db.secrets)
  {
    ClaimedTouchesOne(db, call, clock);
    assert call.id != id;
    ClaimedSecrets(db, call, clock);
  }

  lemma UnclaimedLeavesTerminal(db: Db, call: Call, id: string)
    requires Terminal(db, id) && !CarriesClaim(call) && ApplyUnclaimed(db, call).Some?
    ensures var db' := ApplyUnclaimed(db, call).value;
            Terminal(db', id) && (id in db'.secrets ==> id in db.secrets)
  {
    match call
    case Insert(_, _) =>
    case InsertWithSecrets(_, _, _, _, _) =>
    case ClaimRecoverable(_, _, _, _, _, ids) => assert id !in ids;
    case ClaimSession(_, _, _, _, k) => assert k != id;
    case Winddown(_, _, k) => assert k != id;
  }

  lemma PlainLeavesTerminal(db: Db, e: Event, db': Db, id: string)
    requires Terminal(db, id) && Next(db, e, db')
    ensures Terminal(db', id) && (id in db'.secrets ==> id in db.secrets)
  {
    if e.Did? {
      if CarriesClaim(e.call) {
        ClaimedLeavesTerminal(db, e.call, e.clock, id);
      } else {
        UnclaimedLeavesTerminal(db, e.call, id);
      }
    }
  }

  ghost predicate Erased(w: World, id: string) { Terminal(w.db, id) && id !in w.db.secrets && !InFlight(w, id) }

  lemma ActsKeepErased(w: World, a: Action, w': World, id: string)
    requires Erased(w, id) && Acts(w, a, w')
    ensures Erased(w', id)
  {
    match a
    case Plain(e) => PlainLeavesTerminal(w.db, e, w'.db, id);
    case Check(h, _, _, _, _) =>
    case Land(h) =>
    case Abandon(h) =>
  }

  lemma {:induction false} StaysErased(w: World, actions: seq<Action>, worlds: seq<World>, id: string, k: nat)
    requires Continues(w, actions, worlds) && Erased(w, id) && k < |worlds|
    ensures Erased(worlds[k], id)
  {
    if k > 0 {
      StaysErased(w, actions, worlds, id, k - 1);
      ActsKeepErased(worlds[k - 1], actions[k - 1], worlds[k], id);
    }
  }

  /** No continuation ever has secrets of this operation again. */
  ghost predicate NeverReturns(w: World, id: string)
  {
    forall actions: seq<Action>, worlds: seq<World> :: Continues(w, actions, worlds) ==>
        id !in worlds[|actions|].db.secrets
  }

  /** Erasure by a terminal write is final if and only if no checked write of secrets is still in flight then. */
  lemma ErasureIsFinalIff(w: World, id: string)
    requires Terminal(w.db, id) && id !in w.db.secrets
    ensures NeverReturns(w, id) <==> !InFlight(w, id)
  {
    if InFlight(w, id) {
      var h :| h in w.puts && w.puts[h].id == id;
      var w' := World(w.db.(secrets := w.db.secrets[id := w.puts[h].secret]), w.puts - {h});
      assert Continues(w, [Land(h)], [w, w']);
      assert id in [w, w'][1].db.secrets;
    } else {
      forall actions: seq<Action>, worlds: seq<World> | Continues(w, actions, worlds)
        ensures id !in worlds[|actions|].db.secrets
      {
        StaysErased(w, actions, worlds, id, |actions|);
      }
    }
  }

  /** The terminal write itself always erases what has landed. */
  lemma TerminalErases(w: World, id: string, c: Claim, v: Settlement, clock: int, w': World)
    requires Acts(w, Plain(Did(RecordTerminal(id, c, v), clock)), w')
    ensures Terminal(w'.db, id) && id !in w'.db.secrets
  {
  }

  function Started(value: NewOperation, secret: string, owner: string, lease: int): Db
  {
    Db(map["op" := Inserted(value).(version := 1, owner := Some(owner), lease := Some(lease))],
       map["op" := secret], map[], map[], map[], map[], map[])
  }

  /** A write in flight across a terminal write happens: secrets end up on a terminal operation. */
  lemma SecretsReturn(value: NewOperation, secret: string, owner: string, lease: int, v: Settlement)
    returns (actions: seq<Action>, worlds: seq<World>)
    requires ValidOwner(owner)
    ensures Continues(World(Started(value, secret, owner, lease), map[]), actions, worlds)
    ensures Terminal(worlds[|actions|].db, "op") && "op" in worlds[|actions|].db.secrets
  {
    var id, c, clock := "op", Claim(owner, 1, lease), lease - 1;
    var w0 := World(Started(value, secret, owner, lease), map[]);
    var w1 := w0.(puts := map[0 := Put(id, secret)]);
    var db2 := ApplyClaimed(w1.db, RecordTerminal(id, c, v), clock).value;
    var w2 := w1.(db := db2);
    var w3 := World(db2.(secrets := db2.secrets[id := secret]), w2.puts - {0});
    assert Live(w0.db, id, c, clock);
    assert w0.puts[0 := Put(id, secret)] == w1.puts;
    assert Acts(w0, Check(0, id, c, secret, clock), w1);
    assert Acts(w1, Plain(Did(RecordTerminal(id, c, v), clock)), w2);
    assert Acts(w2, Land(0), w3);
    actions := [Check(0, id, c, secret, clock), Plain(Did(RecordTerminal(id, c, v), clock)), Land(0)];
    worlds := [w0, w1, w2, w3];
  }
}
