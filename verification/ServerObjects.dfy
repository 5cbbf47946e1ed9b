/** The session objects with their counters, and the bounded store that shares them. */
module ServerObjects {
  import opened ByteStrings
  import opened Kdf
  import opened Recency
  import opened ServerModel

  class SessionObject {
    const sessionId: Bytes
    var username: Bytes
    var clientPub: Bytes
    var serverPub: Bytes
    var serverRandom: Bytes
    var prk: Bytes
    var keys: Option<Keys>
    var transcript: Bytes
    var salt: Bytes
    var clientCounter: nat
    var serverCounter: nat
    var challenge2: Bytes
    var vmDigest: Bytes
    var proof1Ok: bool

    constructor (id: Bytes)
      ensures View() == Fresh(id)
    {
      sessionId := id;
      username, clientPub, serverPub, serverRandom, prk, keys := [], [], [], [], [], None;
      transcript, salt, clientCounter, serverCounter := [], [], 0, 0;
      challenge2, vmDigest, proof1Ok := [], [], false;
    }

    function View(): Session
      reads this
    {
      Session(sessionId, username, clientPub, serverPub, serverRandom, prk, keys, transcript, salt, clientCounter,
              serverCounter,
              challenge2, vmDigest, proof1Ok)
    }

    method NextServerCounter() returns (n: nat)
      modifies this`serverCounter
      ensures n == serverCounter == old(serverCounter) + 1
    {
      serverCounter := serverCounter + 1;
      n := serverCounter;
    }

    /** A counter that does not grow is refused and leaves the old one. */
    method AcceptClientCounter(counter: nat) returns (ok: bool)
      modifies this`clientCounter
      ensures ok == (counter > old(clientCounter))
      ensures clientCounter == if ok then counter else old(clientCounter)
    {
      ok := counter > clientCounter;
      if ok { clientCounter := counter; }
    }
  }

  // ---- the store --------------------------------------------------------------------------------------------

  class SessionStore {
    var order: seq<Bytes>
    var table: map<Bytes, SessionObject>

    /** Every id has its own object. */
    ghost predicate Valid()
      reads this
    {
      && Bounded(order) && table.Keys == ToSet(order)
      && (forall id :: id in table ==> table[id].sessionId == id)
      && (forall a, b :: a in table && b in table && table[a] == table[b] ==> a == b)
    }

    ghost function View(): Store
      reads this, table.Values
    { Sessions(order, map id | id in table :: table[id].View()) }

    constructor ()
      ensures Valid() && View() == EMPTY
    {
      order, table := [], map[];
    }

    lemma ViewValid()
      requires Valid()
      ensures ValidStore(View())
    {
      hide Bounded;
    }

    /** A new object takes the id's place, and the oldest sessions go while there are too many. */
    method Create(id: Bytes) returns (s: SessionObject)
      requires Valid()
      modifies this
      ensures Valid() && fresh(s) && id in table && table[id] == s && s.View() == Fresh(id)
      ensures order == Touched(old(order), id)
      ensures forall x :: x in table && x != id ==> x in old(table) && table[x] == old(table)[x]
    {
      hide Bounded, Touched, Without, ToSet;
      s := new SessionObject(id);
      MovedIs(order, id);
      TouchedBounded(order, id);
      TouchedIs(order, id);
      table := table[id := s];
      order := MovedToEnd(order, id);
      Evict();
      KeysOf(order, id);
    }

    /** `popitem(last=False)` while the store is over its bound. */
    method Evict()
      requires Distinct(order) && table.Keys == ToSet(order)
      modifies this
      ensures order == LastOf(old(order), MAX_SESSIONS) && table.Keys == ToSet(order)
      ensures forall x :: x in table ==> x in old(table) && table[x] == old(table)[x]
    {
      hide Distinct, ToSet;
      while |order| > MAX_SESSIONS
        invariant |order| <= |old(order)| && order == old(order)[|old(order)| - |order|..]
        invariant |order| >= MAX_SESSIONS || order == old(order)
        invariant Distinct(order) && table.Keys == ToSet(order)
        invariant forall x :: x in table ==> x in old(table) && table[x] == old(table)[x]
      {
        OldestGoes(order);
        table := table - {order[0]};
        order := order[1..];
      }
    }

    /** An unknown id raises; a known one moves to the end. */
    method Get(id: Bytes) returns (s: Option<SessionObject>)
      requires Valid()
      modifies this`order
      ensures Valid()
      ensures id in table ==> s == Some(table[id]) && order == Touched(old(order), id)
      ensures id !in table ==> s == None && order == old(order)
    {
      hide Bounded, Touched, Without, ToSet;
      if id !in table { return None; }
      s := Some(table[id]);
      KeysOf(order, id);
      MovedIs(order, id);
      TouchedBounded(order, id);
      order := MovedToEnd(order, id);
    }
  }

  lemma KeysOf(o: seq<Bytes>, id: Bytes)
    ensures id in ToSet(o) <==> id in o
  {}

  lemma MovedIs(o: seq<Bytes>, id: Bytes)
    requires Bounded(o)
    ensures Distinct(MovedToEnd(o, id)) && ToSet(MovedToEnd(o, id)) == ToSet(o) + {id}
    ensures id in o ==> ToSet(o) + {id} == ToSet(o)
  {
    WithoutIs(o, id);
    hide Without;
    var m := MovedToEnd(o, id);
    assert forall x :: x in m <==> x in Without(o, id) || x == id;
  }

  lemma TouchedIs(o: seq<Bytes>, id: Bytes)
    ensures Touched(o, id) == LastOf(MovedToEnd(o, id), MAX_SESSIONS)
  {}

  lemma OldestGoes(o: seq<Bytes>)
    requires Distinct(o) && o != []
    ensures Distinct(o[1..]) && ToSet(o[1..]) == ToSet(o) - {o[0]}
  {
    assert forall x :: x in o[1..] <==> x in o && x != o[0];
  }
}
