/**
 * The backend's matchmaking (`ConnectionManager`): live connections with their language, a
 * pool of available employees, a FIFO queue of waiting customers, the partner map, and the
 * cascade of clean-ups when a user leaves or a send fails. A send to a user succeeds unless
 * the user is in the set `dead`; every successful send is recorded in `outbox`.
 */
module ConnectionManager {
  import opened Wrappers
  import opened Json
  import opened Text
  import opened Seqs

  /** An entry of `active_connections`: the user's socket and language. */
  datatype Conn = Conn(socket: nat, lang: string)

  /** A message delivered to a user's socket. */
  datatype Delivery = Delivery(to: string, message: Json)

  /** The manager's state; `queue` holds the user ids of the queued `(id, socket, lang)` tuples. */
  datatype Manager = Manager(
    connections: map<string, Conn>,
    pairs: map<string, string>,
    pool: seq<string>,
    queue: seq<string>,
    outbox: seq<Delivery>)

  function SystemMessage(text: string): Json {
    JObj(map["system" := JStr(text)])
  }

  /** `list.remove(x)`: the first occurrence of `x` removed. */
  function RemoveFirst(s: seq<string>, x: string): (r: seq<string>)
    ensures x !in s ==> r == s
    decreases |s|
  {
    if s == [] then []
    else if s[0] == x then (assert s == [x] + s[1..]; s[1..])
    else (assert s == [s[0]] + s[1..]; [s[0]] + RemoveFirst(s[1..], x))
  }

  /** The index of the first occurrence of `x`. */
  function FirstIndex(s: seq<string>, x: string): (i: nat)
    requires x in s
    ensures i < |s| && s[i] == x && x !in s[..i]
    decreases |s|
  {
    if s[0] == x then 0
    else
      var i := 1 + FirstIndex(s[1..], x);
      assert s[..i] == [s[0]] + s[1..][..i - 1];
      i
  }

  /** Removing a present `x` cuts the list at its first occurrence and keeps everything else in order. */
  lemma {:induction false} RemoveFirstCutsFirst(s: seq<string>, x: string)
    requires x in s
    ensures RemoveFirst(s, x) == s[..FirstIndex(s, x)] + s[FirstIndex(s, x) + 1..]
    decreases |s|
  {
    if s[0] != x {
      RemoveFirstCutsFirst(s[1..], x);
      var i := FirstIndex(s[1..], x);
      assert s[..i + 1] == [s[0]] + s[1..][..i];
      assert s[i + 2..] == s[1..][i + 1..];
    }
  }

  /** `[x for x in s if x != u]`: every entry of `u` removed, the others kept in order. */
  function Without(s: seq<string>, u: string): (r: seq<string>)
    ensures forall y :: y in r <==> y in s && y != u
    ensures |r| <= |s|
    decreases |s|
  {
    if s == [] then []
    else if s[0] == u then Without(s[1..], u)
    else [s[0]] + Without(s[1..], u)
  }

  lemma WithoutCons(x: string, t: seq<string>, u: string)
    ensures Without([x] + t, u) == (if x == u then [] else [x]) + Without(t, u)
  {
    var s := [x] + t;
    assert s[0] == x && s[1..] == t;
  }

  /**
   * The comprehension filters each element on its own and keeps the survivors in their
   * order: a one-element queue keeps its entry exactly when it is another user's, and the
   * filter distributes over concatenation. Together these fix the result, FIFO order and
   * repeated entries included.
   */
  lemma {:induction false} WithoutKeepsOrder(a: seq<string>, b: seq<string>, u: string)
    ensures Without(a + b, u) == Without(a, u) + Without(b, u)
    ensures |a| == 1 ==> Without(a, u) == if a[0] == u then [] else a
    decreases |a|
  {
    if a == [] {
      assert a + b == b;
    } else {
      var x, t := a[0], a[1..];
      AppendCons(a, b);
      WithoutCons(x, t + b, u);
      WithoutCons(x, t, u);
      WithoutKeepsOrder(t, b, u);
      AppendAssoc(if x == u then [] else [x], Without(t, u), Without(b, u));
      if |a| == 1 {
        assert t == [];
      }
    }
  }

  /** `"emp" in id.lower() or "agent" in id.lower()`. */
  predicate LooksLikeEmployee(id: string) {
    Contains(LowerAscii(id), "emp") || Contains(LowerAscii(id), "agent")
  }

  /** A `send_json` to user `to`, which fails for a dead socket. */
  function Deliver(m: Manager, to: string, message: Json, dead: set<string>): Manager {
    if to in dead then m else m.(outbox := m.outbox + [Delivery(to, message)])
  }

  /** `disconnect(u)`, the state after user `u` leaves: the four removals, then the partner is told and, if it looks like an employee, put back in the pool. */
  function Leave(m: Manager, u: string, dead: set<string>): Manager {
    var m1 := m.(connections := m.connections - {u}, pool := RemoveFirst(m.pool, u), queue := Without(m.queue, u));
    if u !in m1.pairs then m1
    else
      var partner := m1.pairs[u];
      var m2 := m1.(pairs := m1.pairs - {u} - {partner});
      if partner !in m2.connections then m2
      else
        var m3 := Deliver(m2, partner, SystemMessage("Partner disconnected."), dead);
        if LooksLikeEmployee(partner) && partner !in m3.pool then m3.(pool := m3.pool + [partner]) else m3
  }

  /** `match_users(c, e)`: the pair in both directions, then the customer is told, then the employee. */
  function Match(m: Manager, c: string, e: string, dead: set<string>): Manager {
    var m1 := m.(pairs := m.pairs[c := e][e := c]);
    if c in m.connections && c in dead then Leave(m1, c, dead)
    else
      var m2 := if c in m.connections then Deliver(m1, c, SystemMessage("Connected to Agent " + e), dead) else m1;
      if e !in m.connections then m2
      else if e in dead then Leave(m2, e, dead)
      else Deliver(m2, e, SystemMessage("Connected to Customer " + c), dead)
  }

  /** `connect_user`: record the connection, then match or queue. */
  function Connect(m: Manager, role: string, u: string, socket: nat, lang: string, dead: set<string>): Manager {
    var m1 := m.(connections := m.connections[u := Conn(socket, lang)]);
    if role == "employee" then
      var m2 := m1.(pool := m1.pool + [u]);
      if m2.queue == [] then m2 else Match(m2.(queue := m2.queue[1..]), m2.queue[0], u, dead)
    else if m1.pool != [] then
      Match(m1.(pool := m1.pool[1..]), u, m1.pool[0], dead)
    else
      var m2 := m1.(queue := m1.queue + [u]);
      if u in dead then Leave(m2, u, dead)
      else Deliver(m2, u, SystemMessage("All agents busy. You are in queue."), dead)
  }

  /** `get_user_lang`: the stored language, "en" for an unknown user. */
  function UserLang(m: Manager, u: string): (lang: string)
    ensures u !in m.connections ==> lang == "en"
    ensures u in m.connections ==> lang == m.connections[u].lang
  {
    if u in m.connections then m.connections[u].lang else "en"
  }

  /** `send_to_partner`: relay to the sender's partner; a failed send disconnects the receiver. */
  function RelayToPartner(m: Manager, sender: string, data: Json, dead: set<string>): Manager {
    if sender !in m.pairs then m
    else
      var receiver := m.pairs[sender];
      if receiver !in m.connections then m
      else if receiver in dead then Leave(m, receiver, dead)
      else Deliver(m, receiver, data, dead)
  }

  /**
   * After `disconnect(u)`, `u` has no connection, no pairing of its own and no queue
   * entry; one pool entry of `u` is gone and the partner, if any, is unpaired. A third user
   * whose pairing still names `u` keeps it (see `DepartedEmployeeStaysPaired`).
   */
  lemma DisconnectForgetsUser(m: Manager, u: string, dead: set<string>)
    ensures var r := Leave(m, u, dead);
      u !in r.connections && u !in r.pairs && u !in r.queue &&
      r.connections == m.connections - {u} &&
      (forall y :: y in r.queue <==> y in m.queue && y != u) &&
      (u in m.pairs ==> r.pairs == m.pairs - {u, m.pairs[u]}) &&
      (u !in m.pairs ==> r.pairs == m.pairs && r.pool == RemoveFirst(m.pool, u))
  {
    var r := Leave(m, u, dead);
    var m1 := m.(connections := m.connections - {u}, pool := RemoveFirst(m.pool, u), queue := Without(m.queue, u));
    if u in m.pairs {
      var partner := m.pairs[u];
      var m2 := m1.(pairs := m1.pairs - {u} - {partner});
      assert m2.pairs == m.pairs - {u, partner};
      assert r.connections == m2.connections && r.pairs == m2.pairs && r.queue == m2.queue;
    } else {
      assert r == m1;
    }
  }

  /**
   * After `disconnect(u)`, a still-connected ex-partner that looks like an employee is in
   * the pool, added at the end if it was absent, and it was told "Partner disconnected."
   * unless its socket is dead.
   */
  lemma DisconnectFreesEmployee(m: Manager, u: string, dead: set<string>)
    requires u in m.pairs && m.pairs[u] != u && m.pairs[u] in m.connections
    ensures var partner := m.pairs[u];
      var r := Leave(m, u, dead);
      var p := RemoveFirst(m.pool, u);
      (LooksLikeEmployee(partner) ==> partner in r.pool) &&
      (LooksLikeEmployee(partner) && partner !in p ==> r.pool == p + [partner]) &&
      (!LooksLikeEmployee(partner) ==> r.pool == p) &&
      (partner !in dead ==> r.outbox == m.outbox + [Delivery(partner, SystemMessage("Partner disconnected."))]) &&
      (partner in dead ==> r.outbox == m.outbox)
  {
  }

  /**
   * `match_users` records the pair in both directions first; a dead customer is
   * disconnected and the employee is not told; otherwise both are told, customer first.
   */
  lemma MatchNotifiesCustomerFirst(m: Manager, c: string, e: string, dead: set<string>)
    requires c != e && c in m.connections && e in m.connections
    ensures c in dead ==>
      Match(m, c, e, dead) == Leave(m.(pairs := m.pairs[c := e][e := c]), c, dead)
    ensures c in dead ==>
      forall k :: |m.outbox| <= k < |Match(m, c, e, dead).outbox| ==> Match(m, c, e, dead).outbox[k].to != c
    ensures c !in dead && e !in dead ==>
      Match(m, c, e, dead) == m.(pairs := m.pairs[c := e][e := c],
        outbox := m.outbox + [Delivery(c, SystemMessage("Connected to Agent " + e)),
                              Delivery(e, SystemMessage("Connected to Customer " + c))])
  {
    if c in dead {
      var m1 := m.(pairs := m.pairs[c := e][e := c]);
      assert m1.pairs[c] == e && e in m1.connections - {c};
    }
  }

  /**
   * A customer arriving while employees are available is matched with the first of them,
   * who leaves the pool; otherwise the customer joins the end of the queue.
   */
  lemma CustomerTakesFirstEmployee(m: Manager, u: string, socket: nat, lang: string, dead: set<string>)
    requires u !in dead
    ensures m.pool != [] ==>
      Connect(m, "customer", u, socket, lang, dead) == Match(m.(connections := m.connections[u := Conn(socket, lang)], pool := m.pool[1..]), u, m.pool[0], dead)
    ensures m.pool == [] ==> var r := Connect(m, "customer", u, socket, lang, dead);
      r.queue == m.queue + [u] && r.pool == [] && r.pairs == m.pairs &&
      r.outbox == m.outbox + [Delivery(u, SystemMessage("All agents busy. You are in queue."))]
  {
  }

  /**
   * An arriving employee joins the end of the pool and is matched with the head of the
   * queue, if any, which leaves the queue; the employee stays in the pool.
   */
  lemma EmployeeJoinsPoolAndTakesHead(m: Manager, u: string, socket: nat, lang: string, dead: set<string>)
    requires m.queue != [] && m.queue[0] != u && m.queue[0] !in dead && u !in dead
    requires m.queue[0] in m.connections
    ensures var r := Connect(m, "employee", u, socket, lang, dead);
      r.pool == m.pool + [u] && r.queue == m.queue[1..] &&
      r.pairs == m.pairs[m.queue[0] := u][u := m.queue[0]] &&
      r.connections == m.connections[u := Conn(socket, lang)]
  {
    var m1 := m.(connections := m.connections[u := Conn(socket, lang)], pool := m.pool + [u], queue := m.queue[1..]);
    MatchNotifiesCustomerFirst(m1, m.queue[0], u, dead);
  }

  /** `send_to_partner` does nothing for an unpaired sender or a partner that is gone. */
  lemma RelayNeedsLivePartner(m: Manager, sender: string, data: Json, dead: set<string>)
    ensures sender !in m.pairs ==> RelayToPartner(m, sender, data, dead) == m
    ensures sender in m.pairs && m.pairs[sender] !in m.connections ==> RelayToPartner(m, sender, data, dead) == m
    ensures sender in m.pairs && m.pairs[sender] in m.connections && m.pairs[sender] !in dead ==>
      RelayToPartner(m, sender, data, dead) == m.(outbox := m.outbox + [Delivery(m.pairs[sender], data)])
    ensures sender in m.pairs && m.pairs[sender] in m.connections && m.pairs[sender] in dead ==>
      m.pairs[sender] !in RelayToPartner(m, sender, data, dead).connections
  {
  }

  const Empty: Manager := Manager(map[], map[], [], [], [])

  /**
   * As written, an employee who takes a waiting customer stays in the pool, so the next
   * customer is paired with the same employee: C1 waits, E1 arrives and is matched with C1,
   * then C2 arrives and is matched with E1, while C1 is still paired with E1.
   */
  lemma EmployeeDoublyBooked()
    ensures var m1 := Connect(Empty, "customer", "C1", 1, "en", {});
      var m2 := Connect(m1, "employee", "E1", 2, "en", {});
      var m3 := Connect(m2, "customer", "C2", 3, "en", {});
      m3.pairs["C1"] == "E1" && m3.pairs["E1"] == "C2" && m3.pairs["C2"] == "E1"
  {
    var m1 := Connect(Empty, "customer", "C1", 1, "en", {});
    assert m1.queue == ["C1"] && m1.pool == [];
    var m2 := Connect(m1, "employee", "E1", 2, "en", {});
    assert m2.pool == ["E1"] && m2.queue == [] && m2.pairs == map["C1" := "E1", "E1" := "C1"];
    var m3 := Connect(m2, "customer", "C2", 3, "en", {});
    assert m3.pairs == map["C1" := "E1", "E1" := "C2", "C2" := "E1"];
  }

  /** `connect_user` as evidently intended: an employee who takes a waiting customer does not also join the pool. */
  function ConnectFixed(m: Manager, role: string, u: string, socket: nat, lang: string, dead: set<string>): Manager {
    var m1 := m.(connections := m.connections[u := Conn(socket, lang)]);
    if role == "employee" then
      if m1.queue == [] then m1.(pool := m1.pool + [u]) else Match(m1.(queue := m1.queue[1..]), m1.queue[0], u, dead)
    else Connect(m, role, u, socket, lang, dead)
  }

  /**
   * With the fix, an employee matched with a live waiting customer is not offered to
   * anyone else: it is not in the pool afterwards, and the pair is recorded both ways.
   */
  lemma FixedMatchedEmployeeLeavesPool(m: Manager, u: string, socket: nat, lang: string, dead: set<string>)
    requires m.queue != [] && m.queue[0] != u && m.queue[0] in m.connections && m.queue[0] !in dead && u !in dead
    requires u !in m.pool
    ensures var r := ConnectFixed(m, "employee", u, socket, lang, dead);
      u !in r.pool && r.pairs[u] == m.queue[0] && r.pairs[m.queue[0]] == u && r.queue == m.queue[1..]
  {
    var m1 := m.(connections := m.connections[u := Conn(socket, lang)], queue := m.queue[1..]);
    MatchNotifiesCustomerFirst(m1, m.queue[0], u, dead);
  }

  /** With the fix, the same arrivals leave C2 waiting for a free employee. */
  lemma FixedScenarioQueuesSecondCustomer()
    ensures var m1 := ConnectFixed(Empty, "customer", "C1", 1, "en", {});
      var m2 := ConnectFixed(m1, "employee", "E1", 2, "en", {});
      var m3 := ConnectFixed(m2, "customer", "C2", 3, "en", {});
      m3.pairs == map["C1" := "E1", "E1" := "C1"] && m3.queue == ["C2"] && m3.pool == []
  {
    var m1 := ConnectFixed(Empty, "customer", "C1", 1, "en", {});
    assert m1.queue == ["C1"] && m1.pool == [];
    var m2 := ConnectFixed(m1, "employee", "E1", 2, "en", {});
    assert m2.pool == [] && m2.queue == [] && m2.pairs == map["C1" := "E1", "E1" := "C1"];
  }

  /**
   * As written, the double booking outlives the employee: when E1 leaves, the pairing it
   * last recorded (E1 with C2) is removed, but C1 is still paired with E1, which has no
   * connection any more.
   */
  lemma DepartedEmployeeStaysPaired(c1: string, e1: string, c2: string)
    requires c1 != e1 && c1 != c2 && e1 != c2
    ensures var m1 := Connect(Empty, "customer", c1, 1, "en", {});
      var m2 := Connect(m1, "employee", e1, 2, "en", {});
      var m3 := Connect(m2, "customer", c2, 3, "en", {});
      var m4 := Leave(m3, e1, {});
      m4.pairs == map[c1 := e1] && e1 !in m4.connections && c1 in m4.connections
  {
    var m1 := Connect(Empty, "customer", c1, 1, "en", {});
    var m2 := Connect(m1, "employee", e1, 2, "en", {});
    var m3 := Connect(m2, "customer", c2, 3, "en", {});
    ScenarioFirstTwo(c1, e1);
    ScenarioThird(m2, c1, e1, c2);
    DisconnectForgetsUser(m3, e1, {});
    assert m3.pairs - {e1, c2} == map[c1 := e1];
  }

  /** C1 waits, then E1 arrives: E1 is pooled and paired with C1. */
  lemma ScenarioFirstTwo(c1: string, e1: string)
    requires c1 != e1
    ensures var m2 := Connect(Connect(Empty, "customer", c1, 1, "en", {}), "employee", e1, 2, "en", {});
      m2.pool == [e1] && m2.pairs == map[c1 := e1, e1 := c1] && c1 in m2.connections && e1 in m2.connections
  {
    var m1 := Connect(Empty, "customer", c1, 1, "en", {});
    assert m1.queue == [c1] && m1.pool == [] && m1.pairs == map[] && c1 in m1.connections;
  }

  /** A customer arriving while E1 is pooled and paired is paired with E1 too. */
  lemma ScenarioThird(m2: Manager, c1: string, e1: string, c2: string)
    requires c1 != e1 && c1 != c2 && e1 != c2
    requires m2.pool == [e1] && m2.pairs == map[c1 := e1, e1 := c1] && c1 in m2.connections && e1 in m2.connections
    ensures var m3 := Connect(m2, "customer", c2, 3, "en", {});
      m3.pairs == map[c1 := e1, e1 := c2, c2 := e1] && c1 in m3.connections
  {
  }



  /** No id occurs twice. */
  predicate NoDup(s: seq<string>) {
    forall i, j :: 0 <= i < j < |s| ==> s[i] != s[j]
  }

  /**
   * What the fixed matchmaking keeps: pairings are mutual, and nobody who is offered to a
   * new partner (a pool or queue entry) is paired; the pool and the queue hold each id once
   * and never the same id.
   */
  predicate Mutual(m: Manager) {
    (forall x :: x in m.pairs ==> m.pairs[x] in m.pairs && m.pairs[m.pairs[x]] == x) &&
    (forall x :: x in m.pool ==> x !in m.pairs && x !in m.queue) &&
    (forall x :: x in m.queue ==> x !in m.pairs) &&
    NoDup(m.pool) && NoDup(m.queue)
  }

  /** A user id that the manager has never offered or paired. */
  predicate Unseen(m: Manager, u: string) {
    u !in m.pairs && u !in m.pool && u !in m.queue
  }

  lemma NoDupTail(s: seq<string>)
    requires NoDup(s) && s != []
    ensures NoDup(s[1..]) && s[0] !in s[1..]
  {
    forall k | 0 <= k < |s[1..]|
      ensures s[1..][k] != s[0]
    {
      assert s[1..][k] == s[k + 1];
    }
  }

  lemma NoDupCons(x: string, t: seq<string>)
    requires NoDup(t) && x !in t
    ensures NoDup([x] + t)
  {
    var s := [x] + t;
    forall i, j | 0 <= i < j < |s|
      ensures s[i] != s[j]
    {
      assert s[j] == t[j - 1];
      if i > 0 {
        assert s[i] == t[i - 1];
      }
    }
  }

  lemma NoDupSnoc(t: seq<string>, x: string)
    requires NoDup(t) && x !in t
    ensures NoDup(t + [x])
  {
    var s := t + [x];
    forall i, j | 0 <= i < j < |s|
      ensures s[i] != s[j]
    {
      assert s[i] == t[i];
      if j < |t| {
        assert s[j] == t[j];
      }
    }
  }

  /** `list.remove` on a list without repeats keeps the others and leaves no `x` behind. */
  lemma {:induction false} RemoveFirstNoDup(s: seq<string>, x: string)
    requires NoDup(s)
    ensures NoDup(RemoveFirst(s, x)) && x !in RemoveFirst(s, x)
    ensures forall y :: y in RemoveFirst(s, x) ==> y in s
    decreases |s|
  {
    if s != [] {
      NoDupTail(s);
      if s[0] != x {
        RemoveFirstNoDup(s[1..], x);
        NoDupCons(s[0], RemoveFirst(s[1..], x));
      }
    }
  }

  lemma {:induction false} WithoutNoDup(s: seq<string>, u: string)
    requires NoDup(s)
    ensures NoDup(Without(s, u))
    decreases |s|
  {
    if s != [] {
      NoDupTail(s);
      WithoutNoDup(s[1..], u);
      if s[0] != u {
        NoDupCons(s[0], Without(s[1..], u));
      }
    }
  }

  /** The four removals of `disconnect(u)` keep the invariant and drop `u` from the pool. */
  lemma RemovalsKeepMutual(m: Manager, u: string)
    requires Mutual(m)
    ensures var m1 := m.(connections := m.connections - {u}, pool := RemoveFirst(m.pool, u), queue := Without(m.queue, u));
      Mutual(m1) && u !in m1.pool && u !in m1.queue
  {
    RemoveFirstNoDup(m.pool, u);
    WithoutNoDup(m.queue, u);
  }

  /** Dropping a mutual pair `u`, `p` keeps every other pairing mutual and leaves no one paired with `u` or `p`. */
  lemma UnpairKeepsMutual(pairs: map<string, string>, u: string)
    requires u in pairs
    requires forall x :: x in pairs ==> pairs[x] in pairs && pairs[pairs[x]] == x
    ensures var rest := pairs - {u} - {pairs[u]};
      (forall x :: x in rest ==> rest[x] in rest && rest[rest[x]] == x) &&
      (forall x :: x in rest ==> rest[x] != u && rest[x] != pairs[u])
  {
  }

  /**
   * With mutual pairings, `disconnect(u)` keeps the invariant and leaves nobody paired with
   * `u`: the stale pairing of `DepartedEmployeeStaysPaired` cannot arise.
   */
  lemma FixedDepartureUnpairsEveryone(m: Manager, u: string, dead: set<string>)
    requires Mutual(m)
    ensures Mutual(Leave(m, u, dead))
    ensures forall x :: x in Leave(m, u, dead).pairs ==> Leave(m, u, dead).pairs[x] != u
    ensures u !in Leave(m, u, dead).pairs
  {
    var m1 := m.(connections := m.connections - {u}, pool := RemoveFirst(m.pool, u), queue := Without(m.queue, u));
    RemovalsKeepMutual(m, u);
    if u in m1.pairs {
      var partner := m1.pairs[u];
      var m2 := m1.(pairs := m1.pairs - {u} - {partner});
      UnpairKeepsMutual(m1.pairs, u);
      assert Mutual(m2);
      if partner in m2.connections {
        var m3 := Deliver(m2, partner, SystemMessage("Partner disconnected."), dead);
        assert Mutual(m3);
        if LooksLikeEmployee(partner) && partner !in m3.pool {
          assert partner !in m3.queue by {
            assert partner in m.pairs;
          }
          NoDupSnoc(m3.pool, partner);
          assert Leave(m, u, dead) == m3.(pool := m3.pool + [partner]);
        }
      }
    } else {
      assert forall x :: x in m.pairs ==> m.pairs[x] != u;
    }
  }

  /** Recording a pair of two unpaired ids that nobody is offered keeps the invariant. */
  lemma PairKeepsMutual(m: Manager, c: string, e: string)
    requires Mutual(m) && c != e && c !in m.pairs && e !in m.pairs
    requires c !in m.pool && e !in m.pool && c !in m.queue && e !in m.queue
    ensures Mutual(m.(pairs := m.pairs[c := e][e := c]))
  {
  }

  /** `match_users` on two such ids keeps the invariant, whichever sends fail. */
  lemma MatchKeepsMutual(m: Manager, c: string, e: string, dead: set<string>)
    requires Mutual(m) && c != e && c !in m.pairs && e !in m.pairs
    requires c !in m.pool && e !in m.pool && c !in m.queue && e !in m.queue
    ensures Mutual(Match(m, c, e, dead))
  {
    var m1 := m.(pairs := m.pairs[c := e][e := c]);
    PairKeepsMutual(m, c, e);
    if c in m.connections && c in dead {
      FixedDepartureUnpairsEveryone(m1, c, dead);
    } else {
      var m2 := if c in m.connections then Deliver(m1, c, SystemMessage("Connected to Agent " + e), dead) else m1;
      assert Mutual(m2);
      if e in m.connections && e in dead {
        FixedDepartureUnpairsEveryone(m2, e, dead);
      }
    }
  }

  /** The manager starts with mutual pairings: nothing is paired, pooled or queued. */
  lemma EmptyIsMutual()
    ensures Mutual(Empty)
  {
  }

  /**
   * With the fix, every arrival of a new id keeps pairings mutual and the pool and queue
   * free of paired users.
   */
  lemma FixedConnectKeepsMutual(m: Manager, role: string, u: string, socket: nat, lang: string, dead: set<string>)
    requires Mutual(m) && Unseen(m, u)
    ensures Mutual(ConnectFixed(m, role, u, socket, lang, dead))
  {
    var m1 := m.(connections := m.connections[u := Conn(socket, lang)]);
    if role == "employee" {
      if m1.queue == [] {
        NoDupSnoc(m1.pool, u);
      } else {
        NoDupTail(m1.queue);
        MatchKeepsMutual(m1.(queue := m1.queue[1..]), m1.queue[0], u, dead);
      }
    } else if m1.pool != [] {
      NoDupTail(m1.pool);
      MatchKeepsMutual(m1.(pool := m1.pool[1..]), u, m1.pool[0], dead);
    } else {
      var m2 := m1.(queue := m1.queue + [u]);
      NoDupSnoc(m1.queue, u);
      assert Mutual(m2);
      if u in dead {
        FixedDepartureUnpairsEveryone(m2, u, dead);
      }
    }
  }

  /** The manager object: its four collections are updated in place. */
  class ConnectionManager {
    var activeConnections: map<string, Conn>
    var activePairs: map<string, string>
    var availableEmployees: seq<string>
    var waitingQueue: seq<string>
    var outbox: seq<Delivery>

    function State(): Manager
      reads this
    {
      Manager(activeConnections, activePairs, availableEmployees, waitingQueue, outbox)
    }

    constructor ()
      ensures State() == Empty
    {
      activeConnections := map[];
      activePairs := map[];
      availableEmployees := [];
      waitingQueue := [];
      outbox := [];
    }

    method Send(to: string, message: Json, dead: set<string>) returns (ok: bool)
      modifies this
      ensures ok <==> to !in dead
      ensures State() == Deliver(old(State()), to, message, dead)
    {
      ok := to !in dead;
      if ok {
        outbox := outbox + [Delivery(to, message)];
      }
    }

    method Disconnect(u: string, dead: set<string>)
      modifies this
      ensures State() == Leave(old(State()), u, dead)
    {
      ghost var m := State();
      if u in activeConnections {
        activeConnections := activeConnections - {u};
      }
      if u in availableEmployees {
        availableEmployees := RemoveFirst(availableEmployees, u);
      }
      waitingQueue := Without(waitingQueue, u);
      ghost var m1 := m.(connections := m.connections - {u}, pool := RemoveFirst(m.pool, u), queue := Without(m.queue, u));
      assert State() == m1;
      if u in activePairs {
        var partner := activePairs[u];
        activePairs := activePairs - {u};
        if partner in activePairs {
          activePairs := activePairs - {partner};
        }
        assert activePairs == m1.pairs - {u} - {partner};
        if partner in activeConnections {
          var _ := Send(partner, SystemMessage("Partner disconnected."), dead);
          if LooksLikeEmployee(partner) && partner !in availableEmployees {
            availableEmployees := availableEmployees + [partner];
          }
        }
      }
    }

    method MatchUsers(c: string, e: string, dead: set<string>)
      modifies this
      ensures State() == Match(old(State()), c, e, dead)
    {
      activePairs := activePairs[c := e];
      activePairs := activePairs[e := c];
      var custConnected := c in activeConnections;
      var empConnected := e in activeConnections;
      if custConnected {
        var ok := Send(c, SystemMessage("Connected to Agent " + e), dead);
        if !ok {
          Disconnect(c, dead);
          return;
        }
      }
      if empConnected {
        var ok := Send(e, SystemMessage("Connected to Customer " + c), dead);
        if !ok {
          Disconnect(e, dead);
        }
      }
    }

    method ConnectUser(role: string, u: string, socket: nat, lang: string, dead: set<string>)
      modifies this
      ensures State() == Connect(old(State()), role, u, socket, lang, dead)
    {
      activeConnections := activeConnections[u := Conn(socket, lang)];
      if role == "employee" {
        availableEmployees := availableEmployees + [u];
        // The source's `while` over the queue always breaks after its first iteration.
        if waitingQueue != [] {
          var c := waitingQueue[0];
          waitingQueue := waitingQueue[1..];
          MatchUsers(c, u, dead);
        }
      } else if availableEmployees != [] {
        var e := availableEmployees[0];
        availableEmployees := availableEmployees[1..];
        MatchUsers(u, e, dead);
      } else {
        waitingQueue := waitingQueue + [u];
        var ok := Send(u, SystemMessage("All agents busy. You are in queue."), dead);
        if !ok {
          Disconnect(u, dead);
        }
      }
    }

    method GetUserLang(u: string) returns (lang: string)
      ensures lang == UserLang(State(), u)
    {
      if u in activeConnections {
        return activeConnections[u].lang;
      }
      return "en";
    }

    method UpdateUserLang(u: string, lang: string)
      modifies this
      ensures u in old(activeConnections) ==>
        activeConnections == old(activeConnections)[u := old(activeConnections)[u].(lang := lang)]
      ensures u !in old(activeConnections) ==> activeConnections == old(activeConnections)
      ensures activePairs == old(activePairs) && availableEmployees == old(availableEmployees)
      ensures waitingQueue == old(waitingQueue) && outbox == old(outbox)
    {
      if u in activeConnections {
        activeConnections := activeConnections[u := activeConnections[u].(lang := lang)];
      }
    }

    method SendToPartner(sender: string, data: Json, dead: set<string>)
      modifies this
      ensures State() == RelayToPartner(old(State()), sender, data, dead)
    {
      if sender in activePairs {
        var receiver := activePairs[sender];
        if receiver in activeConnections {
          var ok := Send(receiver, data, dead);
          if !ok {
            Disconnect(receiver, dead);
          }
        }
      }
    }
  }
}
