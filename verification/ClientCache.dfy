/**
 The cache of database clients, shared by all threads of the operator. Each region under the lock is one step; the
 steps of different threads interleave in any order, and pings and connections succeed or fail at will.
 */
module ClientCache {
  import opened Wrappers
  import opened Collections

  /** Where a thread stands inside Get; a thread outside Get has no stage. */
  datatype Stage =
    | Pinging(name: string, client: nat)
    | Removing(name: string, client: nat)
    | Connecting(name: string)
    | Inserting(name: string, client: nat)

  /**
     Clients are numbered in the order they are made. closed lists the clients in the order of their Close calls;
     lost is a history variable: the clients whose entry was overwritten.
   */
  datatype State = State(clients: map<string, nat>, threads: map<nat, Stage>, made: nat, closed: seq<nat>,
                         lost: set<nat>)

  const START := State(map[], map[], 0, [], {})

  datatype Action =
    | Look(thread: nat, name: string)
    | Ping(thread: nat, answered: bool)
    | RemoveStale(thread: nat)
    | Connect(thread: nat, connected: bool)
    | Insert(thread: nat)
    | Remove(name: string)
    | Close(order: seq<string>)

  predicate Enabled(s: State, a: Action)
  {
    match a
    case Look(t, _) => t !in s.threads
    case Ping(t, _) => t in s.threads && s.threads[t].Pinging?
    case RemoveStale(t) => t in s.threads && s.threads[t].Removing?
    case Connect(t, _) => t in s.threads && s.threads[t].Connecting?
    case Insert(t) => t in s.threads && s.threads[t].Inserting?
    case Remove(_) => true
    case Close(order) => Lists(order, s.clients)
  }

  /** A map is iterated in some order of its keys. */
  predicate Lists(order: seq<string>, clients: map<string, nat>)
  {
    Distinct(order) && (forall n :: n in order ==> n in clients) && (forall n :: n in clients ==> n in order)
  }

  /** Remove under the lock. */
  function Removed(s: State, name: string): State
  {
    if name in s.clients then s.(clients := s.clients - {name}, closed := s.closed + [s.clients[name]]) else s
  }

  function At(s: State, t: nat, stage: Stage): State { s.(threads := s.threads[t := stage]) }

  function Out(s: State, t: nat): State { s.(threads := s.threads - {t}) }

  function Step(s: State, a: Action): State
  {
    if !Enabled(s, a) then s
    else match a
      case Look(t, name) => At(s, t, if name in s.clients then Pinging(name, s.clients[name]) else Connecting(name))
      case Ping(t, answered) =>
        if answered then Out(s, t) else At(s, t, Removing(s.threads[t].name, s.threads[t].client))
      case RemoveStale(t) => At(Removed(s, s.threads[t].name), t, Connecting(s.threads[t].name))
      case Connect(t, connected) =>
        if connected then At(s, t, Inserting(s.threads[t].name, s.made)).(made := s.made + 1) else Out(s, t)
      case Insert(t) =>
        var stage := s.threads[t];
        Out(s, t).(clients := s.clients[stage.name := stage.client],
                   lost := if stage.name in s.clients then s.lost + {s.clients[stage.name]} else s.lost)
      case Remove(name) => Removed(s, name)
      case Close(order) => s.(clients := map[], closed := s.closed + ClientsIn(s.clients, order))
  }

  function ClientsIn(clients: map<string, nat>, order: seq<string>): (r: seq<nat>)
    requires forall n :: n in order ==> n in clients
  {
    seq(|order|, i requires 0 <= i < |order| => clients[order[i]])
  }

  function Run(s: State, actions: seq<Action>): State
  {
    if actions == [] then s else Step(Run(s, actions[..|actions| - 1]), actions[|actions| - 1])
  }

  // ---- every run ----

  predicate Holds(s: State, t: nat, client: nat)
  {
    t in s.threads && s.threads[t].Inserting? && s.threads[t].client == client
  }

  predicate Cached(s: State, client: nat) { exists n :: n in s.clients && s.clients[n] == client }

  predicate InFlight(s: State, client: nat) { exists t :: t in s.threads && Holds(s, t, client) }

  /** Every client made is in exactly one place: cached once, in the hands of one thread, lost, or closed once. */
  predicate Inv(s: State) { Apart(s) && Accounted(s) }

  predicate Apart(s: State)
  {
    (forall c :: c in s.closed ==> c < s.made && c !in s.lost)
    && (forall c :: c in s.lost ==> c < s.made)
    && (forall n :: n in s.clients ==> s.clients[n] < s.made && s.clients[n] !in s.closed && s.clients[n] !in s.lost)
    && (forall t :: t in s.threads && s.threads[t].Inserting? ==>
          s.threads[t].client < s.made && s.threads[t].client !in s.closed && s.threads[t].client !in s.lost)
    && (forall n, t :: n in s.clients && t in s.threads && s.threads[t].Inserting?
                       ==> s.clients[n] != s.threads[t].client)
    && Distinct(s.closed)
    && (forall m, n :: m in s.clients && n in s.clients && m != n ==> s.clients[m] != s.clients[n])
    && (forall t, u :: t in s.threads && u in s.threads && t != u && s.threads[t].Inserting? && s.threads[u].Inserting?
                       ==> s.threads[t].client != s.threads[u].client)
  }

  predicate Accounted(s: State)
  {
    forall c :: 0 <= c < s.made ==> c in s.closed || c in s.lost || Cached(s, c) || InFlight(s, c)
  }

  lemma RemoveKeepsApart(s: State, name: string)
    requires Apart(s)
    ensures Apart(Removed(s, name))
  {
  }

  lemma RemoveKeepsInv(s: State, name: string)
    requires Inv(s)
    ensures Inv(Removed(s, name))
  {
    RemoveKeepsApart(s, name);
    hide Apart;
    if name in s.clients {
      var v := Removed(s, name);
      forall c | 0 <= c < v.made
        ensures c in v.closed || c in v.lost || Cached(v, c) || InFlight(v, c)
      {
        if c != s.clients[name] { StaysPlaced(s, v, name, c); }
      }
    }
  }

  /** A client cached under another name or held by an unchanged thread keeps its place. */
  lemma StaysPlaced(s: State, v: State, name: string, c: nat)
    requires c in s.closed || c in s.lost || Cached(s, c) || InFlight(s, c)
    requires s.closed <= v.closed && s.lost <= v.lost
    requires name in s.clients ==> s.clients[name] != c
    requires forall n :: n in s.clients && n != name ==> n in v.clients && v.clients[n] == s.clients[n]
    requires forall t :: t in s.threads && Holds(s, t, c) ==> Holds(v, t, c)
    ensures c in v.closed || c in v.lost || Cached(v, c) || InFlight(v, c)
  {
    if c in s.closed {
      assert forall i :: 0 <= i < |s.closed| ==> s.closed[i] == v.closed[i];
    } else if Cached(s, c) {
      var n :| n in s.clients && s.clients[n] == c;
      assert v.clients[n] == c;
    } else if InFlight(s, c) {
      var t :| t in s.threads && Holds(s, t, c);
      assert Holds(v, t, c);
    }
  }

  lemma CloseKeepsInv(s: State, order: seq<string>)
    requires Inv(s) && Lists(order, s.clients)
    ensures Inv(Step(s, Close(order)))
  {
    var v := Step(s, Close(order));
    var cut := ClientsIn(s.clients, order);
    assert forall i :: 0 <= i < |cut| ==> order[i] in order && cut[i] == s.clients[order[i]];
    assert v.closed == s.closed + cut;
    assert Distinct(v.closed) by { CloseOnce(s, order); }
    assert Apart(v);
    forall c | 0 <= c < v.made
      ensures c in v.closed || c in v.lost || Cached(v, c) || InFlight(v, c)
    {
      if Cached(s, c) {
        var n :| n in s.clients && s.clients[n] == c;
        var i :| 0 <= i < |order| && order[i] == n;
        assert cut[i] == c;
      } else if InFlight(s, c) {
        var t :| t in s.threads && Holds(s, t, c);
        assert Holds(v, t, c);
      }
    }
  }

  lemma CloseOnce(s: State, order: seq<string>)
    requires Apart(s) && Lists(order, s.clients)
    ensures Distinct(s.closed + ClientsIn(s.clients, order))
  {
    var cut := ClientsIn(s.clients, order);
    assert forall i :: 0 <= i < |cut| ==> order[i] in order && cut[i] == s.clients[order[i]] && cut[i] !in s.closed;
    forall i, j | 0 <= i < j < |s.closed + cut|
      ensures (s.closed + cut)[i] != (s.closed + cut)[j]
    {
      if i < |s.closed| {
        assert (s.closed + cut)[i] in s.closed;
      } else {
        assert order[i - |s.closed|] != order[j - |s.closed|];
      }
    }
  }

  lemma InsertKeepsApart(s: State, t: nat)
    requires Apart(s) && Enabled(s, Insert(t))
    ensures Apart(Step(s, Insert(t)))
  {
  }

  lemma InsertKeepsInv(s: State, t: nat)
    requires Inv(s) && Enabled(s, Insert(t))
    ensures Inv(Step(s, Insert(t)))
  {
    InsertKeepsApart(s, t);
    hide Apart;
    var v := Step(s, Insert(t));
    var name, mine := s.threads[t].name, s.threads[t].client;
    forall c | 0 <= c < v.made
      ensures c in v.closed || c in v.lost || Cached(v, c) || InFlight(v, c)
    {
      if c == mine {
        assert v.clients[name] == c;
      } else if name in s.clients && c == s.clients[name] {
        assert c in v.lost;
      } else {
        StaysPlaced(s, v, name, c);
      }
    }
  }

  lemma StageKeepsInv(s: State, t: nat, stage: Stage)
    requires Inv(s) && !stage.Inserting? && (t in s.threads ==> !s.threads[t].Inserting?)
    ensures Inv(At(s, t, stage)) && Inv(Out(s, t))
  {
    forall v, c | v in {At(s, t, stage), Out(s, t)} && 0 <= c < s.made
      ensures c in v.closed || c in v.lost || Cached(v, c) || InFlight(v, c)
    {
      if InFlight(s, c) {
        var u :| u in s.threads && Holds(s, u, c);
        assert Holds(v, u, c);
      } else if Cached(s, c) {
        var n :| n in s.clients && s.clients[n] == c;
        assert v.clients[n] == c;
      }
    }
  }

  lemma ConnectKeepsInv(s: State, t: nat)
    requires Inv(s) && Enabled(s, Connect(t, true))
    ensures Inv(Step(s, Connect(t, true)))
  {
    var v := Step(s, Connect(t, true));
    assert Apart(v);
    forall c | 0 <= c < v.made
      ensures c in v.closed || c in v.lost || Cached(v, c) || InFlight(v, c)
    {
      if c == s.made {
        assert Holds(v, t, c);
      } else if InFlight(s, c) {
        var u :| u in s.threads && Holds(s, u, c);
        assert Holds(v, u, c);
      } else if Cached(s, c) {
        var n :| n in s.clients && s.clients[n] == c;
        assert v.clients[n] == c;
      }
    }
  }

  lemma StepKeepsInv(s: State, a: Action)
    requires Inv(s)
    ensures Inv(Step(s, a))
  {
    hide Inv;
    if Enabled(s, a) {
      match a
      case Look(t, name) => StageKeepsInv(s, t, Connecting(name)); StageKeepsInv(s, t, Step(s, a).threads[t]);
      case Ping(t, _) => StageKeepsInv(s, t, Removing(s.threads[t].name, s.threads[t].client));
      case RemoveStale(t) =>
        RemoveKeepsInv(s, s.threads[t].name);
        StageKeepsInv(Removed(s, s.threads[t].name), t, Connecting(s.threads[t].name));
      case Connect(t, connected) =>
        if connected { ConnectKeepsInv(s, t); } else { StageKeepsInv(s, t, s.threads[t]); }
      case Insert(t) => InsertKeepsInv(s, t);
      case Remove(name) => RemoveKeepsInv(s, name);
      case Close(order) => CloseKeepsInv(s, order);
    }
  }

  lemma {:induction false} RunKeepsInv(actions: seq<Action>)
    ensures Inv(Run(START, actions))
  {
    if actions != [] {
      var front := actions[..|actions| - 1];
      RunKeepsInv(front);
      StepKeepsInv(Run(START, front), actions[|actions| - 1]);
    }
  }

  predicate Open(s: State, client: nat) { client < s.made && client !in s.closed }

  /**
     However the threads interleave, no closed client is in the cache or about to enter it, none is closed twice, and
     a client that is still open is cached, in the hands of the thread that made it, or was overwritten.
   */
  lemma CacheIsSound(actions: seq<Action>)
    ensures var s := Run(START, actions);
            Distinct(s.closed)
            && (forall n :: n in s.clients ==> Open(s, s.clients[n]))
            && (forall c :: InFlight(s, c) ==> Open(s, c))
            && (forall m, n :: m in s.clients && n in s.clients && s.clients[m] == s.clients[n] ==> m == n)
            && (forall c :: Open(s, c) <==> Cached(s, c) || InFlight(s, c) || c in s.lost)
  {
    RunKeepsInv(actions);
  }

  // ---- runs in which no two Gets of one name overlap ----

  predicate Alone(s: State, a: Action)
  {
    a.Look? ==> forall t :: t in s.threads ==> s.threads[t].name != a.name
  }

  predicate CalmRun(actions: seq<Action>)
  {
    actions == []
    || (CalmRun(actions[..|actions| - 1]) && Alone(Run(START, actions[..|actions| - 1]), actions[|actions| - 1]))
  }

  /** A thread inside Get is the only one for its name, and the entry is the one it looked up or absent. */
  predicate Calm(s: State)
  {
    s.lost == {}
    && (forall t, u :: t in s.threads && u in s.threads && s.threads[t].name == s.threads[u].name ==> t == u)
    && (forall t :: t in s.threads && s.threads[t].name in s.clients ==>
          (s.threads[t].Pinging? || s.threads[t].Removing?) && s.clients[s.threads[t].name] == s.threads[t].client)
  }

  lemma StepKeepsCalm(s: State, a: Action)
    requires Calm(s) && Alone(s, a)
    ensures Calm(Step(s, a))
  {
  }

  lemma {:induction false} CalmRunIsCalm(actions: seq<Action>)
    requires CalmRun(actions)
    ensures Calm(Run(START, actions))
  {
    if actions != [] {
      var front := actions[..|actions| - 1];
      CalmRunIsCalm(front);
      StepKeepsCalm(Run(START, front), actions[|actions| - 1]);
    }
  }

  /** Without overlap nothing is lost: the open clients are those cached and those about to be. */
  lemma WithoutOverlapNothingIsLost(actions: seq<Action>)
    requires CalmRun(actions)
    ensures var s := Run(START, actions);
            (forall c :: Open(s, c) <==> Cached(s, c) || InFlight(s, c))
            && (s.threads == map[] ==> forall c :: Open(s, c) <==> Cached(s, c))
  {
    CacheIsSound(actions);
    CalmRunIsCalm(actions);
  }

  /** Without overlap a Get closes no client but the one whose ping it saw fail. */
  lemma WithoutOverlapOnlyThePingedIsClosed(actions: seq<Action>, t: nat)
    requires CalmRun(actions) && Enabled(Run(START, actions), RemoveStale(t))
    ensures var s := Run(START, actions);
            Step(s, RemoveStale(t)).closed == s.closed
            || Step(s, RemoveStale(t)).closed == s.closed + [s.threads[t].client]
  {
    CalmRunIsCalm(actions);
  }

  function RunFrom(s: State, actions: seq<Action>): State
    decreases |actions|
  {
    if actions == [] then s else RunFrom(Step(s, actions[0]), actions[1..])
  }

  lemma {:induction false} RunFromIsRun(s: State, done: seq<Action>, rest: seq<Action>)
    ensures RunFrom(Run(s, done), rest) == Run(s, done + rest)
    decreases |rest|
  {
    if rest == [] {
      assert done + rest == done;
    } else {
      assert (done + [rest[0]])[..|done|] == done;
      RunFromIsRun(s, done + [rest[0]], rest[1..]);
      assert done + [rest[0]] + rest[1..] == done + rest;
    }
  }

  // ---- exactly when a client is lost ----

  /** The action puts a new client over the entry of its name. */
  predicate Overwrites(s: State, a: Action)
  {
    a.Insert? && Enabled(s, a) && s.threads[a.thread].name in s.clients
  }

  lemma StepLosesIff(s: State, a: Action)
    requires Inv(s)
    ensures s.lost <= Step(s, a).lost && (Step(s, a).lost != s.lost <==> Overwrites(s, a))
  {
  }

  predicate OverwritesAt(actions: seq<Action>, i: nat)
    requires i < |actions|
  {
    Overwrites(Run(START, actions[..i]), actions[i])
  }

  lemma OverwritesEarlier(front: seq<Action>, a: Action, i: nat)
    requires i < |front|
    ensures OverwritesAt(front + [a], i) <==> OverwritesAt(front, i)
  {
    hide Overwrites, Run;
    assert (front + [a])[..i] == front[..i];
  }

  /** A run loses no client exactly when no insert finds an entry of its name. */
  lemma {:induction false} NothingIsLostIff(actions: seq<Action>)
    ensures Run(START, actions).lost == {} <==> forall i :: 0 <= i < |actions| ==> !OverwritesAt(actions, i)
  {
    hide Step, Overwrites, Inv;
    if actions != [] {
      var n := |actions| - 1;
      var front := actions[..n];
      NothingIsLostIff(front);
      RunKeepsInv(front);
      StepLosesIff(Run(START, front), actions[n]);
      assert actions == front + [actions[n]];
      assert OverwritesAt(actions, n) <==> Overwrites(Run(START, front), actions[n]);
      hide OverwritesAt, Run;
      forall i | 0 <= i < n
        ensures OverwritesAt(actions, i) <==> OverwritesAt(front, i)
      {
        OverwritesEarlier(front, actions[n], i);
      }
    }
  }

  /** So a client stays open outside the cache, with no thread inside Get, exactly when some insert overwrote it. */
  lemma LeakIff(actions: seq<Action>)
    requires Run(START, actions).threads == map[]
    ensures (exists c :: Open(Run(START, actions), c) && !Cached(Run(START, actions), c))
       <==> exists i :: 0 <= i < |actions| && OverwritesAt(actions, i)
  {
    hide OverwritesAt, Run, Open, Cached;
    CacheIsSound(actions);
    NothingIsLostIff(actions);
    var s := Run(START, actions);
    assert forall c :: !InFlight(s, c);
    LostIsNotCached(actions);
    if s.lost != {} {
      var c :| c in s.lost;
      assert Open(s, c) && !Cached(s, c);
    }
  }

  lemma LostIsNotCached(actions: seq<Action>)
    ensures forall c :: c in Run(START, actions).lost ==> !Cached(Run(START, actions), c)
  {
    hide Run;
    RunKeepsInv(actions);
  }

  // ---- exactly when a Get closes a client that it has not pinged ----

  /** The action takes the entry of a name out of the cache, if there is one. */
  predicate Evicts(s: State, a: Action, name: string)
  {
    Enabled(s, a) && (a.Close? || (a.Remove? && a.name == name) || (a.RemoveStale? && s.threads[a.thread].name == name))
  }

  predicate Inserts(s: State, a: Action, name: string)
  {
    a.Insert? && Enabled(s, a) && s.threads[a.thread].name == name
  }

  predicate InsertsAt(actions: seq<Action>, j: nat, name: string)
    requires j < |actions|
  {
    Inserts(Run(START, actions[..j]), actions[j], name)
  }

  predicate EvictsAt(actions: seq<Action>, j: nat, name: string)
    requires j < |actions|
  {
    Evicts(Run(START, actions[..j]), actions[j], name)
  }

  /** Since its first i actions, the run has inserted a client of the name and not evicted it again. */
  predicate Replaced(actions: seq<Action>, i: nat, name: string)
  {
    exists j :: i <= j < |actions| && InsertsAt(actions, j, name)
                && forall k :: j < k < |actions| ==> !EvictsAt(actions, k, name)
  }

  lemma SameEarlier(front: seq<Action>, a: Action, j: nat, name: string)
    requires j < |front|
    ensures InsertsAt(front + [a], j, name) <==> InsertsAt(front, j, name)
    ensures EvictsAt(front + [a], j, name) <==> EvictsAt(front, j, name)
  {
    hide Run, Inserts, Evicts;
    assert (front + [a])[..j] == front[..j];
  }

  lemma SameLast(front: seq<Action>, a: Action, name: string)
    ensures InsertsAt(front + [a], |front|, name) <==> Inserts(Run(START, front), a, name)
    ensures EvictsAt(front + [a], |front|, name) <==> Evicts(Run(START, front), a, name)
  {
    hide Run, Inserts, Evicts;
    assert (front + [a])[..|front|] == front;
  }

  lemma ReplacedStep(front: seq<Action>, a: Action, i: nat, name: string)
    requires i <= |front|
    ensures var s := Run(START, front);
            Replaced(front + [a], i, name) <==> Inserts(s, a, name) || (Replaced(front, i, name) && !Evicts(s, a, name))
  {
    hide Run, Inserts, Evicts, InsertsAt, EvictsAt;
    var actions, n := front + [a], |front|;
    SameLast(front, a, name);
    forall j | 0 <= j < n
      ensures InsertsAt(actions, j, name) <==> InsertsAt(front, j, name)
      ensures EvictsAt(actions, j, name) <==> EvictsAt(front, j, name)
    {
      SameEarlier(front, a, j, name);
    }
    if Replaced(front, i, name) && !EvictsAt(actions, n, name) {
      var j :| i <= j < n && InsertsAt(front, j, name) && forall k :: j < k < n ==> !EvictsAt(front, k, name);
      assert InsertsAt(actions, j, name);
    }
    if Replaced(actions, i, name) && !InsertsAt(actions, n, name) {
      var j :| i <= j < n + 1 && InsertsAt(actions, j, name)
               && forall k :: j < k < n + 1 ==> !EvictsAt(actions, k, name);
      assert InsertsAt(front, j, name);
      assert forall k :: j < k < n ==> !EvictsAt(front, k, name);
    }
  }

  /** The entry of a name is an old client that nobody can insert any more, unless it was replaced. */
  predicate EntryIs(s: State, name: string, past: nat, replaced: bool)
  {
    past < s.made && !InFlight(s, past)
    && (replaced ==> name in s.clients && s.clients[name] != past)
    && (!replaced && name in s.clients ==> s.clients[name] == past)
  }

  lemma StepKeepsEntry(s: State, a: Action, name: string, past: nat, replaced: bool)
    requires EntryIs(s, name, past, replaced)
    ensures EntryIs(Step(s, a), name, past, Inserts(s, a, name) || (replaced && !Evicts(s, a, name)))
  {
    var v := Step(s, a);
    forall t | t in v.threads && Holds(v, t, past)
      ensures false
    {
      assert t in s.threads && Holds(s, t, past);
    }
    if Inserts(s, a, name) {
      assert Holds(s, a.thread, s.threads[a.thread].client);
    }
  }

  lemma {:induction false} EntrySince(actions: seq<Action>, i: nat, name: string)
    requires i <= |actions| && name in Run(START, actions[..i]).clients
    ensures EntryIs(Run(START, actions), name, Run(START, actions[..i]).clients[name], Replaced(actions, i, name))
    decreases |actions|
  {
    hide EntryIs, Replaced, Step, Inserts, Evicts;
    if i == |actions| {
      assert actions[..i] == actions;
      RunKeepsInv(actions);
      EntryNow(Run(START, actions), name);
      NotYetReplaced(actions, name);
    } else {
      var n := |actions| - 1;
      assert actions[..n][..i] == actions[..i];
      EntrySince(actions[..n], i, name);
      StepKeepsEntry(Run(START, actions[..n]), actions[n], name, Run(START, actions[..i]).clients[name],
                     Replaced(actions[..n], i, name));
      ReplacedStep(actions[..n], actions[n], i, name);
      assert actions == actions[..n] + [actions[n]];
    }
  }

  lemma EntryNow(s: State, name: string)
    requires Inv(s) && name in s.clients
    ensures EntryIs(s, name, s.clients[name], false)
  {
  }

  lemma NotYetReplaced(actions: seq<Action>, name: string)
    ensures !Replaced(actions, |actions|, name)
  {
  }

  /** Where a thread that pings or is about to remove a client found it. */
  predicate FoundAt(actions: seq<Action>, i: nat, t: nat, name: string, client: nat)
  {
    i < |actions| && actions[i] == Look(t, name)
    && name in Run(START, actions[..i]).clients && Run(START, actions[..i]).clients[name] == client
  }

  lemma {:induction false} WasFound(actions: seq<Action>, t: nat) returns (i: nat)
    requires t in Run(START, actions).threads
    requires Run(START, actions).threads[t].Pinging? || Run(START, actions).threads[t].Removing?
    ensures FoundAt(actions, i, t, Run(START, actions).threads[t].name, Run(START, actions).threads[t].client)
  {
    assert actions != [];
    var n := |actions| - 1;
    var front, a := actions[..n], actions[n];
    var s := Run(START, front);
    if a.Look? && a.thread == t && t !in s.threads {
      i := n;
    } else {
      i := WasFound(front, t);
      assert actions[..i] == front[..i];
    }
  }

  /**
   In every run, what a Get is about to close is the client that it found and pinged, or nothing, unless since then
   another client of that name was inserted that is still there; and there is such a moment at which it found it.
   */
  lemma ClosesAnotherIff(actions: seq<Action>, t: nat)
    requires Enabled(Run(START, actions), RemoveStale(t))
    ensures var s := Run(START, actions); var Removing(name, client) := s.threads[t];
            (exists i: nat :: FoundAt(actions, i, t, name, client))
            && forall i: nat :: FoundAt(actions, i, t, name, client) ==>
                 (Replaced(actions, i, name)
                  <==> exists other :: other != client && Step(s, RemoveStale(t)).closed == s.closed + [other])
  {
    hide Replaced, Run;
    var s := Run(START, actions);
    var Removing(name, client) := s.threads[t];
    var first := WasFound(actions, t);
    forall i: nat | FoundAt(actions, i, t, name, client)
      ensures Replaced(actions, i, name)
         <==> exists other :: other != client && Step(s, RemoveStale(t)).closed == s.closed + [other]
    {
      EntrySince(actions, i, name);
      ClosesEntry(s, t);
    }
  }

  /** RemoveStale closes the entry of its name, whichever client that is. */
  lemma ClosesEntry(s: State, t: nat)
    requires Enabled(s, RemoveStale(t))
    ensures var name := s.threads[t].name;
            forall other :: Step(s, RemoveStale(t)).closed == s.closed + [other]
                            <==> name in s.clients && s.clients[name] == other
  {
    var closed := Step(s, RemoveStale(t)).closed;
    forall other
      ensures closed == s.closed + [other] <==> s.threads[t].name in s.clients && s.clients[s.threads[t].name] == other
    {
      assert (s.closed + [other])[|s.closed|] == other;
      if s.threads[t].name in s.clients {
        assert closed[|s.closed|] == s.clients[s.threads[t].name];
      }
    }
  }

  // ---- and both do happen ----

  const TOGETHER: seq<Action> := [Look(1, "a"), Look(2, "a"), Connect(1, true), Connect(2, true), Insert(1), Insert(2)]

  lemma TogetherSteps(s: State)
    ensures RunFrom(s, TOGETHER) ==
      var connecting := Step(Step(s, Look(1, "a")), Look(2, "a"));
      Step(Step(Step(Step(connecting, Connect(1, true)), Connect(2, true)), Insert(1)), Insert(2))
  {
    hide Step;
    var s1 := Step(s, TOGETHER[0]);
    var s2 := Step(s1, TOGETHER[1]);
    var s3 := Step(s2, TOGETHER[2]);
    var s4 := Step(s3, TOGETHER[3]);
    var s5 := Step(s4, TOGETHER[4]);
    var s6 := Step(s5, TOGETHER[5]);
    assert RunFrom(s5, TOGETHER[5..]) == s6;
    assert RunFrom(s4, TOGETHER[4..]) == s6;
    assert RunFrom(s3, TOGETHER[3..]) == s6;
    assert RunFrom(s2, TOGETHER[2..]) == s6;
    assert RunFrom(s1, TOGETHER[1..]) == s6;
  }

  /** With overlap both can fail: the second insert loses the first client, which stays open for ever. */
  lemma OverlapLosesAClient()
    ensures var s := Run(START, TOGETHER); Open(s, 0) && s.clients == map["a" := 1] && s.threads == map[]
  {
    hide RunFrom, Run;
    RunFromIsRun(START, [], TOGETHER);
    assert Run(START, []) == START by { NoSteps(START); }
    assert [] + TOGETHER == TOGETHER;
    TogetherSteps(START);
    var s2 := Step(Step(START, Look(1, "a")), Look(2, "a"));
    assert s2 == State(map[], map[1 := Connecting("a"), 2 := Connecting("a")], 0, [], {});
    var s4 := Step(Step(s2, Connect(1, true)), Connect(2, true));
    assert s4 == State(map[], map[1 := Inserting("a", 0), 2 := Inserting("a", 1)], 2, [], {});
    assert Step(Step(s4, Insert(1)), Insert(2)) == State(map["a" := 1], map[], 2, [], {0});
  }

  lemma NoSteps(s: State)
    ensures Run(s, []) == s
  {
  }

  const SHARED: seq<Action> := [Look(1, "a"), Connect(1, true), Insert(1), Look(1, "a"), Look(2, "a")]

  const BOTH_PINGING := State(map["a" := 0], map[1 := Pinging("a", 0), 2 := Pinging("a", 0)], 1, [], {})

  lemma TwoThreadsShareAClient()
    ensures Run(START, SHARED) == BOTH_PINGING
  {
    RunFromIsRun(START, [], SHARED);
    assert [] + SHARED == SHARED;
    var s1 := Step(START, SHARED[0]);
    var s2 := Step(s1, SHARED[1]);
    var s3 := Step(s2, SHARED[2]);
    var s4 := Step(s3, SHARED[3]);
    assert RunFrom(s4, SHARED[4..]) == BOTH_PINGING;
    assert RunFrom(s3, SHARED[3..]) == BOTH_PINGING;
    assert RunFrom(s2, SHARED[2..]) == BOTH_PINGING;
    assert RunFrom(s1, SHARED[1..]) == BOTH_PINGING;
  }

  lemma OneReplacesTheOtherCloses(s: State)
    requires s == State(map["a" := 0], map[1 := Removing("a", 0), 2 := Removing("a", 0)], 1, [], {})
    ensures Step(Step(Step(Step(s, RemoveStale(1)), Connect(1, true)), Insert(1)), RemoveStale(2)).closed == [0, 1]
  {
    var s1 := Step(s, RemoveStale(1));
    assert s1.clients == map[] && s1.threads[1] == Connecting("a") && s1.closed == [0] && s1.made == 1;
    var s2 := Step(s1, Connect(1, true));
    assert s2.clients == map[] && s2.threads[1] == Inserting("a", 1) && s2.closed == [0];
    var s3 := Step(s2, Insert(1));
    assert s3.clients == map["a" := 1] && s3.threads[2] == Removing("a", 0) && s3.closed == [0];
  }

  const BOTH_FAIL: seq<Action> := [Ping(1, false), Ping(2, false)]

  const BOTH_REMOVE: seq<Action> := [RemoveStale(1), Connect(1, true), Insert(1), RemoveStale(2)]

  /**
     With overlap, two Gets that see one dead client make a thread close the fresh client that replaced it, although
     the only pings were of the first client.
   */
  lemma OverlapClosesAFreshClient()
    ensures Run(START, SHARED) == BOTH_PINGING
    ensures Run(START, SHARED + BOTH_FAIL + BOTH_REMOVE).closed == [0, 1]
  {
    TwoThreadsShareAClient();
    var dead := RunFrom(BOTH_PINGING, BOTH_FAIL);
    assert dead == State(map["a" := 0], map[1 := Removing("a", 0), 2 := Removing("a", 0)], 1, [], {}) by {
      assert RunFrom(Step(BOTH_PINGING, BOTH_FAIL[0]), BOTH_FAIL[1..]) == dead;
    }
    OneReplacesTheOtherCloses(dead);
    RunFromIsRun(START, SHARED, BOTH_FAIL);
    RunFromIsRun(START, SHARED + BOTH_FAIL, BOTH_REMOVE);
    FourSteps(dead);
  }

  lemma FourSteps(s: State)
    ensures RunFrom(s, BOTH_REMOVE)
            == Step(Step(Step(Step(s, RemoveStale(1)), Connect(1, true)), Insert(1)), RemoveStale(2))
  {
    hide Step;
    var s1 := Step(s, BOTH_REMOVE[0]);
    var s2 := Step(s1, BOTH_REMOVE[1]);
    var s3 := Step(s2, BOTH_REMOVE[2]);
    assert RunFrom(s3, BOTH_REMOVE[3..]) == Step(s3, BOTH_REMOVE[3]);
    assert RunFrom(s2, BOTH_REMOVE[2..]) == Step(s3, BOTH_REMOVE[3]);
    assert RunFrom(s1, BOTH_REMOVE[1..]) == Step(s3, BOTH_REMOVE[3]);
  }

  // ---- calls that are not interleaved ----

  lemma GetRuns(s: State, t: nat, name: string, answered: bool, connected: bool)
    requires s.threads == map[]
    ensures RunFrom(s, GetScript(t, name, name in s.clients, answered, connected))
         == if name in s.clients && answered then s
            else var r := Removed(s, name);
                 if connected then r.(clients := r.clients[name := r.made], made := r.made + 1) else r
  {
    var found := name in s.clients;
    var script := GetScript(t, name, found, answered, connected);
    var r := Removed(s, name);
    var s1 := Step(s, Look(t, name));
    assert script[0] == Look(t, name);
    if found && answered {
      assert script[1..] == [Ping(t, true)];
      assert Out(s1, t) == s;
      assert RunFrom(s1, [Ping(t, true)]) == s;
    } else {
      var ready := At(r, t, Connecting(name));
      var tail := [Connect(t, connected)] + if connected then [Insert(t)] else [];
      ConnectRuns(r, t, name, connected);
      if found {
        var s2 := Step(s1, Ping(t, false));
        assert Step(s2, RemoveStale(t)) == ready;
        assert script[1..] == [Ping(t, false), RemoveStale(t)] + tail;
        assert script[1..][1..] == [RemoveStale(t)] + tail;
        assert script[1..][1..][1..] == tail;
        assert RunFrom(s1, script[1..]) == RunFrom(s2, script[1..][1..]) == RunFrom(ready, tail);
      } else {
        assert script[1..] == tail && s1 == ready;
      }
    }
  }

  lemma ConnectRuns(r: State, t: nat, name: string, connected: bool)
    requires r.threads == map[] && name !in r.clients
    ensures RunFrom(At(r, t, Connecting(name)), [Connect(t, connected)] + if connected then [Insert(t)] else [])
         == if connected then r.(clients := r.clients[name := r.made], made := r.made + 1) else r
  {
    var ready := At(r, t, Connecting(name));
    var s1 := Step(ready, Connect(t, connected));
    if connected {
      assert ([Connect(t, true)] + [Insert(t)])[1..] == [Insert(t)];
      assert Step(s1, Insert(t)) == r.(clients := r.clients[name := r.made], made := r.made + 1);
      assert RunFrom(s1, [Insert(t)]) == Step(s1, Insert(t));
    } else {
      assert Out(ready, t) == r;
      assert RunFrom(s1, []) == r;
    }
  }

  class Cache {
    var clients: map<string, nat>
    var made: nat
    var closed: seq<nat>
    ghost var lost: set<nat>

    /** The state between calls: no thread is inside Get. */
    ghost function View(): State
      reads this
    {
      State(clients, map[], made, closed, lost)
    }

    constructor ()
      ensures View() == START
    {
      clients, made, closed, lost := map[], 0, [], {};
    }

    /** The client of a name: the cached one if it answers, else a new one in its place. */
    method Get(thread: nat, name: string, answered: bool, connected: bool) returns (client: Option<nat>)
      modifies this
      ensures client.Some? ==> name in clients && clients[name] == client.value
      ensures client.Some? <==> (name in old(clients) && answered) || connected
      ensures View() == RunFrom(old(View()), GetScript(thread, name, name in old(clients), answered, connected))
      ensures lost == old(lost)
      ensures clients - {name} == old(clients) - {name}
      ensures name in old(clients) && answered ==>
        clients == old(clients) && made == old(made) && closed == old(closed) && client == Some(clients[name])
      ensures !(name in old(clients) && answered) ==>
        closed == old(closed) + (if name in old(clients) then [old(clients)[name]] else [])
        && (connected ==> client == Some(old(made)) && made == old(made) + 1)
        && (!connected ==> name !in clients && made == old(made))
    {
      GetRuns(View(), thread, name, answered, connected);
      if name in clients {
        if answered {
          return Some(clients[name]);
        }
        RemoveClient(name);
      }
      if !connected {
        return None;
      }
      clients := clients[name := made];
      client := Some(made);
      made := made + 1;
    }

    method RemoveClient(name: string)
      modifies this
      ensures View() == Step(old(View()), Remove(name))
      ensures clients == old(clients) - {name} && made == old(made)
      ensures closed == old(closed) + if name in old(clients) then [old(clients)[name]] else []
    {
      if name in clients {
        closed := closed + [clients[name]];
        clients := clients - {name};
      }
    }

    method CloseAll() returns (ghost order: seq<string>)
      modifies this
      ensures Lists(order, old(clients))
      ensures View() == Step(old(View()), Close(order))
      ensures clients == map[] && closed == old(closed) + ClientsIn(old(clients), order)
    {
      order := [];
      ghost var start := View();
      while clients != map[]
        invariant Distinct(order)
        invariant forall n :: n in start.clients <==> n in order || n in clients
        invariant forall n :: n in order ==> n !in clients
        invariant forall n :: n in clients ==> clients[n] == start.clients[n]
        invariant View() == start.(clients := clients, closed := start.closed + ClientsIn(start.clients, order))
        decreases clients
      {
        var name :| name in clients;
        closed := closed + [clients[name]];
        clients := clients - {name};
        assert ClientsIn(start.clients, order + [name]) == ClientsIn(start.clients, order) + [start.clients[name]];
        order := order + [name];
      }
    }
  }

  /** The steps of one Get, by what it finds and what answers. */
  function GetScript(t: nat, name: string, found: bool, answered: bool, connected: bool): seq<Action>
  {
    [Look(t, name)] +
    (if found && answered then [Ping(t, true)]
     else
       (if found then [Ping(t, false), RemoveStale(t)] else [])
       + [Connect(t, connected)] + (if connected then [Insert(t)] else []))
  }
}
