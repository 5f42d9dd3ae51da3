/**
 LISTEN and UNLISTEN: monitors shared by clients, and subscriptions that wait for COMMIT.
 */
module Notifications {
  import opened Protocol

  datatype Channel = Channel(database: string, name: string)

  datatype Action = Listen(ch: Channel) | Unlisten(ch: Channel) | UnlistenAll

  // --- One client's subscriptions ---

  function Apply(subs: set<Channel>, a: Action): set<Channel> {
    match a
    case Listen(ch) => subs + {ch}
    case Unlisten(ch) => subs - {ch}
    case UnlistenAll => {}
  }

  /** Buffered actions in the order in which they were given. */
  function ApplyAll(subs: set<Channel>, actions: seq<Action>): set<Channel> {
    if actions == [] then subs else Apply(ApplyAll(subs, actions[..|actions| - 1]), actions[|actions| - 1])
  }

  /** Does the action end a subscription to the channel? */
  predicate Ends(a: Action, ch: Channel) { a == Unlisten(ch) || a.UnlistenAll? }

  /** Nothing from the i-th action on ends a subscription to the channel. */
  predicate Unended(actions: seq<Action>, ch: Channel, i: nat)
    requires i <= |actions|
  {
    forall j :: i <= j < |actions| ==> !Ends(actions[j], ch)
  }

  /** PostgreSQL's rule: a channel is subscribed when no UNLISTEN of it and no UNLISTEN * comes after its last LISTEN,
      or when it was subscribed before and there is no such UNLISTEN at all. */
  predicate Subscribed(subs: set<Channel>, actions: seq<Action>, ch: Channel) {
    || (ch in subs && Unended(actions, ch, 0))
    || exists i :: 0 <= i < |actions| && actions[i] == Listen(ch) && Unended(actions, ch, i)
  }

  /** Performing actions one after the other leaves exactly the subscriptions of that rule. */
  lemma {:induction false} ApplyAllIff(subs: set<Channel>, actions: seq<Action>, ch: Channel)
    ensures ch in ApplyAll(subs, actions) <==> Subscribed(subs, actions, ch)
  {
    if actions != [] {
      var n := |actions| - 1;
      ApplyAllIff(subs, actions[..n], ch);
      SubscribedSnoc(subs, actions[..n], actions[n], ch);
      assert actions[..n] + [actions[n]] == actions;
    }
  }

  lemma SubscribedSnoc(subs: set<Channel>, actions: seq<Action>, a: Action, ch: Channel)
    ensures Subscribed(subs, actions + [a], ch)
       <==> a == Listen(ch) || (Subscribed(subs, actions, ch) && !Ends(a, ch))
  {
    var n, all := |actions|, actions + [a];
    assert all[n] == a;
    forall i | 0 <= i <= n ensures Unended(all, ch, i) <==> Unended(actions, ch, i) && !Ends(a, ch) {
      assert forall j :: i <= j < n ==> all[j] == actions[j];
    }
    hide Unended;
    if i :| 0 <= i < n && actions[i] == Listen(ch) && Unended(actions, ch, i) { assert all[i] == actions[i]; }
    if a == Listen(ch) { assert Unended(all, ch, n) by { LastIsUnended(all, ch); } }
    if i :| 0 <= i < |all| && all[i] == Listen(ch) && Unended(all, ch, i) {
      if i < n { assert actions[i] == all[i]; }
    }
  }

  lemma LastIsUnended(actions: seq<Action>, ch: Channel)
    requires actions != [] && actions[|actions| - 1] == Listen(ch)
    ensures Unended(actions, ch, |actions| - 1)
  {
  }

  /** The subscriptions after the actions, by that rule. */
  function Committed(subs: set<Channel>, actions: seq<Action>): set<Channel> {
    set ch | ch in subs + (set a | a in actions && a.Listen? :: a.ch) && Subscribed(subs, actions, ch)
  }

  lemma CommittedIsApplied(subs: set<Channel>, actions: seq<Action>)
    ensures Committed(subs, actions) == ApplyAll(subs, actions)
  {
    forall ch ensures ch in Committed(subs, actions) <==> ch in ApplyAll(subs, actions) {
      ApplyAllIff(subs, actions, ch);
      if i :| 0 <= i < |actions| && actions[i] == Listen(ch) && Unended(actions, ch, i) {
        assert actions[i] in actions;
      }
    }
  }

  function Upper(c: char): char { if 'a' <= c <= 'z' then (c as int - 32) as char else c }

  const COMMIT := "COMMIT"

  predicate IsCommit(tag: string) { |tag| == |COMMIT| && forall i :: 0 <= i < |tag| ==> Upper(tag[i]) == COMMIT[i] }

  /** What the pooler keeps for a client: the mirrored status byte and command tag decide what happens to the buffer. */
  datatype Subscriber = Subscriber(subs: set<Channel>, pending: seq<Action>, tx: Tx, tag: string)

  /** handleListen and handleUnlisten. */
  function OnAction(s: Subscriber, a: Action): Subscriber {
    match s.tx
    case Failed => s
    case InBlock => s.(pending := s.pending + [a], tag := if a.Listen? then "LISTEN" else "UNLISTEN")
    case Idle => s.(subs := Apply(s.subs, a), tag := if a.Listen? then "LISTEN" else "UNLISTEN")
  }

  /** resolvePendingListens. */
  function Resolve(s: Subscriber): Subscriber {
    s.(subs := if IsCommit(s.tag) then ApplyAll(s.subs, s.pending) else s.subs, pending := [])
  }

  /** Any other statement: its command tag, if it has one, then ReadyForQuery, then reconcileConn. */
  function OnStatement(s: Subscriber, tag: seq<string>, tx: Tx): Subscriber {
    var t := s.(tag := if tag == [] then s.tag else tag[|tag| - 1], tx := tx);
    if tx.Idle? then Resolve(t) else t
  }

  // --- The objects ---

  class Client {
    var listenChannels: set<Channel>
    var pendingListens: seq<Action>
    var lastTxStatus: Tx
    var lastCommandTag: string
    var open: bool               // the client's socket
    var pinned: bool             // does the client point to a backend?

    constructor ()
      ensures Seen() == Subscriber({}, [], Idle, "") && open && !pinned
    {
      listenChannels, pendingListens, lastTxStatus, lastCommandTag := {}, [], Idle, "";
      open, pinned := true, false;
    }

    function Seen(): Subscriber
      reads this
    {
      Subscriber(listenChannels, pendingListens, lastTxStatus, lastCommandTag)
    }

    method AddListenChannel(ch: Channel)
      modifies this`listenChannels
      ensures listenChannels == old(listenChannels) + {ch}
    {
      listenChannels := listenChannels + {ch};
    }

    method RemoveListenChannel(ch: Channel)
      modifies this`listenChannels
      ensures listenChannels == old(listenChannels) - {ch}
    {
      listenChannels := listenChannels - {ch};
    }

    /** Close: both sockets are closed and the pin is forgotten; the backend is not released. */
    method Close()
      modifies this`open, this`pinned
      ensures !open && !pinned
    {
      open, pinned := false, false;
    }
  }

  /** The monitors after a client has left some channels; an empty monitor is torn down. */
  function Leaving(m: map<Channel, set<Client>>, chs: set<Channel>, c: Client): map<Channel, set<Client>> {
    map ch | ch in m && !(ch in chs && m[ch] - {c} == {}) :: if ch in chs then m[ch] - {c} else m[ch]
  }

  lemma LeavingOneMore(m: map<Channel, set<Client>>, chs: set<Channel>, ch: Channel, c: Client)
    ensures Leaving(Leaving(m, chs, c), {ch}, c) == Leaving(m, chs + {ch}, c)
  {
    assert ch in m ==> m[ch] - {c} - {c} == m[ch] - {c};
  }

  lemma LeavingMembers(m: map<Channel, set<Client>>, chs: set<Channel>, c: Client)
    requires forall ch :: ch in m ==> m[ch] != {}
    ensures var l := Leaving(m, chs, c);
      && (forall ch, d :: (ch in l && d in l[ch]) <==> (ch in m && d in m[ch] && !(d == c && ch in chs)))
      && (forall ch :: ch in l ==> ch in m && l[ch] != {} && l[ch] <= m[ch])
  {
    var l := Leaving(m, chs, c);
    forall ch, d | ch in m && d in m[ch] && !(d == c && ch in chs) ensures ch in l && d in l[ch] {
      if ch in chs { assert d in m[ch] - {c}; }
    }
  }

  /** The actions that can be performed: a LISTEN needs a monitor, which another client has or which can be opened. */
  function Performable(actions: seq<Action>, others: set<Channel>, opens: seq<bool>): seq<Action>
    requires |opens| == |actions|
  {
    if actions == [] then []
    else
      var n := |actions| - 1;
      Performable(actions[..n], others, opens[..n])
        + if actions[n].Listen? && actions[n].ch !in others && !opens[n] then [] else [actions[n]]
  }

  lemma {:induction false} AllPerformable(actions: seq<Action>, others: set<Channel>, opens: seq<bool>)
    requires |opens| == |actions| && forall i :: 0 <= i < |opens| ==> opens[i]
    ensures Performable(actions, others, opens) == actions
  {
    if actions != [] { AllPerformable(actions[..|actions| - 1], others, opens[..|actions| - 1]); }
  }

  lemma PerformableNext(actions: seq<Action>, others: set<Channel>, opens: seq<bool>, i: nat)
    requires i < |actions| == |opens|
    ensures Performable(actions[..i + 1], others, opens[..i + 1])
         == Performable(actions[..i], others, opens[..i])
            + if actions[i].Listen? && actions[i].ch !in others && !opens[i] then [] else [actions[i]]
  {
    assert actions[..i + 1][..i] == actions[..i] && opens[..i + 1][..i] == opens[..i];
  }

  lemma ActionsHeard(subs: set<Channel>, actions: seq<Action>)
    ensures forall ch :: ch in ApplyAll(subs, actions) <==> Subscribed(subs, actions, ch)
  {
    forall ch ensures ch in ApplyAll(subs, actions) <==> Subscribed(subs, actions, ch) {
      ApplyAllIff(subs, actions, ch);
    }
  }

  lemma ActionHeard(subs: set<Channel>, a: Action)
    ensures forall ch :: ch in Apply(subs, a) <==> Subscribed(subs, [a], ch)
  {
    ActionsHeard(subs, [a]);
    ApplySnoc(subs, [], a);
    assert [] + [a] == [a];
  }

  lemma NothingPerformed(subs: set<Channel>, others: set<Channel>)
    ensures ApplyAll(subs, Performable([], others, [])) == subs
  {
  }

  class Server {
    var listeners: map<Channel, set<Client>>
    var clients: set<Client>

    constructor ()
      ensures Agreed() && clients == {} && listeners == map[]
    {
      listeners, clients := map[], {};
    }

    predicate Hears(c: Client, ch: Channel)
      reads this
    {
      ch in listeners && c in listeners[ch]
    }

    /** Both sides of the index say the same, and every monitor has a subscriber. */
    ghost predicate Agreed()
      reads this, clients
    {
      && (forall c, ch :: c in clients ==> (Hears(c, ch) <==> ch in c.listenChannels))
      && (forall ch :: ch in listeners ==> listeners[ch] != {} && listeners[ch] <= clients)
    }

    /** The channels that other clients have. */
    ghost function Others(c: Client): set<Channel>
      reads this, clients
    {
      set d, ch | d in clients && d != c && ch in d.listenChannels :: ch
    }

    /** A channel has a monitor exactly when some client has it. */
    lemma MonitorIff(c: Client, ch: Channel)
      requires Agreed() && c in clients
      ensures ch in listeners <==> ch in Others(c) || ch in c.listenChannels
    {
      if ch in listeners {
        var d :| d in listeners[ch];
        assert Hears(d, ch);
      }
      if d :| d in clients && ch in d.listenChannels { assert Hears(d, ch); }
    }

    method Connect() returns (c: Client)
      requires Agreed()
      modifies this`clients
      ensures Agreed() && fresh(c) && clients == old(clients) + {c} && c.Seen() == Subscriber({}, [], Idle, "")
    {
      c := new Client();
      clients := clients + {c};
    }

    /** Joins the channel's monitor or creates one, if a connection can be opened for it. */
    method GetOrCreateListen(ch: Channel, c: Client, opens: bool) returns (ok: bool)
      modifies this`listeners
      ensures ok == (ch in old(listeners) || opens)
      ensures listeners == if !ok then old(listeners)
                           else old(listeners)[ch := (if ch in old(listeners) then old(listeners)[ch] else {}) + {c}]
    {
      if ch in listeners {
        listeners := listeners[ch := listeners[ch] + {c}];
        return true;
      }
      if !opens { return false; }
      assert {} + {c} == {c};
      listeners := listeners[ch := {c}];
      return true;
    }

    /** Leaves the channel's monitor, and tears the monitor down when nobody is left. */
    method RemoveClientFromListen(ch: Channel, c: Client)
      modifies this`listeners
      ensures listeners == Leaving(old(listeners), {ch}, c)
    {
      if ch !in listeners { return; }
      var rest := listeners[ch] - {c};
      if rest == {} {
        listeners := listeners - {ch};
      } else {
        listeners := listeners[ch := rest];
      }
    }

    method Subscribe(ch: Channel, c: Client, opens: bool) returns (ok: bool)
      requires Agreed() && c in clients
      modifies this`listeners, c`listenChannels
      ensures Agreed() && ok == (ch in old(listeners) || opens)
      ensures c.listenChannels == old(c.listenChannels) + if ok then {ch} else {}
    {
      ok := GetOrCreateListen(ch, c, opens);
      if ok { c.AddListenChannel(ch); }
    }

    method Unsubscribe(ch: Channel, c: Client)
      requires Agreed() && c in clients
      modifies this`listeners, c`listenChannels
      ensures Agreed() && c.listenChannels == old(c.listenChannels) - {ch}
    {
      LeavingMembers(listeners, {ch}, c);
      RemoveClientFromListen(ch, c);
      c.RemoveListenChannel(ch);
    }

    /** Leaves every monitor that the client's own set names; the set itself is cleared by the callers that go on. */
    method LeaveAll(c: Client)
      modifies this`listeners
      ensures listeners == Leaving(old(listeners), c.listenChannels, c)
    {
      var todo := c.listenChannels;
      while todo != {}
        invariant todo <= c.listenChannels
        invariant listeners == Leaving(old(listeners), c.listenChannels - todo, c)
        decreases todo
      {
        var ch :| ch in todo;
        RemoveClientFromListen(ch, c);
        LeavingOneMore(old(listeners), c.listenChannels - todo, ch, c);
        assert c.listenChannels - (todo - {ch}) == c.listenChannels - todo + {ch};
        todo := todo - {ch};
      }
      assert c.listenChannels - {} == c.listenChannels;
    }

    method ClearAll(c: Client)
      requires Agreed() && c in clients
      modifies this`listeners, c`listenChannels
      ensures Agreed() && c.listenChannels == {}
    {
      LeavingMembers(listeners, c.listenChannels, c);
      LeaveAll(c);
      c.listenChannels := {};
    }

    /** Disconnect: afterwards no monitor mentions the client. */
    method CleanupClientListeners(c: Client)
      requires Agreed() && c in clients
      modifies this
      ensures Agreed() && clients == old(clients) - {c}
      ensures forall ch :: ch in listeners ==> c !in listeners[ch]
    {
      LeavingMembers(listeners, c.listenChannels, c);
      LeaveAll(c);
      assert forall ch :: ch in old(listeners) && old(Hears(c, ch)) ==> ch in c.listenChannels;
      assert forall ch :: ch in listeners ==> c !in listeners[ch];
      clients := clients - {c};
    }

    /** The end of a client's connection: a backend that it still points to is released. */
    method Disconnect(c: Client) returns (releases: bool)
      requires Agreed() && c in clients
      modifies this
      ensures Agreed() && clients == old(clients) - {c}
      ensures forall ch :: ch in listeners ==> c !in listeners[ch]
      ensures releases == c.pinned
    {
      CleanupClientListeners(c);
      releases := c.pinned;
    }

    /** A LISTEN needs a monitor, which is there or can be opened. */
    static predicate Possible(m: map<Channel, set<Client>>, a: Action, opens: bool) { a.Listen? ==> a.ch in m || opens }

    method PerformAction(c: Client, a: Action, opens: bool) returns (ok: bool)
      requires Agreed() && c in clients
      modifies this`listeners, c`listenChannels
      ensures Agreed() && ok == Possible(old(listeners), a, opens)
      ensures c.listenChannels == if ok then Apply(old(c.listenChannels), a) else old(c.listenChannels)
    {
      ok := true;
      match a {
        case Listen(ch) => ok := Subscribe(ch, c, opens);
        case Unlisten(ch) => Unsubscribe(ch, c);
        case UnlistenAll => ClearAll(c);
      }
    }

    /** One action of the buffer. */
    method PerformPending(c: Client, a: Action, opens: bool)
      requires Agreed() && c in clients
      modifies this`listeners, c`listenChannels
      ensures Agreed() && Others(c) == old(Others(c))
      ensures c.listenChannels == if a.Listen? && a.ch !in Others(c) && !opens then old(c.listenChannels)
                                  else Apply(old(c.listenChannels), a)
    {
      if a.Listen? { MonitorIff(c, a.ch); }
      var _ := PerformAction(c, a, opens);
    }

    /** handleListen and handleUnlisten. */
    method HandleAction(c: Client, a: Action, opens: bool)
      requires Agreed() && c in clients
      modifies this`listeners, c
      ensures Agreed() && c.open == old(c.open) && c.pinned == old(c.pinned)
      ensures c.Seen() == if old(c.lastTxStatus).Idle? && !Possible(old(listeners), a, opens) then old(c.Seen())
                          else OnAction(old(c.Seen()), a)
      ensures forall ch :: Hears(c, ch) <==>
                if old(c.lastTxStatus).Idle? && Possible(old(listeners), a, opens)
                then Subscribed(old(c.listenChannels), [a], ch) else old(Hears(c, ch))
      ensures old(c.lastTxStatus).Idle? && a.UnlistenAll? ==> forall ch :: !Hears(c, ch)
    {
      ActionHeard(c.listenChannels, a);
      if c.lastTxStatus.Failed? { return; }
      if c.lastTxStatus.InBlock? {
        c.pendingListens := c.pendingListens + [a];
      } else {
        var ok := PerformAction(c, a, opens);
        if !ok { return; }
      }
      c.lastCommandTag := if a.Listen? then "LISTEN" else "UNLISTEN";
    }

    /** The loop over the buffer. */
    method PerformAll(c: Client, actions: seq<Action>, opens: seq<bool>)
      requires Agreed() && c in clients && |opens| == |actions|
      modifies this`listeners, c`listenChannels
      ensures Agreed()
      ensures c.listenChannels == ApplyAll(old(c.listenChannels), Performable(actions, old(Others(c)), opens))
    {
      ghost var subs, others := c.listenChannels, Others(c);
      NothingPerformed(subs, others);
      assert actions[..0] == [] && opens[..0] == [];
      hide ApplyAll, Performable, Others, Apply;
      var i := 0;
      while i < |actions|
        invariant 0 <= i <= |actions| && Agreed() && Others(c) == others
        invariant c.listenChannels == ApplyAll(subs, Performable(actions[..i], others, opens[..i]))
      {
        PerformableNext(actions, others, opens, i);
        ghost var done := Performable(actions[..i], others, opens[..i]);
        ApplySnoc(subs, done, actions[i]);
        assert done + [] == done;
        PerformPending(c, actions[i], opens[i]);
        i := i + 1;
      }
      assert actions[..i] == actions && opens[..i] == opens;
    }

    /** resolvePendingListens: applies the buffer after COMMIT, discards it otherwise. A LISTEN whose monitor cannot be
        opened is passed over. */
    method ResolvePendingListens(c: Client, opens: seq<bool>)
      requires Agreed() && c in clients && |opens| == |c.pendingListens|
      modifies this`listeners, c
      ensures Agreed() && c.open == old(c.open) && c.pinned == old(c.pinned)
      ensures c.Seen() == old(c.Seen()).(subs := c.listenChannels, pending := [])
      ensures forall ch :: Hears(c, ch) <==>
                if IsCommit(old(c.lastCommandTag))
                then Subscribed(old(c.listenChannels), Performable(old(c.pendingListens), old(Others(c)), opens), ch)
                else old(Hears(c, ch))
      ensures !IsCommit(c.lastCommandTag) || (forall i :: 0 <= i < |opens| ==> opens[i]) ==>
                c.Seen() == Resolve(old(c.Seen()))
    {
      ghost var subs, others := c.listenChannels, Others(c);
      var actions := c.pendingListens;
      ActionsHeard(subs, Performable(actions, others, opens));
      if forall i :: 0 <= i < |opens| ==> opens[i] { AllPerformable(actions, others, opens); }
      if c.pendingListens == [] { return; }
      c.pendingListens := [];
      assert Others(c) == others;
      hide Subscribed, IsCommit, ApplyAll, Performable, Others;
      if !IsCommit(c.lastCommandTag) { return; }
      PerformAll(c, actions, opens);
    }

    /** A monitor whose connection is lost for good: its clients are told, lose the channel and are closed; a pin goes
        with that, so that the end of the connection releases nothing. */
    method FailListen(ch: Channel)
      requires Agreed() && ch in listeners
      modifies this`listeners, clients
      ensures Agreed() && listeners == old(listeners) - {ch} && clients == old(clients)
      ensures forall c :: c in clients ==> c.listenChannels == old(c.listenChannels) - {ch}
      ensures forall c :: c in clients ==>
                if c in old(listeners)[ch] then !c.open && !c.pinned
                else c.open == old(c.open) && c.pinned == old(c.pinned)
    {
      var todo := listeners[ch];
      listeners := listeners - {ch};
      while todo != {}
        invariant todo <= old(listeners)[ch] && listeners == old(listeners) - {ch} && clients == old(clients)
        invariant forall c :: c in clients ==> c.listenChannels == old(c.listenChannels) - if c in todo then {}
            else {ch}
        invariant forall c :: c in clients ==>
                    if c in old(listeners)[ch] - todo then !c.open && !c.pinned
                    else c.open == old(c.open) && c.pinned == old(c.pinned)
        decreases todo
      {
        var c :| c in todo;
        c.RemoveListenChannel(ch);
        c.Close();
        todo := todo - {c};
      }
    }
  }

  // --- Histories of single statements ---

  datatype Command =
    | Begin
    | Do(action: Action)
    | Commit
    | CommitFails                // a COMMIT that PostgreSQL refuses: an error, and the transaction is rolled back
    | Rollback
    | Fails                      // a statement that fails
    | Notify(ok: bool)           // NOTIFY or pg_notify
    | Works(tag: string)         // any other statement
    | CommitAndChain             // COMMIT AND CHAIN: a new transaction at once
    | Lost                       // the connection fails and is replaced; the client stays

  /** The server's transaction status after a command. */
  function After(tx: Tx, c: Command): Tx {
    match c
    case Begin => if tx.Idle? then InBlock else tx
    case Commit => Idle
    case CommitFails => Idle
    case Rollback => Idle
    case Fails => Broken(tx)
    case Notify(ok) => if ok then tx else Broken(tx)
    case CommitAndChain => if tx.Failed? then InBlock else tx
    case Lost => Idle
    case _ => tx
  }

  /** The server's command tags; a statement in a failed block is refused. */
  function TagOf(tx: Tx, c: Command): seq<string> {
    match c
    case Begin => if tx.Failed? then [] else ["BEGIN"]
    case Commit => [if tx.Failed? then "ROLLBACK" else "COMMIT"]
    case CommitFails => if tx.Failed? then ["ROLLBACK"] else []
    case CommitAndChain => if tx.Idle? then [] else [if tx.Failed? then "ROLLBACK" else "COMMIT"]
    case Rollback => ["ROLLBACK"]
    case Notify(ok) => if tx.Failed? || !ok then [] else ["NOTIFY"]
    case Works(tag) => if tx.Failed? then [] else [tag]
    case _ => []
  }

  /** handleNotify: on a connection of its own, without a look at the buffer. */
  function OnNotice(s: Subscriber, tag: seq<string>): Subscriber {
    s.(tag := if tag == [] then s.tag else tag[|tag| - 1], tx := Idle)
  }

  /** The pooler's side; tx is the status of the real session. */
  function Pool(s: Subscriber, tx: Tx, c: Command): Subscriber {
    match c
    case Do(a) => OnAction(s, a)
    case Notify(_) => if tx.Idle? then OnNotice(s, TagOf(tx, c)) else OnStatement(s, TagOf(tx, c), After(tx, c))
    case Lost => s
    case _ => OnStatement(s, TagOf(tx, c), After(tx, c))
  }

  /** PostgreSQL's own side: the committed subscriptions, and what the open transaction has asked for. */
  datatype Reference = Reference(visible: set<Channel>, asked: seq<Action>)

  /** What a commit would make visible. */
  function Next(r: Reference): set<Channel> { Committed(r.visible, r.asked) }

  function Refer(r: Reference, tx: Tx, c: Command): Reference {
    match c
    case Do(a) =>
      if tx.Failed? then r
      else if tx.Idle? then Reference(Committed(r.visible, [a]), []) else r.(asked := r.asked + [a])
    case Commit => Reference(if tx.InBlock? then Next(r) else r.visible, [])
    case CommitAndChain => Reference(if tx.InBlock? then Next(r) else r.visible, [])
    case CommitFails => r.(asked := [])
    case Rollback => r.(asked := [])
    case Fails => r.(asked := [])
    case Notify(ok) => if ok then r else r.(asked := [])
    case Lost => r.(asked := [])
    case _ => r
  }

  datatype World = World(pool: Subscriber, reference: Reference, tx: Tx)

  const CALM := World(Subscriber({}, [], Idle, ""), Reference({}, []), Idle)

  function Step(w: World, c: Command): World {
    World(Pool(w.pool, w.tx, c), Refer(w.reference, w.tx, c), After(w.tx, c))
  }

  function History(cs: seq<Command>): World {
    if cs == [] then CALM else Step(History(cs[..|cs| - 1]), cs[|cs| - 1])
  }

  /** The buffer holds what separates the committed subscriptions from the pending ones. */
  predicate Faithful(w: World) {
    && w.pool.tx == w.tx && w.pool.subs == w.reference.visible
    && (if w.tx.Idle? then w.pool.pending == [] else !IsCommit(w.pool.tag))
    && (!w.tx.Failed? ==> w.reference.asked == w.pool.pending)
  }

  predicate Ordinary(c: Command) { !c.CommitAndChain? && !c.Lost? && (c.Works? ==> !IsCommit(c.tag)) }

  lemma ApplySnoc(subs: set<Channel>, actions: seq<Action>, a: Action)
    ensures ApplyAll(subs, actions + [a]) == Apply(ApplyAll(subs, actions), a)
  {
    assert (actions + [a])[..|actions|] == actions;
  }

  lemma OneAction(subs: set<Channel>, a: Action)
    ensures Committed(subs, [a]) == Apply(subs, a)
  {
    CommittedIsApplied(subs, [a]);
    ApplySnoc(subs, [], a);
    assert [] + [a] == [a];
  }

  lemma CommitTags()
    ensures IsCommit("COMMIT") && IsCommit("commit") && !IsCommit("ROLLBACK") && !IsCommit("BEGIN")
    ensures !IsCommit("LISTEN") && !IsCommit("UNLISTEN") && !IsCommit("NOTIFY")
  {
    assert Upper("NOTIFY"[0]) != COMMIT[0];
    assert Upper("LISTEN"[0]) != COMMIT[0];
  }

  lemma StepIsFaithful(w: World, c: Command)
    requires Faithful(w) && Ordinary(c)
    ensures Faithful(Step(w, c))
    ensures !w.tx.Idle? && !Step(w, c).tx.Idle? ==> Step(w, c).pool.subs == w.pool.subs
  {
    CommitTags();
    hide IsCommit;
    CommittedIsApplied(w.reference.visible, w.reference.asked);
    if c.Do? { OneAction(w.reference.visible, c.action); }
    hide Committed, ApplyAll;
  }

  /** Deferred LISTEN is commit-time LISTEN: over every history of single statements the subscriptions are PostgreSQL's,
      never change inside a transaction, and the buffer is empty outside one. */
  lemma {:induction false} DeferredListenIsTransactional(cs: seq<Command>)
    requires forall c :: c in cs ==> Ordinary(c)
    ensures Faithful(History(cs))
    ensures History(cs).pool.subs == History(cs).reference.visible
  {
    if cs != [] {
      var n := |cs| - 1;
      DeferredListenIsTransactional(cs[..n]);
      assert Ordinary(cs[n]);
      StepIsFaithful(History(cs[..n]), cs[n]);
    }
  }

  /** At COMMIT the client is subscribed to the channels whose last LISTEN in the transaction no UNLISTEN follows, and
      to those it had that the transaction does not end; after ROLLBACK to those it had. */
  lemma {:induction false} CommitAppliesInOrder(s: Subscriber, actions: seq<Action>)
    requires s.tx.InBlock? && s.pending == []
    ensures var w := Buffered(s, actions);
      && w.subs == s.subs && w.pending == actions && w.tx.InBlock?
      && (forall ch :: ch in Pool(w, InBlock, Commit).subs <==> Subscribed(s.subs, actions, ch))
      && Pool(w, InBlock, Rollback).subs == s.subs && Pool(w, InBlock, Rollback).pending == []
  {
    CommitTags();
    hide IsCommit;
    if actions != [] {
      CommitAppliesInOrder(s, actions[..|actions| - 1]);
      assert actions[..|actions| - 1] + [actions[|actions| - 1]] == actions;
    }
    ActionsHeard(s.subs, actions);
    hide ApplyAll, Subscribed;
  }

  function Buffered(s: Subscriber, actions: seq<Action>): Subscriber {
    if actions == [] then s else OnAction(Buffered(s, actions[..|actions| - 1]), actions[|actions| - 1])
  }

  // --- Where the mirror is not enough ---

  /** COMMIT AND CHAIN ends in status T: what was committed stays in the buffer, which shows unless it changes
      nothing. */
  lemma ChainedCommitIsMissedIff(w: World)
    requires Faithful(w) && w.tx.InBlock?
    ensures Step(w, CommitAndChain).pool.subs == Step(w, CommitAndChain).reference.visible
       <==> ApplyAll(w.pool.subs, w.pool.pending) == w.pool.subs
  {
    CommittedIsApplied(w.pool.subs, w.pool.pending);
  }

  /** In a failed block it rolls back and begins anew; what the failed block asked for stays in the buffer, and the next
      COMMIT applies it. That shows unless it changes nothing. */
  lemma ChainedRollbackKeepsIff(w: World)
    requires Faithful(w) && w.tx.Failed?
    ensures var z := Step(Step(w, CommitAndChain), Commit);
      z.pool.subs == z.reference.visible <==> ApplyAll(w.pool.subs, w.pool.pending) == w.pool.subs
  {
    CommitTags();
    hide IsCommit;
    CommittedIsApplied(w.pool.subs, []);
  }

  function Steps(w: World, cs: seq<Command>): World {
    if cs == [] then w else Step(Steps(w, cs[..|cs| - 1]), cs[|cs| - 1])
  }

  function Actions(cs: seq<Command>): seq<Action> {
    if cs == [] then []
    else
      var n := |cs| - 1;
      Actions(cs[..n]) + if cs[n].Do? then [cs[n].action] else []
  }

  /** What a client can do outside a block without the buffer being looked at. */
  predicate Unresolving(c: Command) { c.Do? || c.Notify? }

  predicate Notified(cs: seq<Command>) { exists c :: c in cs && c.Notify? }

  /** The actions up to the first NOTIFY, and those after it. */
  function Early(cs: seq<Command>): seq<Action> {
    if cs == [] then []
    else
      var n := |cs| - 1;
      Early(cs[..n]) + if cs[n].Do? && !Notified(cs[..n]) then [cs[n].action] else []
  }

  function Late(cs: seq<Command>): seq<Action> {
    if cs == [] then []
    else
      var n := |cs| - 1;
      Late(cs[..n]) + if cs[n].Do? && Notified(cs[..n]) then [cs[n].action] else []
  }

  /** What the buffer holds once a transaction is lost and the client has gone on outside a block: as long as the
      mirrored status is the old one, actions join the buffer of an open transaction, and those of a failed one are
      refused. */
  function Kept(w: World, cs: seq<Command>): seq<Action> {
    w.pool.pending + if w.tx.InBlock? then Early(cs) else []
  }

  lemma NotifiedSnoc(cs: seq<Command>, c: Command)
    ensures Notified(cs + [c]) <==> Notified(cs) || c.Notify?
  {
    if c.Notify? { assert c in cs + [c]; }
    if d :| d in cs && d.Notify? { assert d in cs + [c]; }
  }

  /** The pooler and PostgreSQL after a loss: what the pooler has applied, what it keeps, what PostgreSQL has done. */
  predicate Behind(z: World, subs: set<Channel>, mirror: Tx, late: seq<Action>, kept: seq<Action>, acts: seq<Action>) {
    && z.tx.Idle? && z.pool.tx == mirror && !IsCommit(z.pool.tag)
    && z.pool.subs == ApplyAll(subs, late) && z.pool.pending == kept
    && z.reference.visible == ApplyAll(subs, acts) && z.reference.asked == []
  }

  lemma ActionBehind(z: World, a: Action, subs: set<Channel>, mirror: Tx, late: seq<Action>, kept: seq<Action>,
                     acts: seq<Action>)
    requires Behind(z, subs, mirror, late, kept, acts)
    ensures Behind(Step(z, Do(a)), subs, mirror, if mirror.Idle? then late + [a] else late,
                   if mirror.InBlock? then kept + [a] else kept, acts + [a])
  {
    CommitTags();
    hide IsCommit;
    ApplySnoc(subs, late, a);
    ApplySnoc(subs, acts, a);
    OneAction(z.reference.visible, a);
    hide ApplyAll, Committed;
  }

  lemma NoticeBehind(z: World, ok: bool, subs: set<Channel>, mirror: Tx, late: seq<Action>, kept: seq<Action>,
                     acts: seq<Action>)
    requires Behind(z, subs, mirror, late, kept, acts)
    ensures Behind(Step(z, Notify(ok)), subs, Idle, late, kept, acts)
  {
    CommitTags();
    hide IsCommit, ApplyAll, Committed;
  }

  function Mirror(w: World, cs: seq<Command>): Tx { if Notified(cs) then Idle else w.tx }

  lemma LossStart(w: World)
    requires Faithful(w) && !w.tx.Idle?
    ensures Behind(Steps(Step(w, Lost), []), w.pool.subs, Mirror(w, []), Late([]), Kept(w, []), Actions([]))
  {
    hide IsCommit;
    assert ApplyAll(w.pool.subs, []) == w.pool.subs && w.pool.pending + [] == w.pool.pending;
  }

  /** A transaction is lost and the client goes on outside a block. */
  lemma {:induction false} AfterLoss(w: World, cs: seq<Command>)
    requires Faithful(w) && !w.tx.Idle? && forall c :: c in cs ==> Unresolving(c)
    ensures Behind(Steps(Step(w, Lost), cs), w.pool.subs, Mirror(w, cs), Late(cs), Kept(w, cs), Actions(cs))
  {
    hide Behind, Faithful, Late, Actions, Early, Notified, Kept, Step;
    if cs == [] {
      LossStart(w);
    } else {
      var n := |cs| - 1;
      AfterLoss(w, cs[..n]);
      assert Unresolving(cs[n]);
      NotifiedSnoc(cs[..n], cs[n]);
      assert cs[..n] + [cs[n]] == cs;
      KeptSnoc(w, cs);
      PartsSnoc(cs);
      var z := Steps(Step(w, Lost), cs[..n]);
      var late, kept, acts, mirror := Late(cs[..n]), Kept(w, cs[..n]), Actions(cs[..n]), Mirror(w, cs[..n]);
      assert kept + [] == kept;
      if cs[n].Do? {
        ActionBehind(z, cs[n].action, w.pool.subs, mirror, late, kept, acts);
      } else {
        NoticeBehind(z, cs[n].ok, w.pool.subs, mirror, late, kept, acts);
      }
    }
  }

  lemma PartsSnoc(cs: seq<Command>)
    requires cs != []
    ensures var n := |cs| - 1;
      && Late(cs) == (if cs[n].Do? && Notified(cs[..n]) then Late(cs[..n]) + [cs[n].action] else Late(cs[..n]))
      && Actions(cs) == (if cs[n].Do? then Actions(cs[..n]) + [cs[n].action] else Actions(cs[..n]))
  {
    hide Notified;
  }

  lemma KeptSnoc(w: World, cs: seq<Command>)
    requires cs != []
    ensures var n := |cs| - 1;
      Kept(w, cs) == Kept(w, cs[..n])
        + if w.tx.InBlock? && cs[n].Do? && !Notified(cs[..n]) then [cs[n].action] else []
  {
    hide Notified;
  }

  /** What stays inside a block. */
  predicate Inner(c: Command) { Ordinary(c) && (c.Do? || c.Works? || c.Notify? || c.Begin? || c.Fails?) }

  /** Inside a block, from world w on, with the actions given so far. */
  predicate Within(w: World, z: World, acts: seq<Action>) {
    && !z.tx.Idle? && z.pool.tx == z.tx && !IsCommit(z.pool.tag)
    && z.pool.subs == w.pool.subs && z.reference.visible == w.reference.visible
    && (z.tx.InBlock? ==>
          && z.pool.pending == w.pool.pending + acts && z.reference.asked == w.reference.asked + acts)
  }

  lemma WithinNext(w: World, z: World, acts: seq<Action>, c: Command)
    requires Within(w, z, acts) && Inner(c)
    ensures Within(w, Step(z, c), if c.Do? then acts + [c.action] else acts)
  {
    CommitTags();
    hide IsCommit;
    hide ApplyAll, Committed;
  }

  /** Inside a block the buffer grows by the block's actions, and so does what PostgreSQL will commit. */
  lemma {:induction false} BlockBuffers(w: World, cs: seq<Command>)
    requires w.tx.InBlock? && w.pool.tx.InBlock? && !IsCommit(w.pool.tag) && forall c :: c in cs ==> Inner(c)
    ensures Within(w, Steps(w, cs), Actions(cs))
  {
    hide IsCommit, Step;
    if cs == [] {
      assert w.pool.pending + [] == w.pool.pending && w.reference.asked + [] == w.reference.asked;
    } else {
      hide Within;
      var n := |cs| - 1;
      BlockBuffers(w, cs[..n]);
      assert Inner(cs[n]);
      WithinNext(w, Steps(w, cs[..n]), Actions(cs[..n]), cs[n]);
      PartsSnoc(cs);
      hide Actions;
    }
  }

  /** A connection that fails inside a transaction leaves the buffer and the mirrored status behind. Until some
      statement other than NOTIFY, LISTEN and UNLISTEN comes, the client has PostgreSQL's subscriptions if and only if
      what it did before its first NOTIFY makes no difference. */
  lemma LossShowsIff(w: World, cs: seq<Command>)
    requires Faithful(w) && !w.tx.Idle? && forall c :: c in cs ==> Unresolving(c)
    ensures var z := Steps(Step(w, Lost), cs);
      z.pool.subs == z.reference.visible <==> ApplyAll(w.pool.subs, Late(cs)) == ApplyAll(w.pool.subs, Actions(cs))
  {
    AfterLoss(w, cs);
  }

  /** The first other statement outside a block clears the buffer; a COMMIT applies it. */
  lemma LossResolvedIff(w: World, cs: seq<Command>, c: Command)
    requires Faithful(w) && !w.tx.Idle? && (forall d :: d in cs ==> Unresolving(d))
    requires Ordinary(c) && !Unresolving(c) && !c.Begin?
    ensures var after := Step(Steps(Step(w, Lost), cs), c);
      Faithful(after)
      <==> ApplyAll(ApplyAll(w.pool.subs, Late(cs)), if c.Commit? then Kept(w, cs) else [])
           == ApplyAll(w.pool.subs, Actions(cs))
  {
    CommitTags();
    hide IsCommit;
    AfterLoss(w, cs);
    var z := Steps(Step(w, Lost), cs);
    assert forall subs :: ApplyAll(subs, []) == subs;
    hide Kept, Late, Actions, Steps;
  }

  /** The next transaction: when it commits, the client has PostgreSQL's subscriptions if and only if applying the
      left-over buffer before the block's own actions makes no difference; when it does not, if and only if they were
      right before. */
  lemma LostTransactionIff(w: World, cs: seq<Command>, block: seq<Command>, end: Command)
    requires Faithful(w) && !w.tx.Idle? && (forall d :: d in cs ==> Unresolving(d))
        && (forall d :: d in block ==> Inner(d))
    requires end.Commit? || end.Rollback? || end.CommitFails?
    ensures var z := Steps(Step(Steps(Step(w, Lost), cs), Begin), block);
      var after := Step(z, end);
      Faithful(after) <==>
        if end.Commit? && z.tx.InBlock?
        then ApplyAll(ApplyAll(w.pool.subs, Late(cs)), Kept(w, cs) + Actions(block))
             == ApplyAll(ApplyAll(w.pool.subs, Actions(cs)), Actions(block))
        else ApplyAll(w.pool.subs, Late(cs)) == ApplyAll(w.pool.subs, Actions(cs))
  {
    CommitTags();
    hide IsCommit;
    AfterLoss(w, cs);
    var begun := Step(Steps(Step(w, Lost), cs), Begin);
    BlockBuffers(begun, block);
    assert forall subs :: ApplyAll(subs, []) == subs;
    hide Kept, Late, Actions, Steps, ApplyAll, Committed;
    assert begun.reference.asked == [] && begun.pool.pending == Kept(w, cs) && begun.tx.InBlock?;
    hide Step, Within, Faithful;
    EndOfBlock(begun, Steps(begun, block), Actions(block), end);
  }

  /** The end of a block on top of what its buffer held at the start. */
  lemma EndOfBlock(w: World, z: World, acts: seq<Action>, end: Command)
    requires Within(w, z, acts) && w.reference.asked == [] && (end.Commit? || end.Rollback? || end.CommitFails?)
    ensures Faithful(Step(z, end)) <==>
              if end.Commit? && z.tx.InBlock?
              then ApplyAll(w.pool.subs, w.pool.pending + acts) == ApplyAll(w.reference.visible, acts)
              else w.pool.subs == w.reference.visible
  {
    CommitTags();
    hide IsCommit;
    CommittedIsApplied(w.reference.visible, acts);
    assert [] + acts == acts;
    assert forall subs :: ApplyAll(subs, []) == subs;
    hide ApplyAll, Committed;
  }

  /** For instance: a NOTIFY does not clear the buffer, and the next commit subscribes to a channel of the lost
      transaction. */
  lemma NoticeKeepsTheBuffer(w: World, ch: Channel)
    requires Faithful(w) && w.tx.Idle? && ch !in w.pool.subs
    ensures var lost := Step(Step(Step(w, Begin), Do(Listen(ch))), Lost);
      var after := Step(Step(Step(lost, Notify(true)), Begin), Commit);
      ch in after.pool.subs && ch !in after.reference.visible
  {
    CommitTags();
    var listening := Step(Step(w, Begin), Do(Listen(ch)));
    assert listening.pool.pending == [] + [Listen(ch)] && listening.pool.subs == w.pool.subs;
    hide IsCommit;
    ApplySnoc(w.pool.subs, [], Listen(ch));
    var again := Step(Step(Step(listening, Lost), Notify(true)), Begin);
    assert again.pool.pending == listening.pool.pending && again.pool.subs == w.pool.subs;
    hide ApplyAll;
  }

  /** A LISTEN between the loss and the next statement is buffered, where PostgreSQL subscribes at once. */
  lemma ListenAfterLossIsBuffered(w: World, ch: Channel)
    requires Faithful(w) && w.tx.InBlock? && ch !in w.pool.subs
    ensures var z := Step(Step(w, Lost), Do(Listen(ch)));
      ch in z.reference.visible && ch !in z.pool.subs
  {
  }

  /** For instance a LISTEN of a channel that is not subscribed: the next commit subscribes to it. */
  lemma LostTransactionStillListens(w: World, ch: Channel)
    requires Faithful(w) && w.tx.Idle? && ch !in w.pool.subs
    ensures var listening := Step(Step(w, Begin), Do(Listen(ch)));
      var after := Step(Step(Step(listening, Lost), Begin), Commit);
      ch in after.pool.subs && ch !in after.reference.visible
  {
    CommitTags();
    var listening := Step(Step(w, Begin), Do(Listen(ch)));
    assert listening.pool.pending == [] + [Listen(ch)] && listening.pool.subs == w.pool.subs;
    hide IsCommit;
    ApplySnoc(w.pool.subs, [], Listen(ch));
    var again := Step(Step(listening, Lost), Begin);
    assert again.pool.pending == listening.pool.pending && again.pool.subs == w.pool.subs;
    hide ApplyAll;
  }
}
