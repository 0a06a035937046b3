/** The event manager's subscription index (events/eventsManager.go).

    Who listens to what is held twice: by client, to answer the client, and by topic, to send
    events. Both are nested maps changed together under one lock. */
module Subscriptions {

  type Client = nat

  const VALID_ACTIONS := ["get", "create", "update", "delete", "any"]
  const VALID_STATUSES := ["queued", "start", "success", "warn", "failed", "error"]

  /** client -> topic -> action -> statuses */
  type ClientIndex = map<Client, map<string, map<string, set<string>>>>

  /** topic -> action -> status -> clients */
  type TopicIndex = map<string, map<string, map<string, set<Client>>>>

  predicate InClients(clients: ClientIndex, c: Client, t: string, a: string, s: string) {
    c in clients && t in clients[c] && a in clients[c][t] && s in clients[c][t][a]
  }

  predicate InTopics(targets: TopicIndex, c: Client, t: string, a: string, s: string) {
    t in targets && a in targets[t] && s in targets[t][a] && c in targets[t][a][s]
  }

  predicate HasTopic(clients: ClientIndex, c: Client, t: string) {
    c in clients && t in clients[c]
  }

  predicate HasAction(clients: ClientIndex, c: Client, t: string, a: string) {
    HasTopic(clients, c, t) && a in clients[c][t]
  }

  predicate HasSlot(targets: TopicIndex, t: string, a: string, s: string) {
    t in targets && a in targets[t] && s in targets[t][a]
  }

  predicate MeansAll(name: string) {
    name == "" || name == "any" || name == "all"
  }

  // ---- Single entries ----

  function AddClient(clients: ClientIndex, c: Client, t: string, a: string, s: string): (r: ClientIndex)
    ensures forall c', t', a', s' :: InClients(r, c', t', a', s') <==>
              InClients(clients, c', t', a', s') || (c' == c && t' == t && a' == a && s' == s)
    ensures forall c', t', a' :: HasAction(r, c', t', a') <==> HasAction(clients, c', t', a') || (c' == c && t' == t && a' == a)
    ensures forall c', t' :: HasTopic(r, c', t') <==> HasTopic(clients, c', t') || (c' == c && t' == t)
  {
    var topics := if c in clients then clients[c] else map[];
    var actions := if t in topics then topics[t] else map[];
    var statuses := if a in actions then actions[a] else {};
    clients[c := topics[t := actions[a := statuses + {s}]]]
  }

  function AddTopic(targets: TopicIndex, c: Client, t: string, a: string, s: string): (r: TopicIndex)
    requires HasSlot(targets, t, a, s)
    ensures forall c', t', a', s' :: InTopics(r, c', t', a', s') <==>
              InTopics(targets, c', t', a', s') || (c' == c && t' == t && a' == a && s' == s)
    ensures SameShape(targets, r)
  {
    targets[t := targets[t][a := targets[t][a][s := targets[t][a][s] + {c}]]]
  }

  /** Deleting from a missing map does nothing. */
  function DropTopic(targets: TopicIndex, c: Client, t: string, a: string, s: string): (r: TopicIndex)
    ensures forall c', t', a', s' :: InTopics(r, c', t', a', s') <==>
              InTopics(targets, c', t', a', s') && !(c' == c && t' == t && a' == a && s' == s)
    ensures SameShape(targets, r)
  {
    if HasSlot(targets, t, a, s)
    then targets[t := targets[t][a := targets[t][a][s := targets[t][a][s] - {c}]]]
    else targets
  }

  /** delete(clients[c][t][a], s) */
  function DropStatus(clients: ClientIndex, c: Client, t: string, a: string, s: string): (r: ClientIndex)
    requires InClients(clients, c, t, a, s)
    ensures forall c', t', a', s' :: InClients(r, c', t', a', s') <==>
              InClients(clients, c', t', a', s') && !(c' == c && t' == t && a' == a && s' == s)
    ensures a != "any" ==> Shrinks(clients, r) && OnlyOf(clients, r, c, t)
    ensures HasAction(r, c, t, a) && forall a' :: HasAction(r, c, t, a') <==> HasAction(clients, c, t, a')
  {
    clients[c := clients[c][t := clients[c][t][a := clients[c][t][a] - {s}]]]
  }

  /** delete(clients[c][t], a) */
  function DropAction(clients: ClientIndex, c: Client, t: string, a: string): (r: ClientIndex)
    requires HasTopic(clients, c, t)
    ensures forall c', t', a', s' :: InClients(r, c', t', a', s') <==>
              InClients(clients, c', t', a', s') && !(c' == c && t' == t && a' == a)
    ensures Shrinks(clients, r) && OnlyOf(clients, r, c, t)
    ensures HasTopic(r, c, t) && r[c][t] == clients[c][t] - {a}
  {
    clients[c := clients[c][t := clients[c][t] - {a}]]
  }

  /** delete(clients[c], t) */
  function DropWholeTopic(clients: ClientIndex, c: Client, t: string): (r: ClientIndex)
    requires c in clients
    ensures forall c', t', a', s' :: InClients(r, c', t', a', s') <==> InClients(clients, c', t', a', s') && !(c' == c && t' == t)
    ensures Shrinks(clients, r) && OnlyOf(clients, r, c, t)
    ensures c in r && r[c] == clients[c] - {t}
  {
    clients[c := clients[c] - {t}]
  }

  /** Removes the action if no status of it is left. */
  function TrimAction(clients: ClientIndex, c: Client, t: string, a: string): (r: ClientIndex)
    requires HasAction(clients, c, t, a)
    ensures forall c', t', a', s' :: InClients(r, c', t', a', s') <==> InClients(clients, c', t', a', s')
    ensures a != "any" ==> Shrinks(clients, r) && OnlyOf(clients, r, c, t)
    ensures HasTopic(r, c, t) && forall a' :: a' != a ==> (HasAction(r, c, t, a') <==> HasAction(clients, c, t, a'))
  {
    if clients[c][t][a] == {} then DropAction(clients, c, t, a) else clients
  }

  /** Removes the topic if no action of it is left. */
  function TrimTopic(clients: ClientIndex, c: Client, t: string): (r: ClientIndex)
    requires HasTopic(clients, c, t)
    ensures forall c', t', a', s' :: InClients(r, c', t', a', s') <==> InClients(clients, c', t', a', s')
    ensures Shrinks(clients, r) && OnlyOf(clients, r, c, t)
    ensures forall a' :: HasAction(r, c, t, a') <==> HasAction(clients, c, t, a')
  {
    if |clients[c][t]| == 0 then DropWholeTopic(clients, c, t) else clients
  }

  /** Only client c's part of topic t changed. */
  ghost predicate OnlyOf(clients: ClientIndex, clients': ClientIndex, c: Client, t: string) {
    && (forall c', t' :: c' != c || t' != t ==> (HasTopic(clients', c', t') <==> HasTopic(clients, c', t')))
    && (forall c', t', a :: c' != c || t' != t ==> (HasAction(clients', c', t', a) <==> HasAction(clients, c', t', a)))
  }

  lemma ShrinksTwice(x: ClientIndex, y: ClientIndex, z: ClientIndex, c: Client, t: string)
    requires Shrinks(x, y) && Shrinks(y, z) && OnlyOf(x, y, c, t) && OnlyOf(y, z, c, t)
    ensures Shrinks(x, z) && OnlyOf(x, z, c, t)
  {
  }

  /** Nothing new, and an "any" that is still there has kept its statuses. */
  ghost predicate Shrinks(clients: ClientIndex, clients': ClientIndex) {
    && (forall c, t :: HasTopic(clients', c, t) ==> HasTopic(clients, c, t))
    && (forall c, t, a :: HasAction(clients', c, t, a) ==> HasAction(clients, c, t, a))
    && (forall c, t, a, s :: InClients(clients', c, t, a, s) ==> InClients(clients, c, t, a, s))
    && (forall c, t, s :: HasAction(clients', c, t, "any") && InClients(clients, c, t, "any", s) ==> InClients(clients', c, t, "any", s))
  }

  ghost predicate SameShape(targets: TopicIndex, targets': TopicIndex) {
    && targets'.Keys == targets.Keys
    && (forall t, a, s :: HasSlot(targets', t, a, s) <==> HasSlot(targets, t, a, s))
  }

  // ---- What each operation does, entry by entry ----

  /** Whether subscribing to (action, status) covers (a, s). Naming every action covers every
      status too, whichever status is named. */
  predicate Covers(action: string, status: string, a: string, s: string) {
    && a in VALID_ACTIONS && s in VALID_STATUSES
    && (MeansAll(action) || (a == action && (MeansAll(status) || s == status)))
  }

  predicate Subscribable(targets: TopicIndex, topic: string, action: string, status: string) {
    topic in targets && (MeansAll(action) || action in VALID_ACTIONS) && (MeansAll(status) || status in VALID_STATUSES)
  }

  /** The client-map entries an unsubscribe removes. With every action and one status it
      removes each action that has that status, with all of its statuses. */
  predicate LeavesClients(clients: ClientIndex, c: Client, topic: string, action: string, status: string, a: string, s: string) {
    && InClients(clients, c, topic, a, s)
    && (MeansAll(action) || a == action)
    && (MeansAll(status) || (if MeansAll(action) then InClients(clients, c, topic, a, status) else s == status))
  }

  /** The topic-map entries the same unsubscribe removes: only the named status. */
  predicate LeavesTopics(clients: ClientIndex, c: Client, topic: string, action: string, status: string, a: string, s: string) {
    && InClients(clients, c, topic, a, s)
    && (MeansAll(action) || a == action)
    && (MeansAll(status) || s == status)
  }

  datatype Index = Index(clients: ClientIndex, targets: TopicIndex)

  /** Both maps hold every valid action and status of every topic, clients hold only those, and
      a client holding the literal action "any" holds it with every status. */
  ghost predicate Valid(x: Index) {
    Shaped(x.targets) && Named(x) && AnyFull(x.clients)
  }

  ghost predicate Shaped(targets: TopicIndex) {
    forall t, a, s :: t in targets && a in VALID_ACTIONS && s in VALID_STATUSES ==> HasSlot(targets, t, a, s)
  }

  ghost predicate Named(x: Index) {
    && (forall c, t :: HasTopic(x.clients, c, t) ==> t in x.targets)
    && (forall c, t, a :: HasAction(x.clients, c, t, a) ==> a in VALID_ACTIONS)
    && (forall c, t, a, s :: InClients(x.clients, c, t, a, s) ==> s in VALID_STATUSES)
  }

  ghost predicate AnyFull(clients: ClientIndex) {
    forall c, t, s :: HasAction(clients, c, t, "any") && s in VALID_STATUSES ==> InClients(clients, c, t, "any", s)
  }

  ghost predicate Subscribed(x: Index, x': Index, c: Client, topic: string, action: string, status: string) {
    if Subscribable(x.targets, topic, action, status) then
      forall c', t, a, s ::
        && (InClients(x'.clients, c', t, a, s) <==>
              InClients(x.clients, c', t, a, s) || (c' == c && t == topic && Covers(action, status, a, s)))
        && (InTopics(x'.targets, c', t, a, s) <==>
              InTopics(x.targets, c', t, a, s) || (c' == c && t == topic && Covers(action, status, a, s)))
    else x' == x
  }

  ghost predicate Unsubscribed(x: Index, x': Index, c: Client, topic: string, action: string, status: string) {
    forall c', t, a, s ::
      && (InClients(x'.clients, c', t, a, s) <==>
            InClients(x.clients, c', t, a, s) && !(c' == c && t == topic && LeavesClients(x.clients, c, topic, action, status, a, s)))
      && (InTopics(x'.targets, c', t, a, s) <==>
            InTopics(x.targets, c', t, a, s) && !(c' == c && t == topic && LeavesTopics(x.clients, c, topic, action, status, a, s)))
  }

  ghost predicate Agree(x: Index) {
    forall c, t, a, s :: InClients(x.clients, c, t, a, s) <==> InTopics(x.targets, c, t, a, s)
  }

  /** Everything a client believes it listens to, its topic sends it. */
  ghost predicate Inside(x: Index) {
    forall c, t, a, s :: InClients(x.clients, c, t, a, s) ==> InTopics(x.targets, c, t, a, s)
  }

  class EventManager {
    var clients: ClientIndex
    var targets: TopicIndex

    ghost function Now(): Index
      reads this
    {
      Index(clients, targets)
    }

    constructor ()
      ensures Now() == Index(map[], map[])
    {
      clients, targets := map[], map[];
    }

    /** Adds one entry to both maps. */
    method Enter(c: Client, t: string, a: string, s: string)
      requires HasSlot(targets, t, a, s)
      modifies this
      ensures clients == AddClient(old(clients), c, t, a, s)
      ensures targets == AddTopic(old(targets), c, t, a, s)
    {
      clients := AddClient(clients, c, t, a, s);
      targets := AddTopic(targets, c, t, a, s);
    }

    /** Adds the entries of one action. */
    method EnterStatuses(c: Client, topic: string, action: string, statuses: seq<string>)
      requires HasShape(targets, topic, [action], statuses)
      modifies this
      ensures Entered(old(Now()), Now(), c, topic, Pairs([action], statuses), {action})
    {
      var j := 0;
      ghost var x0, now, acts := Now(), Now(), {action};
      while j < |statuses|
        invariant 0 <= j <= |statuses|
        invariant now == Now() && HasShape(now.targets, topic, [action], statuses)
        invariant Entered(x0, now, c, topic, Pairs([action], statuses[..j]), acts)
      {
        ghost var x1 := now;
        assert action in [action] && statuses[j] in statuses;
        Enter(c, topic, action, statuses[j]);
        now := Now();
        ShapeKept(x1.targets, now.targets, topic, [action], statuses);
        EnteredTwice(x0, x1, now, c, topic, Pairs([action], statuses[..j]), {(action, statuses[j])}, acts, acts);
        PairsSnoc(action, statuses, j);
        assert acts + acts == acts;
        j := j + 1;
      }
      assert statuses[..j] == statuses;
    }

    method EnterAll(c: Client, topic: string, actions: seq<string>, statuses: seq<string>)
      requires HasShape(targets, topic, actions, statuses)
      modifies this
      ensures Entered(old(Now()), Now(), c, topic, Pairs(actions, statuses), Names(actions))
    {
      var i := 0;
      ghost var x0 := Now();
      while i < |actions|
        invariant 0 <= i <= |actions|
        invariant HasShape(targets, topic, actions, statuses)
        invariant Entered(x0, Now(), c, topic, Pairs(actions[..i], statuses), Names(actions[..i]))
      {
        ghost var x1 := Now();
        EnterStatuses(c, topic, actions[i], statuses);
        ShapeKept(x1.targets, targets, topic, actions, statuses);
        EnteredTwice(x0, x1, Now(), c, topic, Pairs(actions[..i], statuses), Pairs([actions[i]], statuses),
                     Names(actions[..i]), {actions[i]});
        assert actions[..i + 1] == actions[..i] + [actions[i]];
        assert Pairs(actions[..i + 1], statuses) == Pairs(actions[..i], statuses) + Pairs([actions[i]], statuses);
        assert Names(actions[..i + 1]) == Names(actions[..i]) + {actions[i]};
        i := i + 1;
      }
      assert actions[..i] == actions;
    }

    /** Subscribes c to an action and status of a topic, if all three are valid. */
    method RegisterUnsafe(c: Client, topic: string, action: string, status: string) returns (ok: bool)
      requires Valid(Now())
      modifies this
      ensures Valid(Now())
      ensures ok == Subscribable(old(targets), topic, action, status)
      ensures Subscribed(old(Now()), Now(), c, topic, action, status)
    {
      ok := Subscribable(targets, topic, action, status);
      if !ok {
        return;
      }
      ghost var x0 := Now();
      if MeansAll(action) {
        EnterAll(c, topic, VALID_ACTIONS, VALID_STATUSES);
        EnteredIsSubscribed(x0, Now(), c, topic, action, status, VALID_ACTIONS, VALID_STATUSES);
      } else if MeansAll(status) {
        EnterStatuses(c, topic, action, VALID_STATUSES);
        EnteredIsSubscribed(x0, Now(), c, topic, action, status, [action], VALID_STATUSES);
      } else {
        Enter(c, topic, action, status);
        EnteredIsSubscribed(x0, Now(), c, topic, action, status, [action], [status]);
      }
    }

    /** Unsubscribes c from a topic: every action or one, every status or one. */
    method UnregisterUnsafe(c: Client, topic: string, action: string, status: string) returns (ok: bool)
      requires Valid(Now())
      modifies this
      ensures Valid(Now())
      ensures Unsubscribed(old(Now()), Now(), c, topic, action, status)
      ensures Removed(old(Now()), Now(), c, topic)
      ensures ok == Unsubscribable(old(Now()), c, topic, action, status)
      ensures !MeansAll(action) ==>
                forall a :: a != action ==> (HasAction(clients, c, topic, a) <==> HasAction(old(clients), c, topic, a))
    {
      ghost var x0 := Now();
      if topic !in targets || !HasTopic(clients, c, topic) {
        assert !HasTopic(clients, c, topic);
        return false;
      }
      if !MeansAll(action) {
        ok := UnregisterAction(c, topic, action, status);
      } else if MeansAll(status) {
        LeaveTopicEverywhere(c, topic, clients[c][topic].Keys);
        clients := DropWholeTopic(clients, c, topic);
        ok := true;
      } else {
        DropActionsWithStatus(c, topic, status);
        ok := true;
      }
      RemovedValid(x0, Now(), c, topic);
    }

    /** The same for one action. What is left empty is removed. */
    method UnregisterAction(c: Client, topic: string, action: string, status: string) returns (ok: bool)
      requires Valid(Now()) && topic in targets && HasTopic(clients, c, topic) && !MeansAll(action)
      modifies this
      ensures Unsubscribed(old(Now()), Now(), c, topic, action, status)
      ensures Removed(old(Now()), Now(), c, topic)
      ensures ok == Unsubscribable(old(Now()), c, topic, action, status)
      ensures !MeansAll(action) ==>
                forall a :: a != action ==> (HasAction(clients, c, topic, a) <==> HasAction(old(clients), c, topic, a))
    {
      if action !in VALID_ACTIONS || !HasAction(clients, c, topic, action) {
        assert !HasAction(clients, c, topic, action);
        return false;
      }
      ghost var x0 := Now();
      if MeansAll(status) {
        LeaveTopicEverywhere(c, topic, {action});
        clients := DropAction(clients, c, topic, action);
      } else {
        if status !in VALID_STATUSES || !InClients(clients, c, topic, action, status) {
          assert !InClients(clients, c, topic, action, status);
          return false;
        }
        LeaveStatus(c, topic, action, status);
      }
      ghost var trimmed := clients;
      clients := TrimTopic(clients, c, topic);
      ShrinksTwice(x0.clients, trimmed, clients, c, topic);
      ok := true;
    }

    /** One status of one action, and the action too if that was its last. */
    method LeaveStatus(c: Client, topic: string, action: string, status: string)
      requires Valid(Now()) && InClients(clients, c, topic, action, status) && action != "any"
      modifies this
      ensures HasTopic(clients, c, topic) && Removed(old(Now()), Now(), c, topic)
      ensures forall c', t, a, s :: InClients(clients, c', t, a, s) <==>
                InClients(old(clients), c', t, a, s) && !(c' == c && t == topic && a == action && s == status)
      ensures forall c', t, a, s :: InTopics(targets, c', t, a, s) <==>
                InTopics(old(targets), c', t, a, s) && !(c' == c && t == topic && a == action && s == status)
      ensures forall a :: a != action ==> (HasAction(clients, c, topic, a) <==> HasAction(old(clients), c, topic, a))
    {
      ghost var x0 := Now();
      targets := DropTopic(targets, c, topic, action, status);
      clients := DropStatus(clients, c, topic, action, status);
      ghost var dropped := clients;
      clients := TrimAction(clients, c, topic, action);
      ShrinksTwice(x0.clients, dropped, clients, c, topic);
    }

    /** Takes c out of the topic map for each of its statuses of some of its actions. The
        actions, and each one's statuses, are visited in no particular order. */
    method LeaveTopicEverywhere(c: Client, topic: string, actions: set<string>)
      requires forall a :: a in actions ==> HasAction(clients, c, topic, a)
      modifies this`targets
      ensures SameShape(old(targets), targets)
      ensures forall c', t, a, s :: InTopics(targets, c', t, a, s) <==>
                InTopics(old(targets), c', t, a, s) && !(c' == c && t == topic && a in actions && InClients(clients, c, topic, a, s))
    {
      var todo := actions;
      while todo != {}
        invariant todo <= actions
        invariant SameShape(old(targets), targets)
        invariant forall c', t, a, s :: InTopics(targets, c', t, a, s) <==>
                    InTopics(old(targets), c', t, a, s)
                    && !(c' == c && t == topic && a in actions - todo && InClients(clients, c, topic, a, s))
        decreases todo
      {
        var a :| a in todo;
        var statuses := clients[c][topic][a];
        ghost var before := targets;
        while statuses != {}
          invariant statuses <= clients[c][topic][a]
          invariant SameShape(before, targets)
          invariant forall c', t, a', s :: InTopics(targets, c', t, a', s) <==>
                      InTopics(before, c', t, a', s)
                      && !(c' == c && t == topic && a' == a && InClients(clients, c, topic, a, s) && s !in statuses)
          decreases statuses
        {
          var s :| s in statuses;
          targets := DropTopic(targets, c, topic, a, s);
          statuses := statuses - {s};
        }
        todo := todo - {a};
      }
    }

    /** Drops each action that has the status, but clears only that status from the topic map. */
    method DropActionsWithStatus(c: Client, topic: string, status: string)
      requires HasTopic(clients, c, topic)
      modifies this
      ensures Shrinks(old(clients), clients) && SameShape(old(targets), targets)
      ensures forall c', t, a, s :: InClients(clients, c', t, a, s) <==>
                InClients(old(clients), c', t, a, s) && !(c' == c && t == topic && InClients(old(clients), c, topic, a, status))
      ensures forall c', t, a, s :: InTopics(targets, c', t, a, s) <==>
                InTopics(old(targets), c', t, a, s)
                && !(c' == c && t == topic && s == status && InClients(old(clients), c, topic, a, status))
      ensures forall c', t, a :: HasAction(clients, c', t, a) <==>
                HasAction(old(clients), c', t, a) && !(c' == c && t == topic && InClients(old(clients), c, topic, a, status))
      ensures forall c', t :: HasTopic(clients, c', t) <==> HasTopic(old(clients), c', t)
    {
      var todo := clients[c][topic].Keys;
      ghost var all := todo;
      while todo != {}
        invariant todo <= all && HasTopic(clients, c, topic)
        invariant Shrinks(old(clients), clients) && SameShape(old(targets), targets)
        invariant forall c', t, a, s :: InClients(clients, c', t, a, s) <==>
                    InClients(old(clients), c', t, a, s)
                    && !(c' == c && t == topic && a in all - todo && InClients(old(clients), c, topic, a, status))
        invariant forall c', t, a, s :: InTopics(targets, c', t, a, s) <==>
                    InTopics(old(targets), c', t, a, s)
                    && !(c' == c && t == topic && s == status && a in all - todo && InClients(old(clients), c, topic, a, status))
        invariant forall c', t, a :: HasAction(clients, c', t, a) <==>
                    HasAction(old(clients), c', t, a)
                    && !(c' == c && t == topic && a in all - todo && InClients(old(clients), c, topic, a, status))
        invariant forall c', t :: HasTopic(clients, c', t) <==> HasTopic(old(clients), c', t)
        decreases todo
      {
        var a :| a in todo;
        todo := todo - {a};
        assert InClients(clients, c, topic, a, status) <==> InClients(old(clients), c, topic, a, status);
        if InClients(clients, c, topic, a, status) {
          targets := DropTopic(targets, c, topic, a, status);
          clients := DropAction(clients, c, topic, a);
        }
      }
    }

    /** Ends a client: unsubscribes it from all it holds, one action and status at a time, and
        forgets it. Each range loop meets only the entries still there, in no set order. */
    method UnhandleClient(client: Client)
      requires Valid(Now())
      modifies this
      ensures Valid(Now())
      ensures Disconnected(old(Now()), Now(), client)
    {
      var todo := if client in clients then clients[client].Keys else {};
      ghost var x0, all := Now(), todo;
      while todo != {}
        invariant todo <= all && Valid(Now())
        invariant forall t :: t in todo ==> HasTopic(clients, client, t)
        invariant forall c, t, a, s :: c != client || t !in all - todo ==>
                    (InClients(clients, c, t, a, s) <==> InClients(x0.clients, c, t, a, s))
                    && (InTopics(targets, c, t, a, s) <==> InTopics(x0.targets, c, t, a, s))
        invariant forall t, a :: t in todo ==> (HasAction(clients, client, t, a) <==> HasAction(x0.clients, client, t, a))
        invariant forall t :: t in all - todo ==> TopicLeft(x0, targets, client, t)
        decreases todo
      {
        var t :| t in todo;
        ghost var x1 := Now();
        UnhandleTopic(client, t);
        ghost var x2 := Now();
        forall t' | t' in all - todo ensures TopicLeft(x0, x2.targets, client, t') {
          assert TopicLeft(x0, x1.targets, client, t');
          LeftStays(x0, x1, x2, client, t', t);
        }
        LeftFrom(x0, x1, targets, client, t);
        todo := todo - {t};
      }
      ForgetValid(Now(), client);
      clients := clients - {client};
      DisconnectedFrom(x0, Now(), client, all);
    }

    /** The loop over one topic's actions. */
    method UnhandleTopic(client: Client, t: string)
      requires Valid(Now()) && HasTopic(clients, client, t)
      modifies this
      ensures Valid(Now())
      ensures Within(old(Now()), Now(), client, t)
      ensures TopicLeft(old(Now()), targets, client, t)
    {
      var todo := clients[client][t].Keys;
      ghost var x0 := Now();
      while todo != {}
        invariant Valid(Now()) && Within(x0, Now(), client, t)
        invariant forall a :: a in todo ==> HasAction(clients, client, t, a)
        invariant ActionsLeft(x0, Now(), client, t, todo)
        decreases todo
      {
        var a :| a in todo;
        ghost var x1, todo1 := Now(), todo;
        if a == "any" {
          UnhandleAny(client, t);
        } else {
          UnhandleAction(client, t, a);
        }
        WithinTwice(x0, x1, Now(), client, t);
        todo := if HasTopic(clients, client, t) then (todo - {a}) * clients[client][t].Keys else {};
        ActionsLeftStep(x0, x1, Now(), client, t, a, todo1, todo);
      }
      TopicLeftFrom(x0, Now(), client, t);
    }

    /** The loop over one action's statuses, but for the literal action "any". */
    method UnhandleAction(client: Client, t: string, a: string)
      requires Valid(Now()) && HasAction(clients, client, t, a) && a != "any"
      modifies this
      ensures Valid(Now())
      ensures Within(old(Now()), Now(), client, t)
      ensures ActionGone(old(Now()), Now(), client, t, a)
      ensures forall a' :: a' != a ==> ActionKept(old(Now()), Now(), client, t, a')
    {
      var todo := clients[client][t][a];
      ghost var x0, now, done := Now(), Now(), {};
      while todo != {}
        invariant todo + done == x0.clients[client][t][a] && todo !! done
        invariant now == Now() && Valid(now) && Within(x0, now, client, t)
        invariant StatusesLeft(x0, now, client, t, a, done)
        decreases todo
      {
        var s :| s in todo;
        ghost var x1 := now;
        ValidNames(x0, client, t, a, s);
        var _ := UnregisterUnsafe(client, t, a, s);
        now := Now();
        UnsubscribedWithin(x1, now, client, t, a, s);
        WithinTwice(x0, x1, now, client, t);
        StatusesLeftStep(x0, x1, now, client, t, a, s, done);
        todo, done := todo - {s}, done + {s};
      }
    }

    /** The loop over the statuses of the literal action "any". Each turn unsubscribes every
        action that still has the status, "any" itself included on the first, and so clears
        from the topic only the first status named of each. The turns go on: the statuses
        being ranged over are still there when their action is not. */
    method UnhandleAny(client: Client, t: string)
      requires Valid(Now()) && HasAction(clients, client, t, "any")
      modifies this
      ensures Valid(Now())
      ensures Within(old(Now()), Now(), client, t)
      ensures exists order :: FirstsLeft(old(Now()), Now(), client, t, order) && NamesAll(order)
      ensures forall a, s :: !InClients(clients, client, t, a, s)
    {
      var todo := clients[client][t]["any"];
      ghost var x0, order: seq<string> := Now(), [];
      while todo != {}
        invariant todo <= x0.clients[client][t]["any"]
        invariant forall s :: InClients(x0.clients, client, t, "any", s) && s !in todo ==> s in order
        invariant Valid(Now()) && Within(x0, Now(), client, t)
        invariant FirstsLeft(x0, Now(), client, t, order)
        decreases todo
      {
        var s :| s in todo;
        ghost var x1 := Now();
        assert InClients(x0.clients, client, t, "any", s);
        var _ := UnregisterUnsafe(client, t, "any", s);
        assert !MeansAll(s);
        UnsubscribedWithin(x1, Now(), client, t, "any", s);
        WithinTwice(x0, x1, Now(), client, t);
        FirstsLeftStep(x0, x1, Now(), client, t, order, s);
        order := order + [s];
        todo := todo - {s};
      }
      NoneHeld(x0, Now(), client, t, order);
      assert NamesAll(order) by {
        forall s | s in VALID_STATUSES ensures s in order {
          assert InClients(x0.clients, client, t, "any", s);
        }
      }
    }

    /** Makes a topic's slots anew, empty, replacing any it had. */
    method EnableTopicUnsafe(topic: string)
      requires Valid(Now())
      modifies this`targets
      ensures Valid(Now())
      ensures Enabled(old(Now()), Now(), topic)
    {
      ghost var x := Now();
      var slots := EmptySlots(VALID_ACTIONS, VALID_STATUSES);
      targets := targets[topic := slots];
      assert Shaped(targets) by {
        forall t, a, s | t in targets && a in VALID_ACTIONS && s in VALID_STATUSES ensures HasSlot(targets, t, a, s) {
          assert t != topic ==> HasSlot(x.targets, t, a, s);
        }
      }
    }
  }

  /** An empty slot for each action and status. */
  method EmptySlots(actions: seq<string>, statuses: seq<string>) returns (slots: map<string, map<string, set<Client>>>)
    ensures forall a :: a in slots <==> a in actions
    ensures forall a, s :: a in slots ==> (s in slots[a] <==> s in statuses)
    ensures forall a, s :: a in slots && s in slots[a] ==> slots[a][s] == {}
  {
    slots := map[];
    for i := 0 to |actions|
      invariant forall a :: a in slots <==> a in actions[..i]
      invariant forall a, s :: a in slots ==> (s in slots[a] <==> s in statuses)
      invariant forall a, s :: a in slots && s in slots[a] ==> slots[a][s] == {}
    {
      var inner := EmptyStatuses(statuses);
      slots := slots[actions[i] := inner];
      assert actions[..i + 1] == actions[..i] + [actions[i]];
    }
    assert actions[..|actions|] == actions;
  }

  method EmptyStatuses(statuses: seq<string>) returns (inner: map<string, set<Client>>)
    ensures forall s :: s in inner <==> s in statuses
    ensures forall s :: s in inner ==> inner[s] == {}
  {
    inner := map[];
    for j := 0 to |statuses|
      invariant forall s :: s in inner <==> s in statuses[..j]
      invariant forall s :: s in inner ==> inner[s] == {}
    {
      inner := inner[statuses[j] := {}];
      assert statuses[..j + 1] == statuses[..j] + [statuses[j]];
    }
    assert statuses[..|statuses|] == statuses;
  }

  // ---- Disconnecting ----

  /** Only client c's part of topic t changed, and it only lost entries. */
  ghost predicate Within(x: Index, x': Index, c: Client, t: string) {
    && Removed(x, x', c, t)
    && (forall c', t', a, s :: c' != c || t' != t ==>
          (InClients(x'.clients, c', t', a, s) <==> InClients(x.clients, c', t', a, s))
          && (InTopics(x'.targets, c', t', a, s) <==> InTopics(x.targets, c', t', a, s)))
    && (forall a, s :: InTopics(x'.targets, c, t, a, s) ==> InTopics(x.targets, c, t, a, s))
  }

  lemma WithinTwice(x: Index, y: Index, z: Index, c: Client, t: string)
    requires Within(x, y, c, t) && Within(y, z, c, t)
    ensures Within(x, z, c, t)
  {
    ShrinksTwice(x.clients, y.clients, z.clients, c, t);
  }

  /** The topic lost exactly the entries the client held of this action. */
  ghost predicate ActionLeft(x: Index, targets: TopicIndex, c: Client, t: string, a: string) {
    forall s :: InTopics(targets, c, t, a, s) <==> InTopics(x.targets, c, t, a, s) && !InClients(x.clients, c, t, a, s)
  }

  ghost predicate ActionKept(x: Index, x': Index, c: Client, t: string, a: string) {
    && (HasAction(x'.clients, c, t, a) <==> HasAction(x.clients, c, t, a))
    && (forall s :: InTopics(x'.targets, c, t, a, s) <==> InTopics(x.targets, c, t, a, s))
    && (forall s :: InClients(x'.clients, c, t, a, s) <==> InClients(x.clients, c, t, a, s))
  }

  /** s is the first of the statuses in order that the client held of action a. */
  ghost predicate FirstNamed(clients: ClientIndex, c: Client, t: string, order: seq<string>, a: string, s: string) {
    exists i :: NamedAt(clients, c, t, order, a, s, i)
  }

  ghost predicate NamedAt(clients: ClientIndex, c: Client, t: string, order: seq<string>, a: string, s: string, i: int) {
    0 <= i < |order| && order[i] == s && InClients(clients, c, t, a, s) && NoneNamed(clients, c, t, order[..i], a)
  }

  ghost predicate NoneNamed(clients: ClientIndex, c: Client, t: string, order: seq<string>, a: string) {
    forall s :: s in order ==> !InClients(clients, c, t, a, s)
  }

  /** After unsubscribing every action from each status in turn: an action is still held if it
      had none of them, and the topic lost of each action the first one it had. */
  ghost predicate FirstsLeft(x: Index, x': Index, c: Client, t: string, order: seq<string>) {
    && (forall a, s :: InClients(x'.clients, c, t, a, s) <==> InClients(x.clients, c, t, a, s) && NoneNamed(x.clients, c, t, order, a))
    && (forall a, s :: InTopics(x'.targets, c, t, a, s) <==> InTopics(x.targets, c, t, a, s) && !FirstNamed(x.clients, c, t, order, a, s))
  }

  lemma FirstNamedSnoc(clients: ClientIndex, c: Client, t: string, order: seq<string>, last: string, a: string, s: string)
    ensures FirstNamed(clients, c, t, order + [last], a, s) <==>
              FirstNamed(clients, c, t, order, a, s)
              || (s == last && InClients(clients, c, t, a, s) && NoneNamed(clients, c, t, order, a))
    ensures NoneNamed(clients, c, t, order + [last], a) <==> NoneNamed(clients, c, t, order, a) && !InClients(clients, c, t, a, last)
  {
    var longer := order + [last];
    assert longer[..|order|] == order;
    forall i | 0 <= i < |order| ensures NamedAt(clients, c, t, longer, a, s, i) <==> NamedAt(clients, c, t, order, a, s, i) {
      assert longer[..i] == order[..i];
    }
    assert NamedAt(clients, c, t, longer, a, s, |order|) <==>
             s == last && InClients(clients, c, t, a, s) && NoneNamed(clients, c, t, order, a);
  }

  lemma FirstNamedOnce(clients: ClientIndex, c: Client, t: string, order: seq<string>, a: string, s: string, s': string)
    requires FirstNamed(clients, c, t, order, a, s) && FirstNamed(clients, c, t, order, a, s')
    ensures s == s'
  {
    var i :| NamedAt(clients, c, t, order, a, s, i);
    var j :| NamedAt(clients, c, t, order, a, s', j);
    assert forall k :: 0 <= k < i ==> order[..i][k] == order[k];
    assert forall k :: 0 <= k < j ==> order[..j][k] == order[k];
    assert forall k :: 0 <= k < i ==> order[k] in order[..i];
    assert forall k :: 0 <= k < j ==> order[k] in order[..j];
  }

  lemma FirstsLeftStep(x0: Index, x1: Index, x2: Index, c: Client, t: string, order: seq<string>, s: string)
    requires FirstsLeft(x0, x1, c, t, order) && Unsubscribed(x1, x2, c, t, "any", s) && !MeansAll(s)
    ensures FirstsLeft(x0, x2, c, t, order + [s])
  {
    forall a, s' ensures InClients(x2.clients, c, t, a, s') <==> InClients(x0.clients, c, t, a, s') && NoneNamed(x0.clients, c, t, order + [s], a) {
      FirstNamedSnoc(x0.clients, c, t, order, s, a, s');
    }
    forall a, s' ensures InTopics(x2.targets, c, t, a, s') <==> InTopics(x0.targets, c, t, a, s') && !FirstNamed(x0.clients, c, t, order + [s], a, s') {
      FirstNamedSnoc(x0.clients, c, t, order, s, a, s');
    }
  }

  /** "any" is held with every status, so each action still there is met by one of its turns. */
  lemma NoneHeld(x0: Index, x: Index, c: Client, t: string, order: seq<string>)
    requires Valid(x0) && HasAction(x0.clients, c, t, "any") && FirstsLeft(x0, x, c, t, order)
    requires forall s :: InClients(x0.clients, c, t, "any", s) ==> s in order
    ensures forall a, s :: !InClients(x.clients, c, t, a, s)
  {
    forall a, s | InClients(x0.clients, c, t, a, s) ensures !NoneNamed(x0.clients, c, t, order, a) {
      assert s in VALID_STATUSES && InClients(x0.clients, c, t, "any", s) && s in order;
    }
  }

  ghost predicate NamesAll(order: seq<string>) {
    forall s :: s in VALID_STATUSES ==> s in order
  }

  /** What disconnecting takes out of a topic. The actions in done were left one status at a
      time, all of them. Of every other action the topic lost just the first status, in the
      order the loop over "any" named them, that the client held of it. */
  ghost predicate LeftBy(x: Index, targets: TopicIndex, c: Client, t: string, done: set<string>, order: seq<string>) {
    && "any" !in done && NamesAll(order)
    && forall a, s :: InTopics(targets, c, t, a, s) <==> InTopics(x.targets, c, t, a, s) && !Cleared(x.clients, c, t, done, order, a, s)
  }

  ghost predicate Cleared(clients: ClientIndex, c: Client, t: string, done: set<string>, order: seq<string>, a: string, s: string) {
    if a in done then InClients(clients, c, t, a, s) else FirstNamed(clients, c, t, order, a, s)
  }

  /** What disconnecting leaves of a client in a topic: nothing it held, unless it held the
      literal action "any" there. */
  ghost predicate TopicLeft(x: Index, targets: TopicIndex, c: Client, t: string) {
    if HasAction(x.clients, c, t, "any") then exists done, order :: LeftBy(x, targets, c, t, done, order)
    else forall a, s :: InTopics(targets, c, t, a, s) <==> InTopics(x.targets, c, t, a, s) && !InClients(x.clients, c, t, a, s)
  }

  /** What the loop over a topic's actions has done, with todo still to visit. */
  ghost predicate ActionsLeft(x0: Index, x: Index, c: Client, t: string, todo: set<string>) {
    if HasAction(x0.clients, c, t, "any") && "any" !in todo then
      (exists done, order :: LeftBy(x0, x.targets, c, t, done, order)) && forall a, s :: !InClients(x.clients, c, t, a, s)
    else forall a :: ActionVisited(x0, x, c, t, todo, a)
  }

  ghost predicate ActionVisited(x0: Index, x: Index, c: Client, t: string, todo: set<string>, a: string) {
    if HasAction(x0.clients, c, t, a) && a !in todo then ActionGone(x0, x, c, t, a) else ActionKept(x0, x, c, t, a)
  }

  ghost predicate ActionGone(x0: Index, x: Index, c: Client, t: string, a: string) {
    ActionLeft(x0, x.targets, c, t, a) && forall s :: !InClients(x.clients, c, t, a, s)
  }

  /** What the loop over one action's statuses has done, once it has visited done. */
  ghost predicate StatusesLeft(x0: Index, x: Index, c: Client, t: string, a: string, done: set<string>) {
    && (forall s :: InClients(x.clients, c, t, a, s) <==> InClients(x0.clients, c, t, a, s) && s !in done)
    && (forall s :: InTopics(x.targets, c, t, a, s) <==> InTopics(x0.targets, c, t, a, s) && s !in done)
    && (forall a' :: a' != a ==> ActionKept(x0, x, c, t, a'))
  }

  lemma StatusesLeftStep(x0: Index, x1: Index, x2: Index, c: Client, t: string, a: string, s: string, done: set<string>)
    requires StatusesLeft(x0, x1, c, t, a, done) && InClients(x0.clients, c, t, a, s) && s !in done
    requires !MeansAll(a) && !MeansAll(s) && Unsubscribed(x1, x2, c, t, a, s)
    requires forall a' :: a' != a ==> (HasAction(x2.clients, c, t, a') <==> HasAction(x1.clients, c, t, a'))
    ensures StatusesLeft(x0, x2, c, t, a, done + {s})
  {
    forall a' | a' != a ensures ActionKept(x0, x2, c, t, a') {
      assert ActionKept(x0, x1, c, t, a');
    }
  }

  /** No stored name but "any" stands for all. */
  lemma ValidNames(x: Index, c: Client, t: string, a: string, s: string)
    requires Valid(x) && InClients(x.clients, c, t, a, s)
    ensures !MeansAll(s) && (a != "any" ==> !MeansAll(a))
  {
    assert HasAction(x.clients, c, t, a);
  }

  lemma TopicLeftFrom(x0: Index, x: Index, c: Client, t: string)
    requires ActionsLeft(x0, x, c, t, {}) && Within(x0, x, c, t)
    ensures TopicLeft(x0, x.targets, c, t)
  {
    if !HasAction(x0.clients, c, t, "any") {
      forall a, s ensures InTopics(x.targets, c, t, a, s) <==> InTopics(x0.targets, c, t, a, s) && !InClients(x0.clients, c, t, a, s) {
        assert ActionVisited(x0, x, c, t, {}, a);
      }
    }
  }

  lemma UnsubscribedWithin(x: Index, x': Index, c: Client, t: string, action: string, status: string)
    requires Removed(x, x', c, t) && Unsubscribed(x, x', c, t, action, status)
    ensures Within(x, x', c, t)
  {
  }

  /** The turn that visits "any": the actions visited before it are the ones left wholly. */
  lemma AnyVisited(x0: Index, x1: Index, x2: Index, c: Client, t: string, todo: set<string>, order: seq<string>)
    requires HasAction(x0.clients, c, t, "any") && "any" in todo && (forall a :: ActionVisited(x0, x1, c, t, todo, a))
    requires FirstsLeft(x1, x2, c, t, order) && NamesAll(order)
    ensures exists done, order' :: LeftBy(x0, x2.targets, c, t, done, order')
  {
    var done := x0.clients[c][t].Keys - todo;
    forall a, s ensures InTopics(x2.targets, c, t, a, s) <==> InTopics(x0.targets, c, t, a, s) && !Cleared(x0.clients, c, t, done, order, a, s) {
      assert ActionVisited(x0, x1, c, t, todo, a);
      assert a in done <==> HasAction(x0.clients, c, t, a) && a !in todo;
      SameNamed(x0.clients, x1.clients, c, t, order, a, s, a in done);
    }
    assert LeftBy(x0, x2.targets, c, t, done, order);
  }

  lemma SameNamed(clients: ClientIndex, clients': ClientIndex, c: Client, t: string, order: seq<string>, a: string, s: string, gone: bool)
    requires if gone then forall s' :: !InClients(clients', c, t, a, s')
             else forall s' :: InClients(clients', c, t, a, s') <==> InClients(clients, c, t, a, s')
    ensures FirstNamed(clients', c, t, order, a, s) <==> !gone && FirstNamed(clients, c, t, order, a, s)
  {
    if !gone {
      forall i | 0 <= i < |order| ensures NamedAt(clients', c, t, order, a, s, i) <==> NamedAt(clients, c, t, order, a, s, i) {
      }
    }
  }

  lemma ActionsLeftStep(x0: Index, x1: Index, x2: Index, c: Client, t: string, a: string, todo1: set<string>, todo2: set<string>)
    requires ActionsLeft(x0, x1, c, t, todo1) && a in todo1 && (forall a' :: a' in todo1 ==> HasAction(x1.clients, c, t, a'))
    requires Within(x0, x1, c, t) && Within(x1, x2, c, t)
    requires if a == "any" then (exists order :: FirstsLeft(x1, x2, c, t, order) && NamesAll(order)) && forall a', s :: !InClients(x2.clients, c, t, a', s)
             else ActionGone(x1, x2, c, t, a) && forall a' :: a' != a ==> ActionKept(x1, x2, c, t, a')
    requires todo2 == if HasTopic(x2.clients, c, t) then (todo1 - {a}) * x2.clients[c][t].Keys else {}
    ensures ActionsLeft(x0, x2, c, t, todo2)
  {
    if HasAction(x0.clients, c, t, "any") && "any" !in todo1 {
      var done, order :| LeftBy(x0, x1.targets, c, t, done, order);
      forall a', s ensures InTopics(x2.targets, c, t, a', s) <==> InTopics(x1.targets, c, t, a', s) {
        assert a' != a ==> ActionKept(x1, x2, c, t, a');
      }
      assert LeftBy(x0, x2.targets, c, t, done, order);
    } else if a == "any" {
      assert HasAction(x0.clients, c, t, "any");
      var order :| FirstsLeft(x1, x2, c, t, order) && NamesAll(order);
      AnyVisited(x0, x1, x2, c, t, todo1, order);
    } else {
      forall a' ensures ActionVisited(x0, x2, c, t, todo2, a') {
        assert ActionVisited(x0, x1, c, t, todo1, a');
        assert a' != a ==> ActionKept(x1, x2, c, t, a');
      }
      assert ActionVisited(x0, x1, c, t, todo1, "any") && ActionKept(x1, x2, c, t, "any");
    }
  }

  ghost predicate Disconnected(x: Index, x': Index, c: Client) {
    && (forall c', t, a, s :: c' != c ==>
          (InClients(x'.clients, c', t, a, s) <==> InClients(x.clients, c', t, a, s))
          && (InTopics(x'.targets, c', t, a, s) <==> InTopics(x.targets, c', t, a, s)))
    && (forall t, a, s :: !InClients(x'.clients, c, t, a, s))
    && (forall t :: TopicLeft(x, x'.targets, c, t))
  }

  lemma LeftStays(x0: Index, x1: Index, x2: Index, c: Client, t: string, other: string)
    requires TopicLeft(x0, x1.targets, c, t) && Within(x1, x2, c, other) && t != other
    ensures TopicLeft(x0, x2.targets, c, t)
  {
    if HasAction(x0.clients, c, t, "any") {
      var done, order :| LeftBy(x0, x1.targets, c, t, done, order);
      assert LeftBy(x0, x2.targets, c, t, done, order);
    }
  }

  lemma LeftFrom(x0: Index, x1: Index, targets: TopicIndex, c: Client, t: string)
    requires forall a :: HasAction(x1.clients, c, t, a) <==> HasAction(x0.clients, c, t, a)
    requires forall a, s :: (InClients(x1.clients, c, t, a, s) <==> InClients(x0.clients, c, t, a, s))
                            && (InTopics(x1.targets, c, t, a, s) <==> InTopics(x0.targets, c, t, a, s))
    requires TopicLeft(x1, targets, c, t)
    ensures TopicLeft(x0, targets, c, t)
  {
    if HasAction(x0.clients, c, t, "any") {
      var done, order :| LeftBy(x1, targets, c, t, done, order);
      forall a, s ensures Cleared(x1.clients, c, t, done, order, a, s) <==> Cleared(x0.clients, c, t, done, order, a, s) {
        SameNamed(x0.clients, x1.clients, c, t, order, a, s, false);
      }
      assert LeftBy(x0, targets, c, t, done, order);
    }
  }

  lemma DisconnectedFrom(x0: Index, x: Index, c: Client, held: set<string>)
    requires forall t :: HasTopic(x0.clients, c, t) <==> t in held
    requires forall t :: t in held ==> TopicLeft(x0, x.targets, c, t)
    requires forall c', t, a, s :: c' != c ==>
               (InClients(x.clients, c', t, a, s) <==> InClients(x0.clients, c', t, a, s))
    requires forall c', t, a, s :: c' != c || t !in held ==> (InTopics(x.targets, c', t, a, s) <==> InTopics(x0.targets, c', t, a, s))
    requires c !in x.clients
    ensures Disconnected(x0, x, c)
  {
    forall t | t !in held ensures TopicLeft(x0, x.targets, c, t) {
      assert !HasTopic(x0.clients, c, t);
    }
  }

  lemma ForgetValid(x: Index, c: Client)
    requires Valid(x)
    ensures Valid(Index(x.clients - {c}, x.targets))
  {
    var clients := x.clients - {c};
    forall c', t | HasTopic(clients, c', t) ensures HasTopic(x.clients, c', t) {}
    forall c', t, a | HasAction(clients, c', t, a) ensures HasAction(x.clients, c', t, a) {}
    forall c', t, a, s | InClients(clients, c', t, a, s) ensures InClients(x.clients, c', t, a, s) {}
    forall c', t, s | HasAction(clients, c', t, "any") && s in VALID_STATUSES ensures InClients(clients, c', t, "any", s) {
      assert InClients(x.clients, c', t, "any", s);
    }
  }

  /** The index after removing entries of one client, and nothing else. */
  ghost predicate Removed(x: Index, x': Index, c: Client, t: string) {
    && Shrinks(x.clients, x'.clients) && SameShape(x.targets, x'.targets)
    && OnlyOf(x.clients, x'.clients, c, t)
  }

  lemma RemovedValid(x: Index, x': Index, c: Client, t: string)
    requires Valid(x) && Removed(x, x', c, t)
    ensures Valid(x')
  {
    SameShapeShaped(x.targets, x'.targets);
    forall c', t', s | HasAction(x'.clients, c', t', "any") && s in VALID_STATUSES ensures InClients(x'.clients, c', t', "any", s) {
      assert HasAction(x.clients, c', t', "any") && InClients(x.clients, c', t', "any", s);
    }
  }

  /** Whether an unsubscribe is accepted; a refused one changes nothing. */
  predicate Unsubscribable(x: Index, c: Client, topic: string, action: string, status: string) {
    && topic in x.targets && HasTopic(x.clients, c, topic)
    && (MeansAll(action)
        || (action in VALID_ACTIONS && HasAction(x.clients, c, topic, action)
            && (MeansAll(status) || (status in VALID_STATUSES && InClients(x.clients, c, topic, action, status)))))
  }

  ghost function Pairs(actions: seq<string>, statuses: seq<string>): set<(string, string)> {
    set a, s | a in actions && s in statuses :: (a, s)
  }

  lemma PairsSnoc(action: string, statuses: seq<string>, j: nat)
    requires j < |statuses|
    ensures Pairs([action], statuses[..j + 1]) == Pairs([action], statuses[..j]) + {(action, statuses[j])}
  {
    assert statuses[..j + 1] == statuses[..j] + [statuses[j]];
  }

  ghost function Names(names: seq<string>): set<string> {
    set a | a in names
  }

  ghost predicate HasShape(targets: TopicIndex, topic: string, actions: seq<string>, statuses: seq<string>) {
    forall a, s :: a in actions && s in statuses ==> HasSlot(targets, topic, a, s)
  }

  lemma ShapeKept(targets: TopicIndex, targets': TopicIndex, topic: string, actions: seq<string>, statuses: seq<string>)
    requires HasShape(targets, topic, actions, statuses) && SameShape(targets, targets')
    ensures HasShape(targets', topic, actions, statuses)
  {
  }

  /** The index after adding the entries done, of the actions acts, to client c's topic. */
  ghost predicate Entered(x0: Index, x: Index, c: Client, topic: string, done: set<(string, string)>, acts: set<string>) {
    && (forall c', t, a, s :: InClients(x.clients, c', t, a, s) <==>
          InClients(x0.clients, c', t, a, s) || (c' == c && t == topic && (a, s) in done))
    && (forall c', t, a, s :: InTopics(x.targets, c', t, a, s) <==>
          InTopics(x0.targets, c', t, a, s) || (c' == c && t == topic && (a, s) in done))
    && SameShape(x0.targets, x.targets)
    && (forall c', t, a :: HasAction(x.clients, c', t, a) ==> HasAction(x0.clients, c', t, a) || (c' == c && t == topic && a in acts))
    && (forall c', t :: HasTopic(x.clients, c', t) ==> HasTopic(x0.clients, c', t) || t == topic)
  }

  lemma EnteredTwice(x0: Index, x1: Index, x2: Index, c: Client, topic: string,
                     done1: set<(string, string)>, done2: set<(string, string)>, acts1: set<string>, acts2: set<string>)
    requires Entered(x0, x1, c, topic, done1, acts1) && Entered(x1, x2, c, topic, done2, acts2)
    ensures Entered(x0, x2, c, topic, done1 + done2, acts1 + acts2)
  {
  }

  lemma SameShapeShaped(targets: TopicIndex, targets': TopicIndex)
    requires Shaped(targets) && SameShape(targets, targets')
    ensures Shaped(targets')
  {
  }

  /** Adding every pair of the named actions and statuses is the subscription, and leaves the
      index valid. */
  lemma EnteredIsSubscribed(x0: Index, x: Index, c: Client, topic: string, action: string, status: string,
                            actions: seq<string>, statuses: seq<string>)
    requires Valid(x0) && Subscribable(x0.targets, topic, action, status)
    requires Entered(x0, x, c, topic, Pairs(actions, statuses), Names(actions))
    requires actions == if MeansAll(action) then VALID_ACTIONS else [action]
    requires statuses == if MeansAll(action) || MeansAll(status) then VALID_STATUSES else [status]
    ensures Valid(x) && Subscribed(x0, x, c, topic, action, status)
  {
    var done := Pairs(actions, statuses);
    forall a, s ensures (a, s) in done <==> Covers(action, status, a, s) {
      CoversIsPairs(action, status, actions, statuses, a, s);
    }
    assert Subscribed(x0, x, c, topic, action, status);
    SameShapeShaped(x0.targets, x.targets);
    EnteredNamed(x0, x, c, topic, action, status, actions, done);
    EnteredAnyFull(x0, x, c, topic, action, actions, done);
  }

  lemma CoversIsPairs(action: string, status: string, actions: seq<string>, statuses: seq<string>, a: string, s: string)
    requires MeansAll(action) || action in VALID_ACTIONS
    requires MeansAll(status) || status in VALID_STATUSES
    requires actions == if MeansAll(action) then VALID_ACTIONS else [action]
    requires statuses == if MeansAll(action) || MeansAll(status) then VALID_STATUSES else [status]
    ensures (a, s) in Pairs(actions, statuses) <==> Covers(action, status, a, s)
  {
  }

  lemma EnteredNamed(x0: Index, x: Index, c: Client, topic: string, action: string, status: string,
                     actions: seq<string>, done: set<(string, string)>)
    requires Named(x0) && topic in x0.targets && Entered(x0, x, c, topic, done, Names(actions))
    requires forall a, s :: (a, s) in done ==> Covers(action, status, a, s)
    requires forall a :: a in actions ==> a in VALID_ACTIONS
    ensures Named(x)
  {
    forall c', t, a, s | InClients(x.clients, c', t, a, s) ensures s in VALID_STATUSES {
      if !InClients(x0.clients, c', t, a, s) { assert (a, s) in done; }
    }
  }

  lemma EnteredAnyFull(x0: Index, x: Index, c: Client, topic: string, action: string, actions: seq<string>, done: set<(string, string)>)
    requires AnyFull(x0.clients) && Entered(x0, x, c, topic, done, Names(actions))
    requires "any" in actions ==> forall s :: s in VALID_STATUSES ==> ("any", s) in done
    ensures AnyFull(x.clients)
  {
    forall c', t, s | HasAction(x.clients, c', t, "any") && s in VALID_STATUSES ensures InClients(x.clients, c', t, "any", s) {
      if HasAction(x0.clients, c', t, "any") {
        assert InClients(x0.clients, c', t, "any", s);
      } else {
        assert ("any", s) in done;
      }
    }
  }

  // ---- Runs ----

  datatype Op =
    | Subscribe(c: Client, topic: string, action: string, status: string)
    | Unsubscribe(c: Client, topic: string, action: string, status: string)
    | Disconnect(c: Client)
    | Enable(topic: string) // when routes are registered, and again on every reload of a model

  ghost predicate Step(x: Index, op: Op, x': Index) {
    match op
    case Subscribe(c, topic, action, status) => Subscribed(x, x', c, topic, action, status)
    case Unsubscribe(c, topic, action, status) => Unsubscribed(x, x', c, topic, action, status)
    case Disconnect(c) => Disconnected(x, x', c)
    case Enable(topic) => Enabled(x, x', topic)
  }

  ghost predicate Enabled(x: Index, x': Index, topic: string) {
    && x'.clients == x.clients
    && forall c, t, a, s :: InTopics(x'.targets, c, t, a, s) <==> InTopics(x.targets, c, t, a, s) && t != topic
  }

  ghost predicate IsRun(xs: seq<Index>, ops: seq<Op>) {
    |xs| == |ops| + 1 && forall i :: 0 <= i < |ops| ==> Step(xs[i], ops[i], xs[i + 1])
  }

  /** No client holds the topic. */
  ghost predicate Unheld(x: Index, topic: string) {
    forall c, a, s :: !InClients(x.clients, c, topic, a, s)
  }

  /** Topics are enabled only while no client holds them. */
  ghost predicate EnabledUnheld(xs: seq<Index>, ops: seq<Op>)
    requires |xs| == |ops| + 1
  {
    forall i :: 0 <= i < |ops| ==> FitToEnable(xs[i], ops[i])
  }

  ghost predicate FitToEnable(x: Index, op: Op) {
    op.Enable? ==> Unheld(x, op.topic)
  }

  /** An operation that keeps the two maps equal: a subscribe, or an unsubscribe that names an
      action or covers every status, or enabling a topic nobody holds. */
  predicate Even(op: Op) {
    op.Subscribe? || op.Enable? || (op.Unsubscribe? && (!MeansAll(op.action) || MeansAll(op.status)))
  }

  lemma EnabledBefore(xs: seq<Index>, ops: seq<Op>)
    requires IsRun(xs, ops) && ops != [] && EnabledUnheld(xs, ops)
    ensures var n := |ops| - 1; IsRun(xs[..n + 1], ops[..n]) && EnabledUnheld(xs[..n + 1], ops[..n])
  {
    var n := |ops| - 1;
    forall i | 0 <= i < n ensures Step(xs[..n + 1][i], ops[..n][i], xs[..n + 1][i + 1]) && FitToEnable(xs[..n + 1][i], ops[..n][i]) {
      assert Step(xs[i], ops[i], xs[i + 1]) && FitToEnable(xs[i], ops[i]);
    }
  }

  /** Whatever clients do, none is missing from a topic it believes it listens to, as long as
      topics are enabled again only while no client holds them. */
  lemma {:induction false} InsideAlways(xs: seq<Index>, ops: seq<Op>)
    requires IsRun(xs, ops) && Inside(xs[0]) && EnabledUnheld(xs, ops)
    ensures Inside(xs[|ops|])
    decreases |ops|
  {
    if ops != [] {
      var n := |ops| - 1;
      EnabledBefore(xs, ops);
      InsideAlways(xs[..n + 1], ops[..n]);
      assert FitToEnable(xs[n], ops[n]);
      StepKeepsInside(xs[n], ops[n], xs[n + 1]);
    }
  }

  lemma StepKeepsInside(x: Index, op: Op, x': Index)
    requires Step(x, op, x') && Inside(x) && FitToEnable(x, op)
    ensures Inside(x')
  {
    if op.Disconnect? {
      forall c, t, a, s | InClients(x'.clients, c, t, a, s) ensures InTopics(x'.targets, c, t, a, s) {
        assert c != op.c;
      }
    }
  }

  /** While clients only subscribe, and unsubscribe in the ways that keep the maps equal, the
      maps hold exactly the same entries. */
  lemma {:induction false} AgreeAlways(xs: seq<Index>, ops: seq<Op>)
    requires IsRun(xs, ops) && Agree(xs[0]) && EnabledUnheld(xs, ops) && forall op :: op in ops ==> Even(op)
    ensures Agree(xs[|ops|])
    decreases |ops|
  {
    if ops != [] {
      var n := |ops| - 1;
      EnabledBefore(xs, ops);
      AgreeAlways(xs[..n + 1], ops[..n]);
      assert Even(ops[n]) && Step(xs[n], ops[n], xs[n + 1]);
      assert FitToEnable(xs[n], ops[n]);
    }
  }

  /** Whether an operation is another client's, or enables another topic. */
  predicate Elsewhere(op: Op, c: Client, t: string) {
    if op.Enable? then op.topic != t else op.c != c
  }

  /** No step touches an entry of another client, but for enabling its topic again. */
  lemma {:induction false} OthersUntouched(xs: seq<Index>, ops: seq<Op>, c: Client, t: string, a: string, s: string)
    requires IsRun(xs, ops) && forall op :: op in ops ==> Elsewhere(op, c, t)
    ensures InClients(xs[|ops|].clients, c, t, a, s) <==> InClients(xs[0].clients, c, t, a, s)
    ensures InTopics(xs[|ops|].targets, c, t, a, s) <==> InTopics(xs[0].targets, c, t, a, s)
    decreases |ops|
  {
    if ops != [] {
      var n := |ops| - 1;
      OthersUntouched(xs[..n + 1], ops[..n], c, t, a, s);
      assert ops[n] in ops && Step(xs[n], ops[n], xs[n + 1]);
    }
  }

  /** Unsubscribing every action from one status keeps the maps equal exactly when each action
      that had the status had no other: the rest stay in the topic map alone. */
  lemma AnyActionOneStatus(x: Index, x': Index, c: Client, topic: string, action: string, status: string)
    requires Agree(x) && MeansAll(action) && !MeansAll(status) && Unsubscribed(x, x', c, topic, action, status)
    ensures Agree(x') <==>
              forall a, s :: InClients(x.clients, c, topic, a, status) && InClients(x.clients, c, topic, a, s) ==> s == status
  {
    if a, s :| InClients(x.clients, c, topic, a, status) && InClients(x.clients, c, topic, a, s) && s != status {
      assert InTopics(x'.targets, c, topic, a, s) && !InClients(x'.clients, c, topic, a, s);
    }
  }

  /** A client that disconnects is cleared from every topic exactly when it held the literal
      action "any" in none. */
  lemma DisconnectClears(x: Index, x': Index, c: Client)
    requires Valid(x) && Agree(x) && Disconnected(x, x', c)
    ensures Agree(x') <==> forall t :: !HasAction(x.clients, c, t, "any")
  {
    if t :| HasAction(x.clients, c, t, "any") {
      assert TopicLeft(x, x'.targets, c, t);
      var done, order :| LeftBy(x, x'.targets, c, t, done, order);
      var s := if FirstNamed(x.clients, c, t, order, "any", "queued") then "start" else "queued";
      if FirstNamed(x.clients, c, t, order, "any", "queued") && FirstNamed(x.clients, c, t, order, "any", "start") {
        FirstNamedOnce(x.clients, c, t, order, "any", "queued", "start");
      }
      assert InClients(x.clients, c, t, "any", s) && !Cleared(x.clients, c, t, done, order, "any", s);
      assert InTopics(x'.targets, c, t, "any", s) && !InClients(x'.clients, c, t, "any", s);
    } else {
      forall c', t, a, s ensures InClients(x'.clients, c', t, a, s) <==> InTopics(x'.targets, c', t, a, s) {
        if c' == c {
          assert TopicLeft(x, x'.targets, c, t) && !HasAction(x.clients, c, t, "any");
        }
      }
    }
  }

  /** An entry that outlives its client stays exactly until its topic is enabled again: an
      unsubscribe looks in the client map, which no longer has it. A connection, once ended,
      never subscribes again. */
  lemma {:induction false} LeftoverStaysUntilEnabled(xs: seq<Index>, ops: seq<Op>, c: Client, t: string, a: string, s: string)
    requires IsRun(xs, ops) && forall op :: op in ops ==> !(op.Subscribe? && op.c == c)
    requires forall t', a', s' :: !InClients(xs[0].clients, c, t', a', s')
    requires forall i :: 0 <= i < |xs| ==> Valid(xs[i])
    requires InTopics(xs[0].targets, c, t, a, s)
    ensures InTopics(xs[|ops|].targets, c, t, a, s) <==> Enable(t) !in ops
    ensures forall t', a', s' :: !InClients(xs[|ops|].clients, c, t', a', s')
    decreases |ops|
  {
    if ops != [] {
      var n := |ops| - 1;
      LeftoverStaysUntilEnabled(xs[..n + 1], ops[..n], c, t, a, s);
      assert ops[n] in ops && Step(xs[n], ops[n], xs[n + 1]);
      assert xs[..n + 1][n] == xs[n] && ops == ops[..n] + [ops[n]];
      LeftoverStep(xs[n], ops[n], xs[n + 1], c, t, a, s);
    }
  }

  lemma LeftoverStep(x: Index, op: Op, x': Index, c: Client, t: string, a: string, s: string)
    requires Valid(x) && Step(x, op, x') && !(op.Subscribe? && op.c == c)
    requires forall t', a', s' :: !InClients(x.clients, c, t', a', s')
    ensures InTopics(x'.targets, c, t, a, s) <==> InTopics(x.targets, c, t, a, s) && op != Enable(t)
    ensures forall t', a', s' :: !InClients(x'.clients, c, t', a', s')
  {
    assert !HasAction(x.clients, c, t, "any") by {
      assert !InClients(x.clients, c, t, "any", "queued");
    }
    if op.Disconnect? && op.c == c {
      assert TopicLeft(x, x'.targets, c, t);
    }
  }

  /** Enabling a topic again keeps every client inside its topics exactly when no client held
      the topic. */
  lemma ReenableKeepsInside(x: Index, x': Index, topic: string)
    requires Inside(x) && Enabled(x, x', topic)
    ensures Inside(x') <==> Unheld(x, topic)
  {
    if c, a, s :| InClients(x.clients, c, topic, a, s) {
      assert !InTopics(x'.targets, c, topic, a, s);
    }
  }

  // ---- What a subscription covers, and undoing it ----

  /** A valid subscription listens to the action and status it names, to every status of the
      action if it names them all, and to everything if it names every action; to nothing more.
      Any other changes nothing. */
  lemma SubscribedListens(x: Index, x': Index, c: Client, topic: string, action: string, status: string, a: string, s: string)
    requires Subscribed(x, x', c, topic, action, status)
    ensures var all, actions, statuses := {"", "any", "all"}, {"get", "create", "update", "delete", "any"}, {"queued", "start", "success", "warn", "failed", "error"};
            if topic in x.targets && action in all + actions && status in all + statuses
            then var covered := a in actions && s in statuses && (action in all || (a == action && (status in all || s == status)));
                 (InClients(x'.clients, c, topic, a, s) <==> InClients(x.clients, c, topic, a, s) || covered)
                 && (InTopics(x'.targets, c, topic, a, s) <==> InTopics(x.targets, c, topic, a, s) || covered)
            else x' == x
  {
  }

  ghost predicate SameEntries(x: Index, x': Index) {
    forall c, t, a, s :: (InClients(x'.clients, c, t, a, s) <==> InClients(x.clients, c, t, a, s))
                         && (InTopics(x'.targets, c, t, a, s) <==> InTopics(x.targets, c, t, a, s))
  }

  /** For a client that held nothing of the topic, unsubscribing by the same names undoes a
      subscription exactly unless it names every action but a single status. */
  lemma UndoneIff(x: Index, x1: Index, x2: Index, c: Client, topic: string, action: string, status: string)
    requires forall a, s :: !InClients(x.clients, c, topic, a, s) && !InTopics(x.targets, c, topic, a, s)
    requires Subscribable(x.targets, topic, action, status)
    requires Subscribed(x, x1, c, topic, action, status) && Unsubscribed(x1, x2, c, topic, action, status)
    ensures SameEntries(x, x2) <==> !(MeansAll(action) && !MeansAll(status))
  {
    if MeansAll(action) && !MeansAll(status) {
      var other := if status == "queued" then "start" else "queued";
      assert Covers(action, status, "get", other) && Covers(action, status, "get", status);
      assert InTopics(x1.targets, c, topic, "get", other) && !LeavesTopics(x1.clients, c, topic, action, status, "get", other);
      assert InTopics(x2.targets, c, topic, "get", other) && !InTopics(x.targets, c, topic, "get", other);
    }
  }
}
