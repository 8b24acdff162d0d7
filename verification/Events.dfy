/** Who receives an event. Events change nothing in a home but the queues of their recipients. */
module Events {
  import opened Basics
  import opened Catalogs
  import opened HomeModel
  import opened Replicas
  import opened Invariants
  import opened QuietSteps

  /** The target of an EVENT frame; `Malformed` is an unknown kind, or a default target that is not null. */
  datatype Target = Default | ToUser(session: Session) | ToCoordinator(name: string) | Malformed

  const ACCEPT_USERS := 1
  const PUBLISH_USERS := 2
  const ACCEPT_COORDINATORS := 4
  const PUBLISH_COORDINATORS := 8

  predicate HasFlag(flags: int, flag: int)
    requires flag > 0
  {
    flags / flag % 2 == 1
  }

  /** The topic is known and somebody owns it. */
  predicate TopicDeclared(c: Catalog, id: int) {
    var topic := NameOf(c.topics.byID, id);
    topic != "" && topic in c.topicOwners
  }

  function FlagsOf(c: Catalog, id: int): int
    requires TopicDeclared(c, id)
  {
    var topic := NameOf(c.topics.byID, id);
    var owner := c.topicOwners[topic];
    if owner in c.configs && topic in c.configs[owner].events then c.configs[owner].events[topic] else 0
  }

  /** A slot whose present connection is available and has declared. */
  predicate Reachable(h: Home, name: string) {
    name in h.slots && h.slots[name].ready && h.slots[name].connection.Some?
    && h.slots[name].connection.value in h.peers && Available(h.peers[h.slots[name].connection.value])
  }

  /** A user that is available, subscribed, and still authorised. */
  predicate Listens(h: Home, t: Session, id: int) {
    t in h.users && t in h.peers && Available(h.peers[t]) && id in h.peers[t].subscriptions
    && CanSubscribe(h.catalog.configs, h.peers[t].user, NameOf(h.catalog.topics.byID, id))
  }

  function UserEvent(h: Home, s: Session, id: int, target: Target): (set<Session>, Outcome)
    requires s in h.peers && TopicDeclared(h.catalog, id)
  {
    var owner := h.catalog.topicOwners[NameOf(h.catalog.topics.byID, id)];
    if !target.Default? then ({}, Refused(WRONG_DIRECTION, false))
    else if !Enrolled(h.catalog.configs, h.peers[s].user) then ({}, Refused(NOT_ENROLLED, false))
    else if !HasFlag(FlagsOf(h.catalog, id), ACCEPT_USERS)
            || !CanPublish(h.catalog.configs, h.peers[s].user, NameOf(h.catalog.topics.byID, id)) then ({}, Refused(FORBIDDEN, false))
    else if !Reachable(h, owner) then ({}, Refused(NO_COORDINATOR, true))
    else ({h.slots[owner].connection.value}, Ok)
  }

  function CoordinatorEvent(h: Home, s: Session, id: int, target: Target): (set<Session>, Outcome)
    requires s in h.peers && TopicDeclared(h.catalog, id)
  {
    var flags := FlagsOf(h.catalog, id);
    match target
    case Default =>
      if !HasFlag(flags, PUBLISH_USERS) then ({}, Refused(WRONG_DIRECTION, false))
      else ((set t | t in h.users && Listens(h, t, id)), Ok)
    case ToUser(t) =>
      if !HasFlag(flags, PUBLISH_USERS) then ({}, Refused(WRONG_DIRECTION, false))
      else if t !in h.users || t !in h.peers || !Available(h.peers[t]) then ({}, Refused(UNAVAILABLE, true))
      else if !Listens(h, t, id) then ({}, Refused(FORBIDDEN, false))
      else ({t}, Ok)
    case ToCoordinator(name) =>
      if !HasFlag(flags, PUBLISH_COORDINATORS) || !HasFlag(flags, ACCEPT_COORDINATORS) then ({}, Refused(WRONG_DIRECTION, false))
      else if !Reachable(h, name) || h.slots[name].connection == Some(s) then ({}, Refused(NO_COORDINATOR, true))
      else ({h.slots[name].connection.value}, Ok)
    case Malformed => ({}, Refused(INVALID_VALUE, false))
  }

  /** The connections an event is sent to, or the refusal before it is sent to any. */
  function Route(h: Home, s: Session, id: int, target: Target, routable: bool): (set<Session>, Outcome)
    requires s in h.peers
  {
    var p := h.peers[s];
    if p.role == Coordinator && !Current(h, s) then ({}, Refused(GENERATION_REPLACED, true))
    else if p.role == Coordinator && (!h.slots[p.name].ready || p.name !in h.catalog.configs) then ({}, Refused(UNAVAILABLE, true))
    else if !TopicDeclared(h.catalog, id) then ({}, Refused(NOT_DECLARED, false))
    else if h.catalog.topicOwners[NameOf(h.catalog.topics.byID, id)] !in h.catalog.configs then ({}, Refused(NO_COORDINATOR, true))
    else if !routable then ({}, Refused(LIMIT_EXCEEDED, false))
    else match p.role
      case User => UserEvent(h, s, id, target)
      case Coordinator =>
        if h.catalog.topicOwners[NameOf(h.catalog.topics.byID, id)] != p.name then ({}, Refused(FORBIDDEN, false))
        else CoordinatorEvent(h, s, id, target)
      case Cli => ({}, Refused(WRONG_DIRECTION, false))
  }

  ghost function Delivered(h: Home, recipients: set<Session>): Home {
    h.(peers := map t | t in h.peers :: if t in recipients then Enqueue(h.peers[t], Other) else h.peers[t])
  }

  /** Some recipient took the event. */
  predicate Taken(h: Home, recipients: set<Session>) {
    exists t :: t in recipients && t in h.peers && Accepts(h.peers[t])
  }

  ghost function Publish(h: Home, s: Session, id: int, target: Target, routable: bool): (Home, Outcome)
    requires s in h.peers
  {
    var (recipients, refusal) := Route(h, s, id, target, routable);
    if refusal != Ok then (h, refusal)
    else (Delivered(h, recipients), if Taken(h, recipients) then Ok else Refused(UNAVAILABLE, true))
  }

  // ---------- who hears ----------

  /** A number whose bit of that weight is set, from the bits above it and those below. */
  function WithBit(above: int, bit: int, below: int): int {
    (2 * above + 1) * bit + below
  }

  ghost predicate Holds(flags: int, bit: int) {
    exists above: int, below: int :: 0 <= below < bit && flags == WithBit(above, bit, below)
  }

  lemma FlagIsHeld(flags: int, bit: int)
    requires bit == 0x01 || bit == 0x02 || bit == 0x04 || bit == 0x08
    ensures HasFlag(flags, bit) <==> Holds(flags, bit)
  {
    if HasFlag(flags, bit) {
      assert flags == WithBit(flags / bit / 2, bit, flags % bit);
    }
  }

  /** The active configuration of the slot declares the topic of that ID. */
  predicate DeclaresTopic(c: Catalog, slot: string, id: int) {
    && id in c.topics.byID && c.topics.byID[id] != ""
    && slot in c.configs && c.topics.byID[id] in c.configs[slot].events
  }

  ghost predicate DeclaredWith(c: Catalog, slot: string, id: int, bit: int) {
    DeclaresTopic(c, slot, id) && Holds(c.configs[slot].events[c.topics.byID[id]], bit)
  }

  /** The connection of its slot, with declarations. */
  predicate Acting(h: Home, s: Session)
    requires s in h.peers
  {
    && h.peers[s].role == Coordinator && Current(h, s)
    && h.slots[h.peers[s].name].ready && h.peers[s].name in h.catalog.configs
  }

  /**
   What it takes to receive an event of `s`. A user is available, subscribed and authorised, and hears from the
   declarer of the topic, which declared it for users. A coordinator hears from the declarer too, if the topic
   is declared from and for coordinators, or it is the declarer and hears from a user that may publish.
   */
  ghost predicate HasStanding(h: Home, s: Session, id: int, t: Session)
    requires s in h.peers
  {
    && t in h.peers && Available(h.peers[t])
    && match h.peers[s].role
       case User =>
         && Acting(h, t) && DeclaredWith(h.catalog, h.peers[t].name, id, 0x01)
         && CanPublish(h.catalog.configs, h.peers[s].user, h.catalog.topics.byID[id])
       case Coordinator =>
         && Acting(h, s) && DeclaresTopic(h.catalog, h.peers[s].name, id)
         && (if h.peers[t].role == User
             then Listens(h, t, id) && DeclaredWith(h.catalog, h.peers[s].name, id, 0x02)
             else Acting(h, t) && t != s && DeclaredWith(h.catalog, h.peers[s].name, id, 0x04) && DeclaredWith(h.catalog, h.peers[s].name, id, 0x08))
       case Cli => false
  }

  /** The event is meant for `t`: a user names nobody, a coordinator its followers, one of them, or a slot. */
  predicate MeantFor(h: Home, s: Session, target: Target, t: Session)
    requires s in h.peers && t in h.peers
  {
    if h.peers[s].role == User then target.Default?
    else if h.peers[t].role == User then target.Default? || target == ToUser(t)
    else target == ToCoordinator(h.peers[t].name)
  }

  lemma DeclarerOwns(c: Catalog, slot: string, id: int)
    requires OwnersInv(Topic, c.topicOwners, c.configs)
    ensures DeclaresTopic(c, slot, id) <==> TopicDeclared(c, id) && c.topicOwners[NameOf(c.topics.byID, id)] == slot
    ensures DeclaresTopic(c, slot, id) ==> TopicDeclared(c, id) && FlagsOf(c, id) == c.configs[slot].events[c.topics.byID[id]]
  {
  }

  lemma FlagsOfDeclarer(c: Catalog, slot: string, id: int)
    requires OwnersInv(Topic, c.topicOwners, c.configs) && DeclaresTopic(c, slot, id)
    ensures TopicDeclared(c, id)
    ensures HasFlag(FlagsOf(c, id), ACCEPT_USERS) <==> DeclaredWith(c, slot, id, 0x01)
    ensures HasFlag(FlagsOf(c, id), PUBLISH_USERS) <==> DeclaredWith(c, slot, id, 0x02)
    ensures HasFlag(FlagsOf(c, id), ACCEPT_COORDINATORS) <==> DeclaredWith(c, slot, id, 0x04)
    ensures HasFlag(FlagsOf(c, id), PUBLISH_COORDINATORS) <==> DeclaredWith(c, slot, id, 0x08)
  {
    DeclarerOwns(c, slot, id);
    FlagIsHeld(FlagsOf(c, id), 0x01);
    FlagIsHeld(FlagsOf(c, id), 0x02);
    FlagIsHeld(FlagsOf(c, id), 0x04);
    FlagIsHeld(FlagsOf(c, id), 0x08);
  }

  lemma HolderIsCoordinator(h: Home, name: string)
    requires SlotsOK(h) && name in h.slots && h.slots[name].connection.Some?
    ensures var t := h.slots[name].connection.value;
            t in h.peers && h.peers[t].role == Coordinator && h.peers[t].name == name && Current(h, t)
  {
    assert Linked(name, h.slots[name], h.peers, h.connections);
  }

  /** The reachable slot of a coordinator is the one whose connection it is, available and with declarations. */
  lemma ReachableIffActing(h: Home, name: string, t: Session)
    requires SlotsOK(h) && t in h.peers
    ensures (Reachable(h, name) && h.slots[name].connection.value == t) <==> (Acting(h, t) && h.peers[t].name == name && Available(h.peers[t]))
  {
    if name in h.slots && h.slots[name].connection == Some(t) {
      HolderIsCoordinator(h, name);
      assert SlotOK(h.slots[name], name in h.catalog.configs);
    }
  }

  lemma UserEventIff(h: Home, s: Session, id: int, target: Target, t: Session)
    requires SlotsOK(h) && OwnersInv(Topic, h.catalog.topicOwners, h.catalog.configs)
    requires s in h.peers && h.peers[s].role == User && TopicDeclared(h.catalog, id) && t in h.peers
    ensures t in UserEvent(h, s, id, target).0 <==> target.Default? && HasStanding(h, s, id, t)
  {
    var owner := h.catalog.topicOwners[NameOf(h.catalog.topics.byID, id)];
    DeclarerOwns(h.catalog, owner, id);
    FlagsOfDeclarer(h.catalog, owner, id);
    ReachableIffActing(h, owner, t);
    if HasStanding(h, s, id, t) {
      DeclarerOwns(h.catalog, h.peers[t].name, id);
    }
    PublishersAreEnrolled(h.catalog.configs, h.peers[s].user, h.catalog.topics.byID[id]);
  }

  lemma PublishersAreEnrolled(configs: map<string, Config>, user: string, topic: string)
    ensures CanPublish(configs, user, topic) ==> Enrolled(configs, user)
  {
    if CanPublish(configs, user, topic) {
      var slot :| slot in configs && Publishes(configs[slot], user, topic);
      assert Listed(configs[slot], user);
    }
  }

  lemma CoordinatorEventIff(h: Home, s: Session, id: int, target: Target, t: Session)
    requires Membership(h) && SlotsOK(h) && OwnersInv(Topic, h.catalog.topicOwners, h.catalog.configs)
    requires s in h.peers && Acting(h, s) && DeclaresTopic(h.catalog, h.peers[s].name, id) && TopicDeclared(h.catalog, id) && t in h.peers
    ensures t in CoordinatorEvent(h, s, id, target).0 <==> HasStanding(h, s, id, t) && MeantFor(h, s, target, t)
  {
    FlagsOfDeclarer(h.catalog, h.peers[s].name, id);
    if target.ToCoordinator? {
      ReachableIffActing(h, target.name, t);
    }
  }

  /**
   The recipients of an event are exactly those it is addressed to that have standing: nobody hears it
   without, and nobody who has standing and is addressed is left out.
   */
  lemma RecipientsIff(h: Home, s: Session, id: int, target: Target, routable: bool, t: Session)
    requires Membership(h) && SlotsOK(h) && OwnersInv(Topic, h.catalog.topicOwners, h.catalog.configs)
    requires s in h.peers && t in h.peers
    ensures t in Route(h, s, id, target, routable).0 <==> routable && HasStanding(h, s, id, t) && MeantFor(h, s, target, t)
  {
    match h.peers[s].role
    case User =>
      if TopicDeclared(h.catalog, id) {
        UserEventIff(h, s, id, target, t);
      } else if HasStanding(h, s, id, t) {
        DeclarerOwns(h.catalog, h.peers[t].name, id);
      }
    case Coordinator =>
      DeclarerOwns(h.catalog, h.peers[s].name, id);
      if Acting(h, s) && DeclaresTopic(h.catalog, h.peers[s].name, id) {
        CoordinatorEventIff(h, s, id, target, t);
      }
    case Cli =>
  }

  /** An acting coordinator that publishes a topic another slot declares is refused for that, whatever the target. */
  lemma ForeignTopicIsForbidden(h: Home, s: Session, slot: string, id: int, target: Target)
    requires OwnersInv(Topic, h.catalog.topicOwners, h.catalog.configs)
    requires s in h.peers && Acting(h, s) && DeclaresTopic(h.catalog, slot, id) && slot != h.peers[s].name
    ensures Publish(h, s, id, target, true) == (h, Refused(FORBIDDEN, false))
  {
    DeclarerOwns(h.catalog, slot, id);
  }

  /** A topic that no slot declares, or no longer, is refused as such. */
  lemma UndeclaredTopicIsRefused(h: Home, s: Session, id: int, target: Target, routable: bool)
    requires OwnersInv(Topic, h.catalog.topicOwners, h.catalog.configs)
    requires s in h.peers && (h.peers[s].role == Coordinator ==> Acting(h, s))
    requires forall slot :: !DeclaresTopic(h.catalog, slot, id)
    ensures Publish(h, s, id, target, routable) == (h, Refused(NOT_DECLARED, false))
  {
    if TopicDeclared(h.catalog, id) {
      DeclarerOwns(h.catalog, h.catalog.topicOwners[NameOf(h.catalog.topics.byID, id)], id);
    }
  }

  /**
   An event is answered Ok exactly if somebody it is addressed to has standing and takes it. Exactly the recipients
   that take it are sent a frame; one that does not is failed; nobody else is touched.
   */
  lemma EventIsReceived(h: Home, s: Session, id: int, target: Target, routable: bool, t: Session)
    requires Membership(h) && SlotsOK(h) && OwnersInv(Topic, h.catalog.topicOwners, h.catalog.configs)
    requires s in h.peers && t in h.peers
    ensures t in Publish(h, s, id, target, routable).0.peers
    ensures var t' := Publish(h, s, id, target, routable).0.peers[t];
            if routable && HasStanding(h, s, id, t) && MeantFor(h, s, target, t)
            then (if Accepts(h.peers[t]) then t'.log == h.peers[t].log + [Other] && Available(t') else t'.log == h.peers[t].log && !t'.live)
            else t' == h.peers[t]
  {
    RecipientsIff(h, s, id, target, routable, t);
    RecipientsAreNotRefused(h, s, id, target, routable);
  }

  lemma RecipientsAreNotRefused(h: Home, s: Session, id: int, target: Target, routable: bool)
    requires s in h.peers
    ensures Route(h, s, id, target, routable).0 != {} ==> Route(h, s, id, target, routable).1 == Ok
  {
  }

  lemma EventAcceptedIff(h: Home, s: Session, id: int, target: Target, routable: bool)
    requires Membership(h) && SlotsOK(h) && OwnersInv(Topic, h.catalog.topicOwners, h.catalog.configs) && s in h.peers
    ensures Publish(h, s, id, target, routable).1 == Ok
            <==> routable && exists t :: t in h.peers && HasStanding(h, s, id, t) && MeantFor(h, s, target, t) && Accepts(h.peers[t])
  {
    forall t | t in h.peers
      ensures t in Route(h, s, id, target, routable).0 <==> routable && HasStanding(h, s, id, t) && MeantFor(h, s, target, t)
    {
      RecipientsIff(h, s, id, target, routable, t);
    }
    RecipientsAreNotRefused(h, s, id, target, routable);
  }

  /** A coordinator that is not, or no longer, the connection of its slot reaches nobody and changes nothing. */
  lemma FencedEventsReachNobody(h: Home, s: Session, id: int, target: Target, routable: bool)
    requires s in h.peers && h.peers[s].role == Coordinator && !Current(h, s)
    ensures Route(h, s, id, target, routable) == ({}, Refused(GENERATION_REPLACED, true))
    ensures Publish(h, s, id, target, routable).0 == h
  {
  }

  lemma DeliverOneMore(h: Home, rest: set<Session>, t: Session)
    requires t in h.peers && t !in rest
    ensures Delivered(h, rest + {t}) == SetPeer(Delivered(h, rest), t, Enqueue(Delivered(h, rest).peers[t], Other))
  {
  }

  lemma DeliverNobody(h: Home)
    ensures Delivered(h, {}) == h
  {
  }

  lemma DeliverStep(h: Home, rest: set<Session>, t: Session, recipients: set<Session>, env: Env)
    requires Inv(Delivered(h, rest), env) && t in h.peers && t !in rest && recipients == rest + {t}
    ensures Inv(Delivered(h, recipients), env)
    ensures InStep(Delivered(h, rest)) ==> InStep(Delivered(h, recipients))
  {
    DeliverOneMore(h, rest, t);
    NoticeKeeps(Delivered(h, rest), t, env);
  }

  /** Delivery keeps the home's invariant and every replica. */
  lemma {:induction false} DeliveryKeeps(h: Home, recipients: set<Session>, env: Env)
    requires Inv(h, env) && recipients <= h.peers.Keys
    ensures Inv(Delivered(h, recipients), env)
    ensures InStep(h) ==> InStep(Delivered(h, recipients))
    decreases recipients
  {
    if recipients == {} {
      DeliverNobody(h);
    } else {
      var t := Element(recipients);
      var rest := recipients - {t};
      DeliveryKeeps(h, rest, env);
      DeliverStep(h, rest, t, recipients, env);
    }
  }

  lemma RecipientsAreKnown(h: Home, s: Session, id: int, target: Target, routable: bool)
    requires s in h.peers
    ensures Route(h, s, id, target, routable).0 <= h.peers.Keys
  {
  }

  /** Publishing changes no slot, owner, dictionary, value or revision. */
  lemma PublishKeeps(h: Home, s: Session, id: int, target: Target, routable: bool, env: Env)
    requires Inv(h, env) && s in h.peers
    ensures var h' := Publish(h, s, id, target, routable).0;
            Inv(h', env) && (InStep(h) ==> InStep(h')) && h' == h.(peers := h'.peers)
  {
    RecipientsAreKnown(h, s, id, target, routable);
    DeliveryKeeps(h, Route(h, s, id, target, routable).0, env);
  }
}
