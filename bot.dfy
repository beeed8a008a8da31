/**
 * The bag and session manager behind the bot's commands. Three dictionaries
 * hold the whole state: the bags, the running sessions keyed by the id of
 * their status message, and the tracker from a bag to the message of its
 * session. Each command handler becomes a method that returns what the
 * handler would have reported instead of sending a chat message.
 */
module BlindBag {
  import opened ItemText
  import opened ItemLists

  type BagName = string
  type Item = string
  /** The id of a chat message; a session is keyed by its status message. */
  type MessageId = nat
  type UserId = nat

  /** The conditions the handlers report instead of changing anything. */
  datatype Error =
    | NotFound         // no bag by that name
    | AlreadyExists    // create: the name is taken
    | ActiveSession    // delete: a session is running on the bag
    | NoValidItems     // add, remove: the text holds no item
    | Empty            // drop: the bag holds no item
    | IndexOutOfRange  // drop: the index is outside [0, length)
    | MissingOrEmpty   // start: no such bag, or it holds no item
    | AlreadyRunning   // start: a session is running on the bag
    | NoSession        // end: no session is running on the bag

  datatype Result<T> = Ok(value: T) | Err(error: Error)

  /** What a reaction on a message came to. */
  datatype Reaction =
    | Ignored                                     // the bot's own reaction, or not on a session
    | Pulled(bag: BagName, item: Item, left: nat) // the front item went to the user
    | EmptyPull(bag: BagName)                     // the session had nothing left to give

  /**
   * The tracker and the sessions index each other: every tracked message is
   * a running session, every running session is tracked, and no two bags
   * share a session.
   */
  predicate TrackerIndexesSessions(tracker: map<BagName, MessageId>, sessions: map<MessageId, seq<Item>>) {
    && (forall name :: name in tracker ==> tracker[name] in sessions)
    && (forall id :: id in sessions ==> exists name :: name in tracker && tracker[name] == id)
    && (forall n1, n2 :: n1 in tracker && n2 in tracker && tracker[n1] == tracker[n2] ==> n1 == n2)
  }

  /**
   * The reverse lookup of the reaction handler: the bag whose session has
   * the message `id`. Under the index invariant there is exactly one.
   */
  function BagOf(tracker: map<BagName, MessageId>, sessions: map<MessageId, seq<Item>>, id: MessageId): (name: BagName)
    requires TrackerIndexesSessions(tracker, sessions) && id in sessions
    ensures name in tracker && tracker[name] == id
    ensures forall other :: other in tracker && tracker[other] == id ==> other == name
  {
    var name :| name in tracker && tracker[name] == id;
    name
  }

  /** Registering a new session for an untracked bag under a fresh message keeps the index. */
  lemma StartKeepsIndex(tracker: map<BagName, MessageId>, sessions: map<MessageId, seq<Item>>,
                        name: BagName, id: MessageId, items: seq<Item>)
    requires TrackerIndexesSessions(tracker, sessions)
    requires name !in tracker && id !in sessions
    ensures TrackerIndexesSessions(tracker[name := id], sessions[id := items])
  {
    var t, s := tracker[name := id], sessions[id := items];
    forall k | k in s ensures exists n :: n in t && t[n] == k {
      if k != id {
        var n :| n in tracker && tracker[n] == k;
        assert n in t && t[n] == k;
      } else {
        assert name in t && t[name] == k;
      }
    }
  }

  /** Unregistering a bag's session from both maps keeps the index. */
  lemma EndKeepsIndex(tracker: map<BagName, MessageId>, sessions: map<MessageId, seq<Item>>, name: BagName)
    requires TrackerIndexesSessions(tracker, sessions)
    requires name in tracker
    ensures TrackerIndexesSessions(tracker - {name}, sessions - {tracker[name]})
  {
    var id := tracker[name];
    var t, s := tracker - {name}, sessions - {id};
    forall k | k in s ensures exists n :: n in t && t[n] == k {
      var n :| n in tracker && tracker[n] == k;
      assert n != name;
      assert n in t && t[n] == k;
    }
  }

  /**
   * Two `start` commands for the same bag that both pass the tracker check
   * before either registers (each awaits two chat calls in between) leave
   * the first session running with no bag tracking it: the index breaks,
   * the reverse lookup finds no bag for it, and `end` cannot reach it.
   */
  lemma InterleavedStartsOrphanSession(tracker: map<BagName, MessageId>, sessions: map<MessageId, seq<Item>>,
                                       name: BagName, id1: MessageId, id2: MessageId,
                                       items1: seq<Item>, items2: seq<Item>)
    requires TrackerIndexesSessions(tracker, sessions)
    requires name !in tracker
    requires id1 !in sessions && id2 !in sessions && id1 != id2
    ensures var t, s := tracker[name := id1][name := id2], sessions[id1 := items1][id2 := items2];
            && id1 in s
            && (forall n :: n in t ==> t[n] != id1)
            && !TrackerIndexesSessions(t, s)
  {
  }

  /**
   * A `delete` that runs while a `start` of the same bag awaits its chat
   * calls passes its tracker check, because the bag is not tracked yet, and
   * removes the bag; `start` then registers it anyway. The tracker names a
   * bag that no longer exists, so a bag created again under that name is
   * locked by a session nobody started on it.
   */
  lemma InterleavedStartDeleteStrandsTracker(bags: map<BagName, seq<Item>>, tracker: map<BagName, MessageId>,
                                             name: BagName, id: MessageId)
    requires tracker.Keys <= bags.Keys
    requires name in bags && name !in tracker
    ensures var b, t := bags - {name}, tracker[name := id];
            && name !in b && name in t
            && !(t.Keys <= b.Keys)
            && name in b[name := []] && t[name] == id
  {
  }

  /** The state of the bot: the three dictionaries of the handlers. */
  class BagBot {
    /** Bag name to its items, in order. */
    var bags: map<BagName, seq<Item>>
    /** Status message id to the session's items not pulled yet, front first. */
    var activeSessions: map<MessageId, seq<Item>>
    /** Bag name to the status message of its running session. */
    var bagTracker: map<BagName, MessageId>

    /**
     * The tracker indexes the sessions, a tracked bag exists (it cannot be
     * deleted while its session runs), and everything held is an item as
     * the parser yields them.
     */
    ghost predicate Valid()
      reads this
    {
      && TrackerIndexesSessions(bagTracker, activeSessions)
      && bagTracker.Keys <= bags.Keys
      && (forall name :: name in bags ==> AllItems(bags[name]))
      && (forall id :: id in activeSessions ==> AllItems(activeSessions[id]))
    }

    constructor ()
      ensures Valid()
      ensures bags == map[] && activeSessions == map[] && bagTracker == map[]
    {
      bags, activeSessions, bagTracker := map[], map[], map[];
    }

    /** `$create name`: a new empty bag, unless the name is taken. */
    method CreateBag(name: BagName) returns (r: Result<()>)
      requires Valid()
      modifies this
      ensures Valid()
      ensures r == (if name in old(bags) then Err(AlreadyExists) else Ok(()))
      ensures bags == (if r.Ok? then old(bags)[name := []] else old(bags))
      ensures activeSessions == old(activeSessions) && bagTracker == old(bagTracker)
    {
      if name in bags {
        return Err(AlreadyExists);
      }
      bags := bags[name := []];
      r := Ok(());
    }

    /** `$delete name`: removes the bag, unless it is missing or its session is running. */
    method DeleteBag(name: BagName) returns (r: Result<()>)
      requires Valid()
      modifies this
      ensures Valid()
      ensures r == (if name !in old(bags) then Err(NotFound)
                    else if name in old(bagTracker) then Err(ActiveSession)
                    else Ok(()))
      ensures bags == (if r.Ok? then old(bags) - {name} else old(bags))
      ensures activeSessions == old(activeSessions) && bagTracker == old(bagTracker)
    {
      if name !in bags {
        return Err(NotFound);
      } else if name in bagTracker {
        return Err(ActiveSession);
      }
      bags := bags - {name};
      r := Ok(());
    }

    /**
     * `$add name text`: appends every item parsed from the text, duplicates
     * included, and reports how many there were. The session lock is not
     * consulted.
     */
    method AddToBag(name: BagName, content: string) returns (r: Result<nat>)
      requires Valid()
      modifies this
      ensures Valid()
      ensures r == (if name !in old(bags) then Err(NotFound)
                    else if ParseItems(content) == [] then Err(NoValidItems)
                    else Ok(|ParseItems(content)|))
      ensures r.Ok? ==> bags == old(bags)[name := old(bags)[name] + ParseItems(content)]
      ensures r.Ok? ==> |bags[name]| == |old(bags)[name]| + r.value
      ensures r.Err? ==> bags == old(bags)
      ensures activeSessions == old(activeSessions) && bagTracker == old(bagTracker)
    {
      if name !in bags {
        return Err(NotFound);
      }
      var newItems := ParseItems(content);
      if newItems == [] {
        return Err(NoValidItems);
      }
      var grown := bags[name] + newItems;
      assert AllItems(grown) by {
        assert AllItems(bags[name]) && AllItems(newItems);
      }
      bags := bags[name := grown];
      r := Ok(|newItems|);
    }

    /**
     * `$remove name text`: each parsed item in turn takes out its first
     * occurrence, if any; reports how many were taken out. The session lock
     * is not consulted.
     */
    method RemoveFromBag(name: BagName, content: string) returns (r: Result<nat>)
      requires Valid()
      modifies this
      ensures Valid()
      ensures r.Ok? <==> name in old(bags) && ParseItems(content) != []
      ensures name !in old(bags) ==> r == Err(NotFound)
      ensures name in old(bags) && ParseItems(content) == [] ==> r == Err(NoValidItems)
      ensures r.Ok? ==> r.value == Removals(old(bags)[name], ParseItems(content))
      ensures r.Ok? ==> bags == old(bags)[name := RemoveEach(old(bags)[name], ParseItems(content))]
      ensures r.Ok? ==> |bags[name]| == |old(bags)[name]| - r.value
      ensures r.Ok? ==> multiset(bags[name]) == multiset(old(bags)[name]) - multiset(ParseItems(content))
      ensures r.Err? ==> bags == old(bags)
      ensures activeSessions == old(activeSessions) && bagTracker == old(bagTracker)
    {
      if name !in bags {
        return Err(NotFound);
      }
      var newItems := ParseItems(content);
      if newItems == [] {
        return Err(NoValidItems);
      }
      ghost var bag0 := bags[name];
      var bag := bags[name];
      var removedCount := 0;
      var k := 0;
      while k < |newItems|
        invariant 0 <= k <= |newItems|
        invariant bag == RemoveEach(bag0, newItems[..k])
        invariant removedCount == Removals(bag0, newItems[..k])
      {
        var item := newItems[k];
        assert newItems[..k + 1][..k] == newItems[..k];
        if item in bag {
          bag := RemoveFirst(bag, item);
          removedCount := removedCount + 1;
        }
        k := k + 1;
      }
      assert newItems[..k] == newItems;
      RemovalsShrink(bag0, newItems);
      RemoveEachMultiset(bag0, newItems);
      RemoveEachKeeps(bag0, newItems);
      bags := bags[name := bag];
      r := Ok(removedCount);
    }

    /** `$drop name index`: pops the item at a zero-based index. */
    method DropItem(name: BagName, index: int) returns (r: Result<Item>)
      requires Valid()
      modifies this
      ensures Valid()
      ensures name !in old(bags) ==> r == Err(NotFound)
      ensures name in old(bags) && old(bags)[name] == [] ==> r == Err(Empty)
      ensures name in old(bags) && old(bags)[name] != [] && !(0 <= index < |old(bags)[name]|) ==>
                r == Err(IndexOutOfRange)
      ensures name in old(bags) && 0 <= index < |old(bags)[name]| ==>
                && r == Ok(old(bags)[name][index])
                && bags == old(bags)[name := old(bags)[name][..index] + old(bags)[name][index + 1..]]
      ensures r.Ok? ==> |bags[name]| == |old(bags)[name]| - 1
      ensures r.Ok? ==> multiset(bags[name]) == multiset(old(bags)[name]) - multiset{r.value}
      ensures r.Err? ==> bags == old(bags)
      ensures activeSessions == old(activeSessions) && bagTracker == old(bagTracker)
    {
      if name !in bags {
        return Err(NotFound);
      }
      var bag := bags[name];
      if bag == [] {
        return Err(Empty);
      }
      if 0 <= index < |bag| {
        var removedItem := bag[index];
        bags := bags[name := bag[..index] + bag[index + 1..]];
        assert bag == bag[..index] + [removedItem] + bag[index + 1..];
        r := Ok(removedItem);
      } else {
        r := Err(IndexOutOfRange);
      }
    }

    /** `$check name`: the bag's items in order (the handler shows an empty bag as such). */
    method CheckBag(name: BagName) returns (r: Result<seq<Item>>)
      requires Valid()
      ensures name in bags <==> r.Ok?
      ensures r.Ok? ==> r.value == bags[name] && AllItems(r.value)
      ensures r.Err? ==> r.error == NotFound
    {
      if name in bags {
        r := Ok(bags[name]);
      } else {
        r := Err(NotFound);
      }
    }

    /**
     * `$start name`: registers, under the id of the new status message, a
     * shuffled copy of the bag, and tracks the bag as running. `draws` are
     * the values the random source yields to the shuffle.
     */
    method StartSession(name: BagName, id: MessageId, draws: seq<nat>) returns (r: Result<nat>)
      requires Valid()
      requires id !in activeSessions
      requires name in bags ==> DrawsFor(draws, |bags[name]|)
      modifies this
      ensures Valid()
      ensures r == (if name !in old(bags) || old(bags)[name] == [] then Err(MissingOrEmpty)
                    else if name in old(bagTracker) then Err(AlreadyRunning)
                    else Ok(|old(bags)[name]|))
      ensures bags == old(bags)
      ensures r.Ok? ==> && id in activeSessions
                        && multiset(activeSessions[id]) == multiset(bags[name])
                        && activeSessions == old(activeSessions)[id := activeSessions[id]]
                        && bagTracker == old(bagTracker)[name := id]
      ensures r.Err? ==> activeSessions == old(activeSessions) && bagTracker == old(bagTracker)
    {
      if name !in bags || |bags[name]| == 0 {
        return Err(MissingOrEmpty);
      }
      if name in bagTracker {
        return Err(AlreadyRunning);
      }
      var sessionItems := Shuffle(bags[name], draws);
      assert forall t :: t in sessionItems ==> t in bags[name] by {
        forall t | t in sessionItems ensures t in bags[name] {
          assert multiset(sessionItems)[t] > 0;
        }
      }
      StartKeepsIndex(bagTracker, activeSessions, name, id, sessionItems);
      activeSessions := activeSessions[id := sessionItems];
      bagTracker := bagTracker[name := id];
      r := Ok(|sessionItems|);
    }

    /** `$end name`: drops the bag's session from both maps, releasing the bag. */
    method EndSession(name: BagName) returns (r: Result<()>)
      requires Valid()
      modifies this
      ensures Valid()
      ensures r == (if name in old(bagTracker) then Ok(()) else Err(NoSession))
      ensures r.Ok? ==> && activeSessions == old(activeSessions) - {old(bagTracker)[name]}
                        && bagTracker == old(bagTracker) - {name}
      ensures r.Err? ==> activeSessions == old(activeSessions) && bagTracker == old(bagTracker)
      ensures name !in bagTracker
      ensures bags == old(bags)
    {
      if name !in bagTracker {
        return Err(NoSession);
      }
      var msgId := bagTracker[name];
      EndKeepsIndex(bagTracker, activeSessions, name);
      if msgId in activeSessions {
        activeSessions := activeSessions - {msgId};
      }
      bagTracker := bagTracker - {name};
      r := Ok(());
    }

    /**
     * A reaction by `userId` on message `messageId`, the bot itself being
     * `botId`: on a session's message, the front item is pulled for the user.
     */
    method OnReaction(userId: UserId, botId: UserId, messageId: MessageId) returns (p: Reaction)
      requires Valid()
      modifies this
      ensures Valid()
      ensures bags == old(bags) && bagTracker == old(bagTracker)
      ensures userId == botId || messageId !in old(activeSessions) ==>
                p == Ignored && activeSessions == old(activeSessions)
      ensures userId != botId && messageId in old(activeSessions) ==>
                var before := old(activeSessions)[messageId];
                var bag := BagOf(old(bagTracker), old(activeSessions), messageId);
                && (before == [] ==> p == EmptyPull(bag) && activeSessions == old(activeSessions))
                && (before != [] ==> && p == Pulled(bag, before[0], |before| - 1)
                                     && activeSessions == old(activeSessions)[messageId := before[1..]])
    {
      if userId == botId {
        return Ignored;
      }
      if messageId !in activeSessions {
        return Ignored;
      }
      var bagName := BagOf(bagTracker, activeSessions, messageId);
      var currentItems := activeSessions[messageId];
      if |currentItems| > 0 {
        var item := currentItems[0];
        activeSessions := activeSessions[messageId := currentItems[1..]];
        p := Pulled(bagName, item, |currentItems| - 1);
      } else {
        p := EmptyPull(bagName);
      }
    }
  }
}
