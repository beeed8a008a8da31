/**
 * A client of the bot that plays the life of one bag through the handlers'
 * contracts alone: fill it, fail a drop, run a session to exhaustion, end
 * it and start it again.
 */
module Scenario {
  import opened ItemText
  import opened ItemLists
  import opened BlindBag

  /** `$create fruit`, `$add fruit <text>`, `$drop fruit 5`, for a text that parses to the three fruit. */
  method FillBag(text: string) returns (bot: BagBot)
    requires ParseItems(text) == ["apple", "banana", "cherry"]
    ensures fresh(bot) && bot.Valid()
    ensures bot.bags == map["fruit" := ["apple", "banana", "cherry"]]
    ensures bot.activeSessions == map[] && bot.bagTracker == map[]
  {
    bot := new BagBot();
    var created := bot.CreateBag("fruit");
    assert bot.bags == map["fruit" := []];
    var again := bot.CreateBag("fruit");
    assert again == Err(AlreadyExists);

    var added := bot.AddToBag("fruit", text);
    assert added == Ok(3);
    assert bot.bags == map["fruit" := [] + ["apple", "banana", "cherry"]];
    assert [] + ["apple", "banana", "cherry"] == ["apple", "banana", "cherry"];

    var dropped := bot.DropItem("fruit", 5);
    assert dropped == Err(IndexOutOfRange);
  }

  /** `$start fruit`: the session holds the three items in some order. */
  method StartFruit(bot: BagBot, draws: seq<nat>) returns (session: seq<Item>)
    requires bot.Valid()
    requires bot.bags == map["fruit" := ["apple", "banana", "cherry"]]
    requires bot.activeSessions == map[] && bot.bagTracker == map[]
    requires DrawsFor(draws, 3)
    modifies bot
    ensures bot.Valid()
    ensures bot.bags == old(bot.bags)
    ensures bot.activeSessions == map[100 := session] && bot.bagTracker == map["fruit" := 100]
    ensures |session| == 3 && multiset(session) == multiset(["apple", "banana", "cherry"])
  {
    var started := bot.StartSession("fruit", 100, draws);
    assert started == Ok(3);
    session := bot.activeSessions[100];
    assert |multiset(session)| == |multiset(["apple", "banana", "cherry"])|;
  }

  /** Four pulls on a session of three items: three users get the three items, the fourth gets none. */
  method DrainSession(bot: BagBot, session: seq<Item>)
    requires bot.Valid()
    requires bot.activeSessions == map[100 := session] && bot.bagTracker == map["fruit" := 100]
    requires |session| == 3
    modifies bot
    ensures bot.Valid()
    ensures bot.bags == old(bot.bags)
    ensures bot.activeSessions == map[100 := []] && bot.bagTracker == map["fruit" := 100]
  {
    var p1 := bot.OnReaction(1, 0, 100);
    assert p1.item == session[0] && bot.activeSessions == map[100 := session[1..]];
    var p2 := bot.OnReaction(2, 0, 100);
    assert p2.item == session[1] && bot.activeSessions == map[100 := session[2..]];
    var p3 := bot.OnReaction(3, 0, 100);
    assert p3.item == session[2] && bot.activeSessions == map[100 := []];
    var p4 := bot.OnReaction(4, 0, 100);
    assert p4 == EmptyPull("fruit");
    assert [p1.item, p2.item, p3.item] == session;
  }

  /** A drained session keeps its bag locked until `$end fruit`; then `$start fruit` succeeds again. */
  method EndAndRestart(bot: BagBot, draws: seq<nat>)
    requires bot.Valid()
    requires bot.bags == map["fruit" := ["apple", "banana", "cherry"]]
    requires bot.activeSessions == map[100 := []] && bot.bagTracker == map["fruit" := 100]
    requires DrawsFor(draws, 3)
    modifies bot
    ensures bot.Valid()
    ensures bot.bags == old(bot.bags)
    ensures bot.bagTracker == map["fruit" := 101] && bot.activeSessions.Keys == {101}
    ensures multiset(bot.activeSessions[101]) == multiset(["apple", "banana", "cherry"])
  {
    var deleted := bot.DeleteBag("fruit");
    assert deleted == Err(ActiveSession);
    var twice := bot.StartSession("fruit", 101, draws);
    assert twice == Err(AlreadyRunning);

    var ended := bot.EndSession("fruit");
    assert ended.Ok?;
    assert bot.activeSessions == map[] && bot.bagTracker == map[];
    var restarted := bot.StartSession("fruit", 101, draws);
    assert restarted == Ok(3);
  }
}
