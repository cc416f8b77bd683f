/** The plain record the viewer builds from the live game before handing it
    to the render loop (`update_game_state` in gui.py), and the map-type
    decision made from the game's city index (`set_map_type`). */
module Snapshots {
  import opened Values
  import opened Actions

  /** One track of a connection, as `game.route_lookup` returns it. */
  datatype Route = Route(colour: Colour, length: int, claimedBy: Option<string>)

  /** A claimed connection of a player: two cities and the colour used,
      which the game gives either as a colour or as a colour name. */
  datatype Claim = Claim(city1: string, city2: string, colour: Item)

  /** A destination ticket; the viewer only copies and counts them. */
  datatype Ticket = Ticket(city1: string, city2: string, points: int)

  datatype Player = Player(
    name: string, turn: int, points: int, remainingTrains: int,
    trainCards: map<Colour, int>, destinations: seq<Ticket>, claimedConnections: seq<Claim>)

  /** What the viewer reads from the game object.  `routes` is `game.routes`
      in dictionary order: each city with its neighbours in order.  Missing
      optional attributes (`city_to_idx`, `player_agents`, `agent_options`)
      are None. */
  datatype Game = Game(
    players: seq<Player>,
    currentPlayerIdx: int,
    routes: seq<(string, seq<string>)>,
    routeLookup: (string, string) -> seq<Route>,
    cityToIdx: Option<set<string>>,
    playerAgents: Option<map<string, int>>,
    agentOptions: Option<map<int, string>>)

  datatype PlayerRecord = PlayerRecord(
    name: string, agentType: string, points: int, remainingTrains: int,
    trainCards: map<Colour, int>, destinations: seq<Ticket>, claimedConnections: seq<Claim>)

  /** The record put on the update queue. */
  datatype Snapshot = Snapshot(
    players: seq<PlayerRecord>,
    currentPlayerIdx: int,
    connections: seq<(string, string)>,
    turn: int,
    routeInfo: map<string, seq<Route>>,
    action: Option<Message>)

  // ---------------------------------------------------------------------
  // Map type

  datatype MapKind = Europe | Usa

  const EuropeProbes: seq<string> := ["London", "Paris", "Berlin", "Roma"]
  const UsaProbes: seq<string> := ["Seattle", "New York", "Chicago", "Los Angeles"]

  /** `sum(1 for city in probes if city in cities)`. */
  function CountPresent(probes: seq<string>, cities: set<string>): (n: nat)
    ensures n <= |probes|
  {
    if probes == [] then 0
    else CountPresent(probes[..|probes| - 1], cities) + (if probes[|probes| - 1] in cities then 1 else 0)
  }

  /** The probe count is the number of distinct probe cities the game knows. */
  lemma {:induction false} CountPresentIsCardinality(probes: seq<string>, cities: set<string>)
    requires forall i, j :: 0 <= i < j < |probes| ==> probes[i] != probes[j]
    ensures CountPresent(probes, cities) == |set x | x in probes && x in cities|
  {
    if probes != [] {
      var init, last := probes[..|probes| - 1], probes[|probes| - 1];
      assert forall i :: 0 <= i < |init| ==> init[i] == probes[i];
      CountPresentIsCardinality(init, cities);
      PresentSnoc(init, last, cities);
      assert probes == init + [last];
    }
  }

  /** One more probe city, not probed before, adds itself to the cities
      found exactly when the game knows it. */
  lemma PresentSnoc(init: seq<string>, last: string, cities: set<string>)
    requires last !in init
    ensures |set x | x in init + [last] && x in cities| ==
            |set x | x in init && x in cities| + (if last in cities then 1 else 0)
  {
    var before := set x | x in init && x in cities;
    var after := set x | x in init + [last] && x in cities;
    if last in cities {
      assert after == before + {last};
    } else {
      assert after == before;
    }
  }

  /** A positive count has a probe city that is present; a count below the
      number of probes has one that is missing. */
  lemma {:induction false} CountPresentWitness(probes: seq<string>, cities: set<string>)
    ensures CountPresent(probes, cities) > 0 ==> exists c :: c in probes && c in cities
    ensures CountPresent(probes, cities) < |probes| ==> exists c :: c in probes && c !in cities
  {
    if probes != [] {
      var init, last := probes[..|probes| - 1], probes[|probes| - 1];
      CountPresentWitness(init, cities);
      assert forall c :: c in init ==> c in probes;
    }
  }

  /** `set_map_type`: Europe only when the game has a city index and strictly
      more European than American probe cities appear in it. */
  function MapTypeFor(cityToIdx: Option<set<string>>): (kind: MapKind)
    ensures cityToIdx.None? ==> kind == Usa
    ensures kind == Europe ==>
      && cityToIdx.Some?
      && (exists c :: c in EuropeProbes && c in cityToIdx.value)
      && (exists c :: c in UsaProbes && c !in cityToIdx.value)
  {
    if cityToIdx.None? then Usa
    else
      CountPresentWitness(EuropeProbes, cityToIdx.value);
      CountPresentWitness(UsaProbes, cityToIdx.value);
      if CountPresent(EuropeProbes, cityToIdx.value) > CountPresent(UsaProbes, cityToIdx.value) then Europe else Usa
  }

  lemma MapTypeDecision(cityToIdx: Option<set<string>>)
    ensures MapTypeFor(cityToIdx) == Europe <==>
      cityToIdx.Some? &&
      |set x | x in EuropeProbes && x in cityToIdx.value| > |set x | x in UsaProbes && x in cityToIdx.value|
    ensures cityToIdx.None? ==> MapTypeFor(cityToIdx) == Usa
  {
    if cityToIdx.Some? {
      CountPresentIsCardinality(EuropeProbes, cityToIdx.value);
      CountPresentIsCardinality(UsaProbes, cityToIdx.value);
    }
  }

  /** Equal counts (a tie) fall back to the USA map. */
  lemma {:induction false} TieGivesUsa(cities: set<string>)
    requires |set x | x in EuropeProbes && x in cities| == |set x | x in UsaProbes && x in cities|
    ensures MapTypeFor(Some(cities)) == Usa
  {
    MapTypeDecision(Some(cities));
  }

  // ---------------------------------------------------------------------
  // Players

  const AgentNames: map<int, string> := map[
    1 := "Human Player",
    2 := "MCTS Tuned AI",
    3 := "MCTS Rollouts AI",
    4 := "MCTS Selection AI",
    5 := "MCTS Untuned AI",
    6 := "Destination Heuristic AI",
    7 := "Longest Route Heuristic AI",
    8 := "Best Move Heuristic AI",
    9 := "Random AI"]

  /** `agent_types.get(agent_id, f"Agent {agent_id}")`: never empty. */
  function DefaultAgentName(id: int): (r: string)
    ensures |r| > 0
    ensures id in AgentNames ==> r == AgentNames[id]
    ensures id !in AgentNames ==> r == "Agent " + IntToString(id)
  {
    if id in AgentNames then AgentNames[id] else "Agent " + IntToString(id)
  }

  /** The agent-type label of a player: the game's own option name when it
      has one, the fixed table otherwise, and "" for a player without an
      agent entry. */
  function AgentType(game: Game, name: string): (agent: string)
    ensures agent != "" ==> game.playerAgents.Some? && name in game.playerAgents.value
    ensures game.playerAgents.Some? && name in game.playerAgents.value ==>
      var id := game.playerAgents.value[name];
      if game.agentOptions.Some? && id in game.agentOptions.value then agent == game.agentOptions.value[id]
      else agent == DefaultAgentName(id)
  {
    if game.playerAgents.Some? && name in game.playerAgents.value then
      var id := game.playerAgents.value[name];
      if game.agentOptions.Some? && id in game.agentOptions.value then game.agentOptions.value[id]
      else DefaultAgentName(id)
    else ""
  }

  /** A player has an empty label exactly when it has no agent entry (given
      that the game's own option names are not empty). */
  lemma AgentTypeEmptyIff(game: Game, name: string)
    requires game.agentOptions.Some? ==> forall id | id in game.agentOptions.value :: game.agentOptions.value[id] != ""
    ensures AgentType(game, name) == "" <==> game.playerAgents.None? || name !in game.playerAgents.value
  {
  }

  function RecordOf(game: Game, p: Player): PlayerRecord
  {
    PlayerRecord(p.name, AgentType(game, p.name), p.points, p.remainingTrains,
                 p.trainCards, p.destinations, p.claimedConnections)
  }

  /** `max(player.turn for player in game.players)`. */
  function MaxTurn(players: seq<Player>): (t: int)
    requires players != []
    ensures forall i :: 0 <= i < |players| ==> players[i].turn <= t
    ensures exists i :: 0 <= i < |players| && players[i].turn == t
  {
    if |players| == 1 then players[0].turn
    else
      var rest := MaxTurn(players[..|players| - 1]);
      var last := players[|players| - 1].turn;
      if last > rest then last else rest
  }

  // ---------------------------------------------------------------------
  // Connections and route information

  /** The key of a connection in `route_info`: `f"{city1}-{city2}"`. */
  function RouteInfoKey(c: (string, string)): string
  {
    c.0 + "-" + c.1
  }

  /** The connections contributed by one city: its neighbours that sort
      after it, in neighbour order. */
  function ConnectionsFrom(city: string, neighbours: seq<string>): seq<(string, string)>
  {
    if neighbours == [] then []
    else
      var last := neighbours[|neighbours| - 1];
      ConnectionsFrom(city, neighbours[..|neighbours| - 1]) + (if StrLess(city, last) then [(city, last)] else [])
  }

  /** The snapshot's connection list, in the order the source's two loops
      visit `game.routes`. */
  function ConnectionsOf(routes: seq<(string, seq<string>)>): seq<(string, string)>
  {
    if routes == [] then []
    else
      var last := routes[|routes| - 1];
      ConnectionsOf(routes[..|routes| - 1]) + ConnectionsFrom(last.0, last.1)
  }

  /** `route_info` after storing each connection's routes under its key, one
      connection after the other (a later equal key overwrites). */
  function RouteInfoOf(conns: seq<(string, string)>, lookup: (string, string) -> seq<Route>): map<string, seq<Route>>
  {
    if conns == [] then map[]
    else
      var last := conns[|conns| - 1];
      RouteInfoOf(conns[..|conns| - 1], lookup)[RouteInfoKey(last) := lookup(last.0, last.1)]
  }

  lemma {:induction false} ConnectionsFromMembers(city: string, neighbours: seq<string>, c: (string, string))
    ensures c in ConnectionsFrom(city, neighbours) <==> c.0 == city && c.1 in neighbours && StrLess(city, c.1)
  {
    if neighbours != [] {
      ConnectionsFromMembers(city, neighbours[..|neighbours| - 1], c);
      assert neighbours == neighbours[..|neighbours| - 1] + [neighbours[|neighbours| - 1]];
    }
  }

  /** A pair is a connection of the snapshot exactly when the game lists the
      second city as a neighbour of the first and the first sorts before the
      second: every connection (c1, c2) has c1 < c2, and none is lost. */
  lemma {:induction false} ConnectionsMembers(routes: seq<(string, seq<string>)>, c: (string, string))
    ensures c in ConnectionsOf(routes) <==>
      StrLess(c.0, c.1) && exists k :: 0 <= k < |routes| && routes[k].0 == c.0 && c.1 in routes[k].1
  {
    if routes != [] {
      var init, last := routes[..|routes| - 1], routes[|routes| - 1];
      ConnectionsMembers(init, c);
      ConnectionsFromMembers(last.0, last.1, c);
      if c in ConnectionsOf(routes) {
        if c !in ConnectionsOf(init) {
          assert routes[|routes| - 1].0 == c.0 && c.1 in routes[|routes| - 1].1;
        }
      } else if StrLess(c.0, c.1) {
        forall k | 0 <= k < |routes| ensures !(routes[k].0 == c.0 && c.1 in routes[k].1) {
          if k < |routes| - 1 {
            assert routes[k] == init[k];
          }
        }
      }
    }
  }

  /** No undirected connection appears twice: the pair and its reverse are
      never both present, and each pair appears once when the game's city
      keys and neighbour lists have no repeats (as a dictionary's keys). */
  lemma {:induction false} ConnectionsNoDuplicates(routes: seq<(string, seq<string>)>)
    requires forall i, j :: 0 <= i < j < |routes| ==> routes[i].0 != routes[j].0
    requires forall k :: 0 <= k < |routes| ==> NoRepeats(routes[k].1)
    ensures NoRepeats(ConnectionsOf(routes))
    ensures forall c :: c in ConnectionsOf(routes) ==> (c.1, c.0) !in ConnectionsOf(routes)
  {
    if routes != [] {
      var init, last := routes[..|routes| - 1], routes[|routes| - 1];
      ConnectionsNoDuplicates(init);
      ConnectionsFromNoDuplicates(last.0, last.1);
      var a, b := ConnectionsOf(init), ConnectionsFrom(last.0, last.1);
      forall c | c in b ensures c !in a {
        ConnectionsFromMembers(last.0, last.1, c);
        ConnectionsMembers(init, c);
      }
      NoRepeatsAppend(a, b);
    }
    forall c | c in ConnectionsOf(routes) ensures (c.1, c.0) !in ConnectionsOf(routes) {
      ConnectionsMembers(routes, c);
      ConnectionsMembers(routes, (c.1, c.0));
      StrLessAsymmetric(c.0, c.1);
    }
  }

  lemma {:induction false} ConnectionsFromNoDuplicates(city: string, neighbours: seq<string>)
    requires NoRepeats(neighbours)
    ensures NoRepeats(ConnectionsFrom(city, neighbours))
  {
    if neighbours != [] {
      var init, last := neighbours[..|neighbours| - 1], neighbours[|neighbours| - 1];
      assert NoRepeats(init) by {
        forall i, j | 0 <= i < j < |init| ensures init[i] != init[j] {
          assert init[i] == neighbours[i] && init[j] == neighbours[j];
        }
      }
      ConnectionsFromNoDuplicates(city, init);
      if StrLess(city, last) {
        ConnectionsFromMembers(city, init, (city, last));
        NoRepeatsAppend(ConnectionsFrom(city, init), [(city, last)]);
      }
    }
  }

  predicate NoRepeats<T(==)>(s: seq<T>)
  {
    forall i, j :: 0 <= i < j < |s| ==> s[i] != s[j]
  }

  lemma NoRepeatsAppend<T>(a: seq<T>, b: seq<T>)
    requires NoRepeats(a) && NoRepeats(b)
    requires forall x :: x in b ==> x !in a
    ensures NoRepeats(a + b)
  {
    forall i, j | 0 <= i < j < |a + b| ensures (a + b)[i] != (a + b)[j] {
      if i < |a| && j >= |a| {
        assert (a + b)[i] == a[i] && (a + b)[j] == b[j - |a|] && b[j - |a|] in b;
      } else if i >= |a| {
        assert (a + b)[i] == b[i - |a|] && (a + b)[j] == b[j - |a|];
      } else {
        assert (a + b)[i] == a[i] && (a + b)[j] == a[j];
      }
    }
  }

  /** `route_info` has exactly one key per connection, `"c1-c2"`. */
  lemma {:induction false} RouteInfoKeys(conns: seq<(string, string)>, lookup: (string, string) -> seq<Route>)
    ensures RouteInfoOf(conns, lookup).Keys == set c | c in conns :: RouteInfoKey(c)
  {
    if conns != [] {
      var init := conns[..|conns| - 1];
      RouteInfoKeys(init, lookup);
      assert conns == init + [conns[|conns| - 1]];
    }
  }

  /** Every key maps to the routes of the last connection written under it. */
  lemma {:induction false} RouteInfoLastWriteWins(conns: seq<(string, string)>, lookup: (string, string) -> seq<Route>, k: nat)
    requires k < |conns|
    requires forall j :: k < j < |conns| ==> RouteInfoKey(conns[j]) != RouteInfoKey(conns[k])
    ensures RouteInfoKey(conns[k]) in RouteInfoOf(conns, lookup)
    ensures RouteInfoOf(conns, lookup)[RouteInfoKey(conns[k])] == lookup(conns[k].0, conns[k].1)
  {
    if k < |conns| - 1 {
      var init := conns[..|conns| - 1];
      RouteInfoLastWriteWins(init, lookup, k);
    }
  }

  /** Joining two names with "-" is injective when neither name contains
      "-", so then no two connections share a `route_info` key. */
  lemma {:induction false} RouteInfoKeyInjective(c: (string, string), d: (string, string))
    requires '-' !in c.0 && '-' !in c.1 && '-' !in d.0 && '-' !in d.1
    requires RouteInfoKey(c) == RouteInfoKey(d)
    ensures c == d
  {
    var s := RouteInfoKey(c);
    FirstHyphenAfterName(c.0, c.1);
    FirstHyphenAfterName(d.0, d.1);
    assert c.0 == s[..|c.0|] == d.0;
    assert c.1 == s[|c.0| + 1..] == d.1;
  }

  /** Position of the first "-" in a string (its length if there is none). */
  function FirstHyphen(s: string): (n: nat)
    ensures n <= |s|
  {
    if s == [] || s[0] == '-' then 0 else 1 + FirstHyphen(s[1..])
  }

  lemma {:induction false} FirstHyphenAfterName(name: string, rest: string)
    requires '-' !in name
    ensures FirstHyphen(name + "-" + rest) == |name|
  {
    if name != [] {
      assert (name + "-" + rest)[1..] == name[1..] + "-" + rest;
      FirstHyphenAfterName(name[1..], rest);
    }
  }

  /** With hyphen-free city names, every connection's entry holds the routes
      `route_lookup` gives for it. */
  lemma RouteInfoCopiesLookup(conns: seq<(string, string)>, lookup: (string, string) -> seq<Route>, k: nat)
    requires k < |conns|
    requires forall c :: c in conns ==> '-' !in c.0 && '-' !in c.1
    requires NoRepeats(conns)
    ensures RouteInfoKey(conns[k]) in RouteInfoOf(conns, lookup)
    ensures RouteInfoOf(conns, lookup)[RouteInfoKey(conns[k])] == lookup(conns[k].0, conns[k].1)
  {
    forall j | k < j < |conns| ensures RouteInfoKey(conns[j]) != RouteInfoKey(conns[k]) {
      if RouteInfoKey(conns[j]) == RouteInfoKey(conns[k]) {
        RouteInfoKeyInjective(conns[j], conns[k]);
      }
    }
    RouteInfoLastWriteWins(conns, lookup, k);
  }

  // ---------------------------------------------------------------------
  // The snapshot builder

  /** The snapshot `update_game_state` puts on the queue, or None when
      building it raises (no players: `max` of an empty sequence). */
  function SnapshotOf(game: Game, action: Action): (r: Option<Snapshot>)
    ensures r.None? <==> game.players == []
    ensures r.Some? ==>
      && |r.value.players| == |game.players|
      && r.value.currentPlayerIdx == game.currentPlayerIdx
      && (r.value.action.Some? <==> action != [])
  {
    if game.players == [] then None
    else
      var conns := ConnectionsOf(game.routes);
      Some(Snapshot(
        seq(|game.players|, i requires 0 <= i < |game.players| => RecordOf(game, game.players[i])),
        game.currentPlayerIdx,
        conns,
        MaxTurn(game.players),
        RouteInfoOf(conns, game.routeLookup),
        if action == [] then None else Some(FormatAction(action))))
  }

  /** What a snapshot promises: connections only in increasing name order
      and all of them, one `route_info` key per connection, players copied in
      game order, the turn is the largest player turn, and an action entry
      exactly when an action was given. */
  lemma SnapshotProperties(game: Game, action: Action)
    requires game.players != []
    ensures var s := SnapshotOf(game, action).value;
      && (forall c :: c in s.connections <==>
            StrLess(c.0, c.1) && exists k :: 0 <= k < |game.routes| && game.routes[k].0 == c.0 && c.1 in game.routes[k].1)
      && s.routeInfo.Keys == (set c | c in s.connections :: RouteInfoKey(c))
      && |s.players| == |game.players|
      && (forall i :: 0 <= i < |s.players| ==> s.players[i].name == game.players[i].name)
      && (forall i :: 0 <= i < |game.players| ==> game.players[i].turn <= s.turn)
      && (exists i :: 0 <= i < |game.players| && game.players[i].turn == s.turn)
      && (s.action.Some? <==> action != [])
  {
    var s := SnapshotOf(game, action).value;
    forall c ensures c in s.connections <==>
        StrLess(c.0, c.1) && exists k :: 0 <= k < |game.routes| && game.routes[k].0 == c.0 && c.1 in game.routes[k].1 {
      ConnectionsMembers(game.routes, c);
    }
    RouteInfoKeys(s.connections, game.routeLookup);
  }

  /** The two loops over `game.routes` in `update_game_state`: each city's
      neighbours that sort after it become connections, and their routes are
      stored under the connection's key. */
  method CollectConnections(routes: seq<(string, seq<string>)>, lookup: (string, string) -> seq<Route>)
    returns (connections: seq<(string, string)>, routeInfo: map<string, seq<Route>>)
    ensures connections == ConnectionsOf(routes)
    ensures routeInfo == RouteInfoOf(connections, lookup)
  {
    connections := [];
    routeInfo := map[];
    var i := 0;
    while i < |routes|
      invariant 0 <= i <= |routes|
      invariant connections == ConnectionsOf(routes[..i])
      invariant routeInfo == RouteInfoOf(connections, lookup)
    {
      assert routes[..i + 1][..i] == routes[..i];
      connections, routeInfo := CollectFrom(routes[i].0, routes[i].1, connections, routeInfo, lookup);
      i := i + 1;
    }
    assert routes[..i] == routes;
  }

  /** The inner loop: the connections from one city, with their routes. */
  method CollectFrom(city1: string, neighbours: seq<string>, connections0: seq<(string, string)>,
                     routeInfo0: map<string, seq<Route>>, lookup: (string, string) -> seq<Route>)
    returns (connections: seq<(string, string)>, routeInfo: map<string, seq<Route>>)
    requires routeInfo0 == RouteInfoOf(connections0, lookup)
    ensures connections == connections0 + ConnectionsFrom(city1, neighbours)
    ensures routeInfo == RouteInfoOf(connections, lookup)
  {
    connections, routeInfo := connections0, routeInfo0;
    var j := 0;
    while j < |neighbours|
      invariant 0 <= j <= |neighbours|
      invariant connections == connections0 + ConnectionsFrom(city1, neighbours[..j])
      invariant routeInfo == RouteInfoOf(connections, lookup)
    {
      var city2 := neighbours[j];
      if StrLess(city1, city2) {
        RouteInfoStep(connections, (city1, city2), lookup);
        connections := connections + [(city1, city2)];
        routeInfo := routeInfo[RouteInfoKey((city1, city2)) := lookup(city1, city2)];
      }
      assert neighbours[..j + 1][..j] == neighbours[..j];
      j := j + 1;
    }
    assert neighbours[..j] == neighbours;
  }

  /** Storing one more connection's routes. */
  lemma RouteInfoStep(conns: seq<(string, string)>, c: (string, string), lookup: (string, string) -> seq<Route>)
    ensures RouteInfoOf(conns + [c], lookup) == RouteInfoOf(conns, lookup)[RouteInfoKey(c) := lookup(c.0, c.1)]
  {
    assert (conns + [c])[..|conns|] == conns;
  }

  /** The loop over `game.players` in `update_game_state`. */
  method CopyPlayers(game: Game) returns (players: seq<PlayerRecord>)
    ensures |players| == |game.players|
    ensures forall n :: 0 <= n < |players| ==> players[n] == RecordOf(game, game.players[n])
  {
    players := [];
    var k := 0;
    while k < |game.players|
      invariant 0 <= k <= |game.players|
      invariant |players| == k
      invariant forall n :: 0 <= n < k ==> players[n] == RecordOf(game, game.players[n])
    {
      players := players + [RecordOf(game, game.players[k])];
      k := k + 1;
    }
  }

  /** The snapshot of `update_game_state`, built with the source's loops.
      An empty player list makes `max` raise, which the source catches: no
      snapshot. */
  method BuildSnapshot(game: Game, action: Action) returns (r: Option<Snapshot>)
    ensures r == SnapshotOf(game, action)
    ensures r.None? <==> game.players == []
  {
    if game.players == [] {
      return None;
    }
    var turn := MaxTurn(game.players);
    var message := if action == [] then None else Some(FormatAction(action));
    var connections, routeInfo := CollectConnections(game.routes, game.routeLookup);
    var players := CopyPlayers(game);
    assert players == seq(|game.players|, i requires 0 <= i < |game.players| => RecordOf(game, game.players[i]));
    r := Some(Snapshot(players, game.currentPlayerIdx, connections, turn, routeInfo, message));
  }
}
